/** `CommunityMemeAPI` (Memeiverse/MemeFeedService.swift): one GET to meme-api.com and the
    classification of its outcome into a list of records or a `MemeFeedError`. */
module CommunityMemeAPI {
  import opened Basics
  import opened Decimal
  import opened MemeModel
  import opened FeedErrors
  import opened MemeAPIDecoder

  /** What `URLSession.data(from:)` produced: a response that is not an HTTP response,
      an HTTP response with its status code and body, or a thrown transport error. */
  datatype Transport =
    | NotHttp
    | Http(statusCode: int, body: Body)
    | TransportError(description: string)

  /** The network, as the outcome of a GET on each URL. */
  type Network = string -> Transport

  /** What the `do` block can throw: one of the feed's own errors, or any other Swift error
      (a transport or decoding error), known by its `localizedDescription`. */
  datatype Thrown = FeedError(error: MemeFeedError) | OtherError(description: string)

  const BaseUrl := "https://meme-api.com/gimme/"
  const MaxCount := 50

  /** The number of memes asked for: `max(1, min(limit, 50))`. */
  function RequestCount(limit: int): (n: int)
    ensures 1 <= n <= MaxCount
    ensures 1 <= limit <= MaxCount ==> n == limit
    ensures limit < 1 ==> n == 1
    ensures limit > MaxCount ==> n == MaxCount
  {
    ClampLimit(limit, MaxCount)
  }

  /** The URL fetched for `limit`. */
  function RequestUrl(limit: int): (url: string)
    ensures |BaseUrl| < |url| && url[..|BaseUrl|] == BaseUrl
    ensures ParseInt(url[|BaseUrl|..]) == Some(RequestCount(limit))
  {
    IntToStringRoundTrip(RequestCount(limit));
    var url := BaseUrl + IntToString(RequestCount(limit));
    assert url[|BaseUrl|..] == IntToString(RequestCount(limit));
    url
  }

  /** The body of the `do` block: the response checks, then decoding. */
  function Attempt(response: Transport, foundation: Foundation): (r: Result<seq<Meme>, Thrown>)
    ensures r.Ok? <==> response.Http? && 200 <= response.statusCode <= 299 && Decode(response.body, foundation).Ok?
    ensures r.Ok? ==> r.value == Decode(response.body, foundation).value
    ensures r == Err(FeedError(InvalidResponse)) <==> response.NotHttp?
    ensures r.Err? && r.error.FeedError? ==>
      (response.NotHttp? && r.error.error == InvalidResponse) ||
      (response.Http? && !(200 <= response.statusCode <= 299) && r.error.error == BadStatusCode(response.statusCode))
    ensures response.TransportError? ==> r == Err(OtherError(response.description))
    ensures response.Http? && !(200 <= response.statusCode <= 299) ==> r == Err(FeedError(BadStatusCode(response.statusCode)))
    ensures response.Http? && 200 <= response.statusCode <= 299 && Decode(response.body, foundation).Err? ==>
      r == Err(OtherError(Decode(response.body, foundation).error))
  {
    match response
    case TransportError(description) => Err(OtherError(description))
    case NotHttp => Err(FeedError(InvalidResponse))
    case Http(status, body) =>
      if !(200 <= status <= 299) then Err(FeedError(BadStatusCode(status)))
      else
        match Decode(body, foundation)
        case Err(description) => Err(OtherError(description))
        case Ok(memes) => Ok(memes)
  }

  /** `fetchMemes(limit:)`: the `catch` rethrows the feed's own errors unchanged and wraps
      every other error as `communityFailed`. */
  function FetchMemes(limit: int, network: Network, foundation: Foundation): (r: Result<seq<Meme>, MemeFeedError>)
    ensures var response := network(RequestUrl(limit));
      (response.NotHttp? ==> r == Err(InvalidResponse)) &&
      (response.Http? && !(200 <= response.statusCode <= 299) ==> r == Err(BadStatusCode(response.statusCode))) &&
      (response.Http? && 200 <= response.statusCode <= 299 ==>
        match Decode(response.body, foundation)
        case Ok(memes) => r == Ok(memes)
        case Err(description) => r == Err(CommunityFailed(description))) &&
      (response.TransportError? ==> r == Err(CommunityFailed(response.description)))
    ensures r.Err? ==> !r.error.Decoding? && !r.error.Unknown?
    ensures r.Ok? ==> forall m :: m in r.value ==> m.source == Reddit
  {
    match Attempt(network(RequestUrl(limit)), foundation)
    case Ok(memes) => Ok(memes)
    case Err(FeedError(error)) => Err(error)
    case Err(OtherError(description)) => Err(CommunityFailed(description))
  }
}
