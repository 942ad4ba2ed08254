/** `MemeAPIDecoder` (Memeiverse/MemeFeedService.swift): turns a meme-api.com response body into
    records. The JSON text and `JSONDecoder` are not modelled: a body is described by what
    decoding finds in it (whether the top level is an object, what its `count` and `memes`
    keys hold, and whether the object itself decodes as one item), and every decoding failure
    carries its `localizedDescription`. */
module MemeAPIDecoder {
  import opened Basics
  import opened MemeModel

  /** Upvotes above this mark a community post as trending. */
  const TrendingThreshold := 5000

  /** One meme-api.com item as decoded (`SingleResponse`). */
  datatype SingleResponse = SingleResponse(
    postLink: string, subreddit: string, title: string, url: string, author: string, ups: int,
    preview: Option<seq<string>>, nsfw: Option<bool>, spoiler: Option<bool>)

  /** A JSON value that should decode as a `SingleResponse`: it does, or it fails
      (a required key missing, a value of the wrong type). */
  datatype ItemJson = ItemDecodes(item: SingleResponse) | ItemFails(reason: string)

  /** What the `count` key of an object holds. */
  datatype CountJson = CountAbsent | CountNull | CountInt(n: int) | CountNotInt(reason: string)

  /** What the `memes` key of an object holds. */
  datatype MemesJson = MemesAbsent | MemesNull | MemesArray(items: seq<ItemJson>) | MemesNotArray(reason: string)

  /** A response body: not a JSON object at all, or an object described by its two keys
      and by how the whole object decodes as a single item. */
  datatype Body =
    | NotAnObject(reason: string)
    | JsonObject(count: CountJson, memes: MemesJson, asSingle: ItemJson)

  /** `CollectionResponse` after decoding. */
  datatype CollectionResponse = CollectionResponse(count: Option<int>, memes: Option<seq<SingleResponse>>)

  /** `SingleResponse.toMeme()`: normalises one item into a `Meme`. */
  function ToMeme(s: SingleResponse, foundation: Foundation): (m: Meme)
    ensures m.id == s.postLink && m.title == s.title && m.tags == [s.subreddit]
    ensures m.upvotes == Some(s.ups) && m.source == Reddit && m.timestamp == None
    ensures m.isTrending <==> s.ups > TrendingThreshold
    ensures m.author == Some(s.author) && m.caption == Some(foundation.capitalized(s.subreddit))
    ensures m.imageURL == foundation.parseUrl(s.url) && m.postURL == foundation.parseUrl(s.postLink)
  {
    Meme(
      id := s.postLink,
      title := s.title,
      caption := Some(foundation.capitalized(s.subreddit)),
      imageURL := foundation.parseUrl(s.url),
      postURL := foundation.parseUrl(s.postLink),
      author := Some(s.author),
      tags := [s.subreddit],
      upvotes := Some(s.ups),
      source := Reddit,
      isTrending := s.ups > TrendingThreshold,
      timestamp := None,
      lore := None)
  }

  /** `[SingleResponse]` decoding: elements are decoded in order and the first failure
      fails the whole array. */
  function DecodeItems(items: seq<ItemJson>): (r: Result<seq<SingleResponse>, string>)
    ensures r.Ok? <==> forall i :: 0 <= i < |items| ==> items[i].ItemDecodes?
    ensures r.Ok? ==> |r.value| == |items| && forall i :: 0 <= i < |items| ==> r.value[i] == items[i].item
    ensures r.Err? ==> exists i :: 0 <= i < |items| && items[i] == ItemFails(r.error) &&
                                   forall j :: 0 <= j < i ==> items[j].ItemDecodes?
    decreases |items|
  {
    if items == [] then Ok([])
    else match items[0]
      case ItemFails(reason) => Err(reason)
      case ItemDecodes(item) =>
        match DecodeItems(items[1..])
        case Err(reason) =>
          assert forall i :: 1 <= i < |items| ==> items[i] == items[1..][i - 1];
          Err(reason)
        case Ok(rest) => Ok([item] + rest)
  }

  /** `decodeIfPresent(Int.self, forKey: .count)`. */
  function DecodeCountIfPresent(count: CountJson): Result<Option<int>, string>
  {
    match count
    case CountAbsent => Ok(None)
    case CountNull => Ok(None)
    case CountInt(n) => Ok(Some(n))
    case CountNotInt(reason) => Err(reason)
  }

  /** `decodeIfPresent([SingleResponse].self, forKey: .memes)`. */
  function DecodeMemesIfPresent(memes: MemesJson): Result<Option<seq<SingleResponse>>, string>
  {
    match memes
    case MemesAbsent => Ok(None)
    case MemesNull => Ok(None)
    case MemesNotArray(reason) => Err(reason)
    case MemesArray(items) =>
      match DecodeItems(items)
      case Err(reason) => Err(reason)
      case Ok(decoded) => Ok(Some(decoded))
  }

  /** `CollectionResponse.init(from:)`: a wrapper when the object has a `memes` key,
      otherwise the object is read as one item and wrapped as a list of one with count 1. */
  function DecodeCollection(body: Body): (r: Result<CollectionResponse, string>)
    ensures body.NotAnObject? ==> r == Err(body.reason)
    ensures body.JsonObject? && body.memes.MemesAbsent? ==>
      (r.Ok? <==> body.asSingle.ItemDecodes?) &&
      (r.Ok? ==> r.value.count == Some(1) && r.value.memes == Some([body.asSingle.item])) &&
      (r.Err? ==> r.error == body.asSingle.reason)
    ensures body.JsonObject? && !body.memes.MemesAbsent? ==>
      (body.count.CountNotInt? ==> r == Err(body.count.reason)) &&
      (!body.count.CountNotInt? && body.memes.MemesNotArray? ==> r == Err(body.memes.reason)) &&
      (!body.count.CountNotInt? && body.memes.MemesArray? ==>
         match DecodeItems(body.memes.items)
         case Ok(items) => r.Ok? && r.value.memes == Some(items)
         case Err(reason) => r == Err(reason)) &&
      (!body.count.CountNotInt? && body.memes.MemesNull? ==> r.Ok? && r.value.memes == None) &&
      (r.Ok? ==> (r.value.count.Some? <==> body.count.CountInt?) &&
                 (body.count.CountInt? ==> r.value.count.value == body.count.n) &&
                 (r.value.memes.Some? <==> body.memes.MemesArray?) &&
                 (body.memes.MemesArray? ==> DecodeItems(body.memes.items) == Ok(r.value.memes.value)))
  {
    match body
    case NotAnObject(reason) => Err(reason)
    case JsonObject(count, memes, asSingle) =>
      if !memes.MemesAbsent? then
        match DecodeCountIfPresent(count)
        case Err(reason) => Err(reason)
        case Ok(c) =>
          match DecodeMemesIfPresent(memes)
          case Err(reason) => Err(reason)
          case Ok(ms) => Ok(CollectionResponse(c, ms))
      else
        match asSingle
        case ItemFails(reason) => Err(reason)
        case ItemDecodes(single) => Ok(CollectionResponse(Some(1), Some([single])))
  }

  function ToMemes(items: seq<SingleResponse>, foundation: Foundation): (r: seq<Meme>)
    ensures |r| == |items| && forall i :: 0 <= i < |items| ==> r[i] == ToMeme(items[i], foundation)
  {
    seq(|items|, i requires 0 <= i < |items| => ToMeme(items[i], foundation))
  }

  /** `MemeAPIDecoder.decode(data:)`: the records of the decoded response, `[]` when it has no list. */
  function Decode(body: Body, foundation: Foundation): (r: Result<seq<Meme>, string>)
    ensures r.Ok? ==> forall m :: m in r.value ==>
      m.source == Reddit && m.upvotes.Some? && m.timestamp == None &&
      (m.isTrending <==> m.upvotes.value > TrendingThreshold)
  {
    match DecodeCollection(body)
    case Err(reason) => Err(reason)
    case Ok(response) =>
      match response.memes
      case None => Ok([])
      case Some(items) => Ok(ToMemes(items, foundation))
  }

  /** An object without a `memes` key is one item: decoding gives that item alone, with count 1,
      or fails exactly when the item does. */
  lemma SingleObjectShape(count: CountJson, asSingle: ItemJson, foundation: Foundation)
    ensures var body := JsonObject(count, MemesAbsent, asSingle);
      match asSingle
      case ItemDecodes(s) =>
        DecodeCollection(body) == Ok(CollectionResponse(Some(1), Some([s]))) &&
        Decode(body, foundation) == Ok([ToMeme(s, foundation)])
      case ItemFails(reason) => Decode(body, foundation) == Err(reason)
  {
    if asSingle.ItemDecodes? {
      var s := asSingle.item;
      assert ToMemes([s], foundation) == [ToMeme(s, foundation)];
    }
  }

  /** An object with a `memes` array whose count decodes yields one record per item, in order,
      when every item decodes, and fails with the first failing item's error otherwise.
      How the object would decode as a single item plays no part. */
  lemma CollectionShape(count: CountJson, items: seq<ItemJson>, asSingle: ItemJson, foundation: Foundation)
    requires !count.CountNotInt?
    ensures var r := Decode(JsonObject(count, MemesArray(items), asSingle), foundation);
      (r.Ok? <==> forall i :: 0 <= i < |items| ==> items[i].ItemDecodes?) &&
      (r.Ok? ==> |r.value| == |items| &&
                 forall i :: 0 <= i < |items| ==> r.value[i] == ToMeme(items[i].item, foundation)) &&
      (r.Err? ==> exists i :: 0 <= i < |items| && items[i] == ItemFails(r.error) &&
                              forall j :: 0 <= j < i ==> items[j].ItemDecodes?)
  {
  }

  /** A `memes` key holding null decodes to an empty list, not to an error. */
  lemma NullMemesGiveEmptyList(count: CountJson, asSingle: ItemJson, foundation: Foundation)
    requires !count.CountNotInt?
    ensures Decode(JsonObject(count, MemesNull, asSingle), foundation) == Ok([])
  {
  }

  /** A malformed `count` fails a wrapper even when its `memes` would decode. */
  lemma MalformedCountFailsWrapper(reason: string, memes: MemesJson, asSingle: ItemJson, foundation: Foundation)
    requires !memes.MemesAbsent?
    ensures Decode(JsonObject(CountNotInt(reason), memes, asSingle), foundation) == Err(reason)
  {
  }
}
