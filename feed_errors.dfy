/** `MemeFeedError` (Memeiverse/MemeFeedService.swift) and its user-facing `errorDescription`.
    A wrapped Swift `Error` is represented by its `localizedDescription`. */
module FeedErrors {
  import opened Basics
  import opened Decimal

  datatype MemeFeedError =
    | InvalidResponse
    | Decoding(cause: string)
    | CommunityFailed(message: string)
    | BadStatusCode(code: int)
    | Unknown(cause: string)

  const CommunityPrefix := "Community meme feed failed: "
  const StatusPrefix := "Service responded with status code "
  const DecodingPrefix := "Could not decode meme data: "

  /** `errorDescription`; it is never nil for this enumeration. */
  function ErrorDescription(e: MemeFeedError): (r: string)
    ensures e.BadStatusCode? ==> StatusCodeIn(r) == Some(e.code)
    ensures e.CommunityFailed? ==> MessageAfter(CommunityPrefix, r) == Some(e.message)
    ensures e.Decoding? ==> MessageAfter(DecodingPrefix, r) == Some(e.cause)
    ensures e.InvalidResponse? ==> |r| > 0 && StatusCodeIn(r) == None
  {
    match e
    case InvalidResponse => "The meme service returned an unexpected response."
    case Decoding(cause) => DecodingPrefix + cause
    case CommunityFailed(message) =>
      assert (CommunityPrefix + message)[..|CommunityPrefix|] == CommunityPrefix;
      CommunityPrefix + message
    case BadStatusCode(code) =>
      IntToStringRoundTrip(code);
      var r := StatusPrefix + IntToString(code) + ".";
      assert r[..|StatusPrefix|] == StatusPrefix;
      assert r[|StatusPrefix|..|r| - 1] == IntToString(code);
      r
    case Unknown(cause) => cause
  }

  /** The text that follows `prefix` in `s`, when `s` starts with it. */
  function MessageAfter(prefix: string, s: string): Option<string>
  {
    if |prefix| <= |s| && s[..|prefix|] == prefix then Some(s[|prefix|..]) else None
  }

  /** The status code a "status code" description reports, read back from its text. */
  function StatusCodeIn(s: string): Option<int>
  {
    if |StatusPrefix| < |s| && s[..|StatusPrefix|] == StatusPrefix && s[|s| - 1] == '.'
    then ParseInt(s[|StatusPrefix|..|s| - 1])
    else None
  }
}
