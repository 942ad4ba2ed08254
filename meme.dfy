/** The `Meme` record (Memeiverse/Meme.swift): an immutable value with field-wise equality,
    its `Source` enumeration and the `withTrending` copy. */
module MemeModel {
  import opened Basics

  /** A Foundation `URL`, observed only through `absoluteString`. */
  datatype Url = Url(absoluteString: string)

  /** A Foundation `Date`, as whole seconds since 1970. */
  datatype Date = Date(timeIntervalSince1970: int)

  /** The Foundation services the feed uses and this model does not look inside:
      `URL(string:)`, which may fail, and the locale-aware `String.capitalized`. */
  datatype Foundation = Foundation(parseUrl: string -> Option<Url>, capitalized: string -> string)

  /** Where a record came from. */
  datatype Source = Reddit | Curated

  /** The `String` raw value of each case. */
  function RawValue(s: Source): (raw: string)
    ensures SourceFromRaw(raw) == Some(s)
  {
    match s
    case Reddit => "meme-api.com"
    case Curated => "curated"
  }

  /** Swift's synthesised `Source(rawValue:)`: the case whose raw value is `raw`, if any. */
  function SourceFromRaw(raw: string): (r: Option<Source>)
    ensures r.None? <==> raw != "meme-api.com" && raw != "curated"
  {
    if raw == "meme-api.com" then Some(Reddit)
    else if raw == "curated" then Some(Curated)
    else None
  }

  /** `displayName`, the label shown to the user. */
  function DisplayName(s: Source): (d: string)
    ensures d == "Reddit" <==> s == Reddit
    ensures d == "Curated Vault" <==> s == Curated
  {
    match s
    case Reddit => "Reddit"
    case Curated => "Curated Vault"
  }

  /** The raw value identifies the case, in both directions. */
  lemma RawValueRoundTrip(s: Source, raw: string)
    ensures SourceFromRaw(RawValue(s)) == Some(s)
    ensures SourceFromRaw(raw) == Some(s) <==> raw == RawValue(s)
  {
  }

  /** Different sources are shown under different names. */
  lemma DisplayNameInjective(a: Source, b: Source)
    ensures DisplayName(a) == DisplayName(b) <==> a == b
  {
  }

  /** One content card. Dafny's structural equality is Swift's synthesised `==`.
      The defaults are those of the Swift memberwise initializer, except `id`,
      whose default is a fresh random UUID string and which is therefore always passed. */
  datatype Meme = Meme(
    id: string,
    title: string,
    caption: Option<string> := None,
    imageURL: Option<Url>,
    assetName: Option<string> := None,
    postURL: Option<Url> := None,
    author: Option<string> := None,
    tags: seq<string> := [],
    upvotes: Option<int> := None,
    source: Source,
    isTrending: bool := false,
    timestamp: Option<Date> := None,
    lore: Option<string> := None)

  /** What the initializer fills in for every argument a caller leaves out. */
  lemma InitializerDefaults(id: string, title: string, image: Option<Url>, source: Source)
    ensures var m := Meme(id, title, imageURL := image, source := source);
      m.id == id && m.title == title && m.imageURL == image && m.source == source &&
      !m.isTrending && m.tags == [] &&
      m.caption == None && m.assetName == None && m.postURL == None && m.author == None &&
      m.upvotes == None && m.timestamp == None && m.lore == None
  {
  }

  /** `withTrending(_:)`: a copy whose `isTrending` is `trending`. */
  function WithTrending(m: Meme, trending: bool): (r: Meme)
    ensures r.isTrending == trending
    ensures r.id == m.id && r.title == m.title && r.caption == m.caption
    ensures r.imageURL == m.imageURL && r.assetName == m.assetName && r.postURL == m.postURL
    ensures r.author == m.author && r.tags == m.tags && r.upvotes == m.upvotes
    ensures r.source == m.source && r.timestamp == m.timestamp && r.lore == m.lore
  {
    Meme(m.id, m.title, m.caption, m.imageURL, m.assetName, m.postURL, m.author, m.tags,
         m.upvotes, m.source, trending, m.timestamp, m.lore)
  }

  /** Rewriting the flag with its own value gives an equal record. */
  lemma WithTrendingUnchanged(m: Meme)
    ensures WithTrending(m, m.isTrending) == m
  {
  }

  /** Only the last rewrite counts; in particular `withTrending` is idempotent. */
  lemma WithTrendingLastWins(m: Meme, a: bool, b: bool)
    ensures WithTrending(WithTrending(m, a), b) == WithTrending(m, b)
    ensures WithTrending(WithTrending(m, b), b) == WithTrending(m, b)
  {
  }

  /** Two records that differ only in the flag become equal once the flag is rewritten. */
  lemma WithTrendingDeterminedByRest(m: Meme, n: Meme, b: bool)
    ensures WithTrending(m, b) == WithTrending(n, b) <==> WithTrending(m, false) == WithTrending(n, false)
  {
  }
}
