/** `MemeRepository` (Memeiverse/MemeRepository.swift): the five hand-written classics that are
    always available, optionally shuffled in place. */
module MemeRepository {
  import opened Basics
  import opened MemeModel
  import opened Shuffling
  import opened MemeFeedService

  /** The fixed dataset, in its written order. Each literal URL is well formed, so `URL(string:)`
      yields a URL whose `absoluteString` is the literal itself. */
  function CuratedClassics(): (items: seq<Meme>)
    ensures |items| == 5
  {
    seq(5, Classic)
  }

  /** The `i`-th hand-written record. */
  function Classic(i: int): Meme
    requires 0 <= i < 5
  {
    if i == 0 then
      Meme(
        id := "STONKS",
        title := "STONKS",
        caption := Some("Numbers go up."),
        imageURL := Some(Url("https://i.imgflip.com/3oevdk.jpg")),
        postURL := Some(Url("https://knowyourmeme.com/memes/stonks")),
        author := Some("Special Meme Fresh"),
        tags := ["finance", "optimism"],
        upvotes := None,
        source := Curated,
        isTrending := false,
        timestamp := Some(Date(1561939200)))
    else if i == 1 then
      Meme(
        id := "DOGE",
        title := "DOGE",
        caption := Some("Such coin. Much wow."),
        imageURL := Some(Url("https://i.imgur.com/zcG8RKy.jpg")),
        postURL := Some(Url("https://knowyourmeme.com/memes/doge")),
        author := Some("Kabosu"),
        tags := ["dog", "crypto"],
        upvotes := None,
        source := Curated,
        isTrending := false,
        timestamp := Some(Date(1388534400)))
    else if i == 2 then
      Meme(
        id := "NYAN",
        title := "Nyan Cat",
        caption := Some("To the stars with rainbow trails."),
        imageURL := Some(Url("https://i.imgur.com/ik5nX0m.gif")),
        postURL := Some(Url("https://knowyourmeme.com/memes/nyan-cat")),
        author := Some("Chris Torres"),
        tags := ["cat", "gif", "retro"],
        upvotes := None,
        source := Curated,
        isTrending := false,
        timestamp := Some(Date(1303862400)))
    else if i == 3 then
      Meme(
        id := "RICKROLL",
        title := "Rickroll",
        caption := Some("Never gonna give you up."),
        imageURL := Some(Url("https://i.imgur.com/H1toF6C.png")),
        postURL := Some(Url("https://knowyourmeme.com/memes/rickroll")),
        author := Some("Rick Astley"),
        tags := ["music", "bait"],
        upvotes := None,
        source := Curated,
        isTrending := false,
        timestamp := Some(Date(1174080000)))
    else
      Meme(
        id := "DISTRACTED",
        title := "Distracted Boyfriend",
        caption := Some("A tale of temptation."),
        imageURL := Some(Url("https://i.imgur.com/gCq8lr3.jpg")),
        postURL := Some(Url("https://knowyourmeme.com/memes/distracted-boyfriend")),
        author := Some("Antonio Guillem"),
        tags := ["stock photo", "relationship"],
        upvotes := None,
        source := Curated,
        isTrending := false,
        timestamp := Some(Date(1502755200)))
  }

  /** The ids, in order, and the post links: all present and pairwise different. */
  lemma CuratedIdentities()
    ensures var items := CuratedClassics();
      [items[0].id, items[1].id, items[2].id, items[3].id, items[4].id] ==
        ["STONKS", "DOGE", "NYAN", "RICKROLL", "DISTRACTED"] &&
      (forall i, j :: 0 <= i < j < 5 ==> items[i].id != items[j].id) &&
      (forall m :: m in items ==> m.postURL.Some?) &&
      DistinctKeys(items)
  {
  }

  /** Every classic is a curated record that is not trending and has no upvote count. */
  lemma CuratedRecordsAreCurated()
    ensures forall m :: m in CuratedClassics() ==> m.source == Curated && !m.isTrending && m.upvotes == None
  {
    forall m | m in CuratedClassics() ensures m.source == Curated && !m.isTrending && m.upvotes == None {
      var i :| 0 <= i < 5 && CuratedClassics()[i] == m;
    }
  }

  /** `loadCuratedMemes(shuffled:)`: the classics, shuffled in place when asked. */
  method LoadCuratedMemes(shuffled: bool) returns (items: seq<Meme>)
    ensures !shuffled ==> items == CuratedClassics()
    ensures multiset(items) == multiset(CuratedClassics())
    ensures |items| == 5 && items != []
  {
    var classics := CuratedClassics();
    var buffer := new Meme[|classics|](i requires 0 <= i < |classics| => classics[i]);
    assert buffer[..] == classics;
    if shuffled {
      Shuffle(buffer);
    }
    items := buffer[..];
  }

  /** Deduplicating the classics, in any order, with room for five keeps all five. */
  lemma CuratedSurviveDeduplication(order: seq<Meme>, maxItems: int)
    requires multiset(order) == multiset(CuratedClassics()) && maxItems >= 5
    ensures Deduplicated(CuratedClassics(), maxItems) == CuratedClassics()
    ensures |Deduplicated(order, maxItems)| == 5
    ensures multiset(Deduplicated(order, maxItems)) == multiset(CuratedClassics())
  {
    var classics := CuratedClassics();
    CuratedIdentities();
    DeduplicatedKeepsDistinct(classics, maxItems);
    DistinctKeysCount(classics);
    KeySetOfPermutation(order, classics);
    var d := Deduplicated(order, maxItems);
    DeduplicatedProperties(order, maxItems);
    SubsequenceMultiset(d, order);
    assert |order| == 5 by { assert |multiset(order)| == |multiset(classics)|; }
    SubsequenceOfSameLength(d, order);
  }
}
