/** `MemeFeedService` (Memeiverse/MemeFeedService.swift): the trending and discovery feeds built on
    the community API by clamping the limit, ranking or shuffling, deduplicating and, for trending,
    flagging every record. */
module MemeFeedService {
  import opened Basics
  import opened MemeModel
  import opened FeedErrors
  import opened CommunityMemeAPI
  import opened Ranking
  import opened Shuffling

  const TrendingMaxLimit := 40
  const DiscoveryMaxLimit := 60
  const TrendingMinRequest := 30
  const DiscoveryMinRequest := 40

  function Max(a: int, b: int): int { if a >= b then a else b }

  // ---------------------------------------------------------------------------------------------
  // Deduplication

  /** The key two records are "the same meme" by: `postURL`, else `imageURL`, else `id`.
      Presence decides, not emptiness: a present URL with an empty string is still the key. */
  function DedupKey(m: Meme): (k: string)
    ensures m.postURL.Some? ==> k == m.postURL.value.absoluteString
    ensures m.postURL.None? && m.imageURL.Some? ==> k == m.imageURL.value.absoluteString
    ensures m.postURL.None? && m.imageURL.None? ==> k == m.id
  {
    match m.postURL
    case Some(u) => u.absoluteString
    case None =>
      match m.imageURL
      case Some(u) => u.absoluteString
      case None => m.id
  }

  /** The keys of the records of `s`. */
  function KeySet(s: seq<Meme>): set<string>
  {
    set m | m in s :: DedupKey(m)
  }

  /** No two records of `s` share a key. */
  predicate DistinctKeys(s: seq<Meme>)
  {
    forall i, j :: 0 <= i < j < |s| ==> DedupKey(s[i]) != DedupKey(s[j])
  }

  /** The index of the first record of `s` with key `k`. */
  function FirstIndex(s: seq<Meme>, k: string): (i: nat)
    requires k in KeySet(s)
    ensures i < |s| && DedupKey(s[i]) == k
    ensures forall j :: 0 <= j < i ==> DedupKey(s[j]) != k
    decreases |s|
  {
    if DedupKey(s[0]) == k then 0
    else
      assert k in KeySet(s[1..]) by {
        var m :| m in s && DedupKey(m) == k;
        assert m != s[0];
        assert m in s[1..] by { assert s == [s[0]] + s[1..]; }
      }
      1 + FirstIndex(s[1..], k)
  }

  /** One pass from the left with `seen` keys already taken, without a length bound:
      a record is kept when its key is new, and its key is then taken. */
  function UniqueFrom(s: seq<Meme>, seen: set<string>): seq<Meme>
    decreases |s|
  {
    if s == [] then []
    else if DedupKey(s[0]) in seen then UniqueFrom(s[1..], seen)
    else [s[0]] + UniqueFrom(s[1..], seen + {DedupKey(s[0])})
  }

  /** The length bound the loop enforces. It tests `output.count >= maxItems` only after an append,
      so a bound below 1 still lets the first record through. */
  function Cap(maxItems: int): (n: nat)
    ensures n >= 1
    ensures maxItems >= 1 ==> n == maxItems
  {
    if maxItems < 1 then 1 else maxItems
  }

  /** What `deduplicate(_:maxItems:)` returns: the pass over the whole list, cut to the bound. */
  function Deduplicated(memes: seq<Meme>, maxItems: int): seq<Meme>
  {
    Take(UniqueFrom(memes, {}), Cap(maxItems))
  }

  /** The deduplicated list is as long as the bound and the distinct keys allow, has distinct keys,
      keeps the order of `memes`, holds the first record of each key it keeps, and keeps every key
      when they fit. */
  lemma DeduplicatedProperties(memes: seq<Meme>, maxItems: int)
    ensures var r := Deduplicated(memes, maxItems);
      |r| <= Cap(maxItems) &&
      |r| == (if |KeySet(memes)| <= Cap(maxItems) then |KeySet(memes)| else Cap(maxItems)) &&
      DistinctKeys(r) && IsSubsequence(r, memes) &&
      (forall j :: 0 <= j < |r| ==> DedupKey(r[j]) in KeySet(memes) && r[j] == memes[FirstIndex(memes, DedupKey(r[j]))]) &&
      (|KeySet(memes)| <= Cap(maxItems) ==> KeySet(r) == KeySet(memes))
  {
    var all := UniqueFrom(memes, {});
    var r := Deduplicated(memes, maxItems);
    assert r == all[..|r|];
    UniqueFromKeySet(memes, {});
    UniqueFromDistinct(memes, {});
    DistinctKeysCount(all);
    assert |all| == |KeySet(memes)|;
    PrefixKeepsDistinct(all, |r|);
    UniqueFromSubsequence(memes, {});
    PrefixIsSubsequence(all, |r|);
    SubsequenceTransitive(r, all, memes);
    UniqueFromFirstOccurrences(memes, {});
    forall j | 0 <= j < |r|
      ensures DedupKey(r[j]) in KeySet(memes) && r[j] == memes[FirstIndex(memes, DedupKey(r[j]))]
    {
      assert r[j] == all[j];
    }
    if |KeySet(memes)| <= Cap(maxItems) {
      assert r == all;
    }
  }

  /** `deduplicate(_:maxItems:)`: one pass with a set of seen keys; a record whose key was seen is
      skipped, and the pass stops as soon as the output reaches `maxItems`. */
  method Deduplicate(memes: seq<Meme>, maxItems: int) returns (output: seq<Meme>)
    ensures output == Deduplicated(memes, maxItems)
  {
    ghost var all := UniqueFrom(memes, {});
    var seen: set<string> := {};
    output := [];
    for i := 0 to |memes|
      invariant output + UniqueFrom(memes[i..], seen) == all
      invariant |output| < Cap(maxItems)
    {
      var meme := memes[i];
      PassStep(memes, i, seen, output, all);
      var key := DedupKey(meme);
      if key in seen {
        continue;
      }
      seen := seen + {key};
      output := output + [meme];
      if |output| >= maxItems {
        PassCut(output, UniqueFrom(memes[i + 1..], seen), all, Cap(maxItems));
        return;
      }
    }
    PassCut(output, UniqueFrom(memes[|memes|..], seen), all, Cap(maxItems));
  }

  /** One step of the pass at index `i`, after `kept` was output: a seen key is skipped, a new
      one is output and taken. */
  lemma PassStep(memes: seq<Meme>, i: int, seen: set<string>, kept: seq<Meme>, all: seq<Meme>)
    requires 0 <= i < |memes| && kept + UniqueFrom(memes[i..], seen) == all
    ensures DedupKey(memes[i]) in seen ==> kept + UniqueFrom(memes[i + 1..], seen) == all
    ensures DedupKey(memes[i]) !in seen ==>
      (kept + [memes[i]]) + UniqueFrom(memes[i + 1..], seen + {DedupKey(memes[i])}) == all
  {
    assert memes[i..][1..] == memes[i + 1..];
    if DedupKey(memes[i]) !in seen {
      var rest := UniqueFrom(memes[i + 1..], seen + {DedupKey(memes[i])});
      assert UniqueFrom(memes[i..], seen) == [memes[i]] + rest;
      assert kept + ([memes[i]] + rest) == (kept + [memes[i]]) + rest;
    }
  }

  /** The pass stops with `kept` output either at the bound or at the end of the list. */
  lemma PassCut(kept: seq<Meme>, rest: seq<Meme>, all: seq<Meme>, n: nat)
    requires kept + rest == all && (|kept| == n || (rest == [] && |kept| <= n))
    ensures kept == Take(all, n)
  {
    assert all[..|kept|] == kept;
  }

  // Lemmas about one pass

  lemma KeyInKeySet(s: seq<Meme>, i: int)
    requires 0 <= i < |s|
    ensures DedupKey(s[i]) in KeySet(s)
  {
    assert s[i] in s;
  }

  /** The keys of a list are its first record's key and the keys of the rest. */
  lemma KeySetCons(s: seq<Meme>)
    requires s != []
    ensures KeySet(s) == {DedupKey(s[0])} + KeySet(s[1..])
  {
    assert s == [s[0]] + s[1..];
    forall k | k in KeySet(s) ensures k in {DedupKey(s[0])} + KeySet(s[1..]) {
      var m :| m in s && DedupKey(m) == k;
      if m != s[0] {
        assert m in s[1..];
      }
    }
    forall k | k in KeySet(s[1..]) ensures k in KeySet(s) {
      var m :| m in s[1..] && DedupKey(m) == k;
      assert m in s;
    }
  }

  /** A list has no keys exactly when it has no records. */
  lemma KeySetEmpty(s: seq<Meme>)
    ensures KeySet(s) == {} <==> s == []
  {
    if s != [] {
      KeyInKeySet(s, 0);
    }
  }

  /** A record whose key is new can lead a list with distinct keys. */
  lemma ConsKeepsDistinct(m: Meme, s: seq<Meme>)
    requires DistinctKeys(s) && DedupKey(m) !in KeySet(s)
    ensures DistinctKeys([m] + s)
  {
    var t := [m] + s;
    forall i, j | 0 <= i < j < |t| ensures DedupKey(t[i]) != DedupKey(t[j]) {
      assert t[j] == s[j - 1];
      KeyInKeySet(s, j - 1);
      if i > 0 {
        assert t[i] == s[i - 1];
      }
    }
  }

  /** The pass keeps exactly the keys not yet seen. */
  lemma {:induction false} UniqueFromKeySet(s: seq<Meme>, seen: set<string>)
    ensures KeySet(UniqueFrom(s, seen)) == KeySet(s) - seen
    decreases |s|
  {
    if s != [] {
      var k := DedupKey(s[0]);
      KeySetCons(s);
      if k in seen {
        UniqueFromKeySet(s[1..], seen);
      } else {
        var r := UniqueFrom(s, seen);
        UniqueFromKeySet(s[1..], seen + {k});
        assert r[1..] == UniqueFrom(s[1..], seen + {k});
        KeySetCons(r);
      }
    }
  }

  /** The pass keeps each key once. */
  lemma {:induction false} UniqueFromDistinct(s: seq<Meme>, seen: set<string>)
    ensures DistinctKeys(UniqueFrom(s, seen))
    decreases |s|
  {
    if s != [] {
      var k := DedupKey(s[0]);
      if k in seen {
        UniqueFromDistinct(s[1..], seen);
      } else {
        UniqueFromDistinct(s[1..], seen + {k});
        UniqueFromKeySet(s[1..], seen + {k});
        ConsKeepsDistinct(s[0], UniqueFrom(s[1..], seen + {k}));
      }
    }
  }

  lemma {:induction false} UniqueFromSubsequence(s: seq<Meme>, seen: set<string>)
    ensures IsSubsequence(UniqueFrom(s, seen), s)
    decreases |s|
  {
    if s != [] {
      var k := DedupKey(s[0]);
      if k in seen {
        UniqueFromSubsequence(s[1..], seen);
      } else {
        UniqueFromSubsequence(s[1..], seen + {k});
        var r := UniqueFrom(s, seen);
        assert r[0] == s[0] && r[1..] == UniqueFrom(s[1..], seen + {k});
      }
    }
  }

  /** Past a first record with another key, the first index of `k` is one more than in the rest. */
  lemma FirstIndexTail(s: seq<Meme>, k: string)
    requires s != [] && k in KeySet(s[1..]) && DedupKey(s[0]) != k
    ensures k in KeySet(s) && FirstIndex(s, k) == 1 + FirstIndex(s[1..], k)
  {
    KeySetCons(s);
  }

  /** Every kept record is the first record of `s` with its key: first occurrence wins. */
  lemma {:induction false} UniqueFromFirstOccurrences(s: seq<Meme>, seen: set<string>)
    ensures forall j :: 0 <= j < |UniqueFrom(s, seen)| ==>
      DedupKey(UniqueFrom(s, seen)[j]) in KeySet(s) &&
      UniqueFrom(s, seen)[j] == s[FirstIndex(s, DedupKey(UniqueFrom(s, seen)[j]))]
    decreases |s|
  {
    if s != [] {
      var k := DedupKey(s[0]);
      var seen' := if k in seen then seen else seen + {k};
      var rest := UniqueFrom(s[1..], seen');
      UniqueFromFirstOccurrences(s[1..], seen');
      UniqueFromKeySet(s[1..], seen');
      var r := UniqueFrom(s, seen);
      var d := if k in seen then 0 else 1;
      assert r[d..] == rest;
      forall j | 0 <= j < |r|
        ensures DedupKey(r[j]) in KeySet(s) && r[j] == s[FirstIndex(s, DedupKey(r[j]))]
      {
        if j < d {
          KeyInKeySet(s, 0);
        } else {
          assert r[j] == rest[j - d];
          KeyInKeySet(rest, j - d);
          FirstIndexTail(s, DedupKey(rest[j - d]));
        }
      }
    }
  }

  /** With distinct keys, none of them seen, the pass keeps everything. */
  lemma {:induction false} UniqueFromKeepsDistinct(s: seq<Meme>, seen: set<string>)
    requires DistinctKeys(s) && KeySet(s) !! seen
    ensures UniqueFrom(s, seen) == s
    decreases |s|
  {
    if s != [] {
      var k := DedupKey(s[0]);
      KeySetCons(s);
      HeadKeyIsFresh(s);
      UniqueFromKeepsDistinct(s[1..], seen + {k});
    }
  }

  /** In a list with distinct keys the first key does not occur in the rest. */
  lemma HeadKeyIsFresh(s: seq<Meme>)
    requires s != [] && DistinctKeys(s)
    ensures DedupKey(s[0]) !in KeySet(s[1..])
  {
    forall m | m in s[1..] ensures DedupKey(m) != DedupKey(s[0]) {
      var i :| 0 <= i < |s[1..]| && s[1..][i] == m;
      assert s[i + 1] == m;
    }
  }

  /** A list with distinct keys has one key per record. */
  lemma {:induction false} DistinctKeysCount(s: seq<Meme>)
    requires DistinctKeys(s)
    ensures |KeySet(s)| == |s|
    decreases |s|
  {
    if s != [] {
      KeySetCons(s);
      HeadKeyIsFresh(s);
      DistinctKeysCount(s[1..]);
    }
  }

  lemma PrefixKeepsDistinct(s: seq<Meme>, n: nat)
    requires DistinctKeys(s) && n <= |s|
    ensures DistinctKeys(s[..n])
  {
  }

  /** Keys depend only on which records are present, not on their order. */
  lemma KeySetOfPermutation(a: seq<Meme>, b: seq<Meme>)
    requires multiset(a) == multiset(b)
    ensures KeySet(a) == KeySet(b)
  {
    forall m ensures m in a <==> m in b {
      assert m in a <==> m in multiset(a);
      assert m in b <==> m in multiset(b);
    }
  }

  // Lemmas about deduplicate

  /** Deduplicating twice with the same bound changes nothing more. */
  lemma DeduplicatedIdempotent(memes: seq<Meme>, maxItems: int)
    ensures Deduplicated(Deduplicated(memes, maxItems), maxItems) == Deduplicated(memes, maxItems)
  {
    var d := Deduplicated(memes, maxItems);
    DeduplicatedProperties(memes, maxItems);
    UniqueFromKeepsDistinct(d, {});
  }

  /** A list whose keys are already distinct, within the bound, comes back unchanged. */
  lemma DeduplicatedKeepsDistinct(memes: seq<Meme>, maxItems: int)
    requires DistinctKeys(memes) && |memes| <= Cap(maxItems)
    ensures Deduplicated(memes, maxItems) == memes
  {
    UniqueFromKeepsDistinct(memes, {});
  }

  /** `r` keeps the best of `s`: a record of `s` whose key `r` lacks scores no higher than any
      record of `r`, and a record of `r` scores at least as high as every record of `s` sharing
      its key. */
  predicate KeepsTopScores(r: seq<Meme>, s: seq<Meme>)
  {
    (forall x, m :: x in s && m in r && DedupKey(x) !in KeySet(r) ==> Score(x) <= Score(m)) &&
    (forall x, m :: x in s && m in r && DedupKey(x) == DedupKey(m) ==> Score(x) <= Score(m))
  }

  /** On a list ranked by upvotes, deduplication keeps the best: a record whose key was cut scores
      no higher than any kept record, and a kept record scores at least as high as every record
      sharing its key. */
  lemma DeduplicatedKeepsTopScores(s: seq<Meme>, maxItems: int)
    requires RankedByUpvotes(s)
    ensures KeepsTopScores(Deduplicated(s, maxItems), s)
  {
    var r := Deduplicated(s, maxItems);
    forall x, m | x in s && m in r && (DedupKey(x) !in KeySet(r) || DedupKey(x) == DedupKey(m))
      ensures Score(x) <= Score(m)
    {
      var i :| 0 <= i < |s| && s[i] == x;
      var j :| 0 <= j < |r| && r[j] == m;
      KeptOutranks(s, maxItems, i, j);
    }
  }

  /** The record at `j` of the deduplicated list outranks the record at `i` of `s` when the latter's
      key was cut or is the same key: the pass keeps a ranked list of first occurrences, and a cut
      key's first occurrence comes after every kept record. */
  lemma KeptOutranks(s: seq<Meme>, maxItems: int, i: int, j: int)
    requires RankedByUpvotes(s) && 0 <= i < |s| && 0 <= j < |Deduplicated(s, maxItems)|
    requires DedupKey(s[i]) !in KeySet(Deduplicated(s, maxItems)) || DedupKey(s[i]) == DedupKey(Deduplicated(s, maxItems)[j])
    ensures Score(s[i]) <= Score(Deduplicated(s, maxItems)[j])
  {
    var u := UniqueFrom(s, {});
    var r := Deduplicated(s, maxItems);
    assert r[j] == u[j];
    var kx := DedupKey(s[i]);
    KeyInKeySet(s, i);
    FirstOccurrenceOutranks(s, i);
    UniqueFromFirstOccurrences(s, {});
    if kx != DedupKey(u[j]) {
      var p := CutKeyPosition(s, maxItems, kx);
      UniqueFromSubsequence(s, {});
      SubsequenceStaysRanked(u, s);
      assert Score(u[j]) >= Score(u[p]);
    }
  }

  /** In a ranked list the first record of a key scores at least as high as every other record
      with that key. */
  lemma FirstOccurrenceOutranks(s: seq<Meme>, i: int)
    requires RankedByUpvotes(s) && 0 <= i < |s|
    ensures DedupKey(s[i]) in KeySet(s) && Score(s[i]) <= Score(s[FirstIndex(s, DedupKey(s[i]))])
  {
    KeyInKeySet(s, i);
  }

  /** A key of `s` the deduplicated list lacks sits in the pass past the cut. */
  lemma CutKeyPosition(s: seq<Meme>, maxItems: int, k: string) returns (p: int)
    requires k in KeySet(s) && k !in KeySet(Deduplicated(s, maxItems))
    ensures |Deduplicated(s, maxItems)| <= p < |UniqueFrom(s, {})| && DedupKey(UniqueFrom(s, {})[p]) == k
  {
    var u := UniqueFrom(s, {});
    var r := Deduplicated(s, maxItems);
    UniqueFromKeySet(s, {});
    assert k in KeySet(u);
    var m :| m in u && DedupKey(m) == k;
    p :| 0 <= p < |u| && u[p] == m;
    forall q | 0 <= q < |r| ensures DedupKey(r[q]) != k {
      KeyInKeySet(r, q);
    }
  }

  // ---------------------------------------------------------------------------------------------
  // The two feeds

  /** The trending limit after clamping to 1...40. */
  function TrendingLimit(limit: int): int { ClampLimit(limit, TrendingMaxLimit) }

  /** The discovery limit after clamping to 1...60. */
  function DiscoveryLimit(limit: int): int { ClampLimit(limit, DiscoveryMaxLimit) }

  /** What trending asks the community API for: `max(limit, 30)`. */
  function TrendingRequest(limit: int): (n: int)
    ensures TrendingMinRequest <= n <= TrendingMaxLimit && TrendingLimit(limit) <= n
    ensures n == TrendingLimit(limit) || n == TrendingMinRequest
  {
    Max(TrendingLimit(limit), TrendingMinRequest)
  }

  /** What discovery asks the community API for: `max(limit, 40)`. */
  function DiscoveryRequest(limit: int): (n: int)
    ensures DiscoveryMinRequest <= n <= DiscoveryMaxLimit && DiscoveryLimit(limit) <= n
    ensures n == DiscoveryLimit(limit) || n == DiscoveryMinRequest
  {
    Max(DiscoveryLimit(limit), DiscoveryMinRequest)
  }

  /** The counts that reach meme-api.com: 30...40 for trending and 40...50 for discovery. */
  lemma RequestedCounts(limit: int)
    ensures 30 <= RequestCount(TrendingRequest(limit)) <= 40
    ensures RequestCount(TrendingRequest(limit)) == Max(TrendingLimit(limit), 30)
    ensures 40 <= RequestCount(DiscoveryRequest(limit)) <= 50
    ensures DiscoveryLimit(limit) <= 50 ==> RequestCount(DiscoveryRequest(limit)) == Max(DiscoveryLimit(limit), 40)
    ensures DiscoveryLimit(limit) > 50 ==> RequestCount(DiscoveryRequest(limit)) == 50
  {
  }

  /** `map { $0.withTrending(true) }`. */
  function MarkTrending(s: seq<Meme>): (r: seq<Meme>)
    ensures |r| == |s| && forall i :: 0 <= i < |s| ==> r[i] == WithTrending(s[i], true)
  {
    seq(|s|, i requires 0 <= i < |s| => WithTrending(s[i], true))
  }

  /** `fetchTrendingMemes(limit:)`: the community records ranked by upvotes, deduplicated to the
      clamped limit and flagged trending; a failed fetch fails with the same error. */
  function FetchTrendingMemes(limit: int, network: Network, foundation: Foundation): (r: Result<seq<Meme>, MemeFeedError>)
    ensures var fetched := FetchMemes(TrendingRequest(limit), network, foundation);
      (fetched.Err? ==> r == Err(fetched.error)) &&
      (fetched.Ok? ==>
         r.Ok? &&
         |r.value| == (if |KeySet(fetched.value)| <= TrendingLimit(limit) then |KeySet(fetched.value)| else TrendingLimit(limit)) &&
         (forall m :: m in r.value ==> exists x :: x in fetched.value && m == WithTrending(x, true)) &&
         KeepsTopScores(r.value, fetched.value))
    ensures r.Ok? ==> |r.value| <= TrendingLimit(limit) && |r.value| <= TrendingMaxLimit
    ensures r.Ok? ==> forall m :: m in r.value ==> m.isTrending
    ensures r.Ok? ==> RankedByUpvotes(r.value) && DistinctKeys(r.value)
  {
    var n := TrendingLimit(limit);
    match FetchMemes(TrendingRequest(limit), network, foundation)
    case Err(e) => Err(e)
    case Ok(memes) =>
      var ranked := SortedByUpvotes(memes);
      var deduped := Deduplicated(ranked, n);
      TrendingPipeline(memes, ranked, deduped, n);
      Ok(MarkTrending(deduped))
  }

  /** Flagging keeps keys and scores, so the ranked, deduplicated list stays ranked and distinct. */
  lemma MarkTrendingKeepsOrder(s: seq<Meme>)
    requires RankedByUpvotes(s) && DistinctKeys(s)
    ensures RankedByUpvotes(MarkTrending(s)) && DistinctKeys(MarkTrending(s))
    ensures forall m :: m in MarkTrending(s) ==> m.isTrending && exists x :: x in s && m == WithTrending(x, true)
  {
    var r := MarkTrending(s);
    assert forall i :: 0 <= i < |r| ==> Score(r[i]) == Score(s[i]) && DedupKey(r[i]) == DedupKey(s[i]);
    forall m | m in r ensures m.isTrending && exists x :: x in s && m == WithTrending(x, true) {
      var i :| 0 <= i < |r| && r[i] == m;
      assert s[i] in s;
    }
  }

  lemma TrendingPipeline(memes: seq<Meme>, ranked: seq<Meme>, deduped: seq<Meme>, n: int)
    requires n >= 1 && ranked == SortedByUpvotes(memes) && deduped == Deduplicated(ranked, n)
    ensures var r := MarkTrending(deduped);
      |r| == (if |KeySet(memes)| <= n then |KeySet(memes)| else n) &&
      (forall m :: m in r ==> m.isTrending && exists x :: x in memes && m == WithTrending(x, true)) &&
      RankedByUpvotes(r) && DistinctKeys(r) && KeepsTopScores(r, memes)
  {
    TrendingKeepsTopScores(memes, ranked, deduped, n);
    DeduplicatedProperties(ranked, n);
    KeySetOfPermutation(memes, ranked);
    SubsequenceStaysRanked(deduped, ranked);
    SubsequenceMultiset(deduped, ranked);
    MarkTrendingKeepsOrder(deduped);
    forall x | x in deduped ensures x in memes {
      assert x in multiset(ranked);
    }
  }

  /** Flagging keeps keys and scores, so the trending list keeps the top-scoring record of each key
      it shows and shows no key whose best record scores higher than a shown one. */
  lemma TrendingKeepsTopScores(memes: seq<Meme>, ranked: seq<Meme>, deduped: seq<Meme>, n: int)
    requires ranked == SortedByUpvotes(memes) && deduped == Deduplicated(ranked, n)
    ensures KeepsTopScores(MarkTrending(deduped), memes)
  {
    DeduplicatedKeepsTopScores(ranked, n);
    KeepsTopScoresOfPermutation(deduped, ranked, memes);
    MarkTrendingKeepsTopScores(deduped, memes);
  }

  /** Only which records `s` holds matters to keeping its best, not their order. */
  lemma KeepsTopScoresOfPermutation(r: seq<Meme>, s: seq<Meme>, t: seq<Meme>)
    requires multiset(s) == multiset(t) && KeepsTopScores(r, s)
    ensures KeepsTopScores(r, t)
  {
    forall x | x in t ensures x in s {
      assert x in multiset(t);
    }
  }

  /** Flagging keeps keys and scores, so it keeps the best. */
  lemma MarkTrendingKeepsTopScores(d: seq<Meme>, s: seq<Meme>)
    requires KeepsTopScores(d, s)
    ensures KeepsTopScores(MarkTrending(d), s)
  {
    var r := MarkTrending(d);
    MarkTrendingKeySet(d);
    forall x, m | x in s && m in r && (DedupKey(x) !in KeySet(r) || DedupKey(x) == DedupKey(m))
      ensures Score(x) <= Score(m)
    {
      var j :| 0 <= j < |r| && r[j] == m;
      assert m == WithTrending(d[j], true);
      assert Score(m) == Score(d[j]) && DedupKey(m) == DedupKey(d[j]);
      assert d[j] in d;
    }
  }

  /** Flagging keeps the keys. */
  lemma MarkTrendingKeySet(s: seq<Meme>)
    ensures KeySet(MarkTrending(s)) == KeySet(s)
  {
    var r := MarkTrending(s);
    forall k | k in KeySet(r) ensures k in KeySet(s) {
      var m :| m in r && DedupKey(m) == k;
      var i :| 0 <= i < |r| && r[i] == m;
      KeyInKeySet(s, i);
    }
    forall k | k in KeySet(s) ensures k in KeySet(r) {
      var m :| m in s && DedupKey(m) == k;
      var i :| 0 <= i < |s| && s[i] == m;
      KeyInKeySet(r, i);
    }
  }

  /** The discovery results possible for a fetched list: some order of it, deduplicated to `n`. */
  ghost predicate DiscoveryOf(d: seq<Meme>, fetched: seq<Meme>, n: int)
  {
    exists order :: multiset(order) == multiset(fetched) && d == Deduplicated(order, n)
  }

  /** The results `fetchDiscoveryMemes` can return once the community fetch returned `fetched`:
      its error unchanged, or one of the discovery results of its records. */
  ghost predicate DiscoveryOutcome(r: Result<seq<Meme>, MemeFeedError>, fetched: Result<seq<Meme>, MemeFeedError>, n: int)
  {
    (fetched.Err? ==> r == Err(fetched.error)) &&
    (fetched.Ok? ==> r.Ok? && DiscoveryOf(r.value, fetched.value, n))
  }

  /** What every possible discovery result satisfies: within the limit, distinct keys, records
      taken unchanged from the fetched list, and as many as the limit and the distinct keys allow. */
  lemma DiscoveryResultProperties(d: seq<Meme>, fetched: seq<Meme>, n: int)
    requires n >= 1 && DiscoveryOf(d, fetched, n)
    ensures |d| <= n && DistinctKeys(d)
    ensures multiset(d) <= multiset(fetched)
    ensures |d| == if |KeySet(fetched)| <= n then |KeySet(fetched)| else n
  {
    var order :| multiset(order) == multiset(fetched) && d == Deduplicated(order, n);
    DeduplicatedProperties(order, n);
    KeySetOfPermutation(order, fetched);
    SubsequenceMultiset(d, order);
  }

  /** `fetchDiscoveryMemes(limit:)`: the community records in a random order, deduplicated to the
      clamped limit, with their trending flags as decoded; a failed fetch fails with the same error. */
  method FetchDiscoveryMemes(limit: int, network: Network, foundation: Foundation) returns (r: Result<seq<Meme>, MemeFeedError>)
    ensures DiscoveryOutcome(r, FetchMemes(DiscoveryRequest(limit), network, foundation), DiscoveryLimit(limit))
    ensures var fetched := FetchMemes(DiscoveryRequest(limit), network, foundation);
      r.Ok? ==> fetched.Ok? && multiset(r.value) <= multiset(fetched.value)
    ensures r.Ok? ==> |r.value| <= DiscoveryLimit(limit) && |r.value| <= DiscoveryMaxLimit && DistinctKeys(r.value)
  {
    var n := DiscoveryLimit(limit);
    var fetched := FetchMemes(DiscoveryRequest(limit), network, foundation);
    match fetched
    case Err(e) =>
      r := Err(e);
    case Ok(memes) =>
      var shuffled := Shuffled(memes);
      var deduped := Deduplicate(shuffled, n);
      assert DiscoveryOf(deduped, memes, n);
      DiscoveryResultProperties(deduped, memes, n);
      r := Ok(deduped);
  }
}
