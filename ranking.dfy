/** The trending order: `sorted { ($0.upvotes ?? 0) > ($1.upvotes ?? 0) }`
    (Memeiverse/MemeFeedService.swift). */
module Ranking {
  import opened Basics
  import opened MemeModel

  /** `upvotes ?? 0`. */
  function Score(m: Meme): int
  {
    match m.upvotes
    case Some(u) => u
    case None => 0
  }

  /** Non-increasing by score. Nothing is said about the order of equal scores. */
  predicate RankedByUpvotes(s: seq<Meme>)
  {
    forall i, j :: 0 <= i < j < |s| ==> Score(s[i]) >= Score(s[j])
  }

  /** A record that scores at least as high as every record of a ranked list can lead it. */
  lemma ConsRanked(x: Meme, rest: seq<Meme>)
    requires RankedByUpvotes(rest)
    requires forall y :: y in rest ==> Score(x) >= Score(y)
    ensures RankedByUpvotes([x] + rest)
  {
    forall i, j | 0 <= i < j < |[x] + rest| ensures Score(([x] + rest)[i]) >= Score(([x] + rest)[j]) {
      assert ([x] + rest)[j] == rest[j - 1];
      if i > 0 {
        assert ([x] + rest)[i] == rest[i - 1];
      }
    }
  }

  /** Inserts `m` into a list, ahead of the first record whose score it does not fall below. */
  function Insert(m: Meme, s: seq<Meme>): (r: seq<Meme>)
    ensures multiset(r) == multiset(s) + multiset{m}
    ensures RankedByUpvotes(s) ==> RankedByUpvotes(r)
    decreases |s|
  {
    if s == [] || Score(m) >= Score(s[0]) then
      ConsInsertHead(m, s);
      [m] + s
    else
      var rest := Insert(m, s[1..]);
      InsertBehind(m, s, rest);
      [s[0]] + rest
  }

  lemma ConsInsertHead(m: Meme, s: seq<Meme>)
    requires s == [] || Score(m) >= Score(s[0])
    ensures RankedByUpvotes(s) ==> RankedByUpvotes([m] + s)
  {
    if RankedByUpvotes(s) {
      forall y | y in s ensures Score(m) >= Score(y) {
        var k :| 0 <= k < |s| && s[k] == y;
      }
      ConsRanked(m, s);
    }
  }

  lemma InsertBehind(m: Meme, s: seq<Meme>, rest: seq<Meme>)
    requires s != [] && Score(m) < Score(s[0])
    requires multiset(rest) == multiset(s[1..]) + multiset{m}
    requires RankedByUpvotes(s[1..]) ==> RankedByUpvotes(rest)
    ensures multiset([s[0]] + rest) == multiset(s) + multiset{m}
    ensures RankedByUpvotes(s) ==> RankedByUpvotes([s[0]] + rest)
  {
    assert s == [s[0]] + s[1..];
    if RankedByUpvotes(s) {
      forall y | y in rest ensures Score(s[0]) >= Score(y) {
        assert y in multiset(rest);
        if y != m {
          var k :| 0 <= k < |s[1..]| && s[1..][k] == y;
          assert s[k + 1] == y;
        }
      }
      ConsRanked(s[0], rest);
    }
  }

  /** `sorted(by:)` on the trending key, as an insertion sort. The contract promises the order
      and the permutation only: how equal scores are arranged is not part of it. */
  function SortedByUpvotes(s: seq<Meme>): (r: seq<Meme>)
    ensures RankedByUpvotes(r)
    ensures multiset(r) == multiset(s)
    decreases |s|
  {
    if s == [] then []
    else
      assert s == [s[0]] + s[1..];
      Insert(s[0], SortedByUpvotes(s[1..]))
  }

  /** Dropping records from a ranked list leaves it ranked. */
  lemma {:induction false} SubsequenceStaysRanked(a: seq<Meme>, b: seq<Meme>)
    requires IsSubsequence(a, b) && RankedByUpvotes(b)
    ensures RankedByUpvotes(a)
    decreases |b|
  {
    if a == [] {
    } else if a[0] == b[0] && IsSubsequence(a[1..], b[1..]) {
      SubsequenceStaysRanked(a[1..], b[1..]);
      SubsequenceMultiset(a[1..], b[1..]);
      forall j | 1 <= j < |a| ensures Score(a[0]) >= Score(a[j]) {
        assert a[j] == a[1..][j - 1];
        assert a[j] in multiset(b[1..]);
      }
    } else {
      SubsequenceStaysRanked(a, b[1..]);
    }
  }
}
