/** Swift's `MutableCollection.shuffle()` and `Sequence.shuffled()`. The random source is not
    modelled: each step picks its swap partner by an arbitrary choice, so the model covers
    every order the random generator could produce. */
module Shuffling {

  /** In-place Fisher-Yates shuffle: position `i` is swapped with some position at or after it. */
  method Shuffle<T>(a: array<T>)
    modifies a
    ensures multiset(a[..]) == multiset(old(a[..]))
  {
    var i := 0;
    while i < a.Length
      invariant 0 <= i <= a.Length
      invariant multiset(a[..]) == multiset(old(a[..]))
    {
      var j :| i <= j < a.Length;
      a[i], a[j] := a[j], a[i];
      i := i + 1;
    }
  }

  /** A shuffled copy; the argument is left as it was. */
  method Shuffled<T>(s: seq<T>) returns (r: seq<T>)
    ensures multiset(r) == multiset(s)
    ensures |r| == |s|
  {
    var a := new T[|s|](i requires 0 <= i < |s| => s[i]);
    assert a[..] == s;
    Shuffle(a);
    r := a[..];
  }
}
