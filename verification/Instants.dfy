/** Series of whole instants, and how many of them fall into an interval. */
module Instants {
  /** How many of the times lie in the closed interval from lo to hi. */
  function CountIn(times: seq<int>, lo: int, hi: int): (n: nat)
    ensures n <= |times|
  {
    if times == [] then 0
    else
      var last := times[|times| - 1];
      CountIn(times[..|times| - 1], lo, hi) + if lo <= last <= hi then 1 else 0
  }

  /** It is the number of places at which the series has such a time. */
  lemma {:induction false} CountMeans(times: seq<int>, lo: int, hi: int)
    ensures CountIn(times, lo, hi) == |set i | 0 <= i < |times| && lo <= times[i] <= hi|
  {
    var here := set i | 0 <= i < |times| && lo <= times[i] <= hi;
    if times == [] {
      assert here == {};
    } else {
      var n := |times| - 1;
      var front := times[..n];
      CountMeans(front, lo, hi);
      var before := set i | 0 <= i < |front| && lo <= front[i] <= hi;
      assert here == before + if lo <= times[n] <= hi then {n} else {};
    }
  }

  predicate AtMost(times: seq<int>, top: int) {
    forall i :: 0 <= i < |times| ==> times[i] <= top
  }

  predicate Sorted(times: seq<int>) {
    forall i, j :: 0 <= i < j < |times| ==> times[i] <= times[j]
  }

  function Ceiling(x: real): (n: int)
    ensures x <= n as real < x + 1.0
  {
    -((-x).Floor)
  }

  lemma {:induction false} CountAdds(times: seq<int>, lo: int, mid: int, hi: int, from: int)
    requires from <= lo && lo <= mid + 1 && mid <= hi
    ensures CountIn(times, lo, hi) <= CountIn(times, from, mid) + CountIn(times, mid + 1, hi)
  {
    if times != [] {
      CountAdds(times[..|times| - 1], lo, mid, hi, from);
    }
  }

  lemma {:induction false} CountCapped(times: seq<int>, lo: int, hi: int, from: int, top: int)
    requires from <= lo && AtMost(times, top)
    ensures CountIn(times, lo, hi) <= CountIn(times, from, top)
  {
    if times != [] {
      CountCapped(times[..|times| - 1], lo, hi, from, top);
    }
  }

  lemma {:induction false} CountNone(times: seq<int>, lo: int, hi: int)
    requires AtMost(times, lo - 1)
    ensures CountIn(times, lo, hi) == 0
  {
    if times != [] {
      CountNone(times[..|times| - 1], lo, hi);
    }
  }

  lemma CountSnoc(times: seq<int>, t: int, lo: int, hi: int)
    ensures CountIn(times + [t], lo, hi) == CountIn(times, lo, hi) + if lo <= t <= hi then 1 else 0
  {
    assert (times + [t])[..|times|] == times;
  }

  lemma {:induction false} CountAll(times: seq<int>, lo: int, hi: int)
    requires forall i :: 0 <= i < |times| ==> lo <= times[i] <= hi
    ensures CountIn(times, lo, hi) == |times|
  {
    if times != [] {
      CountAll(times[..|times| - 1], lo, hi);
    }
  }
}
