/** What a run has switched on and not off again. */
module History {

  // Event n switched it on, and none after that one switched it off.
  ghost predicate OnSince<E(!new)>(run: seq<E>, n: nat, on: E -> bool, off: E -> bool)
    requires n < |run|
  {
    on(run[n]) && Never(run[n + 1..], off)
  }

  ghost predicate Since<E(!new)>(run: seq<E>, on: E -> bool, off: E -> bool) {
    exists n: nat :: n < |run| && OnSince(run, n, on, off)
  }

  ghost predicate Never<E(!new)>(run: seq<E>, off: E -> bool) {
    forall m | 0 <= m < |run| :: !off(run[m])
  }

  lemma NeverAppend<E(!new)>(a: seq<E>, b: seq<E>, off: E -> bool)
    ensures Never(a + b, off) <==> Never(a, off) && Never(b, off)
  {
    if Never(a + b, off) {
      assert forall m | 0 <= m < |a| :: a[m] == (a + b)[m];
      assert forall m | 0 <= m < |b| :: b[m] == (a + b)[|a| + m];
    }
  }

  lemma OnSinceEarlier<E(!new)>(run: seq<E>, k: nat, on: E -> bool, off: E -> bool)
    requires k + 1 < |run|
    ensures var n := |run| - 1;
            OnSince(run, k, on, off) <==> OnSince(run[..n], k, on, off) && !off(run[n])
  {
    var n := |run| - 1;
    assert run[k + 1..] == run[..n][k + 1..] + [run[n]];
    NeverAppend(run[..n][k + 1..], [run[n]], off);
    assert Never([run[n]], off) <==> !off([run[n]][0]);
  }

  lemma SinceLast<E(!new)>(run: seq<E>, on: E -> bool, off: E -> bool)
    requires run != []
    ensures var n := |run| - 1;
            Since(run, on, off) <==> on(run[n]) || (Since(run[..n], on, off) && !off(run[n]))
  {
    var n := |run| - 1;
    assert OnSince(run, n, on, off) <==> on(run[n]);
    forall k: nat | k < n
      ensures OnSince(run, k, on, off) <==> OnSince(run[..n], k, on, off) && !off(run[n])
    {
      OnSinceEarlier(run, k, on, off);
    }
  }

  lemma SinceFirst<E(!new)>(run: seq<E>, on: E -> bool, off: E -> bool)
    requires run != []
    ensures Since(run, on, off) <==> Since(run[1..], on, off) || OnSince(run, 0, on, off)
    ensures Never(run, off) <==> !off(run[0]) && Never(run[1..], off)
  {
    assert run == [run[0]] + run[1..];
    NeverAppend([run[0]], run[1..], off);
    assert Never([run[0]], off) <==> !off([run[0]][0]);
    forall k: nat | k < |run| - 1
      ensures OnSince(run, k + 1, on, off) <==> OnSince(run[1..], k, on, off)
    {
      assert run[k + 2..] == run[1..][k + 1..];
    }
    if Since(run, on, off) {
      var k: nat :| k < |run| && OnSince(run, k, on, off);
      if k > 0 {
        assert OnSince(run[1..], k - 1, on, off);
      }
    }
  }
}
