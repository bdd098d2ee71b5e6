/** Event lists pruned to a time window, and why pruning early loses nothing. */
module SlidingWindow {
  import opened Prelude

  datatype Timed<T> = Timed(at: int, item: T)

  /** The events at or after the cutoff, in order. */
  function Since<T>(es: seq<Timed<T>>, cutoff: int): seq<Timed<T>> {
    if es == [] then []
    else
      var kept := Since(es[..|es| - 1], cutoff);
      if es[|es| - 1].at >= cutoff then kept + [es[|es| - 1]] else kept
  }

  function NotBefore<T>(cutoff: int): Timed<T> -> bool {
    (e: Timed<T>) => e.at >= cutoff
  }

  /** Exactly the events that are not before the cutoff are kept, in their order. */
  lemma {:induction false} SinceExactly<T>(es: seq<Timed<T>>, cutoff: int)
    ensures var at := Positions(es, NotBefore(cutoff));
            |Since(es, cutoff)| == |at| && forall k :: 0 <= k < |at| ==> Since(es, cutoff)[k] == es[at[k]]
  {
    if es != [] {
      SinceExactly(es[..|es| - 1], cutoff);
    }
  }

  lemma SinceAppend<T>(es: seq<Timed<T>>, e: Timed<T>, cutoff: int)
    ensures Since(es + [e], cutoff) == if e.at >= cutoff then Since(es, cutoff) + [e] else Since(es, cutoff)
  {
    assert (es + [e])[..|es|] == es;
  }

  lemma {:induction false} SinceConcat<T>(es: seq<Timed<T>>, fs: seq<Timed<T>>, cutoff: int)
    ensures Since(es + fs, cutoff) == Since(es, cutoff) + Since(fs, cutoff)
    decreases |fs|
  {
    if fs == [] {
      assert es + fs == es && Since(es, cutoff) + [] == Since(es, cutoff);
    } else {
      var n := |fs| - 1;
      SinceConcat(es, fs[..n], cutoff);
      SinceAppend(es + fs[..n], fs[n], cutoff);
      assert es + fs == (es + fs[..n]) + [fs[n]];
    }
  }

  /** Pruning to an earlier cutoff first does not change what a later cutoff leaves. */
  lemma {:induction false} SinceTwice<T>(es: seq<Timed<T>>, c: int, c': int)
    requires c <= c'
    ensures Since(Since(es, c), c') == Since(es, c')
  {
    if es != [] {
      var n := |es| - 1;
      SinceTwice(es[..n], c, c');
      SinceAppend(Since(es[..n], c), es[n], c');
    }
  }

  /** The pruned list stands for the full one at every cutoff from `from` on. */
  ghost predicate Stands<T>(pruned: seq<Timed<T>>, full: seq<Timed<T>>, from: int) {
    forall c :: c >= from ==> Since(pruned, c) == Since(full, c)
  }

  /** Prune to the window that ends now, then add the events of now: still a stand-in. */
  lemma StandsAfter<T>(pruned: seq<Timed<T>>, full: seq<Timed<T>>, from: int, cutoff: int, added: seq<Timed<T>>)
    requires Stands(pruned, full, from) && from <= cutoff
    ensures Stands(Since(pruned, cutoff) + added, full + added, cutoff)
  {
    forall c | c >= cutoff ensures Since(Since(pruned, cutoff) + added, c) == Since(full + added, c) {
      SinceTwice(pruned, cutoff, c);
      SinceConcat(Since(pruned, cutoff), added, c);
      SinceConcat(full, added, c);
    }
  }

  lemma StandsAt<T>(pruned: seq<Timed<T>>, full: seq<Timed<T>>, from: int, c: int)
    requires Stands(pruned, full, from) && from <= c
    ensures Since(pruned, c) == Since(full, c)
  {
  }

  lemma StandsLater<T>(pruned: seq<Timed<T>>, full: seq<Timed<T>>, from: int, from': int)
    requires Stands(pruned, full, from) && from <= from'
    ensures Stands(pruned, full, from')
  {
  }
}
