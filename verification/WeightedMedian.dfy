/** The weighted median used for consensus values (src/swarm/coordinator-utils.ts).
    Numbers are reals. */
module WeightedMedian {
  import opened Prelude
  import opened Sorting

  datatype Entry = Entry(value: real, weight: real)

  /** Math.max(0, weight). */
  function Weight(): Entry -> real {
    (e: Entry) => if e.weight > 0.0 then e.weight else 0.0
  }

  function One(): Entry -> real {
    (e: Entry) => 1.0
  }

  /** The part of a measure on entries with values below, or up to, `m`. */
  function Below(g: Entry -> real, m: real): Entry -> real {
    (e: Entry) => if e.value < m then g(e) else 0.0
  }

  function UpTo(g: Entry -> real, m: real): Entry -> real {
    (e: Entry) => if e.value <= m then g(e) else 0.0
  }

  ghost predicate NonNegative(g: Entry -> real) {
    forall e :: g(e) >= 0.0
  }

  // ---------------------------------------------------------------- sorting by value

  function ByValue(): (Entry, Entry) -> bool {
    (a: Entry, b: Entry) => a.value <= b.value
  }

  // ---------------------------------------------------------------- what a median is

  /** Where the measure reaches its middle: less than half (as given by `half`) lies below
      `m`, and at least half lies up to it. */
  ghost predicate Straddles(s: seq<Entry>, g: Entry -> real, half: real, m: real) {
    RealSum(s, Below(g, m)) < half <= RealSum(s, UpTo(g, m))
  }

  function TotalWeight(s: seq<Entry>): real {
    RealSum(s, Weight())
  }

  /** With positive total weight, the lower weighted median; otherwise the middle value of the
      sorted list (position floor(n / 2)). */
  ghost predicate IsMedian(s: seq<Entry>, m: real) {
    && (exists i :: 0 <= i < |s| && s[i].value == m)
    && if TotalWeight(s) > 0.0 then Straddles(s, Weight(), TotalWeight(s) / 2.0, m)
       else Straddles(s, One(), (|s| / 2 + 1) as real, m)
  }

  /** In a sorted list, what precedes position `i` bounds the measure below its value, and
      what precedes position `i + 1` bounds the measure up to it. */
  lemma {:induction false} PrefixBounds(s: seq<Entry>, g: Entry -> real, i: nat)
    requires SortedBy(s, ByValue()) && NonNegative(g) && i < |s|
    ensures RealSum(s, Below(g, s[i].value)) <= RealSum(s[..i], g)
    ensures RealSum(s[..i + 1], g) <= RealSum(s, UpTo(g, s[i].value))
  {
    var n := |s| - 1;
    var m := s[i].value;
    if i == n {
      assert s[..i + 1] == s && s[..n][..i] == s[..i];
      RealSumBound(s[..n], Below(g, m), g);
      RealSumBound(s, g, UpTo(g, m));
    } else {
      PrefixBounds(s[..n], g, i);
      assert s[..n][..i] == s[..i] && s[..n][..i + 1] == s[..i + 1];
    }
  }

  lemma {:induction false} CountIsLength(s: seq<Entry>)
    ensures RealSum(s, One()) == |s| as real
  {
    if s != [] {
      CountIsLength(s[..|s| - 1]);
    }
  }

  /** The straddling point does not depend on the order of the entries. */
  lemma StraddlesPermuted(s: seq<Entry>, t: seq<Entry>, g: Entry -> real, half: real, m: real)
    requires multiset(s) == multiset(t) && Straddles(s, g, half, m)
    ensures Straddles(t, g, half, m)
  {
    RealSumPermuted(s, t, Below(g, m));
    RealSumPermuted(s, t, UpTo(g, m));
  }

  lemma MedianPermuted(s: seq<Entry>, t: seq<Entry>, m: real)
    requires multiset(s) == multiset(t) && IsMedian(s, m)
    ensures IsMedian(t, m)
  {
    hide RealSum;
    RealSumPermuted(s, t, Weight());
    assert |s| == |multiset(s)| == |multiset(t)| == |t|;
    if TotalWeight(s) > 0.0 {
      StraddlesPermuted(s, t, Weight(), TotalWeight(s) / 2.0, m);
    } else {
      StraddlesPermuted(s, t, One(), (|s| / 2 + 1) as real, m);
    }
    var i :| 0 <= i < |s| && s[i].value == m;
    assert s[i] in multiset(t);
    var j :| 0 <= j < |t| && t[j] == s[i];
  }

  lemma ReachedHalf(s: seq<Entry>, i: nat)
    requires SortedBy(s, ByValue()) && i < |s| && TotalWeight(s) > 0.0
    requires RealSum(s[..i], Weight()) < TotalWeight(s) / 2.0 <= RealSum(s[..i + 1], Weight())
    ensures IsMedian(s, s[i].value)
  {
    PrefixBounds(s, Weight(), i);
  }

  /** weightedMedian. The return after the loop is never reached. */
  method ComputeWeightedMedian(entries: seq<Entry>) returns (m: real)
    ensures entries == [] ==> m == 0.0
    ensures entries != [] ==> IsMedian(entries, m)
  {
    hide RealSum, IsMedian, SortedBy, Sort;
    m := 0.0;
    if |entries| == 0 {
      return;
    }
    var sorted := Sort(entries, ByValue());
    SortSorts(entries, ByValue());
    var totalWeight := RealSum(sorted, Weight());
    if totalWeight <= 0.0 {
      m := sorted[|sorted| / 2].value;
      MiddleIsMedian(sorted);
      MedianPermuted(sorted, entries, m);
      return;
    }
    var cumulative := 0.0;
    EmptySum(sorted[..0]);
    assert sorted[..|sorted|] == sorted;
    for i := 0 to |sorted|
      invariant cumulative == RealSum(sorted[..i], Weight())
      invariant cumulative < totalWeight / 2.0
    {
      RealSumAppend(sorted[..i], sorted[i], Weight());
      assert sorted[..i + 1] == sorted[..i] + [sorted[i]];
      cumulative := cumulative + (if sorted[i].weight > 0.0 then sorted[i].weight else 0.0);
      if cumulative >= totalWeight / 2.0 {
        m := sorted[i].value;
        ReachedHalf(sorted, i);
        MedianPermuted(sorted, entries, m);
        return;
      }
    }
    assert false;
  }

  lemma EmptySum(s: seq<Entry>)
    requires s == []
    ensures RealSum(s, Weight()) == 0.0
  {
  }

  lemma MiddleIsMedian(s: seq<Entry>)
    requires SortedBy(s, ByValue()) && s != [] && TotalWeight(s) <= 0.0
    ensures IsMedian(s, s[|s| / 2].value)
  {
    var k := |s| / 2;
    PrefixBounds(s, One(), k);
    CountIsLength(s[..k]);
    CountIsLength(s[..k + 1]);
  }

  // ---------------------------------------------------------------- the promises

  /** Between two values lies the whole measure up to the smaller one. */
  lemma {:induction false} UpToBeforeBelow(s: seq<Entry>, g: Entry -> real, m: real, m': real)
    requires NonNegative(g) && m < m'
    ensures RealSum(s, UpTo(g, m)) <= RealSum(s, Below(g, m'))
  {
    RealSumBound(s, UpTo(g, m), Below(g, m'));
  }

  lemma StraddlesUnique(s: seq<Entry>, g: Entry -> real, half: real, m: real, m': real)
    requires NonNegative(g) && Straddles(s, g, half, m) && Straddles(s, g, half, m')
    ensures m == m'
  {
    if m < m' {
      UpToBeforeBelow(s, g, m, m');
    } else if m' < m {
      UpToBeforeBelow(s, g, m', m);
    }
  }

  /** The result depends only on the multiset of entries. */
  lemma MedianIsOrderIndependent(s: seq<Entry>, t: seq<Entry>, m: real, m': real)
    requires multiset(s) == multiset(t) && IsMedian(s, m) && IsMedian(t, m')
    ensures m == m'
  {
    MedianPermuted(t, s, m');
    if TotalWeight(s) > 0.0 {
      StraddlesUnique(s, Weight(), TotalWeight(s) / 2.0, m, m');
    } else {
      StraddlesUnique(s, One(), (|s| / 2 + 1) as real, m, m');
    }
  }

  function Abs(x: real): real {
    if x < 0.0 then -x else x
  }

  /** The weighted distance of an entry from `x`. */
  function Deviation(x: real): Entry -> real {
    (e: Entry) => Times(if e.weight < 0.0 then 0.0 else e.weight, if e.value < x then x - e.value else e.value - x)
  }

  function Cost(s: seq<Entry>, x: real): real {
    RealSum(s, Deviation(x))
  }

  // Arithmetic steps of the minimality proof, over plain variables.

  lemma EntryToTheRight(w: real, v: real, m: real, x: real)
    requires w >= 0.0 && x >= m
    ensures Times(w, Abs(v - x)) - Times(w, Abs(v - m)) >= Times(x - m, if v <= m then w else -w)
  {
    var p, q, slope := Abs(v - x), Abs(v - m), if v <= m then x - m else -(x - m);
    assert w * (p - q - slope) >= 0.0;
  }

  lemma EntryToTheLeft(w: real, v: real, m: real, x: real)
    requires w >= 0.0 && x <= m
    ensures Times(w, Abs(v - x)) - Times(w, Abs(v - m)) >= Times(m - x, if v < m then -w else w)
  {
    var p, q, slope := Abs(v - x), Abs(v - m), if v < m then -(m - x) else m - x;
    assert w * (p - q - slope) >= 0.0;
  }

  lemma AddSlopes(difference: real, d: real, a: real, difference': real, b: real, sum: real)
    requires difference >= Times(d, a) && difference' >= Times(d, b) && sum == a + b
    ensures difference + difference' >= Times(d, sum)
  {
    assert d * (a + b) == d * a + d * b;
  }

  lemma LastTerm(s: seq<Entry>, f: Entry -> real)
    requires s != []
    ensures RealSum(s, f) == RealSum(s[..|s| - 1], f) + f(s[|s| - 1])
  {
  }

  /** Moving right from `m` costs at least the weight up to `m` less the weight above. */
  lemma {:induction false} CostToTheRight(s: seq<Entry>, m: real, x: real)
    requires x >= m
    ensures Cost(s, x) - Cost(s, m) >= Times(x - m, 2.0 * RealSum(s, UpTo(Weight(), m)) - TotalWeight(s))
  {
    if s != [] {
      hide RealSum, Abs, Times;
      var r, e := s[..|s| - 1], s[|s| - 1];
      var w := Weight()(e);
      LastTerm(s, Deviation(x));
      LastTerm(s, Deviation(m));
      LastTerm(s, UpTo(Weight(), m));
      LastTerm(s, Weight());
      CostToTheRight(r, m, x);
      EntryToTheRight(w, e.value, m, x);
      AddSlopes(Cost(r, x) - Cost(r, m), x - m, 2.0 * RealSum(r, UpTo(Weight(), m)) - TotalWeight(r),
                Times(w, Abs(e.value - x)) - Times(w, Abs(e.value - m)), if e.value <= m then w else -w,
                2.0 * RealSum(s, UpTo(Weight(), m)) - TotalWeight(s));
    }
  }

  lemma {:induction false} CostToTheLeft(s: seq<Entry>, m: real, x: real)
    requires x <= m
    ensures Cost(s, x) - Cost(s, m) >= Times(m - x, TotalWeight(s) - 2.0 * RealSum(s, Below(Weight(), m)))
  {
    if s != [] {
      hide RealSum, Abs, Times;
      var r, e := s[..|s| - 1], s[|s| - 1];
      var w := Weight()(e);
      LastTerm(s, Deviation(x));
      LastTerm(s, Deviation(m));
      LastTerm(s, Below(Weight(), m));
      LastTerm(s, Weight());
      CostToTheLeft(r, m, x);
      EntryToTheLeft(w, e.value, m, x);
      AddSlopes(Cost(r, x) - Cost(r, m), m - x, TotalWeight(r) - 2.0 * RealSum(r, Below(Weight(), m)),
                Times(w, Abs(e.value - x)) - Times(w, Abs(e.value - m)), if e.value < m then -w else w,
                TotalWeight(s) - 2.0 * RealSum(s, Below(Weight(), m)));
    }
  }

  lemma NonNegativeProduct(d: real, a: real, difference: real)
    requires d >= 0.0 && a >= 0.0 && difference >= Times(d, a)
    ensures difference >= 0.0
  {
    assert d * a >= 0.0;
  }

  /** With positive total weight the result minimises the weighted absolute deviation over
      all reals. */
  lemma MedianMinimisesDeviation(s: seq<Entry>, m: real, x: real)
    requires TotalWeight(s) > 0.0 && IsMedian(s, m)
    ensures Cost(s, m) <= Cost(s, x)
  {
    hide RealSum, Times;
    if x >= m {
      CostToTheRight(s, m, x);
      NonNegativeProduct(x - m, 2.0 * RealSum(s, UpTo(Weight(), m)) - TotalWeight(s), Cost(s, x) - Cost(s, m));
    } else {
      CostToTheLeft(s, m, x);
      NonNegativeProduct(m - x, TotalWeight(s) - 2.0 * RealSum(s, Below(Weight(), m)), Cost(s, x) - Cost(s, m));
    }
  }

  /** The weight of the entries selected by `chosen`. */
  function WeightOf(s: seq<Entry>, chosen: seq<bool>): real
    requires |chosen| == |s|
  {
    if s == [] then 0.0
    else
      var n := |s| - 1;
      WeightOf(s[..n], chosen[..n]) + if chosen[n] then Weight()(s[n]) else 0.0
  }

  lemma {:induction false} ChosenAbove(s: seq<Entry>, chosen: seq<bool>, m: real)
    requires |chosen| == |s| && forall i :: 0 <= i < |s| && chosen[i] ==> m < s[i].value
    ensures WeightOf(s, chosen) + RealSum(s, UpTo(Weight(), m)) <= TotalWeight(s)
  {
    if s != [] {
      var n := |s| - 1;
      ChosenAbove(s[..n], chosen[..n], m);
    }
  }

  lemma {:induction false} ChosenBelow(s: seq<Entry>, chosen: seq<bool>, m: real)
    requires |chosen| == |s| && forall i :: 0 <= i < |s| && chosen[i] ==> s[i].value < m
    ensures WeightOf(s, chosen) <= RealSum(s, Below(Weight(), m))
  {
    if s != [] {
      var n := |s| - 1;
      ChosenBelow(s[..n], chosen[..n], m);
    }
  }

  /** A group that holds more than half of the weight keeps the result inside its own range,
      whatever the others report. */
  lemma MajorityBoundsMedian(s: seq<Entry>, chosen: seq<bool>, lo: real, hi: real, m: real)
    requires TotalWeight(s) > 0.0 && IsMedian(s, m)
    requires |chosen| == |s| && 2.0 * WeightOf(s, chosen) > TotalWeight(s)
    requires forall i :: 0 <= i < |s| && chosen[i] ==> lo <= s[i].value <= hi
    ensures lo <= m <= hi
  {
    if m < lo {
      ChosenAbove(s, chosen, m);
    }
    if hi < m {
      ChosenBelow(s, chosen, m);
    }
  }
}
