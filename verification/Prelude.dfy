/** Definitions shared by the component models: optional values, sequences
    without repetition, and sums and counts over sequences. */
module Prelude {

  datatype Option<+T> = None | Some(value: T)

  predicate Distinct<T(==)>(s: seq<T>) {
    forall i, j :: 0 <= i < j < |s| ==> s[i] != s[j]
  }

  function Elements<T>(s: seq<T>): set<T> {
    set x | x in s
  }

  /** A sequence longer than a set that holds all its elements repeats one of them. */
  lemma {:induction false} Pigeonhole<T>(s: seq<T>, u: set<T>)
    requires forall i :: 0 <= i < |s| ==> s[i] in u
    requires |s| > |u|
    ensures !Distinct(s)
  {
    if Distinct(s) {
      DistinctSize(s);
      SubsetSize(Elements(s), u);
      assert false;
    }
  }

  lemma {:induction false} DistinctSize<T>(s: seq<T>)
    requires Distinct(s)
    ensures |Elements(s)| == |s|
  {
    if s != [] {
      var n := |s| - 1;
      DistinctSize(s[..n]);
      assert Elements(s) == Elements(s[..n]) + {s[n]};
    }
  }

  lemma {:induction false} DistinctCount<T>(s: seq<T>, x: T)
    requires Distinct(s)
    ensures multiset(s)[x] == if x in s then 1 else 0
  {
    if s != [] {
      var n := |s| - 1;
      DistinctCount(s[..n], x);
      assert s == s[..n] + [s[n]];
    }
  }

  lemma {:induction false} SubsetSize<T>(a: set<T>, b: set<T>)
    requires a <= b
    ensures |a| <= |b|
    ensures |a| == |b| ==> a == b
  {
    assert b == a + (b - a);
    assert |b| == |a| + |b - a|;
    if |a| == |b| {
      assert b - a == {};
    }
  }

  /** No two of the given strings have one digest. */
  ghost predicate CollisionFreeOn(hash: string -> string, texts: set<string>) {
    forall x, y :: x in texts && y in texts && hash(x) == hash(y) ==> x == y
  }

  /** The texts one after the other with a separator between them (JavaScript's join). */
  function Joined(texts: seq<string>, separator: string): string {
    if texts == [] then ""
    else if |texts| == 1 then texts[0]
    else Joined(texts[..|texts| - 1], separator) + separator + texts[|texts| - 1]
  }

  /** A product under a name, so that proofs can choose not to look inside. */
  function Times(a: real, b: real): real {
    a * b
  }

  /** The clock never goes back in a run of steps. */
  ghost predicate Monotone<T>(steps: seq<T>, time: T -> int) {
    forall i, j :: 0 <= i < j < |steps| ==> time(steps[i]) <= time(steps[j])
  }

  /** The clock never goes back, and reads at most `last` at every step. */
  ghost predicate MonotoneUntil<T>(steps: seq<T>, time: T -> int, last: int) {
    Monotone(steps, time) && forall i :: 0 <= i < |steps| ==> time(steps[i]) <= last
  }

  /** The sum of `f` over a sequence. */
  function Sum<T>(s: seq<T>, f: T -> int): int {
    if s == [] then 0 else Sum(s[..|s| - 1], f) + f(s[|s| - 1])
  }

  lemma SumAppend<T>(s: seq<T>, x: T, f: T -> int)
    ensures Sum(s + [x], f) == Sum(s, f) + f(x)
  {
    assert (s + [x])[..|s|] == s;
  }

  lemma {:induction false} SumUpdate<T>(s: seq<T>, i: nat, x: T, f: T -> int)
    requires i < |s|
    ensures Sum(s[i := x], f) == Sum(s, f) - f(s[i]) + f(x)
  {
    var n := |s| - 1;
    if i == n {
      assert s[i := x][..n] == s[..n];
    } else {
      SumUpdate(s[..n], i, x, f);
      assert s[i := x][..n] == s[..n][i := x];
    }
  }

  lemma {:induction false} SumRemove<T>(s: seq<T>, i: nat, f: T -> int)
    requires i < |s|
    ensures Sum(s[..i] + s[i + 1..], f) == Sum(s, f) - f(s[i])
  {
    var n := |s| - 1;
    if i == n {
      assert s[..i] + s[i + 1..] == s[..n];
    } else {
      SumRemove(s[..n], i, f);
      assert (s[..i] + s[i + 1..])[..n - 1] == s[..n][..i] + s[..n][i + 1..];
    }
  }

  /** Sums of functions that agree on every element are equal. */
  lemma {:induction false} SumPointwise<S, T>(s: seq<S>, t: seq<T>, f: S -> int, g: T -> int)
    requires |s| == |t|
    requires forall i :: 0 <= i < |s| ==> f(s[i]) == g(t[i])
    ensures Sum(s, f) == Sum(t, g)
  {
    if s != [] {
      SumPointwise(s[..|s| - 1], t[..|t| - 1], f, g);
    }
  }

  lemma {:induction false} SumBound<T>(s: seq<T>, f: T -> int, g: T -> int)
    requires forall i :: 0 <= i < |s| ==> f(s[i]) <= g(s[i])
    ensures Sum(s, f) <= Sum(s, g)
  {
    if s != [] {
      SumBound(s[..|s| - 1], f, g);
    }
  }

  /** The first position whose element satisfies `p`, or the length if there is none
      (JavaScript's findIndex, with the length in place of -1). */
  function First<T>(s: seq<T>, p: T -> bool): (i: nat)
    ensures i <= |s|
    ensures i < |s| ==> p(s[i])
    ensures forall j :: 0 <= j < i ==> !p(s[j])
  {
    if s == [] then 0
    else if p(s[0]) then 0
    else
      1 + First(s[1..], p)
  }

  /** The first element that satisfies `p` (JavaScript's find). */
  function Find<T>(s: seq<T>, p: T -> bool): Option<T> {
    var i := First(s, p);
    if i < |s| then Some(s[i]) else None
  }

  ghost predicate AtMostOne<T>(s: seq<T>, p: T -> bool) {
    forall j, k :: 0 <= j < k < |s| ==> !(p(s[j]) && p(s[k]))
  }

  lemma FindAt<T>(s: seq<T>, i: nat, p: T -> bool)
    requires AtMostOne(s, p) && i < |s| && p(s[i])
    ensures First(s, p) == i && Find(s, p) == Some(s[i])
  {
  }

  lemma FindUpdate<T>(s: seq<T>, i: nat, x: T, p: T -> bool)
    requires AtMostOne(s, p) && i < |s| && p(x) == p(s[i])
    ensures Find(s[i := x], p) == if p(s[i]) then Some(x) else Find(s, p)
  {
    var t, k := s[i := x], First(s, p);
    if k < |s| {
      FindAt(t, k, p);
    } else {
      FindNone(t, p);
    }
  }

  lemma FindNone<T>(s: seq<T>, p: T -> bool)
    requires forall i :: 0 <= i < |s| ==> !p(s[i])
    ensures Find(s, p) == None
  {
  }

  lemma FindAppend<T>(s: seq<T>, x: T, p: T -> bool)
    requires p(x) ==> First(s, p) == |s|
    ensures Find(s + [x], p) == if p(x) then Some(x) else Find(s, p)
  {
    var t, k := s + [x], First(s, p);
    if p(x) {
      assert First(t, p) == |s| by {
        assert t[|s|] == x;
      }
    } else if k < |s| {
      assert First(t, p) == k by {
        assert t[k] == s[k];
      }
    } else {
      FindNone(t, p);
    }
  }

  lemma FindRemove<T>(s: seq<T>, i: nat, p: T -> bool)
    requires AtMostOne(s, p) && i < |s|
    ensures Find(s[..i] + s[i + 1..], p) == if p(s[i]) then None else Find(s, p)
  {
    var t, k := s[..i] + s[i + 1..], First(s, p);
    assert forall j :: 0 <= j < |t| ==> t[j] == s[if j < i then j else j + 1];
    if k < |s| && k != i {
      FindAt(t, if k < i then k else k - 1, p);
    } else {
      FindNone(t, p);
    }
  }

  /** The positions whose elements satisfy `p`, in order (JavaScript's filter). */
  function Positions<T>(s: seq<T>, p: T -> bool): (r: seq<nat>)
    ensures forall i :: i in r <==> 0 <= i < |s| && p(s[i])
    ensures forall a, b :: 0 <= a < b < |r| ==> r[a] < r[b]
    ensures forall a :: 0 <= a < |r| ==> 0 <= r[a] < |s| && p(s[r[a]])
  {
    if s == [] then []
    else
      var n := |s| - 1;
      var r := Positions(s[..n], p);
      assert forall a :: 0 <= a < |r| ==> r[a] in r;
      if p(s[n]) then r + [n] else r
  }

  // ---------------------------------------------------------------- real-valued sums

  function RealSum<T>(s: seq<T>, f: T -> real): real {
    if s == [] then 0.0 else RealSum(s[..|s| - 1], f) + f(s[|s| - 1])
  }

  lemma RealSumAppend<T>(s: seq<T>, x: T, f: T -> real)
    ensures RealSum(s + [x], f) == RealSum(s, f) + f(x)
  {
    assert (s + [x])[..|s|] == s;
  }

  lemma {:induction false} RealSumBound<T>(s: seq<T>, f: T -> real, g: T -> real)
    requires forall i :: 0 <= i < |s| ==> f(s[i]) <= g(s[i])
    ensures RealSum(s, f) <= RealSum(s, g)
  {
    if s != [] {
      RealSumBound(s[..|s| - 1], f, g);
    }
  }

  lemma {:induction false} RealSumRemove<T>(s: seq<T>, i: nat, f: T -> real)
    requires i < |s|
    ensures RealSum(s, f) == RealSum(s[..i] + s[i + 1..], f) + f(s[i])
  {
    var n := |s| - 1;
    if i == n {
      assert s[..i] + s[i + 1..] == s[..n];
    } else {
      RealSumRemove(s[..n], i, f);
      assert (s[..i] + s[i + 1..])[..n - 1] == s[..n][..i] + s[..n][i + 1..];
    }
  }

  /** A sum does not depend on the order of the elements. */
  lemma {:induction false} RealSumPermuted<T>(s: seq<T>, t: seq<T>, f: T -> real)
    requires multiset(s) == multiset(t)
    ensures RealSum(s, f) == RealSum(t, f)
    decreases |s|
  {
    assert |s| == |multiset(s)| && |t| == |multiset(t)|;
    if s != [] {
      var n := |s| - 1;
      var x := s[n];
      assert x in multiset(t);
      var i :| 0 <= i < |t| && t[i] == x;
      RemoveFromBoth(s, n, t, i);
      RealSumRemove(s, n, f);
      RealSumRemove(t, i, f);
      RealSumPermuted(s[..n] + s[n + 1..], t[..i] + t[i + 1..], f);
    }
  }

  lemma MultisetRemove<T>(s: seq<T>, n: nat)
    requires n < |s|
    ensures multiset(s) == multiset(s[..n] + s[n + 1..]) + multiset{s[n]}
  {
    assert s == s[..n] + ([s[n]] + s[n + 1..]);
  }

  lemma RemoveFromBoth<T>(s: seq<T>, n: nat, t: seq<T>, i: nat)
    requires multiset(s) == multiset(t) && n < |s| && i < |t| && s[n] == t[i]
    ensures multiset(s[..n] + s[n + 1..]) == multiset(t[..i] + t[i + 1..])
  {
    MultisetRemove(s, n);
    MultisetRemove(t, i);
    var a, b := multiset(s[..n] + s[n + 1..]), multiset(t[..i] + t[i + 1..]);
    assert a == (a + multiset{s[n]}) - multiset{s[n]} && b == (b + multiset{s[n]}) - multiset{s[n]};
  }
}
