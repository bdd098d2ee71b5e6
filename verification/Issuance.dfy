/** Token issuance arithmetic (src/economy/issuance.ts) over reals. */
module Issuance {
  import opened Prelude

  /** From here on toFixed prints a number without rounding it. */
  const UNROUNDED := 1000000000000000000000.0

  /** The number of six (nine) decimals nearest to a non-negative number, the larger one on a tie. */
  function Round6(x: real): real {
    (x * 1000000.0 + 0.5).Floor as real / 1000000.0
  }

  function Round9(x: real): real {
    (x * 1000000000.0 + 0.5).Floor as real / 1000000000.0
  }

  /** Number(x.toFixed(6)): rounds the absolute value and puts the sign back. */
  function ToFixed6(x: real): real {
    if x >= UNROUNDED || x <= -UNROUNDED then x
    else if x < 0.0 then -Round6(-x)
    else Round6(x)
  }

  function ToFixed9(x: real): real {
    if x >= UNROUNDED || x <= -UNROUNDED then x
    else if x < 0.0 then -Round9(-x)
    else Round9(x)
  }

  predicate SixDecimals(x: real) {
    (x * 1000000.0).Floor as real == x * 1000000.0
  }

  lemma Round6Facts(x: real)
    ensures -0.0000005 <= Round6(x) - x <= 0.0000005
    ensures x >= 0.0 ==> Round6(x) >= 0.0
    ensures SixDecimals(x) ==> Round6(x) == x
  {
    var y := x * 1000000.0 + 0.5;
    assert y.Floor as real <= y < y.Floor as real + 1.0;
    if SixDecimals(x) {
      var n := (x * 1000000.0).Floor;
      assert (n as real + 0.5).Floor == n;
    }
  }

  lemma Round6Monotone(x: real, y: real)
    requires x <= y
    ensures Round6(x) <= Round6(y)
  {
    assert (x * 1000000.0 + 0.5).Floor <= (y * 1000000.0 + 0.5).Floor;
  }

  /** Rounding moves a number by at most half a millionth and fixes six-decimal numbers. */
  lemma ToFixed6Near(x: real)
    ensures -0.0000005 <= ToFixed6(x) - x <= 0.0000005
    ensures SixDecimals(x) ==> ToFixed6(x) == x
  {
    Round6Facts(x);
    Round6Facts(-x);
    if SixDecimals(x) {
      SixDecimalsNegated(x);
    }
  }

  /** Below 1e21 the result is the six-decimal number that is nearest, and on a tie the one with
      the larger absolute value; from there on a number is left as it is. */
  lemma ToFixed6Exactly(x: real)
    ensures var r, limit := ToFixed6(x), 1000000000000000000000.0;
            if x >= limit || x <= -limit then r == x
            else && SixDecimals(r)
                 && (x >= 0.0 ==> -0.0000005 < r - x <= 0.0000005)
                 && (x < 0.0 ==> -0.0000005 <= r - x < 0.0000005)
  {
    RoundsToMillionths(x);
    RoundsToMillionths(-x);
    hide Round6, SixDecimals;
    if x < 0.0 {
      SixDecimalsNegated(Round6(-x));
    }
  }

  lemma RoundsToMillionths(x: real)
    ensures SixDecimals(Round6(x)) && -0.0000005 < Round6(x) - x <= 0.0000005
  {
    var y := x * 1000000.0 + 0.5;
    assert Round6(x) * 1000000.0 == y.Floor as real;
  }

  lemma SixDecimalsNegated(x: real)
    requires SixDecimals(x)
    ensures SixDecimals(-x)
  {
    FloorNegated(x * 1000000.0);
    assert -x * 1000000.0 == -(x * 1000000.0);
  }

  lemma FloorNegated(y: real)
    requires y.Floor as real == y
    ensures (-y).Floor as real == -y
  {
    var n := y.Floor;
    assert (-n) as real == -y;
  }

  lemma ToFixed6Monotone(x: real, y: real)
    requires x <= y
    ensures ToFixed6(x) <= ToFixed6(y)
  {
    Round6Facts(x);
    Round6Facts(y);
    Round6Facts(-x);
    Round6Facts(-y);
    Round6Monotone(x, y);
    Round6Monotone(-y, -x);
    Round6Facts(UNROUNDED);
    assert SixDecimals(UNROUNDED);
    if x < UNROUNDED {
      Round6Monotone(x, UNROUNDED);
    }
    if y > -UNROUNDED {
      Round6Monotone(-y, UNROUNDED);
    }
  }

  /** A number between two six-decimal bounds stays between them when rounded. */
  lemma ToFixed6Between(lo: real, x: real, hi: real)
    requires lo <= x <= hi && SixDecimals(lo) && SixDecimals(hi)
    ensures lo <= ToFixed6(x) <= hi
  {
    ToFixed6Monotone(lo, x);
    ToFixed6Monotone(x, hi);
    ToFixed6Near(lo);
    ToFixed6Near(hi);
  }

  function Max(a: real, b: real): real { if a >= b then a else b }

  function Min(a: real, b: real): real { if a <= b then a else b }

  function Clamp(value: real, min: real, max: real): real {
    Max(min, Min(max, value))
  }

  // ---------------------------------------------------------------- the load index

  datatype LoadInputs = LoadInputs(queuedTasks: real, activeAgents: real, cpuCapacity: real, gpuCapacity: real)

  const LOW := 0.2
  const HIGH := 6.0

  predicate InRange(x: real) { LOW <= x <= HIGH }

  function ComputeLoadIndex(i: LoadInputs): real {
    var capacity := Max(1.0, i.cpuCapacity + i.gpuCapacity * 2.0);
    var demand := Max(1.0, i.queuedTasks + i.activeAgents);
    ToFixed6(Clamp(demand / capacity, LOW, HIGH))
  }

  /** `None` stands for a missing or non-finite previous value. */
  function SmoothLoadIndex(previous: Option<real>, current: real, alpha: real): real {
    if previous.None? then current
    else
      var a := Clamp(alpha, 0.01, 1.0);
      ToFixed6(Mix(previous.value, current, a))
  }

  function Mix(previous: real, current: real, a: real): real {
    previous * (1.0 - a) + current * a
  }

  lemma BoundsAreSixDecimals()
    ensures SixDecimals(LOW) && SixDecimals(HIGH)
  {
  }

  lemma LoadIndexInRange(i: LoadInputs)
    ensures InRange(ComputeLoadIndex(i))
  {
    BoundsAreSixDecimals();
    var capacity := Max(1.0, i.cpuCapacity + i.gpuCapacity * 2.0);
    var demand := Max(1.0, i.queuedTasks + i.activeAgents);
    ToFixed6Between(LOW, Clamp(demand / capacity, LOW, HIGH), HIGH);
  }

  /** The ratio of demand to capacity, each counted as at least 1. */
  function Scarcity(i: LoadInputs): real {
    var demand, capacity := i.queuedTasks + i.activeAgents, i.cpuCapacity + 2.0 * i.gpuCapacity;
    (if demand < 1.0 then 1.0 else demand) / (if capacity < 1.0 then 1.0 else capacity)
  }

  /** The load index is the scarcity kept between 0.2 and 6, up to half a millionth. */
  lemma LoadIndexIsScarcity(i: LoadInputs)
    ensures var x := Scarcity(i);
            var kept := if x < 0.2 then 0.2 else if x > 6.0 then 6.0 else x;
            -0.0000005 <= ComputeLoadIndex(i) - kept <= 0.0000005
  {
    hide ToFixed6;
    var capacity := Max(1.0, i.cpuCapacity + i.gpuCapacity * 2.0);
    var demand := Max(1.0, i.queuedTasks + i.activeAgents);
    ToFixed6Near(Clamp(demand / capacity, LOW, HIGH));
  }

  lemma RatioMonotone(d: real, c: real, d': real, c': real)
    requires 0.0 < d <= d' && 0.0 < c' <= c
    ensures d / c <= d' / c'
  {
    var q, q' := d / c, d' / c';
    assert q * c == d && q' * c' == d';
    assert q' >= 0.0;
    if q > q' {
      assert q * c > q' * c;
      assert q' * c >= q' * c';
    }
  }

  /** The load index grows with demand and falls with capacity. */
  lemma LoadIndexMonotone(i: LoadInputs, j: LoadInputs)
    requires i.queuedTasks + i.activeAgents <= j.queuedTasks + j.activeAgents
    requires i.cpuCapacity + 2.0 * i.gpuCapacity >= j.cpuCapacity + 2.0 * j.gpuCapacity
    ensures ComputeLoadIndex(i) <= ComputeLoadIndex(j)
  {
    hide ToFixed6;
    var c, c' := Max(1.0, i.cpuCapacity + i.gpuCapacity * 2.0), Max(1.0, j.cpuCapacity + j.gpuCapacity * 2.0);
    var d, d' := Max(1.0, i.queuedTasks + i.activeAgents), Max(1.0, j.queuedTasks + j.activeAgents);
    RatioMonotone(d, c, d', c');
    ToFixed6Monotone(Clamp(d / c, LOW, HIGH), Clamp(d' / c', LOW, HIGH));
  }

  /** The factor that is used: alpha, but at least 0.01 and at most 1. */
  function Factor(alpha: real): real {
    if alpha < 0.01 then 0.01 else if alpha > 1.0 then 1.0 else alpha
  }

  /** The smoothed index moves from the previous one towards the current one by the factor, up to
      half a millionth, and between six-decimal numbers it never leaves the way between them;
      without a previous one it is the current one. */
  lemma SmoothedIsBetween(previous: Option<real>, current: real, alpha: real)
    ensures var x := SmoothLoadIndex(previous, current, alpha);
            if previous == None then x == current
            else
              var p := previous.value;
              && -0.0000005 <= x - (p + Times(Factor(alpha), current - p)) <= 0.0000005
              && (SixDecimals(p) && SixDecimals(current) ==> p <= x <= current || current <= x <= p)
  {
    if previous.Some? {
      hide ToFixed6, SixDecimals;
      var p, a := previous.value, Factor(alpha);
      MixMoves(p, current, a);
      hide Mix, Times;
      ToFixed6Near(Mix(p, current, a));
      if SixDecimals(p) && SixDecimals(current) {
        if p <= current {
          ToFixed6Between(p, Mix(p, current, a), current);
        } else {
          ToFixed6Between(current, Mix(p, current, a), p);
        }
      }
    }
  }

  lemma MixMoves(p: real, c: real, a: real)
    requires 0.0 <= a <= 1.0
    ensures Mix(p, c, a) == p + Times(a, c - p)
    ensures p <= c ==> p <= Mix(p, c, a) <= c
    ensures c <= p ==> c <= Mix(p, c, a) <= p
  {
    var d := c - p;
    assert Mix(p, c, a) == p + a * d;
    if d >= 0.0 {
      PartOf(a, d);
    } else {
      PartOf(a, -d);
      assert a * -d == -(a * d);
    }
  }

  lemma PartOf(a: real, d: real)
    requires 0.0 <= a <= 1.0 && d >= 0.0
    ensures 0.0 <= a * d <= d
  {
    assert (1.0 - a) * d >= 0.0;
    assert (1.0 - a) * d == d - a * d;
  }

  lemma MixInRange(p: real, c: real, a: real)
    requires InRange(p) && InRange(c) && 0.0 <= a <= 1.0
    ensures InRange(Mix(p, c, a))
  {
    assert LOW * (1.0 - a) <= p * (1.0 - a) <= HIGH * (1.0 - a);
    assert LOW * a <= c * a <= HIGH * a;
  }

  lemma SmoothInRange(previous: Option<real>, current: real, alpha: real)
    requires InRange(current) && (previous.Some? ==> InRange(previous.value))
    ensures InRange(SmoothLoadIndex(previous, current, alpha))
  {
    if previous.Some? {
      hide Mix, ToFixed6, SixDecimals;
      var a := Clamp(alpha, 0.01, 1.0);
      MixInRange(previous.value, current, a);
      BoundsAreSixDecimals();
      ToFixed6Between(LOW, Mix(previous.value, current, a), HIGH);
    }
  }

  /** One issuance round: the load it sees and the smoothing factor it uses. */
  datatype Round = Round(inputs: LoadInputs, alpha: real)

  /** The smoothed index after a series of issuance rounds. */
  function IndexAfter(start: Option<real>, rounds: seq<Round>): Option<real> {
    if rounds == [] then start
    else
      var n := |rounds| - 1;
      Some(SmoothLoadIndex(IndexAfter(start, rounds[..n]), ComputeLoadIndex(rounds[n].inputs), rounds[n].alpha))
  }

  /** Over every run of compute-then-smooth rounds the index stays between 0.2 and 6. */
  lemma {:induction false} IndexStaysInRange(start: Option<real>, rounds: seq<Round>)
    requires start.Some? ==> InRange(start.value)
    ensures var x := IndexAfter(start, rounds); x.Some? ==> InRange(x.value)
  {
    if rounds != [] {
      var n := |rounds| - 1;
      IndexStaysInRange(start, rounds[..n]);
      LoadIndexInRange(rounds[n].inputs);
      SmoothInRange(IndexAfter(start, rounds[..n]), ComputeLoadIndex(rounds[n].inputs), rounds[n].alpha);
    }
  }

  // ---------------------------------------------------------------- the daily pool

  datatype PoolConfig = PoolConfig(base: real, min: real, max: real, slope: real)

  function ComputeDailyPoolTokens(loadIndex: real, c: PoolConfig): real {
    ToFixed6(Clamp(Scaled(loadIndex, c), c.min, c.max))
  }

  function Scaled(loadIndex: real, c: PoolConfig): real {
    c.base * (1.0 + Max(0.0, loadIndex - 1.0) * c.slope)
  }

  lemma PoolStaysInLimits(loadIndex: real, c: PoolConfig)
    requires c.min <= c.max && SixDecimals(c.min) && SixDecimals(c.max)
    ensures c.min <= ComputeDailyPoolTokens(loadIndex, c) <= c.max
  {
    hide Scaled, ToFixed6, SixDecimals;
    ToFixed6Between(c.min, Clamp(Scaled(loadIndex, c), c.min, c.max), c.max);
  }

  /** The pool is the base, raised by the slope for each unit of load above 1, kept within the
      limits, up to half a millionth. */
  lemma PoolFollowsLoad(loadIndex: real, c: PoolConfig)
    ensures var extra := if loadIndex > 1.0 then loadIndex - 1.0 else 0.0;
            var x := Times(c.base, 1.0 + Times(extra, c.slope));
            var upTo := if x > c.max then c.max else x;
            var kept := if upTo < c.min then c.min else upTo;
            -0.0000005 <= ComputeDailyPoolTokens(loadIndex, c) - kept <= 0.0000005
  {
    hide ToFixed6;
    ToFixed6Near(Clamp(Scaled(loadIndex, c), c.min, c.max));
  }

  // ---------------------------------------------------------------- hourly allocations

  datatype Share = Share(accountId: string, weightedContribution: real)

  datatype Allocation = Allocation(accountId: string, weightedContribution: real, allocationShare: real,
                                   issuedTokens: real)

  function Positive(): Share -> real {
    (s: Share) => Max(0.0, s.weightedContribution)
  }

  function Contributors(shares: seq<Share>): seq<Share> {
    if shares == [] then []
    else
      var n := |shares| - 1;
      var rest := Contributors(shares[..n]);
      if shares[n].weightedContribution > 0.0 then rest + [shares[n]] else rest
  }

  function Allocate(s: Share, total: real, hourly: real): Allocation
    requires total > 0.0
  {
    var share := s.weightedContribution / total;
    Allocation(s.accountId, ToFixed6(s.weightedContribution), ToFixed9(share), ToFixed6(Times(hourly, share)))
  }

  function ComputeHourlyIssuanceAllocations(shares: seq<Share>, dailyPoolTokens: real): seq<Allocation> {
    var total := RealSum(shares, Positive());
    var hourly := dailyPoolTokens / 24.0;
    if total <= 0.0 || hourly <= 0.0 then []
    else
      var cs := Contributors(shares);
      seq(|cs|, i requires 0 <= i < |cs| => Allocate(cs[i], total, hourly))
  }

  function Issued(): Allocation -> real {
    (a: Allocation) => a.issuedTokens
  }

  function Contributes(): Share -> bool {
    (s: Share) => s.weightedContribution > 0.0
  }

  /** Exactly the shares with a positive contribution get tokens, in order. */
  lemma {:induction false} ContributorsExactly(shares: seq<Share>)
    ensures var at := Positions(shares, Contributes());
            |Contributors(shares)| == |at| && forall k :: 0 <= k < |at| ==> Contributors(shares)[k] == shares[at[k]]
  {
    if shares != [] {
      ContributorsExactly(shares[..|shares| - 1]);
    }
  }

  /** Only positive contributions count towards the total. */
  lemma {:induction false} ContributorsTotal(shares: seq<Share>)
    ensures RealSum(Contributors(shares), Positive()) == RealSum(shares, Positive())
    ensures forall i :: 0 <= i < |Contributors(shares)| ==> Contributors(shares)[i].weightedContribution > 0.0
  {
    if shares != [] {
      var n := |shares| - 1;
      ContributorsTotal(shares[..n]);
      RealSumAppend(Contributors(shares[..n]), shares[n], Positive());
    }
  }

  lemma RateFacts(hourly: real, w: real, total: real)
    requires total > 0.0
    ensures Times(hourly, w / total) == Times(hourly / total, w) && Times(hourly / total, total) == hourly
  {
  }

  lemma TimesFacts(rate: real, a: real, b: real)
    ensures Times(rate, a + b) == Times(rate, a) + Times(rate, b)
    ensures rate >= 0.0 && a <= b ==> Times(rate, a) <= Times(rate, b)
  {
  }

  ghost predicate Near(x: real, exact: real, n: nat) {
    -0.0000005 * n as real <= x - exact <= 0.0000005 * n as real
  }

  /** What a contributor gets is its part of the hour up to the rounding. */
  lemma AllocationNear(s: Share, total: real, hourly: real)
    requires total > 0.0
    ensures Near(Allocate(s, total, hourly).issuedTokens, Times(hourly / total, s.weightedContribution), 1)
  {
    hide Times, ToFixed6;
    ToFixed6Near(Times(hourly, s.weightedContribution / total));
    RateFacts(hourly, s.weightedContribution, total);
  }

  lemma {:induction false} SumNear(cs: seq<Share>, out: seq<Allocation>, rate: real)
    requires |out| == |cs|
    requires forall i :: 0 <= i < |cs| ==> cs[i].weightedContribution > 0.0
                                           && Near(out[i].issuedTokens, Times(rate, cs[i].weightedContribution), 1)
    ensures Near(RealSum(out, Issued()), Times(rate, RealSum(cs, Positive())), |cs|)
  {
    if cs != [] {
      hide Times;
      var n := |cs| - 1;
      SumNear(cs[..n], out[..n], rate);
      TimesFacts(rate, RealSum(cs[..n], Positive()), cs[n].weightedContribution);
      assert |cs| as real == |cs[..n]| as real + 1.0;
    }
  }

  /** The tokens issued in an hour sum to the hour's pool up to half a millionth for each
      contributor, and nothing is issued when there is no weight or no pool. */
  lemma IssuedSumsToPool(shares: seq<Share>, dailyPoolTokens: real)
    ensures var out := ComputeHourlyIssuanceAllocations(shares, dailyPoolTokens);
            if RealSum(shares, Positive()) > 0.0 && dailyPoolTokens > 0.0
            then Near(RealSum(out, Issued()), dailyPoolTokens / 24.0, |out|)
            else out == []
  {
    hide Times, Allocate, RealSum, Near;
    var total := RealSum(shares, Positive());
    var hourly := dailyPoolTokens / 24.0;
    if total > 0.0 && dailyPoolTokens > 0.0 {
      var cs, out := Contributors(shares), ComputeHourlyIssuanceAllocations(shares, dailyPoolTokens);
      ContributorsTotal(shares);
      forall i | 0 <= i < |cs|
        ensures Near(out[i].issuedTokens, Times(hourly / total, cs[i].weightedContribution), 1)
      {
        AllocationNear(cs[i], total, hourly);
      }
      SumNear(cs, out, hourly / total);
      RateFacts(hourly, total, total);
    }
  }

  lemma AllocateMonotone(s: Share, t: Share, total: real, hourly: real)
    requires total > 0.0 && hourly > 0.0 && s.weightedContribution <= t.weightedContribution
    ensures Allocate(s, total, hourly).issuedTokens <= Allocate(t, total, hourly).issuedTokens
  {
    hide Times, ToFixed6;
    var a, b := s.weightedContribution / total, t.weightedContribution / total;
    assert a <= b;
    TimesFacts(hourly, a, b);
    ToFixed6Monotone(Times(hourly, a), Times(hourly, b));
  }

  /** In the list of an hour, which has one entry for each contributor in order, a larger
      contribution never gets fewer tokens, and nobody gets a negative amount. */
  lemma IssuedMonotone(shares: seq<Share>, dailyPoolTokens: real, i: nat, j: nat)
    ensures var out, cs := ComputeHourlyIssuanceAllocations(shares, dailyPoolTokens), Contributors(shares);
            && (out == [] || |out| == |cs|)
            && (i < |out| ==> out[i].accountId == cs[i].accountId && out[i].issuedTokens >= 0.0)
            && (i < |out| ==> SharesAre(out[i], cs[i].weightedContribution, RealSum(shares, Positive())))
            && (i < |out| && j < |out| && cs[i].weightedContribution <= cs[j].weightedContribution ==>
                  out[i].issuedTokens <= out[j].issuedTokens)
  {
    hide Times, ToFixed6, RealSum;
    var total, hourly := RealSum(shares, Positive()), dailyPoolTokens / 24.0;
    var out, cs := ComputeHourlyIssuanceAllocations(shares, dailyPoolTokens), Contributors(shares);
    if i < |out| {
      ContributorsTotal(shares);
      NothingForNothing(total, hourly);
      SharesRound(cs[i], total, hourly);
      AllocateMonotone(Share("", 0.0), cs[i], total, hourly);
      if j < |out| && cs[i].weightedContribution <= cs[j].weightedContribution {
        AllocateMonotone(cs[i], cs[j], total, hourly);
      }
    }
  }

  /** An entry shows the contribution to six decimals and its share of the total to nine. */
  predicate SharesAre(a: Allocation, w: real, total: real) {
    && -0.0000005 <= a.weightedContribution - w <= 0.0000005
    && total > 0.0 && -0.0000000005 <= a.allocationShare - w / total <= 0.0000000005
  }

  lemma SharesRound(s: Share, total: real, hourly: real)
    requires total > 0.0
    ensures SharesAre(Allocate(s, total, hourly), s.weightedContribution, total)
  {
    hide ToFixed6, ToFixed9;
    ToFixed6Near(s.weightedContribution);
    ToFixed9Near(s.weightedContribution / total);
  }

  lemma ToFixed9Near(x: real)
    ensures -0.0000000005 <= ToFixed9(x) - x <= 0.0000000005
  {
    var y := (if x < 0.0 then -x else x) * 1000000000.0 + 0.5;
    assert y.Floor as real <= y < y.Floor as real + 1.0;
  }

  lemma NothingForNothing(total: real, hourly: real)
    requires total > 0.0
    ensures Allocate(Share("", 0.0), total, hourly).issuedTokens == 0.0
  {
    assert 0.0 / total == 0.0;
  }

}
