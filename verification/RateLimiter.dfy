/** The per-agent sliding-window rate limiter (src/security/agent-rate-limiter.ts). */
module RateLimiter {
  import opened Prelude

  datatype Config = Config(maxRequests: int, windowMs: int)

  type Windows = map<string, seq<int>>

  function Stored(w: Windows, agentId: string): seq<int> {
    if agentId in w then w[agentId] else []
  }

  /** Removing expired timestamps from the front. */
  function Evict(ts: seq<int>, cutoff: int): seq<int> {
    if ts != [] && ts[0] < cutoff then Evict(ts[1..], cutoff) else ts
  }

  predicate Admits(c: Config, w: Windows, agentId: string, now: int) {
    |Evict(Stored(w, agentId), now - c.windowMs)| < c.maxRequests
  }

  function Checked(c: Config, w: Windows, agentId: string, now: int): Windows {
    var kept := Evict(Stored(w, agentId), now - c.windowMs);
    w[agentId := if Admits(c, w, agentId, now) then kept + [now] else kept]
  }

  class AgentRateLimiter {
    const config: Config
    var windows: Windows

    constructor (config: Config)
      ensures windows == map[] && this.config == config
    {
      this.config := config;
      windows := map[];
    }

    method Check(agentId: string, now: int) returns (ok: bool)
      modifies this
      ensures ok == Admits(config, old(windows), agentId, now)
      ensures windows == Checked(config, old(windows), agentId, now)
    {
      var cutoff := now - config.windowMs;
      var timestamps := if agentId in windows then windows[agentId] else [];
      while |timestamps| > 0 && timestamps[0] < cutoff
        invariant Evict(timestamps, cutoff) == Evict(Stored(windows, agentId), cutoff)
        decreases |timestamps|
      {
        timestamps := timestamps[1..];
      }
      if |timestamps| >= config.maxRequests {
        windows := windows[agentId := timestamps];
        return false;
      }
      timestamps := timestamps + [now];
      windows := windows[agentId := timestamps];
      return true;
    }

    method Reset(agentId: string)
      modifies this
      ensures windows == old(windows) - {agentId}
    {
      windows := windows - {agentId};
    }
  }

  // ---------------------------------------------------------------- runs and the full log

  datatype Op = Check(agentId: string, now: int) | Reset(agentId: string, now: int)

  function Time(): Op -> int {
    (op: Op) => op.now
  }

  function Step(c: Config, w: Windows, op: Op): Windows {
    match op
    case Check(a, now) => Checked(c, w, a, now)
    case Reset(a, _) => w - {a}
  }

  function After(c: Config, ops: seq<Op>): Windows {
    if ops == [] then map[] else Step(c, After(c, ops[..|ops| - 1]), ops[|ops| - 1])
  }

  predicate AdmittedAt(c: Config, ops: seq<Op>, i: nat)
    requires i < |ops|
  {
    ops[i].Check? && Admits(c, After(c, ops[..i]), ops[i].agentId, ops[i].now)
  }

  /** Every accepted timestamp of an agent since its last reset: the unbounded log. */
  function Log(c: Config, ops: seq<Op>, a: string): seq<int> {
    if ops == [] then []
    else
      var n := |ops| - 1;
      var log := Log(c, ops[..n], a);
      if ops[n].agentId != a then log
      else if ops[n].Reset? then []
      else if AdmittedAt(c, ops, n) then log + [ops[n].now]
      else log
  }

  ghost predicate Ascending(ts: seq<int>, last: int) {
    && (forall i, j :: 0 <= i < j < |ts| ==> ts[i] <= ts[j])
    && forall i :: 0 <= i < |ts| ==> ts[i] <= last
  }

  function Within(lo: int, hi: int): int -> int {
    (t: int) => if lo <= t <= hi then 1 else 0
  }

  /** How many timestamps lie in the closed interval from `lo` to `hi`. */
  function CountIn(ts: seq<int>, lo: int, hi: int): int {
    Sum(ts, Within(lo, hi))
  }

  lemma {:induction false} EvictTwice(ts: seq<int>, c: int, c': int)
    requires c <= c'
    ensures Evict(Evict(ts, c), c') == Evict(ts, c')
    decreases |ts|
  {
    if ts != [] && ts[0] < c {
      EvictTwice(ts[1..], c, c');
    }
  }

  lemma {:induction false} EvictAppend(ts: seq<int>, t: int, c: int)
    ensures Evict(ts + [t], c) == if Evict(ts, c) == [] then Evict([t], c) else Evict(ts, c) + [t]
    decreases |ts|
  {
    if ts == [] {
      assert ts + [t] == [t];
    } else if ts[0] < c {
      EvictAppend(ts[1..], t, c);
      assert (ts + [t])[1..] == ts[1..] + [t];
    }
  }

  /** Whatever the cutoff from `from` on, the two lists look the same. */
  ghost predicate SameFrom(ts: seq<int>, log: seq<int>, from: int) {
    forall c :: c >= from ==> Evict(ts, c) == Evict(log, c)
  }

  lemma SameAfterEvict(ts: seq<int>, log: seq<int>, from: int, cutoff: int)
    requires SameFrom(ts, log, from) && from <= cutoff
    ensures SameFrom(Evict(ts, cutoff), log, cutoff)
  {
    forall c | c >= cutoff ensures Evict(Evict(ts, cutoff), c) == Evict(log, c) {
      EvictTwice(ts, cutoff, c);
    }
  }

  lemma SameAfterAppend(ts: seq<int>, log: seq<int>, from: int, t: int)
    requires SameFrom(ts, log, from)
    ensures SameFrom(ts + [t], log + [t], from)
  {
    forall c | c >= from ensures Evict(ts + [t], c) == Evict(log + [t], c) {
      EvictAppend(ts, t, c);
      EvictAppend(log, t, c);
    }
  }

  /** `kept` is what remains of `log` from position `d` on, and these are exactly the
      timestamps that are not before the cutoff. */
  ghost predicate IsTail(log: seq<int>, kept: seq<int>, cutoff: int, d: nat) {
    d <= |log| && kept == log[d..] && forall i :: 0 <= i < |log| ==> (log[i] >= cutoff <==> i >= d)
  }

  /** In an ascending list, eviction keeps exactly the timestamps from the cutoff on. */
  lemma {:induction false} EvictKeeps(ts: seq<int>, last: int, c: int) returns (d: nat)
    requires Ascending(ts, last)
    ensures IsTail(ts, Evict(ts, c), c, d)
    decreases |ts|
  {
    if ts != [] && ts[0] < c {
      var e := EvictKeeps(ts[1..], last, c);
      d := e + 1;
      assert ts[1..][e..] == ts[d..];
      forall i | 0 <= i < |ts| ensures ts[i] >= c <==> i >= d {
        assert i > 0 ==> ts[i] == ts[1..][i - 1];
      }
    } else {
      d := 0;
      assert ts == ts[0..];
    }
  }

  /** The refinement: the stored list stands for the whole log, for every cutoff a check at
      time `last` or later can use. */
  lemma {:induction false} StoredRefinesLog(c: Config, ops: seq<Op>, a: string, last: int)
    requires MonotoneUntil(ops, Time(), last)
    ensures SameFrom(Stored(After(c, ops), a), Log(c, ops, a), last - c.windowMs)
    ensures Ascending(Log(c, ops, a), last)
    decreases |ops|
  {
    if ops != [] {
      var n := |ops| - 1;
      var op := ops[n];
      var now := op.now;
      StoredRefinesLog(c, ops[..n], a, now);
      var w, log := After(c, ops[..n]), Log(c, ops[..n], a);
      if op.Check? && op.agentId == a {
        SameAfterEvict(Stored(w, a), log, now - c.windowMs, now - c.windowMs);
        SameAfterAppend(Evict(Stored(w, a), now - c.windowMs), log, now - c.windowMs, now);
      }
    }
  }

  /** After a check, the stored list is the earlier acceptances from the cutoff on, and the
      request itself if it was admitted; unless the window is negative, these are all the
      acceptances from the cutoff on. */
  lemma StoredAfterCheck(c: Config, ops: seq<Op>, a: string, now: int) returns (d: nat)
    requires ops != [] && ops[|ops| - 1] == Check(a, now) && MonotoneUntil(ops, Time(), now)
    ensures var before, stored := Log(c, ops[..|ops| - 1], a), Stored(After(c, ops), a);
            && d <= |before| && IsTail(before, before[d..], now - c.windowMs, d)
            && stored == (if AdmittedAt(c, ops, |ops| - 1) then before[d..] + [now] else before[d..])
            && (c.windowMs >= 0 ==> IsTail(Log(c, ops, a), stored, now - c.windowMs, d))
  {
    var n := |ops| - 1;
    var before := Log(c, ops[..n], a);
    StoredRefinesLog(c, ops[..n], a, now);
    d := EvictKeeps(before, now, now - c.windowMs);
    assert (before + [now])[d..] == before[d..] + [now];
  }

  lemma {:induction false} CountOfSuffix(ts: seq<int>, d: nat, lo: int, hi: int)
    requires d <= |ts| && forall i :: 0 <= i < |ts| && lo <= ts[i] <= hi ==> i >= d
    ensures CountIn(ts, lo, hi) <= |ts| - d
    ensures (forall i :: d <= i < |ts| ==> lo <= ts[i] <= hi) ==> CountIn(ts, lo, hi) == |ts| - d
    decreases |ts|
  {
    if ts != [] {
      var n := |ts| - 1;
      if d <= n {
        CountOfSuffix(ts[..n], d, lo, hi);
      } else {
        CountOfSuffix(ts[..n], n, lo, hi);
      }
    }
  }

  /** The decision, in terms of the log alone: a request is refused exactly when the maximum
      number of requests were accepted in the window that ends now. */
  lemma RefusedExactlyWhenFull(c: Config, ops: seq<Op>, a: string, now: int)
    requires MonotoneUntil(ops, Time(), now)
    ensures Admits(c, After(c, ops), a, now) <==> CountIn(Log(c, ops, a), now - c.windowMs, now) < c.maxRequests
  {
    StoredRefinesLog(c, ops, a, now);
    var log := Log(c, ops, a);
    var cutoff := now - c.windowMs;
    var d := EvictKeeps(log, now, cutoff);
    CountOfSuffix(log, d, cutoff, now);
  }

  /** No closed interval of the window's length, anywhere in the run, holds more than the
      maximum number of acceptances. */
  lemma {:induction false} NoWindowOverflows(c: Config, ops: seq<Op>, a: string, last: int, lo: int)
    requires MonotoneUntil(ops, Time(), last)
    ensures CountIn(Log(c, ops, a), lo, lo + c.windowMs) <= if c.maxRequests > 0 then c.maxRequests else 0
    decreases |ops|
  {
    if ops != [] {
      var n := |ops| - 1;
      var op := ops[n];
      var now := op.now;
      NoWindowOverflows(c, ops[..n], a, now, lo);
      if op.Check? && op.agentId == a && AdmittedAt(c, ops, n) {
        var log := Log(c, ops[..n], a);
        RefusedExactlyWhenFull(c, ops[..n], a, now);
        SumAppend(log, now, Within(lo, lo + c.windowMs));
        if lo <= now <= lo + c.windowMs {
          StoredRefinesLog(c, ops[..n], a, now);
          SumBound(log, Within(lo, lo + c.windowMs), Within(now - c.windowMs, now));
        }
      }
    }
  }
}
