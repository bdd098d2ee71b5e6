/** Per-agent behaviour statistics over a sliding window (src/security/behavior-tracker.ts). */
module BehaviorTracker {
  import opened Prelude
  import opened SlidingWindow
  import opened Sorting

  datatype Task = Task(ok: bool, outputHash: string, outputLength: nat, durationMs: int)

  datatype Violation = SignatureFailure | ReplayAttempt | RateLimitHit

  datatype Record =
    | TaskResult(task: Task)
    | Protocol(violation: Violation)
    | Registration
    | TaskClaim
    | Heartbeat
    | Requeue
    | Concurrent(claims: int)

  /** The event lists of one agent, and the two numbers that know no window. */
  datatype Lists = Lists(tasks: seq<Timed<Task>>, protocolEvents: seq<Timed<Violation>>,
                         registrations: seq<Timed<()>>, taskClaims: seq<Timed<()>>, heartbeats: seq<Timed<()>>,
                         requeueCount: nat, concurrentClaimCount: int)

  const NO_EVENTS := Lists([], [], [], [], [], 0, 0)

  function PruneAll(l: Lists, cutoff: int): Lists {
    Lists(Since(l.tasks, cutoff), Since(l.protocolEvents, cutoff), Since(l.registrations, cutoff),
          Since(l.taskClaims, cutoff), Since(l.heartbeats, cutoff), l.requeueCount, l.concurrentClaimCount)
  }

  /** Appending an event to its list without ever forgetting anything. */
  function Added(l: Lists, r: Record, now: int): Lists {
    match r
    case TaskResult(t) => l.(tasks := l.tasks + [Timed(now, t)])
    case Protocol(v) => l.(protocolEvents := l.protocolEvents + [Timed(now, v)])
    case Registration => l.(registrations := l.registrations + [Timed(now, ())])
    case TaskClaim => l.(taskClaims := l.taskClaims + [Timed(now, ())])
    case Heartbeat => l.(heartbeats := l.heartbeats + [Timed(now, ())])
    case Requeue => l.(requeueCount := l.requeueCount + 1)
    case Concurrent(n) => l.(concurrentClaimCount := n)
  }

  /** What a record method does: prune the list of the event's kind, then append. */
  function Recorded(l: Lists, r: Record, now: int, windowMs: int): Lists {
    var cutoff := now - windowMs;
    Added(match r
          case TaskResult(_) => l.(tasks := Since(l.tasks, cutoff))
          case Protocol(_) => l.(protocolEvents := Since(l.protocolEvents, cutoff))
          case Registration => l.(registrations := Since(l.registrations, cutoff))
          case TaskClaim => l.(taskClaims := Since(l.taskClaims, cutoff))
          case Heartbeat => l.(heartbeats := Since(l.heartbeats, cutoff))
          case _ => l, r, now)
  }

  // ---------------------------------------------------------------- the statistics

  const RING_SIZE := 20

  datatype Stats = Stats(totalTasks: nat, successCount: int, successRate: real, emptyOutputCount: int,
                         identicalOutputCount: nat, recentOutputHashes: seq<string>, avgOutputLength: real,
                         avgDurationMs: real, minDurationMs: int, durationStdDev: real, suspiciouslyFastCount: int,
                         protocol: ProtocolStats, taskClaimCount: nat, taskClaimRate: real, requeueCount: nat,
                         concurrentClaimCount: int, heartbeatGapMaxMs: int, windowStartMs: int, windowEndMs: int)

  datatype ProtocolStats = ProtocolStats(signatureFailureCount: int, replayAttemptCount: int, rateLimitHitCount: int,
                                         registrationCount: nat)

  function CountIf<T>(p: T -> bool): Timed<T> -> int {
    (e: Timed<T>) => if p(e.item) then 1 else 0
  }

  /** A block of equal hashes from position `i` on. */
  ghost predicate Block(tasks: seq<Timed<Task>>, i: nat, length: nat) {
    i + length <= |tasks| && forall k :: i <= k < i + length ==> tasks[k].item.outputHash == tasks[i].item.outputHash
  }

  /** The length of the longest block of at least two equal consecutive hashes, or 0. */
  ghost predicate IsLongestBlock(tasks: seq<Timed<Task>>, n: nat) {
    && (n == 0 || (n >= 2 && exists i :: Block(tasks, i, n)))
    && forall i, m: nat :: m >= 2 && Block(tasks, i, m) ==> m <= n
  }

  method LongestIdenticalRun(tasks: seq<Timed<Task>>) returns (count: nat)
    ensures IsLongestBlock(tasks, count)
  {
    count := 0;
    if |tasks| >= 2 {
      var consecutiveRun := 1;
      for i := 1 to |tasks|
        invariant 1 <= consecutiveRun <= i
        invariant Block(tasks, i - consecutiveRun, consecutiveRun)
        invariant i > consecutiveRun ==>
                    tasks[i - consecutiveRun - 1].item.outputHash != tasks[i - consecutiveRun].item.outputHash
        invariant consecutiveRun >= 2 ==> consecutiveRun <= count
        invariant IsLongestBlock(tasks[..i], count)
      {
        hide IsLongestBlock;
        if tasks[i].item.outputHash == tasks[i - 1].item.outputHash {
          consecutiveRun := consecutiveRun + 1;
          ExtendBlock(tasks, i, consecutiveRun, count);
          count := if count > consecutiveRun then count else consecutiveRun;
        } else {
          BreakBlock(tasks, i, count);
          consecutiveRun := 1;
        }
      }
      assert tasks[..|tasks|] == tasks;
    }
  }

  lemma BlockInPrefix(tasks: seq<Timed<Task>>, n: nat, i: nat, m: nat)
    requires n <= |tasks| && i + m <= n
    ensures Block(tasks[..n], i, m) <==> Block(tasks, i, m)
  {
    if m > 0 {
      assert forall k :: i <= k < i + m ==> tasks[..n][k] == tasks[k];
    }
  }

  lemma SameInBlock(tasks: seq<Timed<Task>>, j: nat, m: nat, x: nat, y: nat)
    requires Block(tasks, j, m) && x < |tasks| && y < |tasks|
    ensures j <= x < j + m && j <= y < j + m ==> tasks[x].item.outputHash == tasks[y].item.outputHash
  {
  }

  /** The run that ends at position `i` grew to `run`. */
  lemma ExtendBlock(tasks: seq<Timed<Task>>, i: nat, run: nat, count: nat)
    requires 1 <= i < |tasks| && 2 <= run <= i + 1
    requires Block(tasks, i + 1 - run, run)
    requires i + 1 > run ==> tasks[i - run].item.outputHash != tasks[i + 1 - run].item.outputHash
    requires IsLongestBlock(tasks[..i], count)
    ensures IsLongestBlock(tasks[..i + 1], if count > run then count else run)
  {
    var best := if count > run then count else run;
    BlockInPrefix(tasks, i + 1, i + 1 - run, run);
    if count > run {
      var j :| Block(tasks[..i], j, count);
      BlockInPrefix(tasks, i, j, count);
      BlockInPrefix(tasks, i + 1, j, count);
    }
    var prefix := tasks[..i + 1];
    forall j: nat, m: nat | m >= 2 && Block(prefix, j, m) ensures m <= best {
      BlockInPrefix(tasks, i + 1, j, m);
      if j + m <= i {
        BlockInPrefix(tasks, i, j, m);
      } else if i >= run {
        SameInBlock(tasks, j, m, i - run, i + 1 - run);
      }
    }
  }

  /** The hash at position `i` differs from its predecessor, so no block crosses it. */
  lemma BreakBlock(tasks: seq<Timed<Task>>, i: nat, count: nat)
    requires 1 <= i < |tasks| && tasks[i].item.outputHash != tasks[i - 1].item.outputHash
    requires IsLongestBlock(tasks[..i], count)
    ensures IsLongestBlock(tasks[..i + 1], count)
  {
    if count > 0 {
      var j :| Block(tasks[..i], j, count);
      BlockInPrefix(tasks, i, j, count);
      BlockInPrefix(tasks, i + 1, j, count);
    }
    var prefix, last: nat := tasks[..i + 1], i - 1;
    forall j: nat, m: nat | m >= 2 && Block(prefix, j, m) ensures m <= count {
      BlockInPrefix(tasks, i + 1, j, m);
      SameInBlock(tasks, j, m, last, i);
      if j + m <= i {
        BlockInPrefix(tasks, i, j, m);
      }
    }
  }

  function ByTime(): (Timed<()>, Timed<()>) -> bool {
    (a: Timed<()>, b: Timed<()>) => a.at <= b.at
  }

  /** The longest pause between two successive heartbeats, 0 if there are fewer than two. */
  ghost predicate IsMaxGap(es: seq<Timed<()>>, gap: int) {
    && gap >= 0
    && (forall i :: 0 < i < |es| ==> es[i].at - es[i - 1].at <= gap)
    && (gap > 0 ==> exists i :: 0 < i < |es| && es[i].at - es[i - 1].at == gap)
  }

  method MaxHeartbeatGap(es: seq<Timed<()>>) returns (gap: int)
    ensures IsMaxGap(Sort(es, ByTime()), gap)
  {
    gap := 0;
    assert |Sort(es, ByTime())| == |es| by {
      SortSorts(es, ByTime());
    }
    if |es| >= 2 {
      hide Sort;
      var sorted := Sort(es, ByTime());
      for i := 1 to |sorted|
        invariant gap >= 0
        invariant forall k :: 0 < k < i ==> sorted[k].at - sorted[k - 1].at <= gap
        invariant gap > 0 ==> exists k :: 0 < k < i && sorted[k].at - sorted[k - 1].at == gap
      {
        var step := sorted[i].at - sorted[i - 1].at;
        if step > gap {
          gap := step;
        }
      }
    }
  }

  function Durations(): Timed<Task> -> int {
    (e: Timed<Task>) => e.item.durationMs
  }

  function Lengths(): Timed<Task> -> int {
    (e: Timed<Task>) => e.item.outputLength
  }

  function Ratio(total: int, n: int, otherwise: real): real {
    if n > 0 then total as real / n as real else otherwise
  }

  function SquareFrom(mean: real): Timed<Task> -> real {
    (e: Timed<Task>) => (e.item.durationMs as real - mean) * (e.item.durationMs as real - mean)
  }

  /** The shortest duration, 0 if there is none. */
  ghost predicate IsMinDuration(tasks: seq<Timed<Task>>, shortest: int) {
    if tasks == [] then shortest == 0
    else
      && (exists i :: 0 <= i < |tasks| && tasks[i].item.durationMs == shortest)
      && forall i :: 0 <= i < |tasks| ==> shortest <= tasks[i].item.durationMs
  }

  method MinDuration(tasks: seq<Timed<Task>>) returns (shortest: int)
    ensures IsMinDuration(tasks, shortest)
  {
    if tasks == [] {
      return 0;
    }
    shortest := tasks[0].item.durationMs;
    for i := 1 to |tasks|
      invariant exists k :: 0 <= k < i && tasks[k].item.durationMs == shortest
      invariant forall k :: 0 <= k < i ==> shortest <= tasks[k].item.durationMs
    {
      if tasks[i].item.durationMs < shortest {
        shortest := tasks[i].item.durationMs;
      }
    }
  }

  /** The hashes of the last tasks, at most as many as the ring holds. */
  ghost predicate IsRing(tasks: seq<Timed<Task>>, hashes: seq<string>) {
    && |hashes| == (if |tasks| < 20 then |tasks| else 20)
    && forall i :: 0 <= i < |hashes| ==> hashes[i] == tasks[|tasks| - |hashes| + i].item.outputHash
  }

  method Ring(tasks: seq<Timed<Task>>) returns (hashes: seq<string>)
    ensures IsRing(tasks, hashes)
  {
    var last := if |tasks| < RING_SIZE then tasks else tasks[|tasks| - RING_SIZE..];
    hashes := seq(|last|, i requires 0 <= i < |last| => last[i].item.outputHash);
  }

  /** The population standard deviation; `sqrt` is Math.sqrt. */
  function StdDev(tasks: seq<Timed<Task>>, mean: real, sqrt: real -> real): real {
    if |tasks| < 2 then 0.0 else sqrt(RealSum(tasks, SquareFrom(mean)) / |tasks| as real)
  }

  /** The statistics are those of the given lists. */
  ghost predicate StatsOf(l: Lists, windowMs: int, now: int, sqrt: real -> real, s: Stats) {
    && s.totalTasks == |l.tasks|
    && s.successCount == Sum(l.tasks, CountIf((t: Task) => t.ok))
    && s.successRate == Ratio(s.successCount, |l.tasks|, 1.0)
    && s.emptyOutputCount == Sum(l.tasks, CountIf((t: Task) => t.outputLength == 0))
    && IsLongestBlock(l.tasks, s.identicalOutputCount)
    && IsRing(l.tasks, s.recentOutputHashes)
    && s.avgOutputLength == Ratio(Sum(l.tasks, Lengths()), |l.tasks|, 0.0)
    && s.avgDurationMs == Ratio(Sum(l.tasks, Durations()), |l.tasks|, 0.0)
    && IsMinDuration(l.tasks, s.minDurationMs)
    && s.durationStdDev == StdDev(l.tasks, s.avgDurationMs, sqrt)
    && s.suspiciouslyFastCount == Sum(l.tasks, CountIf((t: Task) => t.durationMs < 500))
    && ProtocolStatsOf(l, s.protocol)
    && s.taskClaimCount == |l.taskClaims|
    && s.taskClaimRate == (if windowMs > 0 then |l.taskClaims| as real / (windowMs as real / 1000.0) else 0.0)
    && s.requeueCount == l.requeueCount && s.concurrentClaimCount == l.concurrentClaimCount
    && IsMaxGap(Sort(l.heartbeats, ByTime()), s.heartbeatGapMaxMs)
    && s.windowStartMs == now - windowMs && s.windowEndMs == now
  }

  ghost predicate ProtocolStatsOf(l: Lists, p: ProtocolStats) {
    && p.signatureFailureCount == Sum(l.protocolEvents, CountIf((v: Violation) => v == SignatureFailure))
    && p.replayAttemptCount == Sum(l.protocolEvents, CountIf((v: Violation) => v == ReplayAttempt))
    && p.rateLimitHitCount == Sum(l.protocolEvents, CountIf((v: Violation) => v == RateLimitHit))
    && p.registrationCount == |l.registrations|
  }

  function Matching<T>(p: T -> bool): Timed<T> -> bool {
    (e: Timed<T>) => p(e.item)
  }

  /** A count is the number of positions that match. */
  lemma {:induction false} CountsPositions<T>(es: seq<Timed<T>>, p: T -> bool)
    ensures Sum(es, CountIf(p)) == |Positions(es, Matching(p))|
  {
    if es != [] {
      CountsPositions(es[..|es| - 1], p);
    }
  }

  /** Heartbeats are looked at in the order of their times. */
  lemma HeartbeatsInOrder(es: seq<Timed<()>>)
    ensures var sorted := Sort(es, ByTime());
            multiset(sorted) == multiset(es) && forall i, j :: 0 <= i < j < |sorted| ==> sorted[i].at <= sorted[j].at
  {
    SortSorts(es, ByTime());
  }

  lemma RatioTimes(total: int, n: nat, otherwise: real)
    ensures n > 0 ==> Times(Ratio(total, n, otherwise), n as real) == total as real
    ensures n == 0 ==> Ratio(total, n, otherwise) == otherwise
  {
  }

  lemma SquaresSum(tasks: seq<Timed<Task>>, mean: real, square: Timed<Task> -> real)
    requires forall e: Timed<Task> ::
               square(e) == Times(e.item.durationMs as real - mean, e.item.durationMs as real - mean)
    ensures RealSum(tasks, SquareFrom(mean)) == RealSum(tasks, square)
  {
    if tasks != [] {
      SquaresSum(tasks[..|tasks| - 1], mean, square);
    }
  }

  /** What the derived statistics mean: a rate or an average times the number of tasks is the count
      or the sum it stands for, and the deviation is the root of the mean squared difference from
      the average duration; without tasks the rate is 1 and the averages are 0. */
  lemma StatsMean(l: Lists, windowMs: int, now: int, sqrt: real -> real, s: Stats,
                  ok: Timed<Task> -> bool, length: Timed<Task> -> int, duration: Timed<Task> -> int,
                  square: Timed<Task> -> real) returns (variance: real)
    requires StatsOf(l, windowMs, now, sqrt, s)
    requires forall e: Timed<Task> :: ok(e) == e.item.ok
    requires forall e: Timed<Task> :: length(e) == e.item.outputLength && duration(e) == e.item.durationMs
    requires forall e: Timed<Task> ::
               square(e) == Times(e.item.durationMs as real - s.avgDurationMs,
                                  e.item.durationMs as real - s.avgDurationMs)
    ensures s.successCount == |Positions(l.tasks, ok)|
    ensures var n := |l.tasks|;
            if n == 0 then s.successRate == 1.0 && s.avgOutputLength == 0.0 && s.avgDurationMs == 0.0
            else && Times(s.successRate, n as real) == s.successCount as real
                 && Times(s.avgOutputLength, n as real) == Sum(l.tasks, length) as real
                 && Times(s.avgDurationMs, n as real) == Sum(l.tasks, duration) as real
    ensures if |l.tasks| < 2 then s.durationStdDev == 0.0
            else Times(variance, |l.tasks| as real) == RealSum(l.tasks, square) && s.durationStdDev == sqrt(variance)
  {
    hide Sum, RealSum, Times, Ratio, Positions, IsLongestBlock, IsRing, IsMinDuration, IsMaxGap, ProtocolStatsOf, Sort;
    var n := |l.tasks|;
    CountsPositions(l.tasks, (t: Task) => t.ok);
    SamePositions(l.tasks, Matching((t: Task) => t.ok), ok);
    SumPointwise(l.tasks, l.tasks, Lengths(), length);
    SumPointwise(l.tasks, l.tasks, Durations(), duration);
    SquaresSum(l.tasks, s.avgDurationMs, square);
    RatioTimes(s.successCount, n, 1.0);
    RatioTimes(Sum(l.tasks, Lengths()), n, 0.0);
    RatioTimes(Sum(l.tasks, Durations()), n, 0.0);
    variance := if n == 0 then 0.0 else RealSum(l.tasks, SquareFrom(s.avgDurationMs)) / n as real;
    if n > 0 {
      QuotientTimes(RealSum(l.tasks, SquareFrom(s.avgDurationMs)), n as real);
    }
  }

  lemma QuotientTimes(x: real, y: real)
    requires y > 0.0
    ensures Times(x / y, y) == x
  {
  }

  lemma {:induction false} SamePositions<T>(s: seq<T>, p: T -> bool, q: T -> bool)
    requires forall x :: p(x) == q(x)
    ensures Positions(s, p) == Positions(s, q)
  {
    if s != [] {
      SamePositions(s[..|s| - 1], p, q);
    }
  }

  class AgentBehaviorTracker {
    const windowMs: int
    var agents: map<string, Lists>

    constructor (windowMs: int)
      ensures agents == map[] && this.windowMs == windowMs
    {
      this.windowMs := windowMs;
      agents := map[];
    }

    /** recordTaskResult, recordHeartbeat, recordRegistration, recordProtocolViolation,
        recordTaskClaim, recordRequeue and setConcurrentClaimCount, by the kind of the event. */
    method RecordEvent(agentId: string, r: Record, now: int)
      modifies this
      ensures agents == Step(old(agents), windowMs, agentId, r, now)
    {
      var entry := if agentId in agents then agents[agentId] else NO_EVENTS;
      var cutoff := now - windowMs;
      match r {
        case TaskResult(t) => entry := entry.(tasks := Since(entry.tasks, cutoff) + [Timed(now, t)]);
        case Protocol(v) => entry := entry.(protocolEvents := Since(entry.protocolEvents, cutoff) + [Timed(now, v)]);
        case Registration => entry := entry.(registrations := Since(entry.registrations, cutoff) + [Timed(now, ())]);
        case TaskClaim => entry := entry.(taskClaims := Since(entry.taskClaims, cutoff) + [Timed(now, ())]);
        case Heartbeat => entry := entry.(heartbeats := Since(entry.heartbeats, cutoff) + [Timed(now, ())]);
        case Requeue => entry := entry.(requeueCount := entry.requeueCount + 1);
        case Concurrent(n) => entry := entry.(concurrentClaimCount := n);
      }
      agents := agents[agentId := entry];
    }

    method GetStats(agentId: string, now: int, sqrt: real -> real) returns (s: Option<Stats>)
      modifies this
      ensures s.None? <==> agentId !in old(agents)
      ensures s.None? ==> agents == old(agents)
      ensures s.Some? ==> agents == old(agents)[agentId := PruneAll(old(agents)[agentId], now - windowMs)]
                          && StatsOf(agents[agentId], windowMs, now, sqrt, s.value)
    {
      if agentId !in agents {
        return None;
      }
      hide Sum, RealSum;
      var entry := PruneAll(agents[agentId], now - windowMs);
      agents := agents[agentId := entry];
      var stats := StatsFor(entry, windowMs, now, sqrt);
      s := Some(stats);
    }
  }

  /** The statistics of pruned lists. */
  method StatsFor(l: Lists, windowMs: int, now: int, sqrt: real -> real) returns (s: Stats)
    ensures StatsOf(l, windowMs, now, sqrt, s)
  {
    hide Sum, RealSum, Sort, IsLongestBlock, IsMaxGap, IsRing, IsMinDuration;
    var n := |l.tasks|;
    var successCount := Sum(l.tasks, CountIf((t: Task) => t.ok));
    var identical := LongestIdenticalRun(l.tasks);
    var recent := Ring(l.tasks);
    var avgDurationMs := Ratio(Sum(l.tasks, Durations()), n, 0.0);
    var minDurationMs := MinDuration(l.tasks);
    var gap := MaxHeartbeatGap(l.heartbeats);
    var windowDurationSec := windowMs as real / 1000.0;
    var protocol := ProtocolStats(Sum(l.protocolEvents, CountIf((v: Violation) => v == SignatureFailure)),
                                  Sum(l.protocolEvents, CountIf((v: Violation) => v == ReplayAttempt)),
                                  Sum(l.protocolEvents, CountIf((v: Violation) => v == RateLimitHit)),
                                  |l.registrations|);
    s := Stats(n, successCount, Ratio(successCount, n, 1.0),
               Sum(l.tasks, CountIf((t: Task) => t.outputLength == 0)), identical, recent,
               Ratio(Sum(l.tasks, Lengths()), n, 0.0), avgDurationMs, minDurationMs,
               StdDev(l.tasks, avgDurationMs, sqrt), Sum(l.tasks, CountIf((t: Task) => t.durationMs < 500)),
               protocol, |l.taskClaims|,
               if windowDurationSec > 0.0 then |l.taskClaims| as real / windowDurationSec else 0.0,
               l.requeueCount, l.concurrentClaimCount, gap, now - windowMs, now);
  }

  // ---------------------------------------------------------------- runs

  datatype Op = Note(agentId: string, record: Record, now: int) | Ask(agentId: string, now: int)

  function Time(): Op -> int {
    (op: Op) => op.now
  }

  function Entry(agents: map<string, Lists>, a: string): Lists {
    if a in agents then agents[a] else NO_EVENTS
  }

  function Step(agents: map<string, Lists>, windowMs: int, a: string, r: Record, now: int): map<string, Lists> {
    agents[a := Recorded(Entry(agents, a), r, now, windowMs)]
  }

  function After(windowMs: int, ops: seq<Op>): map<string, Lists> {
    if ops == [] then map[]
    else
      var before, op := After(windowMs, ops[..|ops| - 1]), ops[|ops| - 1];
      match op
      case Note(a, r, now) => Step(before, windowMs, a, r, now)
      case Ask(a, now) => if a in before then before[a := PruneAll(before[a], now - windowMs)] else before
  }

  /** Everything ever recorded for an agent. */
  function Log(ops: seq<Op>, a: string): Lists {
    if ops == [] then NO_EVENTS
    else
      var before, op := Log(ops[..|ops| - 1], a), ops[|ops| - 1];
      if op.Note? && op.agentId == a then Added(before, op.record, op.now) else before
  }

  ghost predicate AllStand(pruned: Lists, full: Lists, from: int) {
    && Stands(pruned.tasks, full.tasks, from) && Stands(pruned.protocolEvents, full.protocolEvents, from)
    && Stands(pruned.registrations, full.registrations, from) && Stands(pruned.taskClaims, full.taskClaims, from)
    && Stands(pruned.heartbeats, full.heartbeats, from)
    && pruned.requeueCount == full.requeueCount && pruned.concurrentClaimCount == full.concurrentClaimCount
  }

  lemma PruneStands(l: Lists, full: Lists, from: int, cutoff: int)
    requires AllStand(l, full, from) && from <= cutoff
    ensures AllStand(PruneAll(l, cutoff), full, cutoff)
  {
    StandsPruned(l.tasks, full.tasks, from, cutoff);
    StandsPruned(l.protocolEvents, full.protocolEvents, from, cutoff);
    StandsPruned(l.registrations, full.registrations, from, cutoff);
    StandsPruned(l.taskClaims, full.taskClaims, from, cutoff);
    StandsPruned(l.heartbeats, full.heartbeats, from, cutoff);
  }

  lemma AllStandLater(l: Lists, full: Lists, from: int, from': int)
    requires AllStand(l, full, from) && from <= from'
    ensures AllStand(l, full, from')
  {
  }

  lemma StandsPruned<T>(pruned: seq<Timed<T>>, full: seq<Timed<T>>, from: int, cutoff: int)
    requires Stands(pruned, full, from) && from <= cutoff
    ensures Stands(Since(pruned, cutoff), full, cutoff)
  {
    StandsAfter(pruned, full, from, cutoff, []);
    assert Since(pruned, cutoff) + [] == Since(pruned, cutoff) && full + [] == full;
  }

  lemma RecordStands(l: Lists, full: Lists, r: Record, from: int, now: int, windowMs: int)
    requires AllStand(l, full, from) && from <= now - windowMs
    ensures AllStand(Recorded(l, r, now, windowMs), Added(full, r, now), now - windowMs)
  {
    var cutoff := now - windowMs;
    match r
    case TaskResult(t) => StandsAfter(l.tasks, full.tasks, from, cutoff, [Timed(now, t)]);
    case Protocol(v) => StandsAfter(l.protocolEvents, full.protocolEvents, from, cutoff, [Timed(now, v)]);
    case Registration => StandsAfter(l.registrations, full.registrations, from, cutoff, [Timed(now, ())]);
    case TaskClaim => StandsAfter(l.taskClaims, full.taskClaims, from, cutoff, [Timed(now, ())]);
    case Heartbeat => StandsAfter(l.heartbeats, full.heartbeats, from, cutoff, [Timed(now, ())]);
    case _ =>
  }

  lemma {:induction false} StoredStandsForLog(windowMs: int, ops: seq<Op>, a: string, last: int)
    requires MonotoneUntil(ops, Time(), last)
    ensures AllStand(Entry(After(windowMs, ops), a), Log(ops, a), last - windowMs)
    decreases |ops|
  {
    if ops != [] {
      var n := |ops| - 1;
      var op := ops[n];
      StoredStandsForLog(windowMs, ops[..n], a, op.now);
      hide AllStand, Recorded, Added, PruneAll;
      var before := Entry(After(windowMs, ops[..n]), a);
      if op.agentId == a {
        match op
        case Note(_, r, now) => RecordStands(before, Log(ops[..n], a), r, now - windowMs, now, windowMs);
        case Ask(_, now) => PruneStands(before, Log(ops[..n], a), now - windowMs, now - windowMs);
      }
      AllStandLater(Entry(After(windowMs, ops), a), Log(ops, a), op.now - windowMs, last - windowMs);
    }
  }

  /** What was recorded for an agent, as far as `pick` picks it, with its time. */
  function Noted<T>(ops: seq<Op>, a: string, pick: Record -> Option<T>): seq<Timed<T>> {
    if ops == [] then []
    else
      var n := |ops| - 1;
      var before := Noted(ops[..n], a, pick);
      if ops[n].Note? && ops[n].agentId == a && pick(ops[n].record).Some?
      then before + [Timed(ops[n].now, pick(ops[n].record).value)]
      else before
  }

  function TaskResults(): Record -> Option<Task> {
    (r: Record) => if r.TaskResult? then Some(r.task) else None
  }

  function Violations(): Record -> Option<Violation> {
    (r: Record) => if r.Protocol? then Some(r.violation) else None
  }

  function Kind(kind: Record): Record -> Option<()> {
    (r: Record) => if r == kind then Some(()) else None
  }

  function ClaimCounts(): Record -> Option<int> {
    (r: Record) => if r.Concurrent? then Some(r.claims) else None
  }

  /** The full log, kind by kind, read off the operations. */
  lemma {:induction false} LogIsNoted(ops: seq<Op>, a: string)
    ensures var l, claims := Log(ops, a), Noted(ops, a, ClaimCounts());
            && l.tasks == Noted(ops, a, TaskResults()) && l.protocolEvents == Noted(ops, a, Violations())
            && l.registrations == Noted(ops, a, Kind(Registration)) && l.taskClaims == Noted(ops, a, Kind(TaskClaim))
            && l.heartbeats == Noted(ops, a, Kind(Heartbeat)) && l.requeueCount == |Noted(ops, a, Kind(Requeue))|
            && l.concurrentClaimCount == if claims == [] then 0 else claims[|claims| - 1].item
  {
    if ops != [] {
      LogIsNoted(ops[..|ops| - 1], a);
    }
  }

  /** Pruned windows lose nothing: what getStats looks at is what was recorded for the agent, kind
      by kind, restricted to the window, so every count is the one the whole history gives. */
  lemma PruningLosesNothing(windowMs: int, ops: seq<Op>, a: string, now: int)
    requires MonotoneUntil(ops, Time(), now)
    ensures var l, cutoff := PruneAll(Entry(After(windowMs, ops), a), now - windowMs), now - windowMs;
            var claims := Noted(ops, a, ClaimCounts());
            && l.tasks == Since(Noted(ops, a, TaskResults()), cutoff)
            && l.protocolEvents == Since(Noted(ops, a, Violations()), cutoff)
            && l.registrations == Since(Noted(ops, a, Kind(Registration)), cutoff)
            && l.taskClaims == Since(Noted(ops, a, Kind(TaskClaim)), cutoff)
            && l.heartbeats == Since(Noted(ops, a, Kind(Heartbeat)), cutoff)
            && l.requeueCount == |Noted(ops, a, Kind(Requeue))|
            && l.concurrentClaimCount == if claims == [] then 0 else claims[|claims| - 1].item
  {
    hide After, Log, Noted;
    StoredStandsForLog(windowMs, ops, a, now);
    LogIsNoted(ops, a);
  }
}
