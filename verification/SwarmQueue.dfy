/** The swarm queue scheduler (src/swarm/queue.ts) without its database writes. */
module SwarmQueue {
  import opened Prelude

  datatype Subtask = Subtask(id: string, projectId: string, priority: int, requestedModel: Option<string>)

  datatype Item = Item(subtask: Subtask, claimedBy: Option<string>, claimedAt: Option<int>,
                       claimableAfterMs: Option<int>)

  datatype Result = Result(subtaskId: string, ok: bool, output: string)

  datatype State = State(tasks: seq<Item>, projectCompleted: map<string, nat>,
                         agentClaimCount: map<string, nat>, results: seq<Result>)

  const EMPTY := State([], map[], map[], [])

  // An absent value and the falsy values "" and 0 are treated alike, as in the source.

  predicate Truthy<T(==)>(o: Option<T>, falsy: T) {
    o.Some? && o.value != falsy
  }

  predicate Claimed(it: Item) {
    Truthy(it.claimedBy, "")
  }

  predicate Claimable(it: Item, now: int) {
    !Claimed(it) && (Truthy(it.claimableAfterMs, 0) ==> now >= it.claimableAfterMs.value)
  }

  predicate Matches(it: Item, model: Option<string>) {
    Truthy(model, "") && it.subtask.requestedModel == model
  }

  function Count(m: map<string, nat>, key: string): nat {
    if key in m then m[key] else 0
  }

  // ---------------------------------------------------------------- the choice made by claim

  predicate ModelMatched(s: State, model: Option<string>, now: int) {
    exists j :: 0 <= j < |s.tasks| && Claimable(s.tasks[j], now) && Matches(s.tasks[j], model)
  }

  /** The pool: the claimable tasks that ask for the agent's model, or all claimable ones if none does. */
  predicate InPool(s: State, model: Option<string>, now: int, i: int) {
    && 0 <= i < |s.tasks| && Claimable(s.tasks[i], now)
    && (ModelMatched(s, model, now) ==> Matches(s.tasks[i], model))
  }

  /** Fewer completed results for the project first, then the higher priority. */
  predicate Better(completed: map<string, nat>, a: Item, b: Item) {
    var ca, cb := Count(completed, a.subtask.projectId), Count(completed, b.subtask.projectId);
    ca < cb || (ca == cb && a.subtask.priority > b.subtask.priority)
  }

  /** The earliest of the best pool elements. */
  ghost predicate IsChoice(s: State, model: Option<string>, now: int, i: int) {
    && InPool(s, model, now, i)
    && (forall j :: InPool(s, model, now, j) ==> !Better(s.projectCompleted, s.tasks[j], s.tasks[i]))
    && (forall j :: InPool(s, model, now, j) && j < i ==> Better(s.projectCompleted, s.tasks[i], s.tasks[j]))
  }

  lemma ChoiceIsUnique(s: State, model: Option<string>, now: int, i: int, j: int)
    requires IsChoice(s, model, now, i) && IsChoice(s, model, now, j)
    ensures i == j
  {
  }

  // ---------------------------------------------------------------- one step

  datatype Op =
    | Enqueue(subtask: Subtask, claimDelayMs: Option<int>, now: int)
    | RemoteClaimed(id: string)
    | Claim(agentId: string, model: Option<string>, now: int)
    | Complete(result: Result)
    | Requeue(id: string)
    | RequeueStale(timeoutMs: int, now: int)

  /** What a step did to a task of the queue. */
  datatype Event = Nothing | Accepted(subtask: Subtask) | TakenRemotely(subtask: Subtask)
                 | HandedOut(subtask: Subtask) | Finished(subtask: Subtask)

  function HasId(id: string): Item -> bool {
    (it: Item) => it.subtask.id == id
  }

  function IsUnclaimedWithId(id: string): Item -> bool {
    (it: Item) => it.subtask.id == id && !Claimed(it)
  }

  function RemoveAt<T>(s: seq<T>, i: nat): seq<T>
    requires i < |s|
  {
    s[..i] + s[i + 1..]
  }

  function Release(it: Item): Item {
    it.(claimedBy := None, claimedAt := None)
  }

  predicate Stale(it: Item, timeoutMs: int, now: int) {
    Claimed(it) && Truthy(it.claimedAt, 0) && now - it.claimedAt.value > timeoutMs
  }

  function ReleaseStale(tasks: seq<Item>, timeoutMs: int, now: int): seq<Item> {
    seq(|tasks|, i requires 0 <= i < |tasks| =>
      if Stale(tasks[i], timeoutMs, now) then Release(tasks[i]) else tasks[i])
  }

  function ClaimableFrom(claimDelayMs: Option<int>, now: int): Option<int> {
    if Truthy(claimDelayMs, 0) then Some(now + claimDelayMs.value) else None
  }

  // The step relations; `ev` records what happened.

  ghost predicate EnqueueStep(s: State, sub: Subtask, delay: Option<int>, now: int, ev: Event, t: State) {
    if First(s.tasks, HasId(sub.id)) < |s.tasks| then t == s && ev == Nothing
    else
      && t == s.(tasks := s.tasks + [Item(sub, None, None, ClaimableFrom(delay, now))])
      && ev == Accepted(sub)
  }

  ghost predicate RemoteStep(s: State, id: string, ev: Event, t: State) {
    var i := First(s.tasks, IsUnclaimedWithId(id));
    if i == |s.tasks| then t == s && ev == Nothing
    else t == s.(tasks := RemoveAt(s.tasks, i)) && ev == TakenRemotely(s.tasks[i].subtask)
  }

  ghost predicate ClaimStep(s: State, agentId: string, model: Option<string>, now: int, ev: Event, t: State) {
    if forall i :: 0 <= i < |s.tasks| ==> !Claimable(s.tasks[i], now) then t == s && ev == Nothing
    else exists i :: IsChoice(s, model, now, i) && t == Hand(s, i, agentId, now) && ev == HandedOut(s.tasks[i].subtask)
  }

  ghost predicate CompleteStep(s: State, result: Result, ev: Event, t: State) {
    var i := First(s.tasks, HasId(result.subtaskId));
    if i == |s.tasks| then t == s.(results := s.results + [result]) && ev == Nothing
    else
      var p := s.tasks[i].subtask.projectId;
      && t == State(RemoveAt(s.tasks, i), s.projectCompleted[p := Count(s.projectCompleted, p) + 1],
                    s.agentClaimCount, s.results + [result])
      && ev == Finished(s.tasks[i].subtask)
  }

  ghost predicate RequeueStep(s: State, id: string, ev: Event, t: State) {
    var i := First(s.tasks, HasId(id));
    ev == Nothing && t == if i == |s.tasks| then s else s.(tasks := s.tasks[i := Release(s.tasks[i])])
  }

  ghost predicate StaleStep(s: State, timeoutMs: int, now: int, ev: Event, t: State) {
    ev == Nothing && t == s.(tasks := ReleaseStale(s.tasks, timeoutMs, now))
  }

  ghost predicate Next(s: State, op: Op, ev: Event, t: State) {
    match op
    case Enqueue(sub, delay, now) => EnqueueStep(s, sub, delay, now, ev, t)
    case RemoteClaimed(id) => RemoteStep(s, id, ev, t)
    case Claim(agentId, model, now) => ClaimStep(s, agentId, model, now, ev, t)
    case Complete(result) => CompleteStep(s, result, ev, t)
    case Requeue(id) => RequeueStep(s, id, ev, t)
    case RequeueStale(timeoutMs, now) => StaleStep(s, timeoutMs, now, ev, t)
  }

  function Hand(s: State, i: int, agentId: string, now: int): State
    requires 0 <= i < |s.tasks|
  {
    s.(tasks := s.tasks[i := s.tasks[i].(claimedBy := Some(agentId), claimedAt := Some(now))],
       agentClaimCount := s.agentClaimCount[agentId := Count(s.agentClaimCount, agentId) + 1])
  }

  // ---------------------------------------------------------------- the queue object

  class Queue {
    var tasks: seq<Item>
    var results: seq<Result>
    var projectCompleted: map<string, nat>
    var agentClaimCount: map<string, nat>

    ghost function View(): State
      reads this
    {
      State(tasks, projectCompleted, agentClaimCount, results)
    }

    constructor ()
      ensures View() == EMPTY
    {
      tasks, results, projectCompleted, agentClaimCount := [], [], map[], map[];
    }

    /** `freshId` stands for the random id given to a subtask that carries none. */
    method EnqueueSubtask(subtask: Subtask, id: Option<string>, freshId: string, claimDelayMs: Option<int>, now: int)
      returns (materialized: Subtask, ghost ev: Event)
      modifies this
      ensures materialized == subtask.(id := if id.Some? then id.value else freshId)
      ensures EnqueueStep(old(View()), materialized, claimDelayMs, now, ev, View())
    {
      materialized := subtask.(id := if id.Some? then id.value else freshId);
      if First(tasks, HasId(materialized.id)) < |tasks| {
        ev := Nothing;
        return;
      }
      var claimableAfterMs := if Truthy(claimDelayMs, 0) then Some(now + claimDelayMs.value) else None;
      tasks := tasks + [Item(materialized, None, None, claimableAfterMs)];
      ev := Accepted(materialized);
    }

    method MarkRemoteClaimed(subtaskId: string) returns (removed: bool, ghost ev: Event)
      modifies this
      ensures RemoteStep(old(View()), subtaskId, ev, View())
      ensures removed <==> ev.TakenRemotely?
    {
      var idx := First(tasks, IsUnclaimedWithId(subtaskId));
      if idx < |tasks| {
        ev := TakenRemotely(tasks[idx].subtask);
        tasks := tasks[..idx] + tasks[idx + 1..];
        return true, ev;
      }
      return false, Nothing;
    }

    method ClaimTask(agentId: string, agentActiveModel: Option<string>, now: int)
      returns (claimed: Option<Subtask>, ghost ev: Event)
      modifies this
      ensures ClaimStep(old(View()), agentId, agentActiveModel, now, ev, View())
      ensures claimed == if ev.HandedOut? then Some(ev.subtask) else None
    {
      ghost var s := View();
      var pool := PoolFor(s, tasks, agentActiveModel, now);
      if |pool| == 0 {
        assert forall i :: 0 <= i < |tasks| ==> !Claimable(tasks[i], now);
        return None, Nothing;
      }
      var item := BestOf(tasks, projectCompleted, pool);
      assert IsChoice(s, agentActiveModel, now, item);
      ev := HandedOut(tasks[item].subtask);
      tasks := tasks[item := tasks[item].(claimedBy := Some(agentId), claimedAt := Some(now))];
      agentClaimCount := agentClaimCount[agentId := Count(agentClaimCount, agentId) + 1];
      assert View() == Hand(s, item, agentId, now);
      claimed := Some(tasks[item].subtask);
    }

    method CompleteTask(result: Result) returns (ghost ev: Event)
      modifies this
      ensures CompleteStep(old(View()), result, ev, View())
    {
      results := results + [result];
      var index := First(tasks, HasId(result.subtaskId));
      ev := Nothing;
      if index < |tasks| {
        var projectId := tasks[index].subtask.projectId;
        ev := Finished(tasks[index].subtask);
        projectCompleted := projectCompleted[projectId := Count(projectCompleted, projectId) + 1];
        tasks := tasks[..index] + tasks[index + 1..];
      }
    }

    method RequeueTask(subtaskId: string) returns (found: bool)
      modifies this
      ensures RequeueStep(old(View()), subtaskId, Nothing, View())
      ensures found <==> exists i :: 0 <= i < |old(tasks)| && old(tasks)[i].subtask.id == subtaskId
    {
      var i := First(tasks, HasId(subtaskId));
      if i == |tasks| {
        return false;
      }
      tasks := tasks[i := tasks[i].(claimedBy := None, claimedAt := None)];
      return true;
    }

    method RequeueStaleTasks(claimTimeoutMs: int, now: int) returns (count: nat)
      modifies this
      ensures StaleStep(old(View()), claimTimeoutMs, now, Nothing, View())
      ensures count == Sum(old(tasks), StaleCount(claimTimeoutMs, now))
    {
      count := 0;
      ghost var all := tasks;
      for i := 0 to |tasks|
        invariant |tasks| == |all| && View() == old(View()).(tasks := tasks)
        invariant forall j :: 0 <= j < i ==> tasks[j] == ReleaseStale(all, claimTimeoutMs, now)[j]
        invariant forall j :: i <= j < |all| ==> tasks[j] == all[j]
        invariant count == Sum(all[..i], StaleCount(claimTimeoutMs, now))
      {
        hide Sum;
        SumAppend(all[..i], all[i], StaleCount(claimTimeoutMs, now));
        assert all[..i + 1] == all[..i] + [all[i]];
        if Stale(tasks[i], claimTimeoutMs, now) {
          tasks := tasks[i := tasks[i].(claimedBy := None, claimedAt := None)];
          count := count + 1;
        }
      }
      assert all[..|all|] == all;
      assert tasks == ReleaseStale(all, claimTimeoutMs, now);
    }
  }

  function StaleCount(timeoutMs: int, now: int): Item -> int {
    (it: Item) => if Stale(it, timeoutMs, now) then 1 else 0
  }

  /** The fair-share scan over the pool: keep the first element that no later one beats. */
  method BestOf(tasks: seq<Item>, completed: map<string, nat>, pool: seq<nat>) returns (item: nat)
    requires |pool| > 0 && forall c :: 0 <= c < |pool| ==> pool[c] < |tasks|
    requires forall a, b :: 0 <= a < b < |pool| ==> pool[a] < pool[b]
    ensures item in pool
    ensures forall c :: c in pool ==> !Better(completed, tasks[c], tasks[item])
    ensures forall c :: c in pool && c < item ==> Better(completed, tasks[item], tasks[c])
  {
    item := pool[0];
    ghost var at := 0;
    for c := 0 to |pool|
      invariant 0 <= at < |pool| && item == pool[at] && (c == 0 ==> at == 0) && (c > 0 ==> at < c)
      invariant forall d :: 0 <= d < c ==> !Better(completed, tasks[pool[d]], tasks[item])
      invariant forall d :: 0 <= d < at ==> Better(completed, tasks[item], tasks[pool[d]])
    {
      var candidate := pool[c];
      var currentCount := Count(completed, tasks[item].subtask.projectId);
      var candidateCount := Count(completed, tasks[candidate].subtask.projectId);
      if candidateCount < currentCount {
        item, at := candidate, c;
      } else if candidateCount == currentCount && tasks[candidate].subtask.priority > tasks[item].subtask.priority {
        item, at := candidate, c;
      }
    }
  }

  function IsClaimable(now: int): Item -> bool {
    (it: Item) => Claimable(it, now)
  }

  function AsksFor(model: Option<string>, now: int): Item -> bool {
    (it: Item) => Claimable(it, now) && it.subtask.requestedModel == model
  }

  lemma ClaimablesAreFree(tasks: seq<Item>, now: int)
    ensures forall i :: 0 <= i < |tasks| ==> (Claimable(tasks[i], now) <==> FreeAt(tasks[i], now))
  {
  }

  /** The pool of a claim, by position; empty only when nothing is claimable. */
  method PoolFor(ghost s: State, tasks: seq<Item>, model: Option<string>, now: int) returns (pool: seq<nat>)
    requires s.tasks == tasks
    ensures forall i :: i in pool <==> InPool(s, model, now, i)
    ensures forall c :: 0 <= c < |pool| ==> InPool(s, model, now, pool[c]) && FreeAt(tasks[pool[c]], now)
    ensures forall a, b :: 0 <= a < b < |pool| ==> pool[a] < pool[b]
    ensures |pool| == 0 <==> forall i :: 0 <= i < |tasks| ==> !FreeAt(tasks[i], now)
  {
    hide Claimable, FreeAt, Positions;
    ClaimablesAreFree(tasks, now);
    var unclaimed := Positions(tasks, IsClaimable(now));
    if |unclaimed| == 0 {
      assert forall i :: 0 <= i < |tasks| && Claimable(tasks[i], now) ==> i in unclaimed;
      return [];
    }
    assert unclaimed[0] in unclaimed;
    var matching := if Truthy(model, "") then Positions(tasks, AsksFor(model, now)) else [];
    assert forall i :: i in matching <==> 0 <= i < |tasks| && Claimable(tasks[i], now) && Matches(tasks[i], model);
    pool := if |matching| > 0 then matching else unclaimed;
    assert pool[0] in pool;
    assert ModelMatched(s, model, now) <==> |matching| > 0;
    assert forall c :: 0 <= c < |pool| ==> pool[c] in pool;
  }

  // ---------------------------------------------------------------- runs

  /** A run from the empty queue: `states[n]` before and `states[n + 1]` after `ops[n]`. */
  ghost predicate IsRun(states: seq<State>, ops: seq<Op>, evs: seq<Event>) {
    && |states| == |ops| + 1 && |evs| == |ops|
    && states[0] == EMPTY
    && forall n :: 0 <= n < |ops| ==> Next(states[n], ops[n], evs[n], states[n + 1])
  }

  ghost predicate UniqueIds(tasks: seq<Item>) {
    forall i, j :: 0 <= i < j < |tasks| ==> tasks[i].subtask.id != tasks[j].subtask.id
  }

  function Subtasks(tasks: seq<Item>): seq<Subtask> {
    seq(|tasks|, i requires 0 <= i < |tasks| => tasks[i].subtask)
  }

  datatype Ledger = Ledger(accepted: multiset<Subtask>, remote: multiset<Subtask>, finished: multiset<Subtask>)

  /** The subtasks that entered and left the queue, read off the events. */
  function Book(evs: seq<Event>): Ledger {
    if evs == [] then Ledger(multiset{}, multiset{}, multiset{})
    else
      Enter(Book(evs[..|evs| - 1]), evs[|evs| - 1])
  }

  function Enter(b: Ledger, ev: Event): Ledger {
    match ev
    case Accepted(x) => b.(accepted := b.accepted + multiset{x})
    case TakenRemotely(x) => b.(remote := b.remote + multiset{x})
    case Finished(x) => b.(finished := b.finished + multiset{x})
    case _ => b
  }

  function Left(ev: Event): multiset<Subtask> {
    if ev.TakenRemotely? || ev.Finished? then multiset{ev.subtask} else multiset{}
  }

  function Entered(ev: Event): multiset<Subtask> {
    if ev.Accepted? then multiset{ev.subtask} else multiset{}
  }

  lemma BooksBalance(b: Ledger, ev: Event, s: State, t: State)
    requires b.accepted == multiset(Subtasks(s.tasks)) + b.remote + b.finished && Moves(s, ev, t)
    ensures var c := Enter(b, ev); c.accepted == multiset(Subtasks(t.tasks)) + c.remote + c.finished
  {
    var c, before, after := Enter(b, ev), multiset(Subtasks(s.tasks)), multiset(Subtasks(t.tasks));
    forall x: Subtask ensures c.accepted[x] == after[x] + c.remote[x] + c.finished[x] {
      assert (after + Left(ev))[x] == (before + Entered(ev))[x];
      assert b.accepted[x] == before[x] + b.remote[x] + b.finished[x];
    }
  }

  function FinishedFor(p: string): Event -> int {
    (e: Event) => if e.Finished? && e.subtask.projectId == p then 1 else 0
  }

  ghost predicate Moves(s: State, ev: Event, t: State) {
    multiset(Subtasks(t.tasks)) + Left(ev) == multiset(Subtasks(s.tasks)) + Entered(ev)
  }

  /** A step that leaves the list of subtasks alone keeps ids unique and moves nothing. */
  lemma SameSubtasks(s: State, ev: Event, t: State)
    requires |s.tasks| == |t.tasks| && forall i :: 0 <= i < |s.tasks| ==> s.tasks[i].subtask == t.tasks[i].subtask
    requires UniqueIds(s.tasks) && (ev.Nothing? || ev.HandedOut?)
    ensures UniqueIds(t.tasks) && Moves(s, ev, t)
  {
    assert Subtasks(t.tasks) == Subtasks(s.tasks);
  }

  lemma RemovesSubtask(s: State, i: nat, t: State)
    requires i < |s.tasks| && t.tasks == RemoveAt(s.tasks, i) && UniqueIds(s.tasks)
    ensures UniqueIds(t.tasks)
    ensures Moves(s, Finished(s.tasks[i].subtask), t) && Moves(s, TakenRemotely(s.tasks[i].subtask), t)
  {
    var all := Subtasks(s.tasks);
    assert Subtasks(t.tasks) == all[..i] + all[i + 1..];
    MultisetRemove(all, i);
  }

  lemma ClaimConserves(s: State, op: Op, ev: Event, t: State)
    requires op.Claim? && ClaimStep(s, op.agentId, op.model, op.now, ev, t) && UniqueIds(s.tasks)
    ensures UniqueIds(t.tasks) && Moves(s, ev, t)
  {
    hide ClaimStep, IsChoice, Moves;
    if ev.HandedOut? {
      var i := HandedOutAt(s, op, ev, t);
    } else {
      NothingHandedOut(s, op, ev, t);
    }
    SameSubtasks(s, ev, t);
  }

  lemma EnqueueConserves(s: State, sub: Subtask, delay: Option<int>, now: int, ev: Event, t: State)
    requires EnqueueStep(s, sub, delay, now, ev, t) && UniqueIds(s.tasks)
    ensures UniqueIds(t.tasks) && Moves(s, ev, t)
  {
    if ev.Accepted? {
      assert Subtasks(t.tasks) == Subtasks(s.tasks) + [sub];
    }
  }

  /** One step keeps ids unique and moves subtasks only as its event says. */
  lemma StepConserves(s: State, op: Op, ev: Event, t: State)
    requires Next(s, op, ev, t) && UniqueIds(s.tasks)
    ensures UniqueIds(t.tasks) && Moves(s, ev, t)
  {
    hide Moves, EnqueueStep, ClaimStep, UniqueIds;
    match op {
      case Enqueue(sub, delay, now) => EnqueueConserves(s, sub, delay, now, ev, t);
      case RemoteClaimed(id) =>
        if ev.TakenRemotely? {
          RemovesSubtask(s, First(s.tasks, IsUnclaimedWithId(id)), t);
        } else {
          SameSubtasks(s, ev, t);
        }
      case Complete(result) =>
        if ev.Finished? {
          RemovesSubtask(s, First(s.tasks, HasId(result.subtaskId)), t);
        } else {
          SameSubtasks(s, ev, t);
        }
      case Claim(agentId, model, now) => ClaimConserves(s, op, ev, t);
      case Requeue(id) => SameSubtasks(s, ev, t);
      case RequeueStale(timeoutMs, now) => SameSubtasks(s, ev, t);
    }
  }

  lemma StepCounts(s: State, op: Op, ev: Event, t: State, p: string)
    requires Next(s, op, ev, t)
    ensures Count(t.projectCompleted, p) == Count(s.projectCompleted, p) + FinishedFor(p)(ev)
  {
  }

  /** Conservation over every run: the accepted subtasks are exactly those still queued, those
      taken by a remote coordinator and those finished, and ids in the queue stay unique. */
  lemma {:induction false} RunConserves(states: seq<State>, ops: seq<Op>, evs: seq<Event>)
    requires IsRun(states, ops, evs)
    ensures var s := states[|ops|];
            && UniqueIds(s.tasks)
            && Book(evs).accepted == multiset(Subtasks(s.tasks)) + Book(evs).remote + Book(evs).finished
    decreases |ops|
  {
    hide Next, Moves;
    if ops != [] {
      var n := |ops| - 1;
      RunConserves(states[..n + 1], ops[..n], evs[..n]);
      StepConserves(states[n], ops[n], evs[n], states[n + 1]);
      BooksBalance(Book(evs[..n]), evs[n], states[n], states[n + 1]);
      assert Book(evs) == Enter(Book(evs[..n]), evs[n]);
    }
  }

  /** projectCompleted counts the finished subtasks of each project. */
  lemma {:induction false} RunCounts(states: seq<State>, ops: seq<Op>, evs: seq<Event>, p: string)
    requires IsRun(states, ops, evs)
    ensures Count(states[|ops|].projectCompleted, p) == Sum(evs, FinishedFor(p))
    decreases |ops|
  {
    hide Next;
    if ops != [] {
      var n := |ops| - 1;
      RunCounts(states[..n + 1], ops[..n], evs[..n], p);
      StepCounts(states[n], ops[n], evs[n], states[n + 1], p);
    }
  }

  /** In every run, what is handed out is an unclaimed, claimable subtask of the pool, the best
      there; and it is claimed afterwards if the agent has a name. */
  lemma HandsOutOnlyClaimable(states: seq<State>, ops: seq<Op>, evs: seq<Event>, n: nat) returns (i: nat)
    requires IsRun(states, ops, evs) && n < |ops| && evs[n].HandedOut?
    ensures ops[n].Claim? && IsChoice(states[n], ops[n].model, ops[n].now, i)
    ensures states[n].tasks[i].subtask == evs[n].subtask
    ensures FreeAt(states[n].tasks[i], ops[n].now)
    ensures states[n + 1] == Hand(states[n], i, ops[n].agentId, ops[n].now)
    ensures i < |states[n + 1].tasks| && (ops[n].agentId != "" ==> Claimed(states[n + 1].tasks[i]))
  {
    assert Next(states[n], ops[n], evs[n], states[n + 1]);
    i := HandedOutAt(states[n], ops[n], evs[n], states[n + 1]);
  }

  // ---------------------------------------------------------------- the queue as its history tells it

  /** How a step changes what is known of the subtask with an id: acceptance starts it anew, with
      the delay it was enqueued with; handing it out claims it; requeueing it, or finding its
      claim too old, frees it; and finishing it or losing it to a peer removes it. */
  function Remember(known: Option<Item>, op: Op, ev: Event, id: string): Option<Item> {
    if ev.Accepted? && ev.subtask.id == id && op.Enqueue? then
      var delay := op.claimDelayMs;
      Some(Item(ev.subtask, None, None,
                if delay.Some? && delay.value != 0 then Some(op.now + delay.value) else None))
    else if known.None? || ((ev.Finished? || ev.TakenRemotely?) && ev.subtask.id == id) then None
    else if ev.HandedOut? && ev.subtask.id == id && op.Claim? then
      Some(known.value.(claimedBy := Some(op.agentId), claimedAt := Some(op.now)))
    else if op.Requeue? && op.id == id then Some(known.value.(claimedBy := None, claimedAt := None))
    else if op.RequeueStale? && TooOld(known.value, op.timeoutMs, op.now) then
      Some(known.value.(claimedBy := None, claimedAt := None))
    else known
  }

  /** A named agent claimed the task, at a time other than 0, longer ago than the timeout. */
  predicate TooOld(it: Item, timeoutMs: int, now: int) {
    && it.claimedBy.Some? && it.claimedBy.value != ""
    && it.claimedAt.Some? && it.claimedAt.value != 0 && it.claimedAt.value + timeoutMs < now
  }

  /** What operations and events alone say about the subtask with an id, if it is queued. */
  function Recalled(ops: seq<Op>, evs: seq<Event>, id: string): Option<Item>
    requires |ops| == |evs|
  {
    if ops == [] then None
    else
      var n := |ops| - 1;
      Remember(Recalled(ops[..n], evs[..n], id), ops[n], evs[n], id)
  }

  lemma OneOfEachId(tasks: seq<Item>, id: string)
    requires UniqueIds(tasks)
    ensures AtMostOne(tasks, HasId(id))
  {
  }

  lemma StaleRecalled(tasks: seq<Item>, timeoutMs: int, now: int, id: string)
    requires UniqueIds(tasks)
    ensures var known, after := Find(tasks, HasId(id)), Find(ReleaseStale(tasks, timeoutMs, now), HasId(id));
            after == if known.Some? && TooOld(known.value, timeoutMs, now)
                     then Some(known.value.(claimedBy := None, claimedAt := None)) else known
  {
    var t, k := ReleaseStale(tasks, timeoutMs, now), First(tasks, HasId(id));
    if k < |tasks| {
      OneOfEachId(t, id);
      FindAt(t, k, HasId(id));
    } else {
      FindNone(t, HasId(id));
    }
  }

  lemma StepRecalled(s: State, op: Op, ev: Event, t: State, id: string)
    requires Next(s, op, ev, t) && UniqueIds(s.tasks)
    ensures Find(t.tasks, HasId(id)) == Remember(Find(s.tasks, HasId(id)), op, ev, id)
  {
    hide Find;
    OneOfEachId(s.tasks, id);
    match op {
      case Enqueue(sub, delay, now) =>
        if ev.Accepted? {
          FindAppend(s.tasks, Item(sub, None, None, ClaimableFrom(delay, now)), HasId(id));
        }
      case RemoteClaimed(x) =>
        if ev.TakenRemotely? {
          FindRemove(s.tasks, First(s.tasks, IsUnclaimedWithId(x)), HasId(id));
        }
      case Complete(result) =>
        if ev.Finished? {
          FindRemove(s.tasks, First(s.tasks, HasId(result.subtaskId)), HasId(id));
        }
      case Claim(agentId, model, now) => ClaimRecalled(s, op, ev, t, id);
      case Requeue(x) => RequeueRecalled(s, x, t, id);
      case RequeueStale(timeoutMs, now) => StaleRecalled(s.tasks, timeoutMs, now, id);
    }
  }

  /** The task that a claim hands out. */
  lemma HandedOutAt(s: State, op: Op, ev: Event, t: State) returns (i: nat)
    requires op.Claim? && ClaimStep(s, op.agentId, op.model, op.now, ev, t) && ev.HandedOut?
    ensures i < |s.tasks| && IsChoice(s, op.model, op.now, i)
    ensures ev.subtask == s.tasks[i].subtask && t == Hand(s, i, op.agentId, op.now)
  {
    i :| IsChoice(s, op.model, op.now, i) && t == Hand(s, i, op.agentId, op.now)
         && ev == HandedOut(s.tasks[i].subtask);
  }

  lemma NothingHandedOut(s: State, op: Op, ev: Event, t: State)
    requires op.Claim? && ClaimStep(s, op.agentId, op.model, op.now, ev, t) && !ev.HandedOut?
    ensures t == s && ev == Nothing && forall i :: 0 <= i < |s.tasks| ==> !Claimable(s.tasks[i], op.now)
  {
  }

  lemma ClaimRecalled(s: State, op: Op, ev: Event, t: State, id: string)
    requires op.Claim? && ClaimStep(s, op.agentId, op.model, op.now, ev, t) && UniqueIds(s.tasks)
    ensures Find(t.tasks, HasId(id)) == Remember(Find(s.tasks, HasId(id)), op, ev, id)
  {
    hide Find, ClaimStep, IsChoice;
    if ev.HandedOut? {
      var i := HandedOutAt(s, op, ev, t);
      OneOfEachId(s.tasks, id);
      FindUpdate(s.tasks, i, t.tasks[i], HasId(id));
      if s.tasks[i].subtask.id == id {
        FindAt(s.tasks, i, HasId(id));
      }
    } else {
      NothingHandedOut(s, op, ev, t);
    }
  }

  lemma RequeueRecalled(s: State, x: string, t: State, id: string)
    requires RequeueStep(s, x, Nothing, t) && UniqueIds(s.tasks)
    ensures Find(t.tasks, HasId(id)) == Remember(Find(s.tasks, HasId(id)), Requeue(x), Nothing, id)
  {
    var i := First(s.tasks, HasId(x));
    if i < |s.tasks| {
      OneOfEachId(s.tasks, id);
      FindUpdate(s.tasks, i, Release(s.tasks[i]), HasId(id));
    }
  }

  /** In every run the queue holds exactly the subtasks that its history says are queued, and each
      with the claim, the claim time and the earliest claim time that its history gives it. */
  lemma {:induction false} QueueFollowsHistory(states: seq<State>, ops: seq<Op>, evs: seq<Event>, id: string)
    requires IsRun(states, ops, evs)
    ensures Find(states[|ops|].tasks, HasId(id)) == Recalled(ops, evs, id)
    decreases |ops|
  {
    hide Next, Find, Remember;
    if ops == [] {
      FindNone(EMPTY.tasks, HasId(id));
    } else {
      var n := |ops| - 1;
      QueueFollowsHistory(states[..n + 1], ops[..n], evs[..n], id);
      RunConserves(states[..n + 1], ops[..n], evs[..n]);
      StepRecalled(states[n], ops[n], evs[n], states[n + 1], id);
    }
  }

  /** Nobody with a name has claimed the task, and its earliest claim time, if it has one other
      than 0, has come. */
  ghost predicate FreeAt(it: Item, now: int) {
    && (it.claimedBy == None || it.claimedBy == Some(""))
    && (it.claimableAfterMs == None || it.claimableAfterMs == Some(0) || it.claimableAfterMs.value <= now)
  }

  lemma RecalledAt(states: seq<State>, ops: seq<Op>, evs: seq<Event>, n: nat)
    requires IsRun(states, ops, evs) && n < |ops|
    ensures UniqueIds(states[n].tasks)
    ensures forall id :: Find(states[n].tasks, HasId(id)) == Recalled(ops[..n], evs[..n], id)
    ensures Next(states[n], ops[n], evs[n], states[n + 1])
  {
    hide Find, Recalled, Next;
    RunConserves(states[..n + 1], ops[..n], evs[..n]);
    forall id ensures Find(states[n].tasks, HasId(id)) == Recalled(ops[..n], evs[..n], id) {
      QueueFollowsHistory(states[..n + 1], ops[..n], evs[..n], id);
    }
  }

  /** What a claim does, from operations and events alone: it hands out a task only if its history
      says that it is queued and free, and it hands out nothing only if no queued task is free. */
  lemma ClaimsFollowHistory(states: seq<State>, ops: seq<Op>, evs: seq<Event>, n: nat)
    requires IsRun(states, ops, evs) && n < |ops| && ops[n].Claim?
    ensures evs[n].HandedOut? || evs[n] == Nothing
    ensures evs[n].HandedOut? ==>
              var known := Recalled(ops[..n], evs[..n], evs[n].subtask.id);
              known.Some? && known.value.subtask == evs[n].subtask && FreeAt(known.value, ops[n].now)
    ensures evs[n] == Nothing ==>
              forall id :: var known := Recalled(ops[..n], evs[..n], id);
                           known.Some? ==> !FreeAt(known.value, ops[n].now)
  {
    hide Recalled;
    RecalledAt(states, ops, evs, n);
    var s, op := states[n], ops[n];
    if evs[n].HandedOut? {
      var i := HandedOutAt(s, op, evs[n], states[n + 1]);
      OneOfEachId(s.tasks, evs[n].subtask.id);
      FindAt(s.tasks, i, HasId(evs[n].subtask.id));
    } else {
      NothingHandedOut(s, op, evs[n], states[n + 1]);
      forall id | Find(s.tasks, HasId(id)).Some? ensures !FreeAt(Find(s.tasks, HasId(id)).value, op.now) {
        assert !Claimable(s.tasks[First(s.tasks, HasId(id))], op.now);
      }
    }
  }

  /** The events of the other operations, from operations and events alone: a subtask is accepted
      unless its id is queued, a peer takes only what nobody has claimed, and whatever is queued
      can be finished. */
  lemma EventsFollowHistory(states: seq<State>, ops: seq<Op>, evs: seq<Event>, n: nat)
    requires IsRun(states, ops, evs) && n < |ops| && !ops[n].Claim?
    ensures match ops[n]
            case Enqueue(x, _, _) =>
              evs[n] == if Recalled(ops[..n], evs[..n], x.id).Some? then Nothing else Accepted(x)
            case RemoteClaimed(id) =>
              var known := Recalled(ops[..n], evs[..n], id);
              evs[n] == if known.Some? && (known.value.claimedBy == None || known.value.claimedBy == Some(""))
                        then TakenRemotely(known.value.subtask) else Nothing
            case Complete(result) =>
              var known := Recalled(ops[..n], evs[..n], result.subtaskId);
              evs[n] == if known.Some? then Finished(known.value.subtask) else Nothing
            case _ => evs[n] == Nothing
  {
    hide Recalled;
    RecalledAt(states, ops, evs, n);
    var s := states[n];
    if ops[n].RemoteClaimed? {
      var id := ops[n].id;
      var i, k := First(s.tasks, IsUnclaimedWithId(id)), First(s.tasks, HasId(id));
      assert i < |s.tasks| ==> HasId(id)(s.tasks[i]) && i == k;
      assert k < |s.tasks| && !Claimed(s.tasks[k]) ==> IsUnclaimedWithId(id)(s.tasks[k]);
    }
  }

  lemma {:induction false} RecalledSince(ops: seq<Op>, evs: seq<Event>, id: string, m: nat)
    requires |ops| == |evs| && m < |ops| && ops[m].Enqueue? && evs[m] == Accepted(ops[m].subtask)
    requires ops[m].subtask.id == id
    requires forall k :: m < k < |ops| ==> !(evs[k].Accepted? && evs[k].subtask.id == id)
    ensures var known, delay := Recalled(ops, evs, id), ops[m].claimDelayMs;
            known.Some? ==>
              && known.value.subtask == ops[m].subtask
              && known.value.claimableAfterMs
              == if delay.Some? && delay.value != 0 then Some(ops[m].now + delay.value) else None
    decreases |ops|
  {
    var n := |ops| - 1;
    if m < n {
      RecalledSince(ops[..n], evs[..n], id, m);
    }
  }

  /** The claim delay is kept: a task is not handed out before the time of its last acceptance
      and the delay it was enqueued with have passed. */
  lemma DelayIsKept(states: seq<State>, ops: seq<Op>, evs: seq<Event>, m: nat, n: nat)
    requires IsRun(states, ops, evs) && m < n < |ops| && ops[n].Claim? && evs[n].HandedOut?
    requires ops[m].Enqueue? && evs[m] == Accepted(ops[m].subtask) && ops[m].subtask.id == evs[n].subtask.id
    requires forall k :: m < k < n ==> !(evs[k].Accepted? && evs[k].subtask.id == evs[n].subtask.id)
    ensures var delay := ops[m].claimDelayMs;
            delay.Some? && delay.value != 0 && ops[m].now + delay.value != 0 ==> ops[n].now >= ops[m].now + delay.value
  {
    ClaimsFollowHistory(states, ops, evs, n);
    RecalledSince(ops[..n], evs[..n], evs[n].subtask.id, m);
  }

  /** Fair share, from operations and events alone: no task that was free and in the pool belongs
      to a project with fewer finished tasks, or to one with as many and a higher priority. */
  lemma HandsOutFairly(states: seq<State>, ops: seq<Op>, evs: seq<Event>, n: nat, id: string)
    requires IsRun(states, ops, evs) && n < |ops| && ops[n].Claim? && evs[n].HandedOut?
    ensures var x, known, model := evs[n].subtask, Recalled(ops[..n], evs[..n], id), ops[n].model;
            var finished := (p: string) => Sum(evs[..n], FinishedFor(p));
            known.Some? && FreeAt(known.value, ops[n].now) ==>
              var y := known.value.subtask;
              || (model.Some? && model.value != "" && x.requestedModel == model && y.requestedModel != model)
              || finished(x.projectId) < finished(y.projectId)
              || (finished(x.projectId) == finished(y.projectId) && x.priority >= y.priority)
  {
    hide Recalled, Sum;
    RecalledAt(states, ops, evs, n);
    var s, op := states[n], ops[n];
    var i := HandedOutAt(s, op, evs[n], states[n + 1]);
    var k := First(s.tasks, HasId(id));
    if k < |s.tasks| && FreeAt(s.tasks[k], op.now) {
      RunCounts(states[..n + 1], ops[..n], evs[..n], s.tasks[i].subtask.projectId);
      RunCounts(states[..n + 1], ops[..n], evs[..n], s.tasks[k].subtask.projectId);
      ChosenOver(s, op, i, k);
    }
  }

  lemma ChosenOver(s: State, op: Op, i: nat, k: nat)
    requires op.Claim? && IsChoice(s, op.model, op.now, i) && k < |s.tasks| && FreeAt(s.tasks[k], op.now)
    ensures var x, y := s.tasks[i].subtask, s.tasks[k].subtask;
            || (op.model.Some? && op.model.value != "" && x.requestedModel == op.model && y.requestedModel != op.model)
            || Count(s.projectCompleted, x.projectId) < Count(s.projectCompleted, y.projectId)
            || (Count(s.projectCompleted, x.projectId) == Count(s.projectCompleted, y.projectId)
                && x.priority >= y.priority)
  {
    assert Claimable(s.tasks[k], op.now);
    if InPool(s, op.model, op.now, k) {
      assert !Better(s.projectCompleted, s.tasks[k], s.tasks[i]);
    }
  }

  function ClaimsBy(a: string, ops: seq<Op>, evs: seq<Event>): nat
    requires |ops| == |evs|
  {
    if ops == [] then 0
    else
      var n := |ops| - 1;
      var before := ClaimsBy(a, ops[..n], evs[..n]);
      if ops[n].Claim? && ops[n].agentId == a && evs[n].HandedOut? then before + 1 else before
  }

  /** The results passed to complete, in order. */
  function ResultsOf(ops: seq<Op>): seq<Result> {
    if ops == [] then []
    else
      var n := |ops| - 1;
      if ops[n].Complete? then ResultsOf(ops[..n]) + [ops[n].result] else ResultsOf(ops[..n])
  }

  /** agentClaimCount counts what each agent was handed, and every result is kept. */
  lemma {:induction false} RunRecords(states: seq<State>, ops: seq<Op>, evs: seq<Event>, a: string)
    requires IsRun(states, ops, evs)
    ensures Count(states[|ops|].agentClaimCount, a) == ClaimsBy(a, ops, evs)
    ensures states[|ops|].results == ResultsOf(ops)
    decreases |ops|
  {
    hide Next;
    if ops != [] {
      var n := |ops| - 1;
      RunRecords(states[..n + 1], ops[..n], evs[..n], a);
      StepRecords(states[n], ops[n], evs[n], states[n + 1], a);
    }
  }

  lemma StepRecords(s: State, op: Op, ev: Event, t: State, a: string)
    requires Next(s, op, ev, t)
    ensures Count(t.agentClaimCount, a)
         == Count(s.agentClaimCount, a) + if op.Claim? && op.agentId == a && ev.HandedOut? then 1 else 0
    ensures t.results == if op.Complete? then s.results + [op.result] else s.results
  {
    if op.Claim? {
      hide IsChoice, Claimable;
    }
  }

  // ---------------------------------------------------------------- fairness

  function ClaimedFor(p: string): Item -> int {
    (it: Item) => if Claimed(it) && it.subtask.projectId == p then 1 else 0
  }

  function ClaimedAny(): Item -> int {
    (it: Item) => if Claimed(it) then 1 else 0
  }

  function InFlight(s: State, p: string): int {
    Sum(s.tasks, ClaimedFor(p))
  }

  function Load(s: State, p: string): int {
    Count(s.projectCompleted, p) + InFlight(s, p)
  }

  /** A claim is made from a pool that holds a task of `q`. */
  ghost predicate Offered(s: State, op: Op, q: string) {
    op.Claim? ==> exists i :: InPool(s, op.model, op.now, i) && s.tasks[i].subtask.projectId == q
  }

  /** A completion is of a task that is claimed at that time. */
  ghost predicate Prompt(s: State, op: Op) {
    op.Complete? ==>
      forall i :: 0 <= i < |s.tasks| && s.tasks[i].subtask.id == op.result.subtaskId ==> Claimed(s.tasks[i])
  }

  ghost predicate FairStep(s: State, op: Op, q: string) {
    Offered(s, op, q) && Prompt(s, op)
  }

  /** The step serves `p` around fair share: it hands out a task of `p` from a pool without
      `q`, or completes a task of `p` that is not claimed. */
  ghost predicate Bypasses(s: State, op: Op, ev: Event, p: string, q: string) {
    (ev.HandedOut? || ev.Finished?) && ev.subtask.projectId == p && !FairStep(s, op, q)
  }

  ghost function BypassCount(states: seq<State>, ops: seq<Op>, evs: seq<Event>, p: string, q: string): nat
    requires |states| == |ops| + 1 && |evs| == |ops|
  {
    if ops == [] then 0
    else
      var n := |ops| - 1;
      var before := BypassCount(states[..n + 1], ops[..n], evs[..n], p, q);
      if Bypasses(states[n], ops[n], evs[n], p, q) then before + 1 else before
  }

  /** How a step other than a claim changes the load of a project: it never raises it, except
      that completing an unclaimed task raises it by one. */
  lemma LoadOfQuietStep(s: State, op: Op, ev: Event, t: State, p: string, q: string)
    requires Next(s, op, ev, t) && !op.Claim?
    ensures Load(t, p) <= Load(s, p) + if Bypasses(s, op, ev, p, q) then 1 else 0
    ensures Count(s.projectCompleted, q) <= Count(t.projectCompleted, q)
  {
    match op {
      case Enqueue(sub, delay, now) =>
        SumAppend(s.tasks, Item(sub, None, None, ClaimableFrom(delay, now)), ClaimedFor(p));
      case RemoteClaimed(id) => LoadOfRemote(s, id, ev, t, p);
      case Complete(result) => LoadOfComplete(s, op, ev, t, p, q);
      case Requeue(id) => LoadOfRequeue(s, id, t, p);
      case RequeueStale(timeoutMs, now) => ReleasingLowersLoad(s.tasks, timeoutMs, now, p);
    }
  }

  lemma LoadOfRemote(s: State, id: string, ev: Event, t: State, p: string)
    requires RemoteStep(s, id, ev, t)
    ensures Load(t, p) == Load(s, p)
  {
    var i := First(s.tasks, IsUnclaimedWithId(id));
    if i < |s.tasks| {
      SumRemove(s.tasks, i, ClaimedFor(p));
    }
  }

  lemma LoadOfComplete(s: State, op: Op, ev: Event, t: State, p: string, q: string)
    requires op.Complete? && CompleteStep(s, op.result, ev, t)
    ensures Load(t, p) <= Load(s, p) + if Bypasses(s, op, ev, p, q) then 1 else 0
  {
    var i := First(s.tasks, HasId(op.result.subtaskId));
    if i < |s.tasks| {
      SumRemove(s.tasks, i, ClaimedFor(p));
      assert s.tasks[i].subtask.id == op.result.subtaskId;
    }
  }

  lemma LoadOfRequeue(s: State, id: string, t: State, p: string)
    requires RequeueStep(s, id, Nothing, t)
    ensures Load(t, p) <= Load(s, p)
  {
    var i := First(s.tasks, HasId(id));
    if i < |s.tasks| {
      SumUpdate(s.tasks, i, Release(s.tasks[i]), ClaimedFor(p));
    }
  }

  /** A claim raises the load of `p` by at most one, and does so from a pool with a task of
      `q` only if `p` is not ahead of `q` in completed tasks. */
  lemma LoadOfClaim(s: State, op: Op, ev: Event, i: nat, t: State, p: string, q: string)
    requires op.Claim? && IsChoice(s, op.model, op.now, i)
    requires ev == HandedOut(s.tasks[i].subtask) && t == Hand(s, i, op.agentId, op.now)
    ensures t.projectCompleted == s.projectCompleted
    ensures || Load(t, p) <= Load(s, p) + (if Bypasses(s, op, ev, p, q) then 1 else 0)
            || Count(s.projectCompleted, p) <= Count(s.projectCompleted, q)
  {
    SumUpdate(s.tasks, i, t.tasks[i], ClaimedFor(p));
    if Offered(s, op, q) {
      var j :| InPool(s, op.model, op.now, j) && s.tasks[j].subtask.projectId == q;
      assert !Better(s.projectCompleted, s.tasks[j], s.tasks[i]);
    }
  }

  lemma {:induction false} ReleasingLowersLoad(tasks: seq<Item>, timeoutMs: int, now: int, p: string)
    ensures Sum(ReleaseStale(tasks, timeoutMs, now), ClaimedFor(p)) <= Sum(tasks, ClaimedFor(p))
  {
    if tasks != [] {
      var n := |tasks| - 1;
      ReleasingLowersLoad(tasks[..n], timeoutMs, now, p);
      assert ReleaseStale(tasks, timeoutMs, now)[..n] == ReleaseStale(tasks[..n], timeoutMs, now);
    }
  }

  ghost predicate AtMostClaimed(states: seq<State>, k: nat) {
    forall n :: 0 <= n < |states| ==> Sum(states[n].tasks, ClaimedAny()) <= k
  }

  /** Fairness as an account over every run: if at most `k` tasks are ever claimed at once, the
      completed and running tasks of `p` run ahead of the completed tasks of `q` by at most `k`
      and the number of steps that served `p` around fair share. */
  lemma {:induction false} FairnessAccount(states: seq<State>, ops: seq<Op>, evs: seq<Event>,
                                           p: string, q: string, k: nat)
    requires IsRun(states, ops, evs) && AtMostClaimed(states, k)
    ensures Load(states[|ops|], p)
         <= Count(states[|ops|].projectCompleted, q) + k + BypassCount(states, ops, evs, p, q)
    decreases |ops|
  {
    if ops != [] {
      hide Bypasses, Next;
      var n := |ops| - 1;
      FairnessAccount(states[..n + 1], ops[..n], evs[..n], p, q, k);
      assert states[n + 1] == states[|states| - 1];
      SumBound(states[n + 1].tasks, ClaimedFor(p), ClaimedAny());
      if ops[n].Claim? {
        if evs[n].HandedOut? {
          var i := HandsOutOnlyClaimable(states, ops, evs, n);
          LoadOfClaim(states[n], ops[n], evs[n], i, states[n + 1], p, q);
        } else {
          assert Next(states[n], ops[n], evs[n], states[n + 1]);
          NothingHandedOut(states[n], ops[n], evs[n], states[n + 1]);
        }
      } else {
        LoadOfQuietStep(states[n], ops[n], evs[n], states[n + 1], p, q);
      }
    }
  }

  lemma {:induction false} FairStepsDoNotBypass(states: seq<State>, ops: seq<Op>, evs: seq<Event>, p: string, q: string)
    requires |states| == |ops| + 1 && |evs| == |ops|
    requires forall n :: 0 <= n < |ops| ==> FairStep(states[n], ops[n], q)
    ensures BypassCount(states, ops, evs, p, q) == 0
    decreases |ops|
  {
    if ops != [] {
      hide FairStep;
      var n := |ops| - 1;
      FairStepsDoNotBypass(states[..n + 1], ops[..n], evs[..n], p, q);
    }
  }

  /** k-bounded fairness: if every claim is made from a pool that holds a task of `q` and every
      completion is of a claimed task, no project runs more than `k` ahead of `q`. */
  lemma KBoundedFairness(states: seq<State>, ops: seq<Op>, evs: seq<Event>, p: string, q: string, k: nat)
    requires IsRun(states, ops, evs) && AtMostClaimed(states, k)
    requires forall n :: 0 <= n < |ops| ==> FairStep(states[n], ops[n], q)
    ensures Load(states[|ops|], p) <= Count(states[|ops|].projectCompleted, q) + k
  {
    FairnessAccount(states, ops, evs, p, q, k);
    FairStepsDoNotBypass(states, ops, evs, p, q);
  }

  // ---------------------------------------------------------------- families of runs

  /** What every step of a run keeps to: both conditions of fairness; only the second, while a
      task of `q` could be claimed if it were in the pool; or only the first. */
  datatype Discipline = Fair | OnlyPrompt | OnlyOffered

  ghost predicate Waits(s: State, op: Op, q: string) {
    op.Claim? ==> exists i :: 0 <= i < |s.tasks| && Claimable(s.tasks[i], op.now) && s.tasks[i].subtask.projectId == q
  }

  ghost predicate Keeps(d: Discipline, s: State, op: Op) {
    match d
    case Fair => FairStep(s, op, "q")
    case OnlyPrompt => Waits(s, op, "q") && Prompt(s, op)
    case OnlyOffered => Offered(s, op, "q")
  }

  /** A run with at most `k` claims at a time. */
  ghost predicate RunOf(d: Discipline, states: seq<State>, ops: seq<Op>, evs: seq<Event>, k: nat) {
    && IsRun(states, ops, evs) && AtMostClaimed(states, k)
    && forall n :: 0 <= n < |ops| ==> Keeps(d, states[n], ops[n])
  }

  lemma RunLengths(d: Discipline, states: seq<State>, ops: seq<Op>, evs: seq<Event>, k: nat)
    requires RunOf(d, states, ops, evs, k)
    ensures |states| == |ops| + 1 && |evs| == |ops|
  {
  }

  lemma Extend(d: Discipline, ss: seq<State>, os: seq<Op>, es: seq<Event>, k: nat, op: Op, ev: Event, t: State)
    requires RunOf(d, ss, os, es, k)
    requires Next(ss[|os|], op, ev, t) && Keeps(d, ss[|os|], op) && Sum(t.tasks, ClaimedAny()) <= k
    ensures RunOf(d, ss + [t], os + [op], es + [ev], k) && (ss + [t])[|os + [op]|] == t
  {
    hide Next, Keeps, Sum;
    var states, ops, evs := ss + [t], os + [op], es + [ev];
    forall n | 0 <= n < |ops| ensures Next(states[n], ops[n], evs[n], states[n + 1]) && Keeps(d, states[n], ops[n]) {
      if n < |os| {
        assert Next(ss[n], os[n], es[n], ss[n + 1]);
      }
    }
  }

  // ---------------------------------------------------------------- why claims must offer the waiting project

  const WAITING_TASK := Subtask("q-task", "q", 0, None)
  const MODEL_TASK := Subtask("p-task", "p", 0, Some("m"))
  const WAITING_ITEM := Item(WAITING_TASK, None, None, None)
  const REPORT := Result("p-task", true, "")

  /** The run that only enqueues the task of q. */
  lemma WaitingRun(d: Discipline) returns (states: seq<State>, ops: seq<Op>, evs: seq<Event>)
    ensures RunOf(d, states, ops, evs, 1) && states[|ops|] == EMPTY.(tasks := [WAITING_ITEM])
    ensures evs == [Accepted(WAITING_TASK)]
  {
    var s, op := EMPTY.(tasks := [WAITING_ITEM]), Enqueue(WAITING_TASK, None, 1);
    states, ops, evs := [EMPTY, s], [op], [Accepted(WAITING_TASK)];
    assert EMPTY.tasks + [WAITING_ITEM] == [WAITING_ITEM];
    assert Next(EMPTY, op, evs[0], s);
    assert Keeps(d, EMPTY, op);
  }

  /** The queue after `n` tasks of project p were claimed by model and completed. */
  function Starved(n: nat): State {
    if n == 0 then EMPTY.(tasks := [WAITING_ITEM])
    else
      var s := Starved(n - 1);
      State(s.tasks, s.projectCompleted["p" := Count(s.projectCompleted, "p") + 1],
            s.agentClaimCount["a" := Count(s.agentClaimCount, "a") + 1], s.results + [REPORT])
  }

  const OPEN_ITEM := Item(MODEL_TASK, None, None, None)
  const TAKEN_ITEM := Item(MODEL_TASK, Some("a"), Some(1), None)

  function WithOpen(s: State): State {
    s.(tasks := [WAITING_ITEM, OPEN_ITEM])
  }

  function WithTaken(s: State): State {
    s.(tasks := [WAITING_ITEM, TAKEN_ITEM],
       agentClaimCount := s.agentClaimCount["a" := Count(s.agentClaimCount, "a") + 1])
  }

  lemma RoundEnqueue(s: State)
    requires s.tasks == [WAITING_ITEM]
    ensures Next(s, Enqueue(MODEL_TASK, None, 1), Accepted(MODEL_TASK), WithOpen(s))
    ensures Keeps(OnlyPrompt, s, Enqueue(MODEL_TASK, None, 1))
  {
    assert WithOpen(s).tasks == s.tasks + [OPEN_ITEM];
  }

  lemma RoundClaim(s: State)
    ensures Next(WithOpen(s), Claim("a", Some("m"), 1), HandedOut(MODEL_TASK), WithTaken(s))
    ensures Keeps(OnlyPrompt, WithOpen(s), Claim("a", Some("m"), 1))
  {
    assert Claimable(WithOpen(s).tasks[0], 1);
    var t := WithOpen(s);
    assert Claimable(t.tasks[1], 1) && Matches(t.tasks[1], Some("m")) && !Matches(t.tasks[0], Some("m"));
    assert IsChoice(t, Some("m"), 1, 1);
    assert Hand(t, 1, "a", 1) == WithTaken(s) by {
      assert t.tasks[1 := TAKEN_ITEM] == [WAITING_ITEM, TAKEN_ITEM];
    }
  }

  lemma RoundComplete(n: nat)
    requires Starved(n).tasks == [WAITING_ITEM]
    ensures Next(WithTaken(Starved(n)), Complete(REPORT), Finished(MODEL_TASK), Starved(n + 1))
    ensures Keeps(OnlyPrompt, WithTaken(Starved(n)), Complete(REPORT))
  {
    var s, t := Starved(n), WithTaken(Starved(n));
    assert First(t.tasks, HasId("p-task")) == 1;
    assert RemoveAt(t.tasks, 1) == s.tasks;
  }

  lemma RoundLoads(s: State)
    ensures Sum(WithOpen(s).tasks, ClaimedAny()) == 0 && Sum(WithTaken(s).tasks, ClaimedAny()) == 1
  {
    assert [WAITING_ITEM, OPEN_ITEM] == [WAITING_ITEM] + [OPEN_ITEM];
    assert [WAITING_ITEM, TAKEN_ITEM] == [WAITING_ITEM] + [TAKEN_ITEM];
    SumAppend([WAITING_ITEM], OPEN_ITEM, ClaimedAny());
    SumAppend([WAITING_ITEM], TAKEN_ITEM, ClaimedAny());
  }

  lemma {:induction false} StarvedTasks(n: nat)
    ensures Starved(n).tasks == [WAITING_ITEM] && Count(Starved(n).projectCompleted, "p") == n
    ensures Count(Starved(n).projectCompleted, "q") == 0
    ensures Sum(Starved(n).tasks, ClaimedAny()) == 0
  {
    if n > 0 {
      StarvedTasks(n - 1);
    }
  }

  /** With model-matched claims there is no bound at all: one task at a time, each completed
      after it was claimed, project q always claimable, and yet p finishes `n` tasks and q none. */
  lemma {:induction false} ModelPoolStarves(n: nat) returns (states: seq<State>, ops: seq<Op>, evs: seq<Event>)
    ensures RunOf(OnlyPrompt, states, ops, evs, 1)
    ensures states[|ops|] == Starved(n)
    ensures Count(states[|ops|].projectCompleted, "p") == n && Count(states[|ops|].projectCompleted, "q") == 0
  {
    StarvedTasks(n);
    if n == 0 {
      states, ops, evs := WaitingRun(OnlyPrompt);
    } else {
      states, ops, evs := ModelPoolStarves(n - 1);
      states, ops, evs := AddRound(states, ops, evs, n - 1);
    }
  }

  lemma AddRound(ss: seq<State>, os: seq<Op>, es: seq<Event>, n: nat)
    returns (states: seq<State>, ops: seq<Op>, evs: seq<Event>)
    requires RunOf(OnlyPrompt, ss, os, es, 1) && ss[|os|] == Starved(n)
    ensures RunOf(OnlyPrompt, states, ops, evs, 1) && states[|ops|] == Starved(n + 1)
  {
    hide RunOf, Next, Keeps, Sum, Starved, WithOpen, WithTaken;
    assert |ss| == |os| + 1 && |es| == |os| by {
      RunLengths(OnlyPrompt, ss, os, es, 1);
    }
    var s := Starved(n);
    StarvedTasks(n);
    StarvedTasks(n + 1);
    RoundLoads(s);
    RoundEnqueue(s);
    Extend(OnlyPrompt, ss, os, es, 1, Enqueue(MODEL_TASK, None, 1), Accepted(MODEL_TASK), WithOpen(s));
    states, ops, evs := ss + [WithOpen(s)], os + [Enqueue(MODEL_TASK, None, 1)], es + [Accepted(MODEL_TASK)];
    RoundClaim(s);
    Extend(OnlyPrompt, states, ops, evs, 1, Claim("a", Some("m"), 1), HandedOut(MODEL_TASK), WithTaken(s));
    states, ops, evs := states + [WithTaken(s)], ops + [Claim("a", Some("m"), 1)], evs + [HandedOut(MODEL_TASK)];
    RoundComplete(n);
    Extend(OnlyPrompt, states, ops, evs, 1, Complete(REPORT), Finished(MODEL_TASK), Starved(n + 1));
    states, ops, evs := states + [Starved(n + 1)], ops + [Complete(REPORT)], evs + [Finished(MODEL_TASK)];
  }

  // ---------------------------------------------------------------- why the bound is k

  /** Ids that differ in length. */
  function TaskId(i: nat): string {
    seq(i + 1, _ => 'p')
  }

  function Open(i: nat): Item {
    Item(Subtask(TaskId(i), "p", 0, None), None, None, None)
  }

  function Taken(i: nat): Item {
    Open(i).(claimedBy := Some("a"), claimedAt := Some(1))
  }

  /** `m` tasks of project p, the first `j` of them claimed. */
  function Pile(m: nat, j: nat): seq<Item> {
    seq(m, i requires 0 <= i < m => if i < j then Taken(i) else Open(i))
  }

  function Claims(j: nat): map<string, nat> {
    if j == 0 then map[] else map["a" := j]
  }

  function Filling(m: nat): State {
    EMPTY.(tasks := Pile(m, 0))
  }

  function Claiming(k: nat, j: nat): State {
    EMPTY.(tasks := Pile(k, j) + [WAITING_ITEM], agentClaimCount := Claims(j))
  }

  lemma FillStep(m: nat)
    ensures Next(Filling(m), Enqueue(Open(m).subtask, None, 1), Accepted(Open(m).subtask), Filling(m + 1))
  {
    var s := Filling(m);
    forall i | 0 <= i < m ensures s.tasks[i].subtask.id != TaskId(m) {
      assert |s.tasks[i].subtask.id| == i + 1 && |TaskId(m)| == m + 1;
    }
    assert Filling(m + 1).tasks == s.tasks + [Open(m)];
  }

  lemma WaitStep(k: nat)
    ensures Next(Filling(k), Enqueue(WAITING_TASK, None, 1), Accepted(WAITING_TASK), Claiming(k, 0))
  {
    var s := Filling(k);
    forall i | 0 <= i < k ensures s.tasks[i].subtask.id != WAITING_TASK.id {
      assert s.tasks[i].subtask.id[0] == 'p' && WAITING_TASK.id[0] == 'q';
    }
  }

  lemma PileStep(k: nat, j: nat)
    requires j < k
    ensures Next(Claiming(k, j), Claim("a", None, 1), HandedOut(Open(j).subtask), Claiming(k, j + 1))
    ensures Keeps(Fair, Claiming(k, j), Claim("a", None, 1))
  {
    var s := Claiming(k, j);
    assert s.tasks[j] == Open(j) && s.tasks[k] == WAITING_ITEM;
    assert Claimable(s.tasks[j], 1) && Claimable(s.tasks[k], 1);
    forall i | 0 <= i < j ensures !Claimable(s.tasks[i], 1) {
      assert s.tasks[i] == Taken(i);
    }
    forall i | 0 <= i < |s.tasks| ensures s.tasks[i].subtask.priority == 0 {
    }
    assert IsChoice(s, None, 1, j);
    assert Hand(s, j, "a", 1).tasks == Pile(k, j + 1) + [WAITING_ITEM];
    assert Hand(s, j, "a", 1) == Claiming(k, j + 1);
  }

  lemma {:induction false} PileClaims(m: nat, j: nat)
    requires j <= m
    ensures Sum(Pile(m, j), ClaimedAny()) == j && Sum(Pile(m, j), ClaimedFor("p")) == j
  {
    if m > 0 {
      var n := m - 1;
      PileClaims(n, if j < m then j else n);
      assert Pile(m, j)[..n] == Pile(n, if j < m then j else n);
    }
  }

  lemma ClaimingClaims(k: nat, j: nat)
    requires j <= k
    ensures Sum(Claiming(k, j).tasks, ClaimedAny()) == j && InFlight(Claiming(k, j), "p") == j
  {
    PileClaims(k, j);
    SumAppend(Pile(k, j), WAITING_ITEM, ClaimedAny());
    SumAppend(Pile(k, j), WAITING_ITEM, ClaimedFor("p"));
  }

  lemma {:induction false} FillRun(m: nat, k: nat) returns (states: seq<State>, ops: seq<Op>, evs: seq<Event>)
    ensures RunOf(Fair, states, ops, evs, k) && states[|ops|] == Filling(m)
  {
    hide Next, Sum;
    PileClaims(m, 0);
    if m == 0 {
      states, ops, evs := [EMPTY], [], [];
      assert Pile(0, 0) == [];
      assert Filling(0) == EMPTY;
    } else {
      states, ops, evs := FillRun(m - 1, k);
      FillStep(m - 1);
      var op, ev := Enqueue(Open(m - 1).subtask, None, 1), Accepted(Open(m - 1).subtask);
      Extend(Fair, states, ops, evs, k, op, ev, Filling(m));
      states, ops, evs := states + [Filling(m)], ops + [op], evs + [ev];
    }
  }

  lemma {:induction false} ClaimRun(k: nat, j: nat) returns (states: seq<State>, ops: seq<Op>, evs: seq<Event>)
    requires j <= k
    ensures RunOf(Fair, states, ops, evs, k) && states[|ops|] == Claiming(k, j)
  {
    hide Next, Sum;
    ClaimingClaims(k, j);
    if j == 0 {
      states, ops, evs := FillRun(k, k);
      WaitStep(k);
      Extend(Fair, states, ops, evs, k, Enqueue(WAITING_TASK, None, 1), Accepted(WAITING_TASK), Claiming(k, 0));
      states, ops := states + [Claiming(k, 0)], ops + [Enqueue(WAITING_TASK, None, 1)];
      evs := evs + [Accepted(WAITING_TASK)];
    } else {
      states, ops, evs := ClaimRun(k, j - 1);
      PileStep(k, j - 1);
      var op, ev := Claim("a", None, 1), HandedOut(Open(j - 1).subtask);
      Extend(Fair, states, ops, evs, k, op, ev, Claiming(k, j));
      states, ops, evs := states + [Claiming(k, j)], ops + [op], evs + [ev];
    }
  }

  /** The bound is attained: for every k some fair run with at most `k` claims at a time
      has project p exactly `k` ahead of a project q that could always have been claimed. */
  lemma FairnessBoundAttained(k: nat) returns (states: seq<State>, ops: seq<Op>, evs: seq<Event>)
    ensures RunOf(Fair, states, ops, evs, k)
    ensures Load(states[|ops|], "p") == Count(states[|ops|].projectCompleted, "q") + k
  {
    states, ops, evs := ClaimRun(k, k);
    ClaimingClaims(k, k);
  }

  // ---------------------------------------------------------------- why completions must be prompt

  /** The tasks of p, each more urgent than those before it. */
  function Urgent(i: nat): Item {
    Item(Subtask(TaskId(i), "p", i + 1, None), None, None, None)
  }

  /** The waiting task, and `m` tasks of p that were claimed and requeued. */
  function Backlog(m: nat): seq<Item> {
    [WAITING_ITEM] + seq(m, i requires 0 <= i < m => Urgent(i))
  }

  function Requeued(m: nat): State {
    EMPTY.(tasks := Backlog(m), agentClaimCount := Claims(m))
  }

  function Arrived(m: nat): State {
    Requeued(m).(tasks := Backlog(m + 1))
  }

  function Running(m: nat): State {
    var running := Urgent(m).(claimedBy := Some("a"), claimedAt := Some(1));
    Requeued(m + 1).(tasks := Backlog(m + 1)[m + 1 := running])
  }

  lemma BacklogAt(m: nat, i: nat)
    requires i < m
    ensures Backlog(m)[i + 1] == Urgent(i) && |Backlog(m)| == m + 1 && Backlog(m)[0] == WAITING_ITEM
    ensures Urgent(i).subtask.id == TaskId(i) && |TaskId(i)| == i + 1 && TaskId(i)[0] == 'p'
  {
  }

  /** The id of a task of p is found at its own place. */
  lemma BacklogFind(m: nat, i: nat)
    ensures First(Backlog(m), HasId(TaskId(i))) == if i < m then i + 1 else m + 1
  {
    assert |TaskId(i)| == i + 1 && TaskId(i)[0] == 'p' && WAITING_TASK.id[0] == 'q';
    forall j | 0 < j <= m ensures Backlog(m)[j].subtask.id == TaskId(i) <==> j == i + 1 {
      BacklogAt(m, j - 1);
    }
    if i < m {
      BacklogAt(m, i);
      assert HasId(TaskId(i))(Backlog(m)[i + 1]);
    }
  }

  lemma {:induction false} BacklogClaims(m: nat)
    ensures Sum(Backlog(m), ClaimedAny()) == 0
  {
    if m > 0 {
      BacklogClaims(m - 1);
      assert Backlog(m) == Backlog(m - 1) + [Urgent(m - 1)];
      SumAppend(Backlog(m - 1), Urgent(m - 1), ClaimedAny());
    } else {
      assert Backlog(0) == [] + [WAITING_ITEM];
      SumAppend([], WAITING_ITEM, ClaimedAny());
    }
  }

  lemma ArriveStep(m: nat)
    ensures Next(Requeued(m), Enqueue(Urgent(m).subtask, None, 1), Accepted(Urgent(m).subtask), Arrived(m))
    ensures Sum(Arrived(m).tasks, ClaimedAny()) == 0
  {
    BacklogFind(m, m);
    BacklogClaims(m + 1);
    assert Backlog(m + 1) == Backlog(m) + [Urgent(m)];
  }

  lemma UrgentChosen(m: nat)
    ensures IsChoice(Arrived(m), None, 1, m + 1)
    ensures Offered(Arrived(m), Claim("a", None, 1), "q")
  {
    var s := Arrived(m);
    BacklogAt(m + 1, m);
    assert Claimable(s.tasks[0], 1);
    assert InPool(s, None, 1, 0);
    forall j | 0 <= j < m + 1 ensures Better(s.projectCompleted, s.tasks[m + 1], s.tasks[j]) {
      if j > 0 {
        BacklogAt(m + 1, j - 1);
      }
    }
  }

  lemma RunningClaims(m: nat)
    ensures Sum(Running(m).tasks, ClaimedAny()) == 1
  {
    BacklogAt(m + 1, m);
    BacklogClaims(m + 1);
    SumUpdate(Backlog(m + 1), m + 1, Running(m).tasks[m + 1], ClaimedAny());
  }

  lemma RunStep(m: nat)
    ensures Next(Arrived(m), Claim("a", None, 1), HandedOut(Urgent(m).subtask), Running(m))
  {
    hide IsChoice, Backlog;
    UrgentChosen(m);
    BacklogAt(m + 1, m);
    assert Claimable(Arrived(m).tasks[m + 1], 1);
    assert Hand(Arrived(m), m + 1, "a", 1) == Running(m);
  }

  lemma ReturnStep(m: nat)
    ensures Next(Running(m), Requeue(TaskId(m)), Nothing, Requeued(m + 1))
    ensures Sum(Requeued(m + 1).tasks, ClaimedAny()) == 0
  {
    hide Backlog, TaskId;
    BacklogAt(m + 1, m);
    BacklogFind(m + 1, m);
    BacklogClaims(m + 1);
    var b, t := Backlog(m + 1), Running(m).tasks;
    SameFirst(b, m + 1, t[m + 1], TaskId(m));
    assert t[m + 1 := Release(t[m + 1])] == b;
  }

  /** A change of claim does not change where an id is found. */
  lemma SameFirst(tasks: seq<Item>, i: nat, it: Item, id: string)
    requires i < |tasks| && it.subtask == tasks[i].subtask && First(tasks, HasId(id)) == i
    ensures First(tasks[i := it], HasId(id)) == i
  {
    var t := tasks[i := it];
    assert HasId(id)(t[i]);
    forall j | 0 <= j < i ensures !HasId(id)(t[j]) {
      assert t[j] == tasks[j];
    }
  }

  /** The results of the tasks from `m` on have come in, the last one first. */
  function Late(n: nat, m: nat): State
    requires m <= n
  {
    State(Backlog(m), if m == n then map[] else map["p" := n - m], Claims(n),
          seq(n - m, i requires 0 <= i < n - m => Result(TaskId(n - 1 - i), true, "")))
  }

  lemma LateParts(n: nat, m: nat)
    requires m < n
    ensures var s, t, r := Late(n, m + 1), Late(n, m), Result(TaskId(m), true, "");
            && RemoveAt(Backlog(m + 1), m + 1) == Backlog(m)
            && s.projectCompleted["p" := Count(s.projectCompleted, "p") + 1] == t.projectCompleted
            && s.results + [r] == t.results
  {
  }

  lemma LateStep(n: nat, m: nat)
    requires m < n
    ensures Next(Late(n, m + 1), Complete(Result(TaskId(m), true, "")), Finished(Urgent(m).subtask), Late(n, m))
    ensures Sum(Late(n, m).tasks, ClaimedAny()) == 0
  {
    LateParts(n, m);
    hide Backlog, TaskId, RemoveAt;
    BacklogAt(m + 1, m);
    BacklogFind(m + 1, m);
    BacklogClaims(m);
  }

  /** Every task that is finished was handed out before. */
  ghost predicate WereHandedOut(evs: seq<Event>) {
    forall n :: 0 <= n < |evs| && evs[n].Finished? ==> HandedOut(evs[n].subtask) in evs[..n]
  }

  lemma WereHandedOutAppend(evs: seq<Event>, ev: Event)
    requires WereHandedOut(evs) && (ev.Finished? ==> HandedOut(ev.subtask) in evs)
    ensures WereHandedOut(evs + [ev])
  {
    var all := evs + [ev];
    forall n | 0 <= n < |all| && all[n].Finished? ensures HandedOut(all[n].subtask) in all[..n] {
      assert all[..n] == evs[..n];
      assert evs[..|evs|] == evs;
    }
  }

  ghost predicate AllHandedOut(evs: seq<Event>, m: nat) {
    forall i: nat :: i < m ==> HandedOut(Urgent(i).subtask) in evs
  }

  /** The first `m` tasks of p are claimed one after the other, and requeued. */
  lemma {:induction false} RequeueRun(m: nat) returns (states: seq<State>, ops: seq<Op>, evs: seq<Event>)
    ensures RunOf(OnlyOffered, states, ops, evs, 1) && states[|ops|] == Requeued(m)
    ensures WereHandedOut(evs) && AllHandedOut(evs, m)
  {
    if m == 0 {
      hide RunOf, Sum;
      states, ops, evs := WaitingRun(OnlyOffered);
      assert Backlog(0) == [WAITING_ITEM];
    } else {
      states, ops, evs := RequeueRun(m - 1);
      states, ops, evs := RequeueRound(states, ops, evs, m - 1);
    }
  }

  lemma RequeueRound(ss: seq<State>, os: seq<Op>, es: seq<Event>, m: nat)
    returns (states: seq<State>, ops: seq<Op>, evs: seq<Event>)
    requires RunOf(OnlyOffered, ss, os, es, 1) && ss[|os|] == Requeued(m) && WereHandedOut(es) && AllHandedOut(es, m)
    ensures RunOf(OnlyOffered, states, ops, evs, 1) && states[|ops|] == Requeued(m + 1)
    ensures WereHandedOut(evs) && AllHandedOut(evs, m + 1)
  {
    hide RunOf, Next, Sum, Requeued, Arrived, Running, WereHandedOut;
    assert |ss| == |os| + 1 && |es| == |os| by {
      RunLengths(OnlyOffered, ss, os, es, 1);
    }
    var x := Urgent(m).subtask;
    ArriveStep(m);
    Extend(OnlyOffered, ss, os, es, 1, Enqueue(x, None, 1), Accepted(x), Arrived(m));
    states, ops, evs := ss + [Arrived(m)], os + [Enqueue(x, None, 1)], es + [Accepted(x)];
    WereHandedOutAppend(es, Accepted(x));
    UrgentChosen(m);
    RunStep(m);
    RunningClaims(m);
    Extend(OnlyOffered, states, ops, evs, 1, Claim("a", None, 1), HandedOut(x), Running(m));
    WereHandedOutAppend(evs, HandedOut(x));
    states, ops, evs := states + [Running(m)], ops + [Claim("a", None, 1)], evs + [HandedOut(x)];
    ReturnStep(m);
    Extend(OnlyOffered, states, ops, evs, 1, Requeue(TaskId(m)), Nothing, Requeued(m + 1));
    WereHandedOutAppend(evs, Nothing);
    states, ops, evs := states + [Requeued(m + 1)], ops + [Requeue(TaskId(m))], evs + [Nothing];
  }

  lemma {:induction false} LateRun(n: nat, m: nat) returns (states: seq<State>, ops: seq<Op>, evs: seq<Event>)
    requires m <= n
    ensures RunOf(OnlyOffered, states, ops, evs, 1) && states[|ops|] == Late(n, m)
    ensures WereHandedOut(evs) && AllHandedOut(evs, n)
    decreases n - m
  {
    hide Next, Sum, WereHandedOut;
    if m == n {
      states, ops, evs := RequeueRun(n);
      assert Late(n, n) == Requeued(n);
    } else {
      hide Late;
      states, ops, evs := LateRun(n, m + 1);
      LateStep(n, m);
      var op, ev := Complete(Result(TaskId(m), true, "")), Finished(Urgent(m).subtask);
      Extend(OnlyOffered, states, ops, evs, 1, op, ev, Late(n, m));
      WereHandedOutAppend(evs, ev);
      states, ops, evs := states + [Late(n, m)], ops + [op], evs + [ev];
    }
  }

  /** With late results there is no bound either: one task at a time, every claim from a pool
      with a task of q, every finished task handed out before, and yet p finishes `n` tasks and
      q none, because the tasks were requeued before their results came in. */
  lemma LateResultsStarve(n: nat) returns (states: seq<State>, ops: seq<Op>, evs: seq<Event>)
    ensures RunOf(OnlyOffered, states, ops, evs, 1) && WereHandedOut(evs)
    ensures Count(states[|ops|].projectCompleted, "p") == n && Count(states[|ops|].projectCompleted, "q") == 0
  {
    states, ops, evs := LateRun(n, 0);
  }
}
