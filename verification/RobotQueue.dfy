/** The robot escrow queue (src/swarm/robot-queue.ts) with the fee split of
    src/swarm/coordinator-utils.ts. Satoshi amounts are integers. */
module RobotQueue {
  import opened Prelude

  datatype Status = PendingFunding | Funded | Claimed | ProofSubmitted | Settled | Disputed | Expired

  datatype Task = Task(taskId: string, clientAccountId: string, details: string, requirements: seq<string>,
                       escrowSats: int, rewardSats: int, feeSats: int, feeBps: int,
                       status: Status, timeoutMs: int, claimedBy: Option<string>, claimedAtMs: Option<int>,
                       proof: Option<string>, proofSubmittedAtMs: Option<int>, disputeReason: Option<string>,
                       createdAtMs: int, settledAtMs: Option<int>)

  datatype Agent = Agent(payoutAddress: string, capabilities: seq<string>, robotKind: string,
                         lastSeenMs: int, successCount: nat, failureCount: nat)

  datatype Entry = Entry(entryId: string, agentId: string, taskId: string, earnedSats: int,
                         swept: bool, sweepTxId: Option<string>, createdAtMs: int)

  datatype Payout = Payout(agentId: string, address: string, amountSats: int)

  datatype Config = Config(coordinatorFeeBps: int, defaultTimeoutMs: int, minSweepSats: int)

  /** Tasks in insertion order, as the source's Map iterates them. */
  datatype State = State(agents: map<string, Agent>, tasks: seq<Task>, earnings: seq<Entry>)

  datatype Result<T> = Ok(value: T) | Error(reason: string)

  // ---------------------------------------------------------------- the fee split

  datatype Split = Split(feeSats: int, netSats: int)

  function ComputeIntentFee(amountSats: int, feeBps: int): Split {
    var feeSats := amountSats * feeBps / 10000;
    Split(feeSats, if amountSats - feeSats > 0 then amountSats - feeSats else 0)
  }

  /** The split returns the whole amount exactly when the fee does not exceed it; a caller
      can decide this from the amount and the rate. */
  lemma SplitIsExact(amountSats: int, feeBps: int)
    ensures var s := ComputeIntentFee(amountSats, feeBps);
            s.feeSats + s.netSats == amountSats <==> amountSats * (feeBps - 10000) < 10000
  {
    var x := amountSats * feeBps;
    assert x == amountSats * (feeBps - 10000) + amountSats * 10000;
  }

  /** The fee is the rate's share of the amount rounded down, and the rest is the reward, but
      never less than nothing. */
  lemma SplitIsFloor(amountSats: int, feeBps: int)
    ensures var s := ComputeIntentFee(amountSats, feeBps);
            && 10000 * s.feeSats <= amountSats * feeBps < 10000 * (s.feeSats + 1)
            && s.netSats == (if amountSats > s.feeSats then amountSats - s.feeSats else 0)
  {
    var x := amountSats * feeBps;
    assert 10000 * (x / 10000) + x % 10000 == x;
  }

  // ---------------------------------------------------------------- operations on the state

  function Is(id: string): Task -> bool {
    (t: Task) => t.taskId == id
  }

  function At(s: State, id: string): nat {
    First(s.tasks, Is(id))
  }

  function Put(s: State, i: nat, t: Task): State
    requires i < |s.tasks|
  {
    s.(tasks := s.tasks[i := t])
  }

  function Registered(s: State, id: string, address: string, capabilities: seq<string>, kind: string, now: int): State {
    var successes := if id in s.agents then s.agents[id].successCount else 0;
    var failures := if id in s.agents then s.agents[id].failureCount else 0;
    s.(agents := s.agents[id := Agent(address, capabilities, kind, now, successes, failures)])
  }

  function NewTask(c: Config, id: string, client: string, details: string, requirements: seq<string>,
                   amountSats: int, timeoutMs: Option<int>, now: int): Task {
    var split := ComputeIntentFee(amountSats, c.coordinatorFeeBps);
    Task(id, client, details, requirements, amountSats, split.netSats, split.feeSats, c.coordinatorFeeBps,
         PendingFunding, if timeoutMs.Some? then timeoutMs.value else c.defaultTimeoutMs,
         None, None, None, None, None, now, None)
  }

  predicate Capable(a: Agent, requirements: seq<string>) {
    forall r :: r in requirements ==> r in a.capabilities
  }

  /** A settlement: the task is settled, one accrued entry is added, the agent's success counted. */
  function SettledState(s: State, i: nat, entryId: string, now: int): State
    requires i < |s.tasks| && s.tasks[i].claimedBy.Some?
  {
    var t := s.tasks[i];
    var a := t.claimedBy.value;
    State(if a in s.agents then s.agents[a := s.agents[a].(successCount := s.agents[a].successCount + 1)] else s.agents,
          s.tasks[i := t.(status := Settled, settledAtMs := Some(now))],
          s.earnings + [Entry(entryId, a, t.taskId, t.rewardSats, false, None, now)])
  }

  predicate TimedOut(t: Task, now: int) {
    t.status == Claimed && t.claimedAtMs.Some? && t.claimedAtMs.value != 0 && now - t.claimedAtMs.value > t.timeoutMs
  }

  /** The sweep of expireStale at one position. */
  function ExpireAt(s: State, i: nat, now: int): State
    requires i < |s.tasks|
  {
    var t := s.tasks[i];
    if !TimedOut(t, now) then s
    else
      State(if t.claimedBy.Some? && t.claimedBy.value in s.agents
            then
              var agent := s.agents[t.claimedBy.value];
              s.agents[t.claimedBy.value := agent.(failureCount := agent.failureCount + 1)]
            else s.agents,
            s.tasks[i := t.(status := Expired)], s.earnings)
  }

  function ExpireUpTo(s: State, n: nat, now: int): (t: State)
    requires n <= |s.tasks|
    ensures |t.tasks| == |s.tasks|
  {
    if n == 0 then s else ExpireAt(ExpireUpTo(s, n - 1, now), n - 1, now)
  }

  function Sweep(e: Entry, agentId: string, txid: string): Entry {
    if e.agentId == agentId && !e.swept then e.(swept := true, sweepTxId := Some(txid)) else e
  }

  function SweptState(s: State, agentId: string, txid: string): State {
    s.(earnings := seq(|s.earnings|, i requires 0 <= i < |s.earnings| => Sweep(s.earnings[i], agentId, txid)))
  }

  // ---------------------------------------------------------------- the queue object

  class Queue {
    const config: Config
    var agents: map<string, Agent>
    var tasks: seq<Task>
    var earnings: seq<Entry>

    ghost function View(): State
      reads this
    {
      State(agents, tasks, earnings)
    }

    constructor (config: Config)
      ensures View() == State(map[], [], []) && this.config == config
    {
      this.config := config;
      agents, tasks, earnings := map[], [], [];
    }

    method RegisterAgent(agentId: string, payoutAddress: string, capabilities: seq<string>, robotKind: string, now: int)
      returns (r: Result<Agent>)
      modifies this
      ensures View() == Step(old(View()), config, Register(agentId, payoutAddress, capabilities, robotKind, now))
      ensures payoutAddress == "" ==> r == Error("payout_address_required")
      ensures payoutAddress != "" ==> agentId in agents && r == Ok(agents[agentId])
    {
      if payoutAddress == "" {
        return Error("payout_address_required");
      }
      var successCount := if agentId in agents then agents[agentId].successCount else 0;
      var failureCount := if agentId in agents then agents[agentId].failureCount else 0;
      var agent := Agent(payoutAddress, capabilities, robotKind, now, successCount, failureCount);
      agents := agents[agentId := agent];
      r := Ok(agent);
    }

    method Heartbeat(agentId: string, now: int)
      modifies this
      ensures View() == Step(old(View()), config, Beat(agentId, now))
    {
      if agentId in agents {
        agents := agents[agentId := agents[agentId].(lastSeenMs := now)];
      }
    }

    method CreateTask(freshId: string, client: string, details: string, requirements: seq<string>,
                      amountSats: int, timeoutMs: Option<int>, now: int) returns (task: Task)
      requires At(View(), freshId) == |tasks|
      modifies this
      ensures View() == Step(old(View()), config,
                             Create(freshId, client, details, requirements, amountSats, timeoutMs, now))
      ensures tasks == old(tasks) + [task]
    {
      var split := ComputeIntentFee(amountSats, config.coordinatorFeeBps);
      task := Task(freshId, client, details, requirements, amountSats, split.netSats, split.feeSats,
                   config.coordinatorFeeBps, PendingFunding,
                   if timeoutMs.Some? then timeoutMs.value else config.defaultTimeoutMs,
                   None, None, None, None, None, now, None);
      tasks := tasks + [task];
    }

    method MarkFunded(taskId: string) returns (r: Result<Task>)
      modifies this
      ensures View() == Step(old(View()), config, Fund(taskId))
      ensures Answers(old(View()), Fund(taskId), View(), r)
    {
      var i := First(tasks, Is(taskId));
      if i == |tasks| {
        return Error("task_not_found");
      }
      if tasks[i].status != PendingFunding {
        return Error("task_not_pending_funding");
      }
      tasks := tasks[i := tasks[i].(status := Funded)];
      r := Ok(tasks[i]);
    }

    method ClaimTask(taskId: string, agentId: string, now: int) returns (r: Result<Task>)
      modifies this
      ensures View() == Step(old(View()), config, Claim(taskId, agentId, now))
      ensures Answers(old(View()), Claim(taskId, agentId, now), View(), r)
    {
      var i := First(tasks, Is(taskId));
      if i == |tasks| {
        return Error("task_not_found");
      }
      if tasks[i].status != Funded {
        return Error("task_not_claimable");
      }
      if agentId !in agents {
        return Error("agent_not_registered");
      }
      var requirements := tasks[i].requirements;
      for k := 0 to |requirements|
        invariant forall j :: 0 <= j < k ==> requirements[j] in agents[agentId].capabilities
      {
        if requirements[k] !in agents[agentId].capabilities {
          assert !Capable(agents[agentId], requirements);
          return Error("capability_mismatch");
        }
      }
      tasks := tasks[i := tasks[i].(status := Claimed, claimedBy := Some(agentId), claimedAtMs := Some(now))];
      r := Ok(tasks[i]);
    }

    method SubmitProof(taskId: string, agentId: string, payload: string, now: int) returns (r: Result<Task>)
      modifies this
      ensures View() == Step(old(View()), config, Submit(taskId, agentId, payload, now))
      ensures Answers(old(View()), Submit(taskId, agentId, payload, now), View(), r)
    {
      var i := First(tasks, Is(taskId));
      if i == |tasks| {
        return Error("task_not_found");
      }
      if tasks[i].status != Claimed {
        return Error("task_not_claimed");
      }
      if tasks[i].claimedBy != Some(agentId) {
        return Error("not_claimed_by_agent");
      }
      tasks := tasks[i := tasks[i].(status := ProofSubmitted, proof := Some(payload), proofSubmittedAtMs := Some(now))];
      r := Ok(tasks[i]);
    }

    method SettleTask(taskId: string, entryId: string, now: int) returns (r: Result<Task>)
      requires forall t :: t in tasks && t.status == ProofSubmitted ==> t.claimedBy.Some?
      modifies this
      ensures View() == Step(old(View()), config, Settle(taskId, entryId, now))
      ensures Answers(old(View()), Settle(taskId, entryId, now), View(), r)
    {
      var i := First(tasks, Is(taskId));
      if i == |tasks| {
        return Error("task_not_found");
      }
      if tasks[i].status != ProofSubmitted {
        return Error("task_not_proof_submitted");
      }
      assert tasks[i] in tasks;
      var agentId := tasks[i].claimedBy.value;
      earnings := earnings + [Entry(entryId, agentId, taskId, tasks[i].rewardSats, false, None, now)];
      tasks := tasks[i := tasks[i].(status := Settled, settledAtMs := Some(now))];
      if agentId in agents {
        agents := agents[agentId := agents[agentId].(successCount := agents[agentId].successCount + 1)];
      }
      r := Ok(tasks[i]);
    }

    method DisputeTask(taskId: string, reason: string) returns (r: Result<Task>)
      modifies this
      ensures View() == Step(old(View()), config, Dispute(taskId, reason))
      ensures Answers(old(View()), Dispute(taskId, reason), View(), r)
    {
      var i := First(tasks, Is(taskId));
      if i == |tasks| {
        return Error("task_not_found");
      }
      if tasks[i].status != ProofSubmitted {
        return Error("task_not_proof_submitted");
      }
      tasks := tasks[i := tasks[i].(status := Disputed, disputeReason := Some(reason))];
      r := Ok(tasks[i]);
    }

    method ExpireStale(now: int) returns (count: nat)
      modifies this
      ensures View() == Step(old(View()), config, Expire(now))
      ensures count == Sum(old(tasks), TimedOutCount(now))
    {
      count := 0;
      ghost var s := View();
      for i := 0 to |tasks|
        invariant |tasks| == |s.tasks| && View() == ExpireUpTo(s, i, now)
        invariant forall j :: i <= j < |tasks| ==> tasks[j] == s.tasks[j]
        invariant count == Sum(s.tasks[..i], TimedOutCount(now))
      {
        hide Sum, TimedOut;
        SumAppend(s.tasks[..i], s.tasks[i], TimedOutCount(now));
        assert s.tasks[..i + 1] == s.tasks[..i] + [s.tasks[i]];
        var expired := ExpireOne(i, now);
        if expired {
          count := count + 1;
        }
      }
      assert s.tasks[..|s.tasks|] == s.tasks;
    }

    /** The body of expireStale's loop, for the task at position `i`. */
    method ExpireOne(i: nat, now: int) returns (expired: bool)
      requires i < |tasks|
      modifies this
      ensures View() == ExpireAt(old(View()), i, now) && expired == TimedOut(old(tasks)[i], now)
      ensures |tasks| == |old(tasks)| && forall j :: 0 <= j < |tasks| && j != i ==> tasks[j] == old(tasks)[j]
    {
      var task := tasks[i];
      if task.status != Claimed {
        return false;
      }
      if task.claimedAtMs.None? || task.claimedAtMs.value == 0 {
        return false;
      }
      if now - task.claimedAtMs.value > task.timeoutMs {
        tasks := tasks[i := task.(status := Expired)];
        if task.claimedBy.Some? && task.claimedBy.value in agents {
          var agent := agents[task.claimedBy.value];
          agents := agents[task.claimedBy.value := agent.(failureCount := agent.failureCount + 1)];
        }
        return true;
      }
      return false;
    }

    /** One payout per registered agent whose accrued total reaches the threshold, for exactly
        that total. */
    method PendingSweepPayouts() returns (payouts: seq<Payout>)
      ensures forall i, j :: 0 <= i < j < |payouts| ==> payouts[i].agentId != payouts[j].agentId
      ensures forall p :: p in payouts <==> Due(View(), config, p)
    {
      var byAgent, order := TotalsByAgent(earnings);
      payouts := [];
      for k := 0 to |order|
        invariant forall p :: p in payouts ==> p.agentId in order[..k]
        invariant forall i, j :: 0 <= i < j < |payouts| ==> payouts[i].agentId != payouts[j].agentId
        invariant forall p :: p in payouts <==>
                              && p.agentId in order[..k] && p.agentId in agents
                              && p.amountSats == byAgent[p.agentId] && byAgent[p.agentId] >= config.minSweepSats
                              && p.address == agents[p.agentId].payoutAddress
      {
        var agentId := order[k];
        assert forall a :: a in order[..k + 1] <==> a in order[..k] || a == agentId;
        assert agentId !in order[..k];
        if byAgent[agentId] >= config.minSweepSats && agentId in agents {
          forall i | 0 <= i < |payouts| ensures payouts[i].agentId != agentId {
            assert payouts[i] in payouts;
          }
          payouts := payouts + [Payout(agentId, agents[agentId].payoutAddress, byAgent[agentId])];
        }
      }
      assert order[..|order|] == order;
    }

    method MarkSwept(agentId: string, txid: string)
      modifies this
      ensures View() == Step(old(View()), config, MarkSweptOp(agentId, txid))
    {
      ghost var s := View();
      for i := 0 to |earnings|
        invariant |earnings| == |s.earnings| && agents == s.agents && tasks == s.tasks
        invariant forall j :: 0 <= j < i ==> earnings[j] == Sweep(s.earnings[j], agentId, txid)
        invariant forall j :: i <= j < |earnings| ==> earnings[j] == s.earnings[j]
      {
        if earnings[i].agentId == agentId && !earnings[i].swept {
          earnings := earnings[i := earnings[i].(swept := true, sweepTxId := Some(txid))];
        }
      }
    }
  }

  /** The accrued total of every agent that has an accrued entry, in order of first appearance. */
  method TotalsByAgent(es: seq<Entry>) returns (byAgent: map<string, int>, order: seq<string>)
    ensures Distinct(order) && forall a :: a in order <==> a in byAgent
    ensures forall a :: a in byAgent <==> HasAccrued(es, a)
    ensures forall a :: a in byAgent ==> byAgent[a] == Sum(es, AccruedTo(a))
  {
    byAgent, order := map[], [];
    for k := 0 to |es|
      invariant Distinct(order) && forall a :: a in order <==> a in byAgent
      invariant AreTotals(es[..k], byAgent)
    {
      hide AreTotals;
      NextTotals(es, k, byAgent);
      if !es[k].swept {
        var total := if es[k].agentId in byAgent then byAgent[es[k].agentId] else 0;
        if es[k].agentId !in byAgent {
          order := order + [es[k].agentId];
        }
        byAgent := byAgent[es[k].agentId := total + es[k].earnedSats];
      }
    }
    assert es[..|es|] == es;
  }

  /** The accrued totals of the agents that have accrued something. */
  ghost predicate AreTotals(es: seq<Entry>, byAgent: map<string, int>) {
    && (forall a :: a in byAgent <==> HasAccrued(es, a))
    && forall a :: Sum(es, AccruedTo(a)) == if a in byAgent then byAgent[a] else 0
  }

  lemma NextTotals(es: seq<Entry>, k: nat, byAgent: map<string, int>)
    requires k < |es| && AreTotals(es[..k], byAgent)
    ensures var a := es[k].agentId;
            var total := if a in byAgent then byAgent[a] else 0;
            AreTotals(es[..k + 1], if es[k].swept then byAgent else byAgent[a := total + es[k].earnedSats])
  {
    hide Sum, HasAccrued;
    AccruedGrows(es, k);
  }

  function TimedOutCount(now: int): Task -> int {
    (t: Task) => if TimedOut(t, now) then 1 else 0
  }

  /** What an agent is owed: all it has accrued, if that reaches the minimum. */
  predicate Due(s: State, c: Config, p: Payout) {
    && p.agentId in s.agents && HasAccrued(s.earnings, p.agentId)
    && p.amountSats == Accrued(s, p.agentId) && p.amountSats >= c.minSweepSats
    && p.address == s.agents[p.agentId].payoutAddress
  }

  predicate HasAccrued(es: seq<Entry>, a: string) {
    exists k :: 0 <= k < |es| && es[k].agentId == a && !es[k].swept
  }

  lemma AccruedGrows(es: seq<Entry>, k: nat)
    requires k < |es|
    ensures forall a :: HasAccrued(es[..k + 1], a) <==> HasAccrued(es[..k], a) || (es[k].agentId == a && !es[k].swept)
    ensures forall a :: Sum(es[..k + 1], AccruedTo(a)) == Sum(es[..k], AccruedTo(a)) + AccruedTo(a)(es[k])
  {
    assert es[..k + 1] == es[..k] + [es[k]];
    forall a ensures Sum(es[..k + 1], AccruedTo(a)) == Sum(es[..k], AccruedTo(a)) + AccruedTo(a)(es[k]) {
      SumAppend(es[..k], es[k], AccruedTo(a));
    }
    forall a ensures HasAccrued(es[..k + 1], a) <==> HasAccrued(es[..k], a) || (es[k].agentId == a && !es[k].swept) {
      if HasAccrued(es[..k], a) {
        var j :| 0 <= j < k && es[..k][j].agentId == a && !es[..k][j].swept;
        assert es[..k + 1][j].agentId == a && !es[..k + 1][j].swept;
      }
      if es[k].agentId == a && !es[k].swept {
        assert es[..k + 1][k].agentId == a;
      }
      if HasAccrued(es[..k + 1], a) {
        var j :| 0 <= j < k + 1 && es[..k + 1][j].agentId == a && !es[..k + 1][j].swept;
        if j < k {
          assert es[..k][j].agentId == a;
        }
      }
    }
  }

  // ---------------------------------------------------------------- steps and runs

  datatype Op =
    | Register(agentId: string, address: string, capabilities: seq<string>, kind: string, now: int)
    | Beat(agentId: string, now: int)
    | Create(taskId: string, client: string, details: string, requirements: seq<string>, amountSats: int,
             timeoutMs: Option<int>, now: int)
    | Fund(taskId: string)
    | Claim(taskId: string, agentId: string, now: int)
    | Submit(taskId: string, agentId: string, payload: string, now: int)
    | Settle(taskId: string, entryId: string, now: int)
    | Dispute(taskId: string, reason: string)
    | Expire(now: int)
    | MarkSweptOp(agentId: string, txid: string)

  /** The state after an operation; a refused operation leaves it as it was. */
  function Step(s: State, c: Config, op: Op): State {
    match op
    case Register(id, address, capabilities, kind, now) =>
      if address == "" then s else Registered(s, id, address, capabilities, kind, now)
    case Beat(id, now) =>
      if id in s.agents then s.(agents := s.agents[id := s.agents[id].(lastSeenMs := now)]) else s
    case Create(id, client, details, requirements, amountSats, timeoutMs, now) =>
      s.(tasks := s.tasks + [NewTask(c, id, client, details, requirements, amountSats, timeoutMs, now)])
    case Expire(now) => ExpireUpTo(s, |s.tasks|, now)
    case MarkSweptOp(id, txid) => SweptState(s, id, txid)
    case _ =>
      var i := At(s, op.taskId);
      if i == |s.tasks| then s else StepTask(s, i, op)
  }

  /** The operations that move one task through its life cycle. */
  function StepTask(s: State, i: nat, op: Op): State
    requires i < |s.tasks|
    requires op.Fund? || op.Claim? || op.Submit? || op.Settle? || op.Dispute?
  {
    var t := s.tasks[i];
    match op
    case Fund(_) => if t.status == PendingFunding then Put(s, i, t.(status := Funded)) else s
    case Claim(_, agentId, now) =>
      if t.status == Funded && agentId in s.agents && Capable(s.agents[agentId], t.requirements)
      then Put(s, i, t.(status := Claimed, claimedBy := Some(agentId), claimedAtMs := Some(now)))
      else s
    case Submit(_, agentId, payload, now) =>
      if t.status == Claimed && t.claimedBy == Some(agentId)
      then Put(s, i, t.(status := ProofSubmitted, proof := Some(payload), proofSubmittedAtMs := Some(now)))
      else s
    case Settle(_, entryId, now) =>
      if t.status == ProofSubmitted && t.claimedBy.Some? then SettledState(s, i, entryId, now) else s
    case Dispute(_, reason) =>
      if t.status == ProofSubmitted then Put(s, i, t.(status := Disputed, disputeReason := Some(reason))) else s
  }

  /** Why an operation on a task is refused, in the order the checks are made. */
  function Refusal(s: State, op: Op): Option<string>
    requires op.Fund? || op.Claim? || op.Submit? || op.Settle? || op.Dispute?
  {
    var i := At(s, op.taskId);
    if i == |s.tasks| then Some("task_not_found")
    else
      var t := s.tasks[i];
      match op
      case Fund(_) => if t.status != PendingFunding then Some("task_not_pending_funding") else None
      case Claim(_, agentId, _) =>
        if t.status != Funded then Some("task_not_claimable")
        else if agentId !in s.agents then Some("agent_not_registered")
        else if !Capable(s.agents[agentId], t.requirements) then Some("capability_mismatch")
        else None
      case Submit(_, agentId, _, _) =>
        if t.status != Claimed then Some("task_not_claimed")
        else if t.claimedBy != Some(agentId) then Some("not_claimed_by_agent")
        else None
      case Settle(_, _, _) => if t.status != ProofSubmitted then Some("task_not_proof_submitted") else None
      case Dispute(_, _) => if t.status != ProofSubmitted then Some("task_not_proof_submitted") else None
  }

  /** The answer to an operation on a task: its refusal, with nothing changed, or the task as
      it now stands. */
  ghost predicate Answers(s: State, op: Op, t: State, r: Result<Task>)
    requires op.Fund? || op.Claim? || op.Submit? || op.Settle? || op.Dispute?
  {
    match Refusal(s, op)
    case Some(reason) => r == Error(reason) && t == s
    case None => At(s, op.taskId) < |t.tasks| && r == Ok(t.tasks[At(s, op.taskId)])
  }

  /** The states a task cannot leave. */
  predicate Final(status: Status) {
    status == Settled || status == Disputed || status == Expired
  }

  /** An operation is refused or moves its task one step along its life cycle; a task in a
      final state is refused everything, so it is never settled twice. */
  lemma RefusedOrMoved(s: State, c: Config, op: Op)
    requires Invariant(s) && (op.Fund? || op.Claim? || op.Submit? || op.Settle? || op.Dispute?)
    ensures Refusal(s, op).Some? ==> Step(s, c, op) == s
    ensures Refusal(s, op).None? ==>
              var i := At(s, op.taskId);
              && i < |s.tasks| && !Final(s.tasks[i].status)
              && i < |Step(s, c, op).tasks|
              && Step(s, c, op).tasks[i].status == (match op
                                                    case Fund(_) => Funded
                                                    case Claim(_, _, _) => Claimed
                                                    case Submit(_, _, _, _) => ProofSubmitted
                                                    case Settle(_, _, _) => Settled
                                                    case Dispute(_, _) => Disputed)
  {
    hide Sum;
    var i := At(s, op.taskId);
    if i < |s.tasks| {
      assert s.tasks[i] in s.tasks;
    }
  }

  const EMPTY := State(map[], [], [])

  /** A new task gets a new id; amounts and fee rates are not restricted. */
  predicate Allowed(s: State, op: Op) {
    op.Create? ==> At(s, op.taskId) == |s.tasks|
  }

  predicate ValidRun(s: State, c: Config, ops: seq<Op>)
    decreases |ops|
  {
    ops == [] || (Allowed(s, ops[0]) && ValidRun(Step(s, c, ops[0]), c, ops[1..]))
  }

  function After(s: State, c: Config, ops: seq<Op>): State
    decreases |ops|
  {
    if ops == [] then s else After(Step(s, c, ops[0]), c, ops[1..])
  }

  // ---------------------------------------------------------------- the books

  function AccruedTo(a: string): Entry -> int {
    (e: Entry) => if e.agentId == a && !e.swept then e.earnedSats else 0
  }

  function SweptTo(a: string): Entry -> int {
    (e: Entry) => if e.agentId == a && e.swept then e.earnedSats else 0
  }

  function EntryFor(taskId: string): Entry -> int {
    (e: Entry) => if e.taskId == taskId then 1 else 0
  }

  function RewardOf(a: string): Task -> int {
    (t: Task) => if t.status == Settled && t.claimedBy == Some(a) then t.rewardSats else 0
  }

  function CountOf(a: string, status: Status): Task -> int {
    (t: Task) => if t.status == status && t.claimedBy == Some(a) then 1 else 0
  }

  function Accrued(s: State, a: string): int { Sum(s.earnings, AccruedTo(a)) }

  function Swept(s: State, a: string): int { Sum(s.earnings, SweptTo(a)) }

  function Rewards(s: State, a: string): int { Sum(s.tasks, RewardOf(a)) }

  /** Before a claim a task has no agent; from the claim on it has one. */
  predicate Owned(t: Task) {
    t.claimedBy.Some? <==> t.status != PendingFunding && t.status != Funded
  }

  /** The reward and the fee are the split of the escrow. */
  predicate WellSplit(t: Task) {
    Split(t.feeSats, t.rewardSats) == ComputeIntentFee(t.escrowSats, t.feeBps)
  }

  ghost predicate TasksOk(s: State) {
    && (forall i, j :: 0 <= i < j < |s.tasks| ==> s.tasks[i].taskId != s.tasks[j].taskId)
    && forall t :: t in s.tasks ==>
                     && WellSplit(t)
                     && Owned(t) && (t.claimedBy.Some? ==> t.claimedBy.value in s.agents)
  }

  /** The accounts of one agent. */
  ghost predicate AgentBooks(s: State, a: string) {
    && Accrued(s, a) + Swept(s, a) == Rewards(s, a)
    && Sum(s.tasks, CountOf(a, Settled)) == (if a in s.agents then s.agents[a].successCount else 0)
    && Sum(s.tasks, CountOf(a, Expired)) == (if a in s.agents then s.agents[a].failureCount else 0)
  }

  /** A settled task has exactly one entry, which names its agent and reward; others have none. */
  ghost predicate TaskBooks(s: State, t: Task) {
    && Sum(s.earnings, EntryFor(t.taskId)) == (if t.status == Settled then 1 else 0)
    && forall e :: e in s.earnings && e.taskId == t.taskId ==>
                     Some(e.agentId) == t.claimedBy && e.earnedSats == t.rewardSats
  }

  ghost predicate EntriesOk(s: State) {
    && (forall e :: e in s.earnings ==> exists i :: 0 <= i < |s.tasks| && s.tasks[i].taskId == e.taskId)
    && forall t :: t in s.tasks ==> TaskBooks(s, t)
  }

  ghost predicate Invariant(s: State) {
    TasksOk(s) && EntriesOk(s) && forall a :: AgentBooks(s, a)
  }

  // ---------------------------------------------------------------- every operation keeps the books

  lemma {:induction false} NoEntries(es: seq<Entry>, id: string)
    ensures Sum(es, EntryFor(id)) >= 0
    ensures Sum(es, EntryFor(id)) == 0 <==> forall e :: e in es ==> e.taskId != id
  {
    if es != [] {
      var n := |es| - 1;
      NoEntries(es[..n], id);
      assert forall e :: e in es <==> e in es[..n] || e == es[n];
    }
  }

  /** A change of one task that neither settles nor expires it. */
  lemma PutKeeps(s: State, i: nat, t: Task)
    requires Invariant(s) && i < |s.tasks|
    requires s.tasks[i].status != Settled && s.tasks[i].status != Expired && t.status != Settled && t.status != Expired
    requires t.(status := s.tasks[i].status, claimedBy := s.tasks[i].claimedBy, claimedAtMs := s.tasks[i].claimedAtMs,
                proof := s.tasks[i].proof, proofSubmittedAtMs := s.tasks[i].proofSubmittedAtMs,
                disputeReason := s.tasks[i].disputeReason) == s.tasks[i]
    requires Owned(t) && (t.claimedBy.Some? ==> t.claimedBy.value in s.agents)
    ensures Invariant(Put(s, i, t))
  {
    hide Sum;
    var r := Put(s, i, t);
    assert s.tasks[i] in s.tasks;
    NoEntries(s.earnings, t.taskId);
    forall x | x in r.tasks ensures TaskBooks(r, x) {
      if x != t {
        assert x in s.tasks && TaskBooks(s, x);
      }
    }
    forall e | e in r.earnings ensures exists j :: 0 <= j < |r.tasks| && r.tasks[j].taskId == e.taskId {
      var j :| 0 <= j < |s.tasks| && s.tasks[j].taskId == e.taskId;
      assert r.tasks[j].taskId == e.taskId;
    }
    forall a ensures AgentBooks(r, a) {
      assert AgentBooks(s, a);
      SumUpdate(s.tasks, i, t, RewardOf(a));
      SumUpdate(s.tasks, i, t, CountOf(a, Settled));
      SumUpdate(s.tasks, i, t, CountOf(a, Expired));
    }
  }

  lemma SettleKeepsAgent(s: State, i: nat, entryId: string, now: int, a: string)
    requires i < |s.tasks| && s.tasks[i].status == ProofSubmitted
    requires s.tasks[i].claimedBy.Some? && s.tasks[i].claimedBy.value in s.agents
    requires AgentBooks(s, a)
    ensures AgentBooks(SettledState(s, i, entryId, now), a)
  {
    var t := s.tasks[i];
    var r := SettledState(s, i, entryId, now);
    SumUpdate(s.tasks, i, r.tasks[i], RewardOf(a));
    SumUpdate(s.tasks, i, r.tasks[i], CountOf(a, Settled));
    SumUpdate(s.tasks, i, r.tasks[i], CountOf(a, Expired));
    SumAppend(s.earnings, Entry(entryId, t.claimedBy.value, t.taskId, t.rewardSats, false, None, now), AccruedTo(a));
    SumAppend(s.earnings, Entry(entryId, t.claimedBy.value, t.taskId, t.rewardSats, false, None, now), SweptTo(a));
  }

  lemma SettleKeepsTask(s: State, i: nat, entryId: string, now: int, x: Task)
    requires Invariant(s) && i < |s.tasks| && s.tasks[i].status == ProofSubmitted && s.tasks[i].claimedBy.Some?
    requires x in SettledState(s, i, entryId, now).tasks
    ensures TaskBooks(SettledState(s, i, entryId, now), x)
  {
    var t := s.tasks[i];
    assert t in s.tasks && TaskBooks(s, t);
    var r := SettledState(s, i, entryId, now);
    var entry := Entry(entryId, t.claimedBy.value, t.taskId, t.rewardSats, false, None, now);
    SumAppend(s.earnings, entry, EntryFor(x.taskId));
    NoEntries(s.earnings, t.taskId);
    var k :| 0 <= k < |r.tasks| && r.tasks[k] == x;
    if k != i {
      assert s.tasks[k] in s.tasks && TaskBooks(s, x);
    }
  }

  lemma SettleKeeps(s: State, i: nat, entryId: string, now: int)
    requires Invariant(s) && i < |s.tasks| && s.tasks[i].status == ProofSubmitted && s.tasks[i].claimedBy.Some?
    ensures Invariant(SettledState(s, i, entryId, now))
  {
    hide Sum;
    var r := SettledState(s, i, entryId, now);
    assert s.tasks[i] in s.tasks;
    forall x | x in r.tasks ensures TaskBooks(r, x) {
      SettleKeepsTask(s, i, entryId, now, x);
    }
    forall e | e in r.earnings ensures exists j :: 0 <= j < |r.tasks| && r.tasks[j].taskId == e.taskId {
      if e in s.earnings {
        var j :| 0 <= j < |s.tasks| && s.tasks[j].taskId == e.taskId;
        assert r.tasks[j].taskId == e.taskId;
      } else {
        assert r.tasks[i].taskId == e.taskId;
      }
    }
    forall a ensures AgentBooks(r, a) {
      SettleKeepsAgent(s, i, entryId, now, a);
    }
    assert TasksOk(r);
  }

  lemma ExpireAtKeeps(s: State, i: nat, now: int)
    requires Invariant(s) && i < |s.tasks|
    ensures Invariant(ExpireAt(s, i, now))
  {
    hide Sum;
    var r := ExpireAt(s, i, now);
    if TimedOut(s.tasks[i], now) {
      assert s.tasks[i] in s.tasks;
      forall x | x in r.tasks ensures TaskBooks(r, x) {
        if x in s.tasks {
          assert TaskBooks(s, x);
        } else {
          assert TaskBooks(s, s.tasks[i]);
        }
      }
      forall e | e in r.earnings ensures exists j :: 0 <= j < |r.tasks| && r.tasks[j].taskId == e.taskId {
        var j :| 0 <= j < |s.tasks| && s.tasks[j].taskId == e.taskId;
        assert r.tasks[j].taskId == e.taskId;
      }
      forall a ensures AgentBooks(r, a) {
        assert AgentBooks(s, a);
        SumUpdate(s.tasks, i, r.tasks[i], RewardOf(a));
        SumUpdate(s.tasks, i, r.tasks[i], CountOf(a, Settled));
        SumUpdate(s.tasks, i, r.tasks[i], CountOf(a, Expired));
      }
      assert TasksOk(r);
    }
  }

  lemma {:induction false} ExpireKeeps(s: State, n: nat, now: int)
    requires Invariant(s) && n <= |s.tasks|
    ensures Invariant(ExpireUpTo(s, n, now))
  {
    hide Invariant, ExpireAt;
    if n > 0 {
      ExpireKeeps(s, n - 1, now);
      ExpireAtKeeps(ExpireUpTo(s, n - 1, now), n - 1, now);
    }
  }

  lemma CreateKeeps(s: State, t: Task)
    requires Invariant(s) && At(s, t.taskId) == |s.tasks| && t.status == PendingFunding && t.claimedBy == None
    requires WellSplit(t)
    ensures Invariant(s.(tasks := s.tasks + [t]))
  {
    hide Sum;
    var r := s.(tasks := s.tasks + [t]);
    NoEntries(s.earnings, t.taskId);
    forall x | x in r.tasks ensures TaskBooks(r, x) {
      if x in s.tasks {
        assert TaskBooks(s, x);
      }
    }
    forall e | e in r.earnings ensures exists j :: 0 <= j < |r.tasks| && r.tasks[j].taskId == e.taskId {
      var j :| 0 <= j < |s.tasks| && s.tasks[j].taskId == e.taskId;
      assert r.tasks[j].taskId == e.taskId;
    }
    forall a ensures AgentBooks(r, a) {
      CreateKeepsAgent(s, t, a);
    }
    assert TasksOk(r) by {
      assert forall x :: x in r.tasks ==> x in s.tasks || x == t;
    }
  }

  lemma CreateKeepsAgent(s: State, t: Task, a: string)
    requires AgentBooks(s, a) && t.claimedBy == None
    ensures AgentBooks(s.(tasks := s.tasks + [t]), a)
  {
    SumAppend(s.tasks, t, RewardOf(a));
    SumAppend(s.tasks, t, CountOf(a, Settled));
    SumAppend(s.tasks, t, CountOf(a, Expired));
  }

  /** Changing an agent's record, but not its counts, keeps the books. */
  lemma AgentsKeep(s: State, r: State)
    requires Invariant(s) && r.tasks == s.tasks && r.earnings == s.earnings
    requires forall a :: a in s.agents ==> a in r.agents
    requires forall a :: a in r.agents ==>
                           && r.agents[a].successCount == (if a in s.agents then s.agents[a].successCount else 0)
                           && r.agents[a].failureCount == (if a in s.agents then s.agents[a].failureCount else 0)
    ensures Invariant(r)
  {
    forall a ensures AgentBooks(r, a) {
      assert AgentBooks(s, a);
    }
    forall t | t in r.tasks ensures TaskBooks(r, t) {
      assert TaskBooks(s, t);
    }
  }

  function EarnedBy(a: string): Entry -> int {
    (e: Entry) => if e.agentId == a then e.earnedSats else 0
  }

  lemma {:induction false} EarnedSplits(es: seq<Entry>, a: string)
    ensures Sum(es, AccruedTo(a)) + Sum(es, SweptTo(a)) == Sum(es, EarnedBy(a))
  {
    if es != [] {
      EarnedSplits(es[..|es| - 1], a);
    }
  }

  lemma SweepKeepsAgent(s: State, agentId: string, txid: string, a: string)
    requires AgentBooks(s, a)
    ensures AgentBooks(SweptState(s, agentId, txid), a)
  {
    hide Sum;
    var r := SweptState(s, agentId, txid);
    EarnedSplits(s.earnings, a);
    EarnedSplits(r.earnings, a);
    SumPointwise(s.earnings, r.earnings, EarnedBy(a), EarnedBy(a));
  }

  lemma SweepKeepsTask(s: State, agentId: string, txid: string, t: Task)
    requires TaskBooks(s, t)
    ensures TaskBooks(SweptState(s, agentId, txid), t)
  {
    hide Sum;
    var r := SweptState(s, agentId, txid);
    SumPointwise(s.earnings, r.earnings, EntryFor(t.taskId), EntryFor(t.taskId));
    forall e | e in r.earnings && e.taskId == t.taskId
      ensures Some(e.agentId) == t.claimedBy && e.earnedSats == t.rewardSats
    {
      var j :| 0 <= j < |r.earnings| && r.earnings[j] == e;
      assert s.earnings[j] in s.earnings;
    }
  }

  lemma SweepKeeps(s: State, agentId: string, txid: string)
    requires Invariant(s)
    ensures Invariant(SweptState(s, agentId, txid))
  {
    hide AgentBooks, TaskBooks;
    var r := SweptState(s, agentId, txid);
    forall a ensures AgentBooks(r, a) {
      SweepKeepsAgent(s, agentId, txid, a);
    }
    forall t | t in r.tasks ensures TaskBooks(r, t) {
      SweepKeepsTask(s, agentId, txid, t);
    }
    forall e | e in r.earnings ensures exists i :: 0 <= i < |r.tasks| && r.tasks[i].taskId == e.taskId {
      var j :| 0 <= j < |r.earnings| && r.earnings[j] == e;
      assert s.earnings[j] in s.earnings;
    }
  }

  lemma StepKeeps(s: State, c: Config, op: Op)
    requires Invariant(s) && Allowed(s, op)
    ensures Invariant(Step(s, c, op))
  {
    match op
    case Register(id, address, capabilities, kind, now) => AgentsKeep(s, Step(s, c, op));
    case Beat(id, now) => AgentsKeep(s, Step(s, c, op));
    case Create(id, client, details, requirements, amountSats, timeoutMs, now) =>
      CreateKeeps(s, NewTask(c, id, client, details, requirements, amountSats, timeoutMs, now));
    case Expire(now) => ExpireKeeps(s, |s.tasks|, now);
    case MarkSweptOp(id, txid) => SweepKeeps(s, id, txid);
    case _ =>
      var i := At(s, op.taskId);
      if i < |s.tasks| {
        StepTaskKeeps(s, i, op);
      }
  }

  lemma StepTaskKeeps(s: State, i: nat, op: Op)
    requires Invariant(s) && i < |s.tasks|
    requires op.Fund? || op.Claim? || op.Submit? || op.Settle? || op.Dispute?
    ensures Invariant(StepTask(s, i, op))
  {
    var r := StepTask(s, i, op);
    assert s.tasks[i] in s.tasks;
    if op.Settle? {
      if s.tasks[i].status == ProofSubmitted && s.tasks[i].claimedBy.Some? {
        SettleKeeps(s, i, op.entryId, op.now);
      }
    } else if r != s {
      PutKeeps(s, i, r.tasks[i]);
    }
  }

  lemma {:induction false} RunKeepsBooks(s: State, c: Config, ops: seq<Op>)
    requires Invariant(s) && ValidRun(s, c, ops)
    ensures Invariant(After(s, c, ops))
    decreases |ops|
  {
    hide Invariant;
    if ops != [] {
      StepKeeps(s, c, ops[0]);
      RunKeepsBooks(Step(s, c, ops[0]), c, ops[1..]);
    }
  }

  /** Sats conservation, for every run from the empty queue, every task and every agent: the
      fee is the rate's share of the escrow rounded down, the reward is the rest, and the two
      make up the escrow exactly when the split can; a settled task has exactly one
      earnings entry, which carries its reward to its agent, and no other task has any; what an
      agent has accrued and been paid adds up to the rewards of its settled tasks; and its
      success and failure counts are its settled and expired tasks. */
  lemma SatsConserved(c: Config, ops: seq<Op>, t: Task, e: Entry, a: string)
    requires ValidRun(EMPTY, c, ops)
    ensures var s := After(EMPTY, c, ops);
            && (t in s.tasks ==>
                  && 10000 * t.feeSats <= t.escrowSats * t.feeBps < 10000 * (t.feeSats + 1)
                  && t.rewardSats == (if t.escrowSats > t.feeSats then t.escrowSats - t.feeSats else 0)
                  && (t.rewardSats + t.feeSats == t.escrowSats <==> t.escrowSats * (t.feeBps - 10000) < 10000)
                  && Sum(s.earnings, EntryFor(t.taskId)) == (if t.status == Settled then 1 else 0)
                  && (e in s.earnings && e.taskId == t.taskId ==>
                        t.status == Settled && t.claimedBy == Some(e.agentId) && e.earnedSats == t.rewardSats))
            && Accrued(s, a) + Swept(s, a) == Rewards(s, a)
            && (a in s.agents ==>
                  && s.agents[a].successCount == Sum(s.tasks, CountOf(a, Settled))
                  && s.agents[a].failureCount == Sum(s.tasks, CountOf(a, Expired)))
  {
    assert Invariant(EMPTY);
    RunKeepsBooks(EMPTY, c, ops);
    var s := After(EMPTY, c, ops);
    assert AgentBooks(s, a);
    if t in s.tasks {
      assert TaskBooks(s, t) && WellSplit(t);
      SplitIsExact(t.escrowSats, t.feeBps);
      SplitIsFloor(t.escrowSats, t.feeBps);
      NoEntries(s.earnings, t.taskId);
    }
  }

  // ---------------------------------------------------------------- the queue as its history tells it

  lemma LastStep(s: State, c: Config, ops: seq<Op>)
    requires ops != []
    ensures var n := |ops| - 1; After(s, c, ops) == Step(After(s, c, ops[..n]), c, ops[n])
    ensures var n := |ops| - 1;
            ValidRun(s, c, ops) ==> ValidRun(s, c, ops[..n]) && Allowed(After(s, c, ops[..n]), ops[n])
  {
    hide ValidRun, After, Step;
    var n := |ops| - 1;
    assert ops == ops[..n] + [ops[n]];
    RunAppend(s, c, ops[..n], [ops[n]]);
    OneStep(After(s, c, ops[..n]), c, ops[n]);
  }

  /** What an agent last registered with, and when it was last heard of. */
  datatype Registration = Registration(address: string, capabilities: seq<string>, kind: string, seenMs: int)

  function RegistrationOf(ops: seq<Op>, a: string): Option<Registration> {
    if ops == [] then None
    else NextRegistration(RegistrationOf(ops[..|ops| - 1], a), ops[|ops| - 1], a)
  }

  function NextRegistration(known: Option<Registration>, op: Op, a: string): Option<Registration> {
    match op
    case Register(id, address, capabilities, kind, now) =>
      if id == a && address != "" then Some(Registration(address, capabilities, kind, now)) else known
    case Beat(id, now) => if id == a && known.Some? then Some(known.value.(seenMs := now)) else known
    case _ => known
  }

  /** What operations alone say about the task with an id. */
  function TaskOf(c: Config, ops: seq<Op>, id: string): Option<Task> {
    if ops == [] then None
    else
      var n := |ops| - 1;
      NextTask(c, TaskOf(c, ops[..n], id), ops[n], ops[..n], id)
  }

  function NextTask(c: Config, known: Option<Task>, op: Op, before: seq<Op>, id: string): Option<Task> {
    if op.Create? && op.taskId == id then
      var fee := op.amountSats * c.coordinatorFeeBps / 10000;
      Some(Task(id, op.client, op.details, op.requirements, op.amountSats,
                if op.amountSats > fee then op.amountSats - fee else 0, fee, c.coordinatorFeeBps, PendingFunding,
                if op.timeoutMs == None then c.defaultTimeoutMs else op.timeoutMs.value,
                None, None, None, None, None, op.now, None))
    else if known.None? then None
    else Some(TaskAfter(known.value, op, before))
  }

  /** How an operation moves a task: funding, a claim by an agent that registered every capability
      asked for, the proof of that agent, settlement or dispute of the proof, and expiry of a
      claim that was made at a time other than 0, longer ago than the timeout. */
  function TaskAfter(t: Task, op: Op, before: seq<Op>): Task {
    match op
    case Fund(id) => if id == t.taskId && t.status == PendingFunding then t.(status := Funded) else t
    case Claim(id, a, now) =>
      var agent := RegistrationOf(before, a);
      if id == t.taskId && t.status == Funded && agent.Some?
         && (forall i :: 0 <= i < |t.requirements| ==> t.requirements[i] in agent.value.capabilities)
      then t.(status := Claimed, claimedBy := Some(a), claimedAtMs := Some(now))
      else t
    case Submit(id, a, payload, now) =>
      if id == t.taskId && t.status == Claimed && t.claimedBy == Some(a)
      then t.(status := ProofSubmitted, proof := Some(payload), proofSubmittedAtMs := Some(now))
      else t
    case Settle(id, _, now) =>
      if id == t.taskId && t.status == ProofSubmitted then t.(status := Settled, settledAtMs := Some(now)) else t
    case Dispute(id, reason) =>
      if id == t.taskId && t.status == ProofSubmitted then t.(status := Disputed, disputeReason := Some(reason)) else t
    case Expire(now) =>
      if t.status == Claimed && t.claimedAtMs.Some? && t.claimedAtMs.value != 0
         && t.claimedAtMs.value + t.timeoutMs < now
      then t.(status := Expired)
      else t
    case _ => t
  }

  /** The earnings that operations alone say there are: one for each settlement, in order, swept
      by the first mark of its agent after it. */
  function EarningsOf(c: Config, ops: seq<Op>): seq<Entry> {
    if ops == [] then []
    else
      var n := |ops| - 1;
      NextEarnings(EarningsOf(c, ops[..n]), ops[n], if ops[n].Settle? then TaskOf(c, ops[..n], ops[n].taskId) else None)
  }

  function NextEarnings(known: seq<Entry>, op: Op, t: Option<Task>): seq<Entry> {
    match op
    case Settle(id, entryId, now) =>
      if t.Some? && t.value.status == ProofSubmitted && t.value.claimedBy.Some?
      then known + [Entry(entryId, t.value.claimedBy.value, id, t.value.rewardSats, false, None, now)]
      else known
    case MarkSweptOp(a, txid) =>
      seq(|known|, i requires 0 <= i < |known| =>
        if known[i].agentId == a && !known[i].swept then known[i].(swept := true, sweepTxId := Some(txid))
        else known[i])
    case _ => known
  }

  /** An agent's record is its last registration. */
  ghost predicate RecordIs(s: State, a: string, r: Option<Registration>) {
    && (a in s.agents <==> r.Some?)
    && (r.Some? ==> r.value == Registration(s.agents[a].payoutAddress, s.agents[a].capabilities, s.agents[a].robotKind,
                                            s.agents[a].lastSeenMs))
  }

  lemma {:induction false} ExpireLeavesRecords(s: State, n: nat, now: int, a: string)
    requires n <= |s.tasks|
    ensures var t := ExpireUpTo(s, n, now);
            && (a in t.agents <==> a in s.agents)
            && (a in s.agents ==> t.agents[a].(failureCount := 0) == s.agents[a].(failureCount := 0))
  {
    if n > 0 {
      ExpireLeavesRecords(s, n - 1, now, a);
    }
  }

  lemma StepRegisters(s: State, c: Config, op: Op, a: string, r: Option<Registration>)
    requires RecordIs(s, a, r)
    ensures RecordIs(Step(s, c, op), a, NextRegistration(r, op, a))
  {
    if op.Expire? {
      hide ExpireUpTo;
      ExpireLeavesRecords(s, |s.tasks|, op.now, a);
    }
  }

  lemma NobodyKnown(c: Config, a: string)
    ensures After(EMPTY, c, []) == EMPTY && RecordIs(EMPTY, a, None)
  {
  }

  /** In every run an agent's record is what it last registered with, and when it was last heard
      of. */
  lemma {:induction false} AgentsFollowHistory(c: Config, ops: seq<Op>, a: string)
    ensures RecordIs(After(EMPTY, c, ops), a, RegistrationOf(ops, a))
  {
    hide After, Step, RecordIs, NextRegistration;
    if ops != [] {
      var n := |ops| - 1;
      LastStep(EMPTY, c, ops);
      AgentsFollowHistory(c, ops[..n], a);
      StepRegisters(After(EMPTY, c, ops[..n]), c, ops[n], a, RegistrationOf(ops[..n], a));
    } else {
      NobodyKnown(c, a);
    }
  }

  lemma ExpireAtMoves(s: State, i: nat, now: int)
    requires i < |s.tasks|
    ensures ExpireAt(s, i, now).tasks == s.tasks[i := TaskAfter(s.tasks[i], Expire(now), [])]
  {
    hide RegistrationOf;
  }

  lemma {:induction false} ExpireExactly(s: State, n: nat, now: int)
    requires n <= |s.tasks|
    ensures var t := ExpireUpTo(s, n, now);
            && (forall j :: n <= j < |s.tasks| ==> t.tasks[j] == s.tasks[j])
            && forall j :: 0 <= j < n ==> t.tasks[j] == TaskAfter(s.tasks[j], Expire(now), [])
  {
    hide ExpireAt, TaskAfter;
    if n > 0 {
      ExpireExactly(s, n - 1, now);
      ExpireAtMoves(ExpireUpTo(s, n - 1, now), n - 1, now);
    }
  }

  lemma OneOfEachId(s: State, id: string)
    requires TasksOk(s)
    ensures AtMostOne(s.tasks, Is(id))
  {
  }

  lemma CapableMeans(s: State, a: string, before: seq<Op>, requirements: seq<string>)
    requires RecordIs(s, a, RegistrationOf(before, a)) && a in s.agents
    ensures Capable(s.agents[a], requirements) <==>
            forall i :: 0 <= i < |requirements| ==> requirements[i] in RegistrationOf(before, a).value.capabilities
  {
    hide RegistrationOf;
  }

  lemma TaskMoves(s: State, i: nat, op: Op, before: seq<Op>, id: string)
    requires TasksOk(s) && i < |s.tasks| && (op.Fund? || op.Claim? || op.Submit? || op.Settle? || op.Dispute?)
    requires At(s, op.taskId) == i
    requires op.Claim? ==> RecordIs(s, op.agentId, RegistrationOf(before, op.agentId))
    ensures |StepTask(s, i, op).tasks| == |s.tasks|
    ensures StepTask(s, i, op).tasks[i] == TaskAfter(s.tasks[i], op, before)
    ensures StepTask(s, i, op).tasks == s.tasks[i := TaskAfter(s.tasks[i], op, before)]
  {
    hide RegistrationOf, Capable;
    assert s.tasks[i] in s.tasks;
    if op.Claim? && op.agentId in s.agents {
      CapableMeans(s, op.agentId, before, s.tasks[i].requirements);
    }
  }

  lemma OthersStay(t: Task, op: Op, before: seq<Op>)
    requires (op.Fund? || op.Claim? || op.Submit? || op.Settle? || op.Dispute?) && op.taskId != t.taskId
    ensures TaskAfter(t, op, before) == t
  {
  }

  lemma StepTells(c: Config, s: State, op: Op, before: seq<Op>, id: string)
    requires TasksOk(s) && Allowed(s, op)
    requires op.Claim? ==> RecordIs(s, op.agentId, RegistrationOf(before, op.agentId))
    ensures Find(Step(s, c, op).tasks, Is(id)) == NextTask(c, Find(s.tasks, Is(id)), op, before, id)
  {
    hide RegistrationOf, TasksOk, Find, Capable, RecordIs;
    OneOfEachId(s, id);
    match op {
      case Create(x, client, details, requirements, amountSats, timeoutMs, now) =>
        FindAppend(s.tasks, NewTask(c, x, client, details, requirements, amountSats, timeoutMs, now), Is(id));
      case Expire(now) => ExpireTells(s, now, before, id);
      case Register(_, _, _, _, _) =>
      case Beat(_, _) =>
      case MarkSweptOp(_, _) =>
      case _ => TaskTells(s, op, before, id);
    }
  }

  lemma ExpireTells(s: State, now: int, before: seq<Op>, id: string)
    requires AtMostOne(s.tasks, Is(id))
    ensures var known, after := Find(s.tasks, Is(id)), Find(ExpireUpTo(s, |s.tasks|, now).tasks, Is(id));
            after == if known.None? then None else Some(TaskAfter(known.value, Expire(now), before))
  {
    hide ExpireUpTo;
    ExpireExactly(s, |s.tasks|, now);
    var t, k := ExpireUpTo(s, |s.tasks|, now), First(s.tasks, Is(id));
    if k < |s.tasks| {
      FindAt(t.tasks, k, Is(id));
    } else {
      FindNone(t.tasks, Is(id));
    }
  }

  lemma TaskTells(s: State, op: Op, before: seq<Op>, id: string)
    requires TasksOk(s) && (op.Fund? || op.Claim? || op.Submit? || op.Settle? || op.Dispute?)
    requires op.Claim? ==> RecordIs(s, op.agentId, RegistrationOf(before, op.agentId))
    ensures var i, known := At(s, op.taskId), Find(s.tasks, Is(id));
            Find((if i == |s.tasks| then s else StepTask(s, i, op)).tasks, Is(id))
            == if known.None? then None else Some(TaskAfter(known.value, op, before))
  {
    hide RegistrationOf, StepTask, TaskAfter, RecordIs;
    OneOfEachId(s, id);
    var i, k := At(s, op.taskId), First(s.tasks, Is(id));
    if i < |s.tasks| {
      TaskMoves(s, i, op, before, id);
      KeepsId(s.tasks[i], op, before);
      FindUpdate(s.tasks, i, TaskAfter(s.tasks[i], op, before), Is(id));
    }
    if k < |s.tasks| && op.taskId != id {
      OthersStay(s.tasks[k], op, before);
    } else if k < |s.tasks| {
      FindAt(s.tasks, k, Is(id));
    }
  }

  lemma KeepsId(t: Task, op: Op, before: seq<Op>)
    ensures TaskAfter(t, op, before).taskId == t.taskId
  {
    hide RegistrationOf;
  }

  lemma ReachedOk(c: Config, ops: seq<Op>)
    requires ValidRun(EMPTY, c, ops)
    ensures TasksOk(After(EMPTY, c, ops))
  {
    assert Invariant(EMPTY);
    RunKeepsBooks(EMPTY, c, ops);
  }

  /** Why an operation on a task is refused, from what the queue says about the task alone. */
  lemma RefusalsExactly(s: State, op: Op)
    requires op.Fund? || op.Claim? || op.Submit? || op.Settle? || op.Dispute?
    ensures var t, r := Find(s.tasks, Is(op.taskId)), Refusal(s, op);
            && (t == None <==> r == Some("task_not_found"))
            && (t.Some? ==>
                  match op
                  case Fund(_) =>
                    r == if t.value.status == PendingFunding then None else Some("task_not_pending_funding")
                  case Claim(_, a, _) =>
                    r == if t.value.status != Funded then Some("task_not_claimable")
                         else if a !in s.agents then Some("agent_not_registered")
                         else if exists x :: x in t.value.requirements && x !in s.agents[a].capabilities
                         then Some("capability_mismatch")
                         else None
                  case Submit(_, a, _, _) =>
                    r == if t.value.status != Claimed then Some("task_not_claimed")
                         else if t.value.claimedBy != Some(a) then Some("not_claimed_by_agent")
                         else None
                  case _ => r == if t.value.status == ProofSubmitted then None else Some("task_not_proof_submitted"))
  {
  }

  /** In every run the queue holds exactly the tasks that were created, each as the operations on
      it say. */
  lemma {:induction false} TasksFollowHistory(c: Config, ops: seq<Op>, id: string)
    requires ValidRun(EMPTY, c, ops)
    ensures Find(After(EMPTY, c, ops).tasks, Is(id)) == TaskOf(c, ops, id)
  {
    hide After, Step, NextTask, Find, ValidRun, RegistrationOf, TasksOk, RecordIs;
    if ops == [] {
      NobodyKnown(c, "");
      FindNone(EMPTY.tasks, Is(id));
    } else {
      var n := |ops| - 1;
      LastStep(EMPTY, c, ops);
      TasksFollowHistory(c, ops[..n], id);
      ReachedOk(c, ops[..n]);
      if ops[n].Claim? {
        AgentsFollowHistory(c, ops[..n], ops[n].agentId);
      }
      StepTells(c, After(EMPTY, c, ops[..n]), ops[n], ops[..n], id);
    }
  }

  lemma StepEarns(s: State, c: Config, op: Op)
    ensures var t := if op.Settle? then Find(s.tasks, Is(op.taskId)) else None;
            Step(s, c, op).earnings == NextEarnings(s.earnings, op, t)
  {
    if op.Expire? {
      hide ExpireUpTo;
      ExpireLeavesEarnings(s, |s.tasks|, op.now);
    }
  }

  /** In every run the earnings are those that the operations say there are. */
  lemma {:induction false} EarningsFollowHistory(c: Config, ops: seq<Op>)
    requires ValidRun(EMPTY, c, ops)
    ensures After(EMPTY, c, ops).earnings == EarningsOf(c, ops)
  {
    hide After, Step, ValidRun, TaskOf, NextEarnings, Find;
    if ops == [] {
      NobodyKnown(c, "");
    } else {
      var n := |ops| - 1;
      LastStep(EMPTY, c, ops);
      EarningsFollowHistory(c, ops[..n]);
      StepEarns(After(EMPTY, c, ops[..n]), c, ops[n]);
      if ops[n].Settle? {
        TasksFollowHistory(c, ops[..n], ops[n].taskId);
      }
    }
  }

  // ---------------------------------------------------------------- sweeping

  /** Marking an agent swept moves all it has accrued, and nothing of any other agent. */
  lemma MarkSweptMoves(s: State, agentId: string, txid: string, a: string)
    ensures var r := SweptState(s, agentId, txid);
            && Accrued(r, a) == (if a == agentId then 0 else Accrued(s, a))
            && Swept(r, a) == Swept(s, a) + (if a == agentId then Accrued(s, a) else 0)
  {
    var r := SweptState(s, agentId, txid);
    EarnedSplits(s.earnings, a);
    EarnedSplits(r.earnings, a);
    SumPointwise(s.earnings, r.earnings, EarnedBy(a), EarnedBy(a));
    if a == agentId {
      SumPointwise(r.earnings, r.earnings, AccruedTo(a), _ => 0);
      SumOfZero(r.earnings);
    } else {
      SumPointwise(s.earnings, r.earnings, AccruedTo(a), AccruedTo(a));
    }
  }

  lemma {:induction false} SumOfZero(es: seq<Entry>)
    ensures Sum(es, (e: Entry) => 0) == 0
  {
    if es != [] {
      SumOfZero(es[..|es| - 1]);
    }
  }

  predicate NoSweepOf(ops: seq<Op>, a: string) {
    forall i :: 0 <= i < |ops| ==> !(ops[i].MarkSweptOp? && ops[i].agentId == a)
  }

  lemma SweptOnlyBySweep(s: State, c: Config, op: Op, a: string)
    requires !(op.MarkSweptOp? && op.agentId == a)
    ensures Swept(Step(s, c, op), a) == Swept(s, a)
  {
    match op
    case MarkSweptOp(id, txid) => MarkSweptMoves(s, id, txid, a);
    case Expire(now) => ExpireLeavesEarnings(s, |s.tasks|, now);
    case Settle(id, entryId, now) =>
      var i := At(s, id);
      if i < |s.tasks| && s.tasks[i].status == ProofSubmitted && s.tasks[i].claimedBy.Some? {
        var t := s.tasks[i];
        SumAppend(s.earnings, Entry(entryId, t.claimedBy.value, t.taskId, t.rewardSats, false, None, now), SweptTo(a));
      }
    case _ =>
  }

  lemma {:induction false} ExpireLeavesEarnings(s: State, n: nat, now: int)
    requires n <= |s.tasks|
    ensures ExpireUpTo(s, n, now).earnings == s.earnings
  {
    if n > 0 {
      ExpireLeavesEarnings(s, n - 1, now);
    }
  }

  lemma {:induction false} SweptUnchanged(s: State, c: Config, ops: seq<Op>, a: string)
    requires NoSweepOf(ops, a)
    ensures Swept(After(s, c, ops), a) == Swept(s, a)
    decreases |ops|
  {
    if ops != [] {
      SweptOnlyBySweep(s, c, ops[0], a);
      SweptUnchanged(Step(s, c, ops[0]), c, ops[1..], a);
    }
  }

  /** A payout is computed in state `s`, other operations happen, then the agent is marked
      swept. The amount moved is the amount paid plus the rewards the agent settled in
      between; the two agree exactly when those rewards are zero, in particular when
      nothing happens in between. */
  lemma SweepMovesWhatWasPaid(s: State, c: Config, ops: seq<Op>, a: string, txid: string)
    requires Invariant(s) && ValidRun(s, c, ops) && NoSweepOf(ops, a)
    ensures var t := After(s, c, ops);
            var moved := Swept(SweptState(t, a, txid), a) - Swept(t, a);
            && moved == Accrued(s, a) + (Rewards(t, a) - Rewards(s, a))
            && (moved == Accrued(s, a) <==> Rewards(t, a) == Rewards(s, a))
  {
    var t := After(s, c, ops);
    RunKeepsBooks(s, c, ops);
    assert AgentBooks(s, a) && AgentBooks(t, a);
    SweptUnchanged(s, c, ops, a);
    MarkSweptMoves(t, a, txid, a);
  }

  /** The amount a mark moves from accrued to swept. */
  function Moved(s: State, a: string): int {
    Swept(SweptState(s, a, ""), a) - Swept(s, a)
  }

  /** Whenever a proof is waiting to be settled, settling it between the payout list and the
      mark makes the mark move its reward too, although it was not paid. */
  lemma SettledMeanwhile(s: State, c: Config, i: nat, op: Op)
    requires Invariant(s) && Allowed(s, op)
    requires i < |s.tasks| && s.tasks[i].status == ProofSubmitted
    requires op.Settle? && op.taskId == s.tasks[i].taskId
    ensures var a := s.tasks[i].claimedBy;
            && a.Some?
            && Moved(Step(s, c, op), a.value) == Accrued(s, a.value) + s.tasks[i].rewardSats
            && Accrued(Step(s, c, op), a.value) == Accrued(s, a.value) + s.tasks[i].rewardSats
  {
    assert s.tasks[i] in s.tasks;
    var t, a := s.tasks[i], s.tasks[i].claimedBy.value;
    assert At(s, op.taskId) == i;
    SumAppend(s.earnings, Entry(op.entryId, a, t.taskId, t.rewardSats, false, None, op.now), AccruedTo(a));
    MarkSweptMoves(Step(s, c, op), a, "", a);
  }

  /** A task of agent `a` brought to the point where its proof waits to be settled. */
  function WorkOps(id: string, a: string, amountSats: int): seq<Op> {
    [Create(id, "", "", [], amountSats, None, 0), Fund(id), Claim(id, a, 0), Submit(id, a, "", 0)]
  }

  function Proven(c: Config, id: string, a: string, amountSats: int): Task {
    NewTask(c, id, "", "", [], amountSats, None, 0)
      .(status := ProofSubmitted, claimedBy := Some(a), claimedAtMs := Some(0), proof := Some(""),
        proofSubmittedAtMs := Some(0))
  }

  function WithTask(s: State, t: Task): State {
    s.(tasks := s.tasks + [t])
  }

  /** The task of WorkOps after each of its steps. */
  function WorkTask(c: Config, id: string, a: string, amountSats: int, k: nat): Task {
    var t := NewTask(c, id, "", "", [], amountSats, None, 0);
    if k == 0 then t
    else if k == 1 then t.(status := Funded)
    else if k == 2 then t.(status := Claimed, claimedBy := Some(a), claimedAtMs := Some(0))
    else Proven(c, id, a, amountSats)
  }

  lemma WorkStep(s: State, c: Config, id: string, a: string, amountSats: int, k: nat)
    requires At(s, id) == |s.tasks| && a in s.agents && k < 3
    ensures Step(WithTask(s, WorkTask(c, id, a, amountSats, k)), c, WorkOps(id, a, amountSats)[k + 1])
         == WithTask(s, WorkTask(c, id, a, amountSats, k + 1))
  {
    hide ComputeIntentFee;
    var t, u := WorkTask(c, id, a, amountSats, k), WorkTask(c, id, a, amountSats, k + 1);
    assert t.taskId == id && WithTask(s, t).tasks[|s.tasks|] == t;
    assert forall j :: 0 <= j < |s.tasks| ==> WithTask(s, t).tasks[j] == s.tasks[j];
    assert At(WithTask(s, t), id) == |s.tasks|;
    assert (s.tasks + [t])[|s.tasks| := u] == s.tasks + [u];
  }

  lemma WorkRun(s: State, c: Config, id: string, a: string, amountSats: int)
    requires At(s, id) == |s.tasks| && a in s.agents
    ensures ValidRun(s, c, WorkOps(id, a, amountSats))
    ensures After(s, c, WorkOps(id, a, amountSats)) == WithTask(s, Proven(c, id, a, amountSats))
  {
    hide ValidRun, After, ComputeIntentFee;
    var ops := WorkOps(id, a, amountSats);
    var states := [s] + seq(4, k requires 0 <= k < 4 => WithTask(s, WorkTask(c, id, a, amountSats, k)));
    assert Step(s, c, ops[0]) == states[1];
    hide Step, NewTask, WithTask;
    forall i | 0 <= i < 4 ensures Allowed(states[i], ops[i]) && Step(states[i], c, ops[i]) == states[i + 1] {
      if i > 0 {
        WorkStep(s, c, id, a, amountSats, i - 1);
      }
    }
    Traced(states, c, ops);
    assert states[4] == WithTask(s, WorkTask(c, id, a, amountSats, 3));
  }

  /** A run followed state by state. */
  lemma {:induction false} Traced(states: seq<State>, c: Config, ops: seq<Op>)
    requires |states| == |ops| + 1
    requires forall i :: 0 <= i < |ops| ==> Allowed(states[i], ops[i]) && Step(states[i], c, ops[i]) == states[i + 1]
    ensures ValidRun(states[0], c, ops) && After(states[0], c, ops) == states[|ops|]
    decreases |ops|
  {
    hide Step, Allowed;
    if ops != [] {
      Traced(states[1..], c, ops[1..]);
    }
  }

  lemma {:induction false} RunAppend(s: State, c: Config, xs: seq<Op>, ys: seq<Op>)
    ensures After(s, c, xs + ys) == After(After(s, c, xs), c, ys)
    ensures ValidRun(s, c, xs + ys) <==> ValidRun(s, c, xs) && ValidRun(After(s, c, xs), c, ys)
    decreases |xs|
  {
    if xs == [] {
      assert xs + ys == ys;
    } else {
      RunAppend(Step(s, c, xs[0]), c, xs[1..], ys);
      assert (xs + ys)[1..] == xs[1..] + ys;
    }
  }

  lemma OneStep(s: State, c: Config, op: Op)
    ensures After(s, c, [op]) == Step(s, c, op) && (ValidRun(s, c, [op]) <==> Allowed(s, op))
  {
  }

  function Net(c: Config, amountSats: int): int {
    ComputeIntentFee(amountSats, c.coordinatorFeeBps).netSats
  }

  const KNOWN := State(map["a" := Agent("address", [], "", 0, 0, 0)], [], [])

  /** One task settled for the amount `paid`, a second one waiting to be settled for `late`. */
  function BeforePayout(paid: int, late: int): seq<Op> {
    [Register("a", "address", [], "", 0)] + WorkOps("t", "a", paid) + [Settle("t", "e", 0)] + WorkOps("u", "a", late)
  }

  /** The state in which the payout list is made. */
  lemma PayoutState(c: Config, paid: int, late: int) returns (s: State)
    ensures ValidRun(EMPTY, c, BeforePayout(paid, late)) && s == After(EMPTY, c, BeforePayout(paid, late))
    ensures s.tasks == [Proven(c, "t", "a", paid).(status := Settled, settledAtMs := Some(0)),
                        Proven(c, "u", "a", late)]
    ensures s.earnings == [Entry("e", "a", "t", Net(c, paid), false, None, 0)]
    ensures "a" in s.agents && s.agents["a"].payoutAddress == "address"
  {
    hide ValidRun, After;
    var register, settle := Register("a", "address", [], "", 0), Settle("t", "e", 0);
    OneStep(EMPTY, c, register);
    WorkRun(KNOWN, c, "t", "a", paid);
    RunAppend(EMPTY, c, [register], WorkOps("t", "a", paid));
    var worked := WithTask(KNOWN, Proven(c, "t", "a", paid));
    OneStep(worked, c, settle);
    assert At(worked, "t") == 0;
    var settled := SettledState(worked, 0, "e", 0);
    RunAppend(EMPTY, c, [register] + WorkOps("t", "a", paid), [settle]);
    WorkRun(settled, c, "u", "a", late);
    RunAppend(EMPTY, c, [register] + WorkOps("t", "a", paid) + [settle], WorkOps("u", "a", late));
    s := WithTask(settled, Proven(c, "u", "a", late));
  }

  /** The promise that a mark moves what was paid fails: for all amounts that a payout is made
      of and a task settled in the meantime brings, there is a run from the empty queue in which
      the agent is paid the one and the mark moves both. */
  lemma SweepOvertaken(c: Config, paid: int, late: int) returns (before: seq<Op>, between: seq<Op>)
    ensures ValidRun(EMPTY, c, before + between) && NoSweepOf(between, "a")
    ensures var s, t := After(EMPTY, c, before), After(EMPTY, c, before + between);
            && (Net(c, paid) >= c.minSweepSats ==> Due(s, c, Payout("a", "address", Net(c, paid))))
            && Moved(t, "a") == Net(c, paid) + Net(c, late)
  {
    hide ValidRun, After, Step, Moved;
    var s := PayoutState(c, paid, late);
    var settle := Settle("u", "f", 0);
    before, between := BeforePayout(paid, late), [settle];
    assert Invariant(EMPTY);
    RunKeepsBooks(EMPTY, c, before);
    hide Invariant, BeforePayout;
    RunAppend(EMPTY, c, before, between);
    OneStep(s, c, settle);
    SettledMeanwhile(s, c, 1, settle);
    var e := s.earnings[0];
    SumAppend([], e, AccruedTo("a"));
    assert s.earnings == [] + [e];
  }

}
