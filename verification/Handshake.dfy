/** The handshake session server (src/handshake/server.ts): the session store with its
    per-agent index, the /review and /negotiate steps after authentication, the expiry sweep,
    and the cloud model's reply, which arrives at any later time. */
module Handshake {
  import opened Prelude

  datatype Phase = HandshakePhase | NegotiatePhase | ExecutePhase | ResultPhase | ExpiredPhase | FailedPhase

  datatype Session = Session(sessionId: string, agentId: string, phase: Phase, request: string,
                             cloudResponse: Option<string>, createdAtMs: int, updatedAtMs: int,
                             failureReason: Option<string>)

  /** The phases in which a session still occupies a place of its agent. */
  const UNFINISHED := {HandshakePhase, NegotiatePhase, ExecutePhase}

  type Sessions = map<string, Session>
  type Index = map<string, set<string>>

  predicate Terminal(s: Session) {
    s.phase == ResultPhase || s.phase == FailedPhase || s.phase == ExpiredPhase
  }

  // ---------------------------------------------------------------- the session store

  function AgentsOf(sessions: Sessions): set<string> {
    set id | id in sessions :: sessions[id].agentId
  }

  function IdsOf(sessions: Sessions, a: string): set<string> {
    set id | id in sessions && sessions[id].agentId == a
  }

  /** The index the store should have: each agent with a session, and its session ids. */
  function IndexOf(sessions: Sessions): Index {
    map a | a in AgentsOf(sessions) :: IdsOf(sessions, a)
  }

  function ActiveIds(sessions: Sessions, a: string): set<string> {
    set id | id in sessions && sessions[id].agentId == a && !Terminal(sessions[id])
  }

  /** The sessions of an agent that wait for its answer or for the cloud model. */
  function Unfinished(sessions: Sessions, a: string): set<string> {
    set id | id in sessions && sessions[id].agentId == a && sessions[id].phase in UNFINISHED
  }

  function AddToIndex(byAgent: Index, s: Session): Index {
    byAgent[s.agentId := (if s.agentId in byAgent then byAgent[s.agentId] else {}) + {s.sessionId}]
  }

  function RemoveFromIndex(byAgent: Index, s: Session): Index {
    if s.agentId !in byAgent then byAgent
    else
      var left := byAgent[s.agentId] - {s.sessionId};
      if left == {} then byAgent - {s.agentId} else byAgent[s.agentId := left]
  }

  /** Storing a session that is new, or that keeps its agent, keeps the index right. */
  lemma AddKeepsIndex(sessions: Sessions, s: Session)
    requires s.sessionId in sessions ==> sessions[s.sessionId].agentId == s.agentId
    ensures AddToIndex(IndexOf(sessions), s) == IndexOf(sessions[s.sessionId := s])
  {
    var sessions' := sessions[s.sessionId := s];
    assert AgentsOf(sessions') == AgentsOf(sessions) + {s.agentId} by {
      assert sessions'[s.sessionId].agentId == s.agentId;
      forall a | a in AgentsOf(sessions) ensures a in AgentsOf(sessions') {
        var id :| id in sessions && sessions[id].agentId == a;
        assert sessions'[id].agentId == a;
      }
    }
    assert IdsOf(sessions', s.agentId) == IdsOf(sessions, s.agentId) + {s.sessionId};
    forall a | a != s.agentId ensures IdsOf(sessions', a) == IdsOf(sessions, a) {
    }
    assert s.agentId !in AgentsOf(sessions) ==> IdsOf(sessions, s.agentId) == {};
  }

  /** A known session stored under another agent stays listed under the first one. */
  lemma PutKeepsIndexExactly(sessions: Sessions, s: Session)
    ensures (s.sessionId in sessions ==> sessions[s.sessionId].agentId == s.agentId)
       <==> AddToIndex(IndexOf(sessions), s) == IndexOf(sessions[s.sessionId := s])
  {
    if s.sessionId in sessions && sessions[s.sessionId].agentId != s.agentId {
      var a := sessions[s.sessionId].agentId;
      assert s.sessionId in AddToIndex(IndexOf(sessions), s)[a];
      assert s.sessionId !in IdsOf(sessions[s.sessionId := s], a);
    } else {
      AddKeepsIndex(sessions, s);
    }
  }

  lemma RemoveKeepsIndex(sessions: Sessions, id: string)
    requires id in sessions && sessions[id].sessionId == id
    ensures RemoveFromIndex(IndexOf(sessions), sessions[id]) == IndexOf(sessions - {id})
  {
    var sessions' := sessions - {id};
    var a := sessions[id].agentId;
    assert IdsOf(sessions', a) == IdsOf(sessions, a) - {id};
    forall b | b != a ensures IdsOf(sessions', b) == IdsOf(sessions, b) {
    }
    forall b ensures b in AgentsOf(sessions') <==> b in AgentsOf(sessions) && (b == a ==> IdsOf(sessions', a) != {}) {
      if b in AgentsOf(sessions') {
        var x :| x in sessions' && sessions'[x].agentId == b;
        assert x in IdsOf(sessions', b);
      }
      if b in AgentsOf(sessions) && (b == a ==> IdsOf(sessions', a) != {}) {
        var x :| x in sessions && sessions[x].agentId == b && (b == a ==> x in IdsOf(sessions', a));
        assert x in sessions' && sessions'[x].agentId == b;
      }
    }
  }

  /** The index has every active session of an agent, and only sessions of that agent. */
  lemma IndexListsActive(sessions: Sessions, a: string)
    ensures a !in IndexOf(sessions) ==> ActiveIds(sessions, a) == {}
    ensures a in IndexOf(sessions) ==>
              var all := IndexOf(sessions)[a];
              && ActiveIds(sessions, a) <= all
              && forall id :: id in all ==>
                                id in sessions && (id in ActiveIds(sessions, a) <==> !Terminal(sessions[id]))
  {
  }

  lemma CountOneMore(done: set<string>, active: set<string>, id: string)
    requires id !in done
    ensures |(done + {id}) * active| == |done * active| + if id in active then 1 else 0
  {
    assert (done + {id}) * active == if id in active then done * active + {id} else done * active;
  }

  class SessionStore {
    var sessions: Sessions
    var byAgent: Index

    constructor ()
      ensures sessions == map[] && byAgent == map[]
    {
      sessions, byAgent := map[], map[];
    }

    /** The index is the one computed from the sessions, and sessions sit under their own id. */
    ghost predicate Valid()
      reads this
    {
      byAgent == IndexOf(sessions) && forall id :: id in sessions ==> sessions[id].sessionId == id
    }

    /** The index stays right exactly when a known session keeps its agent. */
    method Put(session: Session)
      requires Valid()
      modifies this
      ensures sessions == old(sessions)[session.sessionId := session]
      ensures byAgent == AddToIndex(old(byAgent), session)
      ensures Valid() <==> (session.sessionId in old(sessions) ==>
                              old(sessions)[session.sessionId].agentId == session.agentId)
    {
      PutKeepsIndexExactly(sessions, session);
      sessions := sessions[session.sessionId := session];
      var agentSet := if session.agentId in byAgent then byAgent[session.agentId] else {};
      byAgent := byAgent[session.agentId := agentSet + {session.sessionId}];
    }

    method Delete(sessionId: string) returns (found: bool)
      requires Valid()
      modifies this
      ensures Valid() && sessions == old(sessions) - {sessionId}
      ensures found <==> sessionId in old(sessions)
    {
      if sessionId !in sessions {
        return false;
      }
      var session := sessions[sessionId];
      RemoveKeepsIndex(sessions, sessionId);
      sessions := sessions - {sessionId};
      if session.agentId in byAgent {
        var agentSet := byAgent[session.agentId] - {sessionId};
        if agentSet == {} {
          byAgent := byAgent - {session.agentId};
        } else {
          byAgent := byAgent[session.agentId := agentSet];
        }
      }
      return true;
    }

    /** Counting through the index gives the same number as a scan of all sessions. */
    method ActiveCountForAgent(agentId: string) returns (count: nat)
      requires Valid()
      ensures count == |ActiveIds(sessions, agentId)|
    {
      hide IndexOf, ActiveIds;
      IndexListsActive(sessions, agentId);
      count := 0;
      if agentId !in byAgent {
        return;
      }
      var todo := byAgent[agentId];
      ghost var all, active := byAgent[agentId], ActiveIds(sessions, agentId);
      ghost var done: set<string> := {};
      while todo != {}
        invariant done <= all && todo == all - done
        invariant count == |done * active|
        decreases todo
      {
        var sid :| sid in todo;
        CountOneMore(done, active, sid);
        if sid in sessions && sessions[sid].phase != ExpiredPhase && sessions[sid].phase != FailedPhase
           && sessions[sid].phase != ResultPhase {
          count := count + 1;
        }
        todo, done := todo - {sid}, done + {sid};
      }
      assert done * active == active;
    }
  }

  // ---------------------------------------------------------------- steps

  datatype Config = Config(sessionTimeoutMs: int, maxSessionsPerAgent: int)

  datatype Op =
    | Review(agentId: string, freshId: string, request: string, now: int)
    | Negotiate(agentId: string, sessionId: string, accept: bool, now: int)
    | Sweep(now: int)
    | CloudReply(sessionId: string, response: string, now: int)
    | CloudError(sessionId: string, message: string, now: int)
    | Delete(sessionId: string)

  datatype Reply = Created(id: string) | TooManySessions | NotFound | OwnerMismatch
                 | InvalidTransition(current: Phase) | Moved(phase: Phase)

  /** The sessions, the ids drawn so far and the sessions the cloud model was started for. */
  datatype State = State(sessions: Sessions, used: set<string>, started: seq<string>)

  function NewSession(op: Op): Session
    requires op.Review?
  {
    Session(op.freshId, op.agentId, HandshakePhase, op.request, None, op.now, op.now, None)
  }

  predicate Overdue(c: Config, s: Session, now: int) {
    !Terminal(s) && now - s.updatedAtMs > c.sessionTimeoutMs
  }

  function Swept(c: Config, s: Session, now: int): Session {
    if Overdue(c, s, now)
    then s.(phase := ExpiredPhase, failureReason := Some("session_timeout"), updatedAtMs := now)
    else s
  }

  function SweepAll(c: Config, sessions: Sessions, now: int): Sessions {
    map id | id in sessions :: Swept(c, sessions[id], now)
  }

  /** A reply or error of the cloud model counts only while the session is executing. */
  predicate Waiting(sessions: Sessions, id: string) {
    id in sessions && sessions[id].phase == ExecutePhase
  }

  function Step(c: Config, s: State, op: Op): State {
    match op
    case Review(a, id, request, now) =>
      if |ActiveIds(s.sessions, a)| >= c.maxSessionsPerAgent then s
      else s.(sessions := s.sessions[id := NewSession(op)], used := s.used + {id})
    case Negotiate(a, id, accept, now) =>
      if id !in s.sessions || s.sessions[id].agentId != a || s.sessions[id].phase != HandshakePhase then s
      else if accept then
        s.(sessions := s.sessions[id := s.sessions[id].(phase := ExecutePhase, updatedAtMs := now)],
           started := s.started + [id])
      else
        s.(sessions := s.sessions[id := s.sessions[id].(phase := FailedPhase,
                                                        failureReason := Some("agent_rejected"), updatedAtMs := now)])
    case Sweep(now) => s.(sessions := SweepAll(c, s.sessions, now))
    case CloudReply(id, response, now) =>
      if !Waiting(s.sessions, id) then s
      else s.(sessions := s.sessions[id := s.sessions[id].(cloudResponse := Some(response),
                                                           phase := ResultPhase, updatedAtMs := now)])
    case CloudError(id, message, now) =>
      if !Waiting(s.sessions, id) then s
      else s.(sessions := s.sessions[id := s.sessions[id].(phase := FailedPhase,
                                                           failureReason := Some("cloud_model_error: " + message),
                                                           updatedAtMs := now)])
    case Delete(id) => s.(sessions := s.sessions - {id})
  }

  function NegotiateReply(sessions: Sessions, a: string, id: string, accept: bool): Reply {
    if id !in sessions then NotFound
    else if sessions[id].agentId != a then OwnerMismatch
    else if sessions[id].phase != HandshakePhase then InvalidTransition(sessions[id].phase)
    else Moved(if accept then ExecutePhase else FailedPhase)
  }

  class HandshakeServer {
    const config: Config
    const store: SessionStore
    ghost var used: set<string>
    var started: seq<string>

    ghost function View(): State
      reads this, store
    {
      State(store.sessions, used, started)
    }

    constructor (config: Config)
      ensures fresh(store) && store.Valid() && View() == INITIAL && this.config == config
    {
      this.config := config;
      store := new SessionStore();
      used, started := {}, [];
      new;
      assert IndexOf(map[]) == map[];
    }

    /** POST /review, once the request is authenticated and parsed. */
    method PostReview(agentId: string, freshId: string, request: string, now: int) returns (r: Reply)
      requires store.Valid() && freshId !in store.sessions
      modifies this, store
      ensures store.Valid() && View() == Step(config, old(View()), Review(agentId, freshId, request, now))
      ensures r == if |Unfinished(old(store.sessions), agentId)| >= config.maxSessionsPerAgent
                   then TooManySessions else Created(freshId)
      ensures r.Created? ==>
                store.sessions == old(store.sessions)
                  [freshId := Session(freshId, agentId, HandshakePhase, request, None, now, now, None)]
    {
      var active := store.ActiveCountForAgent(agentId);
      assert ActiveIds(store.sessions, agentId) == Unfinished(store.sessions, agentId);
      if active >= config.maxSessionsPerAgent {
        return TooManySessions;
      }
      var session := Session(freshId, agentId, HandshakePhase, request, None, now, now, None);
      store.Put(session);
      used := used + {freshId};
      return Created(session.sessionId);
    }

    /** POST /negotiate; an accepted session goes through negotiate to execute and the cloud
        model is started for it. */
    method PostNegotiate(agentId: string, sessionId: string, accept: bool, now: int) returns (r: Reply)
      requires store.Valid()
      modifies this, store
      ensures store.Valid() && View() == Step(config, old(View()), Negotiate(agentId, sessionId, accept, now))
      ensures r == NegotiateReply(old(store.sessions), agentId, sessionId, accept)
      ensures r == NotFound <==> sessionId !in old(store.sessions)
      ensures r == OwnerMismatch <==>
              sessionId in old(store.sessions) && old(store.sessions)[sessionId].agentId != agentId
      ensures r.InvalidTransition? <==>
              && sessionId in old(store.sessions) && old(store.sessions)[sessionId].agentId == agentId
              && old(store.sessions)[sessionId].phase != HandshakePhase
      ensures r.InvalidTransition? ==> r.current == old(store.sessions)[sessionId].phase
    {
      if sessionId !in store.sessions {
        return NotFound;
      }
      var session := store.sessions[sessionId];
      if session.agentId != agentId {
        return OwnerMismatch;
      }
      if session.phase != HandshakePhase {
        return InvalidTransition(session.phase);
      }
      if !accept {
        session := session.(phase := FailedPhase, failureReason := Some("agent_rejected"), updatedAtMs := now);
        store.Put(session);
        return Moved(session.phase);
      }
      session := session.(phase := NegotiatePhase, updatedAtMs := now);
      store.Put(session);
      session := session.(phase := ExecutePhase, updatedAtMs := now);
      store.Put(session);
      started := started + [sessionId];
      return Moved(session.phase);
    }

    /** The cleanup timer: expire every session that is not finished and has been idle too long. */
    method ExpireSessions(now: int)
      requires store.Valid()
      modifies store
      ensures store.Valid() && View() == Step(config, old(View()), Sweep(now))
    {
      ghost var before := store.sessions;
      var todo := store.sessions.Keys;
      while todo != {}
        invariant store.Valid() && started == old(started) && used == old(used)
        invariant store.sessions.Keys == before.Keys && todo <= before.Keys
        invariant forall id :: id in before ==>
                                 store.sessions[id] == if id in todo then before[id] else Swept(config, before[id], now)
        decreases todo
      {
        var id :| id in todo;
        var session := store.sessions[id];
        if session.phase != ResultPhase && session.phase != FailedPhase && session.phase != ExpiredPhase
           && now - session.updatedAtMs > config.sessionTimeoutMs {
          store.Put(session.(phase := ExpiredPhase, failureReason := Some("session_timeout"), updatedAtMs := now));
        }
        todo := todo - {id};
      }
    }

    /** The second half of executeCloudModel, run when the model answers or fails. */
    method FinishExecution(sessionId: string, outcome: Outcome, now: int)
      requires store.Valid()
      modifies store
      ensures store.Valid()
      ensures View() == Step(config, old(View()), match outcome
                                                  case Answer(response) => CloudReply(sessionId, response, now)
                                                  case Failure(message) => CloudError(sessionId, message, now))
    {
      if sessionId !in store.sessions || store.sessions[sessionId].phase != ExecutePhase {
        return;
      }
      var current := store.sessions[sessionId];
      match outcome {
        case Answer(response) =>
          store.Put(current.(cloudResponse := Some(response), phase := ResultPhase, updatedAtMs := now));
        case Failure(message) =>
          store.Put(current.(phase := FailedPhase, failureReason := Some("cloud_model_error: " + message),
                             updatedAtMs := now));
      }
    }
  }

  datatype Outcome = Answer(response: string) | Failure(message: string)

  const INITIAL := State(map[], {}, [])

  // ---------------------------------------------------------------- every reachable state

  function Cap(c: Config): nat {
    if c.maxSessionsPerAgent > 0 then c.maxSessionsPerAgent else 0
  }

  /** Session ids are never drawn twice. Replies may arrive for any session at any time. */
  predicate Allowed(s: State, op: Op) {
    op.Review? ==> op.freshId !in s.used
  }

  predicate ValidRun(c: Config, s: State, ops: seq<Op>)
    decreases |ops|
  {
    ops == [] || (Allowed(s, ops[0]) && ValidRun(c, Step(c, s, ops[0]), ops[1..]))
  }

  function After(c: Config, s: State, ops: seq<Op>): State
    decreases |ops|
  {
    if ops == [] then s else After(c, Step(c, s, ops[0]), ops[1..])
  }

  /** A response is stored exactly in phase result, a failure reason exactly in failed and
      expired, negotiate is never seen between steps, and executing or answered sessions
      were started while sessions still in handshake were not. */
  predicate SessionOk(s: State, id: string)
    requires id in s.sessions
  {
    var x := s.sessions[id];
    && x.sessionId == id && id in s.used
    && (x.cloudResponse.Some? <==> x.phase == ResultPhase)
    && (x.failureReason.Some? <==> x.phase == FailedPhase || x.phase == ExpiredPhase)
    && x.phase != NegotiatePhase
    && (x.phase == ExecutePhase || x.phase == ResultPhase ==> id in s.started)
    && (x.phase == HandshakePhase ==> id !in s.started)
  }

  ghost predicate Invariant(c: Config, s: State) {
    && (forall id :: id in s.sessions ==> SessionOk(s, id))
    && Distinct(s.started)
    && (forall id :: id in s.started ==> id in s.used)
    && forall a :: |ActiveIds(s.sessions, a)| <= Cap(c)
  }

  /** Only a review can make a session active; it adds one id to its agent's active ids. */
  lemma ActiveIdsAfter(c: Config, s: State, op: Op, a: string)
    requires forall id :: id in s.sessions ==> SessionOk(s, id)
    requires Allowed(s, op)
    ensures (op.Review? && op.agentId == a && |ActiveIds(s.sessions, a)| < c.maxSessionsPerAgent)
            || ActiveIds(Step(c, s, op).sessions, a) <= ActiveIds(s.sessions, a)
    ensures op.Review? ==> ActiveIds(Step(c, s, op).sessions, a) <= ActiveIds(s.sessions, a) + {op.freshId}
  {
  }

  lemma StepKeepsSessions(c: Config, s: State, op: Op)
    requires Allowed(s, op)
    requires forall id :: id in s.sessions ==> SessionOk(s, id)
    requires forall id :: id in s.started ==> id in s.used
    ensures var t := Step(c, s, op); forall id :: id in t.sessions ==> SessionOk(t, id)
  {
    hide ActiveIds;
    var t := Step(c, s, op);
    forall id | id in t.sessions ensures SessionOk(t, id) {
      if id in s.sessions {
        assert SessionOk(s, id);
      }
    }
  }

  lemma StepKeepsCap(c: Config, s: State, op: Op, a: string)
    requires Allowed(s, op)
    requires forall id :: id in s.sessions ==> SessionOk(s, id)
    requires |ActiveIds(s.sessions, a)| <= Cap(c)
    ensures |ActiveIds(Step(c, s, op).sessions, a)| <= Cap(c)
  {
    ActiveIdsAfter(c, s, op, a);
    hide Step, ActiveIds, SessionOk;
    var t := Step(c, s, op);
    if ActiveIds(t.sessions, a) <= ActiveIds(s.sessions, a) {
      SubsetSize(ActiveIds(t.sessions, a), ActiveIds(s.sessions, a));
    } else {
      SubsetSize(ActiveIds(t.sessions, a), ActiveIds(s.sessions, a) + {op.freshId});
    }
  }

  lemma StepKeeps(c: Config, s: State, op: Op)
    requires Invariant(c, s) && Allowed(s, op)
    ensures Invariant(c, Step(c, s, op))
  {
    hide ActiveIds;
    StepKeepsSessions(c, s, op);
    forall a ensures |ActiveIds(Step(c, s, op).sessions, a)| <= Cap(c) {
      StepKeepsCap(c, s, op, a);
    }
  }

  lemma {:induction false} RunKeeps(c: Config, s: State, ops: seq<Op>)
    requires Invariant(c, s) && ValidRun(c, s, ops)
    ensures Invariant(c, After(c, s, ops))
    decreases |ops|
  {
    hide Invariant;
    if ops != [] {
      StepKeeps(c, s, ops[0]);
      RunKeeps(c, Step(c, s, ops[0]), ops[1..]);
    }
  }

  /** In every reachable state: no agent holds more active sessions than allowed, the cloud
      model was started at most once per session, a response is stored exactly in phase
      result, a failure reason exactly in failed and expired, and only started sessions are
      executing or answered. */
  lemma ReachableStates(c: Config, ops: seq<Op>, a: string, id: string)
    requires ValidRun(c, INITIAL, ops)
    ensures var s := After(c, INITIAL, ops);
            && |Unfinished(s.sessions, a)| <= (if c.maxSessionsPerAgent > 0 then c.maxSessionsPerAgent else 0)
            && Distinct(s.started)
            && (id in s.sessions ==>
                  var x := s.sessions[id];
                  && (x.cloudResponse.Some? <==> x.phase == ResultPhase)
                  && (x.failureReason.Some? <==> x.phase == FailedPhase || x.phase == ExpiredPhase)
                  && (x.phase == ExecutePhase || x.phase == ResultPhase ==> id in s.started))
  {
    InitialOk(c);
    RunKeeps(c, INITIAL, ops);
    var s := After(c, INITIAL, ops);
    assert ActiveIds(s.sessions, a) == Unfinished(s.sessions, a);
    if id in s.sessions {
      assert SessionOk(s, id);
    }
  }

  /** Result, failed and expired are absorbing: whatever happens next, and however late the
      cloud model answers, such a session is never changed again; at most it is deleted. */
  lemma {:induction false} TerminalIsForever(c: Config, s: State, ops: seq<Op>, id: string)
    requires Invariant(c, s) && ValidRun(c, s, ops)
    requires id in s.sessions && Terminal(s.sessions[id])
    ensures var t := After(c, s, ops); id in t.sessions ==> t.sessions[id] == s.sessions[id]
    decreases |ops|
  {
    if ops != [] {
      var s1 := Step(c, s, ops[0]);
      assert SessionOk(s, id);
      StepKeeps(c, s, ops[0]);
      if id in s1.sessions {
        assert s1.sessions[id] == s.sessions[id];
        TerminalIsForever(c, s1, ops[1..], id);
      } else {
        GoneIsForever(c, s1, ops[1..], id);
      }
    }
  }

  lemma {:induction false} GoneIsForever(c: Config, s: State, ops: seq<Op>, id: string)
    requires ValidRun(c, s, ops) && id in s.used && id !in s.sessions
    ensures id !in After(c, s, ops).sessions
    decreases |ops|
  {
    if ops != [] {
      GoneIsForever(c, Step(c, s, ops[0]), ops[1..], id);
    }
  }

  // ---------------------------------------------------------------- one session at a time

  lemma {:induction false} LastStep(c: Config, s: State, ops: seq<Op>)
    requires ops != []
    ensures var n := |ops| - 1; After(c, s, ops) == Step(c, After(c, s, ops[..n]), ops[n])
    ensures var n := |ops| - 1;
            ValidRun(c, s, ops) ==> ValidRun(c, s, ops[..n]) && Allowed(After(c, s, ops[..n]), ops[n])
    decreases |ops|
  {
    hide Step;
    if |ops| > 1 {
      var n := |ops| - 1;
      LastStep(c, Step(c, s, ops[0]), ops[1..]);
      assert ops[..n][1..] == ops[1..][..n - 1];
    }
  }

  /** Whether the step after `s` is an answer of the owner to the offer of session `id`. */
  predicate Answers(s: State, op: Op, id: string) {
    && op.Negotiate? && op.sessionId == id && id in s.sessions
    && s.sessions[id].agentId == op.agentId && s.sessions[id].phase == HandshakePhase
  }

  /** The time of the last review or accepted negotiation that moved a session. */
  function LastMove(c: Config, ops: seq<Op>, id: string): int {
    if ops == [] then 0
    else
      var n := |ops| - 1;
      var op, before := ops[n], After(c, INITIAL, ops[..n]);
      if op.Review? && op.freshId == id && id in After(c, INITIAL, ops).sessions then op.now
      else if Answers(before, op, id) && op.accept then op.now
      else LastMove(c, ops[..n], id)
  }

  lemma {:induction false} IdleSinceLastMove(c: Config, ops: seq<Op>, id: string)
    requires ValidRun(c, INITIAL, ops)
    ensures var s := After(c, INITIAL, ops).sessions;
            id in s && s[id].phase in UNFINISHED ==> s[id].updatedAtMs == LastMove(c, ops, id)
  {
    if ops != [] {
      var n := |ops| - 1;
      var before := After(c, INITIAL, ops[..n]);
      LastStep(c, INITIAL, ops);
      IdleSinceLastMove(c, ops[..n], id);
      assert id in before.sessions ==> id in before.used by {
        InitialOk(c);
        RunKeeps(c, INITIAL, ops[..n]);
        assert id in before.sessions ==> SessionOk(before, id);
      }
      hide Step, After, ValidRun;
      var after := After(c, INITIAL, ops).sessions;
      if id in after && after[id].phase in UNFINISHED {
        StepIdle(c, before, ops[n], id);
      }
    }
  }

  /** The time a step leaves at an unfinished session. */
  lemma StepIdle(c: Config, s: State, op: Op, id: string)
    requires Allowed(s, op) && (id in s.sessions ==> id in s.used)
    requires id in Step(c, s, op).sessions && Step(c, s, op).sessions[id].phase in UNFINISHED
    ensures if (op.Review? && op.freshId == id) || (Answers(s, op, id) && op.accept)
            then Step(c, s, op).sessions[id].updatedAtMs == op.now
            else id in s.sessions && s.sessions[id].phase in UNFINISHED
                 && Step(c, s, op).sessions[id].updatedAtMs == s.sessions[id].updatedAtMs
  {
    hide ActiveIds;
  }

  /** When a sweep expires a session, from the operations alone: an unfinished session is
      expired right after a sweep if and only if the last review or accepted negotiation that
      moved it is longer ago than the timeout. */
  lemma SweepExpiresExactly(c: Config, ops: seq<Op>, now: int, id: string)
    requires ValidRun(c, INITIAL, ops + [Sweep(now)])
    requires id in After(c, INITIAL, ops).sessions && After(c, INITIAL, ops).sessions[id].phase in UNFINISHED
    ensures var s := After(c, INITIAL, ops + [Sweep(now)]).sessions;
            id in s && (s[id].phase == ExpiredPhase <==> now - LastMove(c, ops, id) > c.sessionTimeoutMs)
  {
    assert (ops + [Sweep(now)])[..|ops|] == ops;
    LastStep(c, INITIAL, ops + [Sweep(now)]);
    IdleSinceLastMove(c, ops, id);
  }

  /** Nothing else expires a session: whatever is expired was unfinished and idle for longer
      than the timeout at some sweep. */
  lemma {:induction false} ExpiredOnlyBySweep(c: Config, ops: seq<Op>, id: string) returns (k: nat)
    requires ValidRun(c, INITIAL, ops)
    requires id in After(c, INITIAL, ops).sessions && After(c, INITIAL, ops).sessions[id].phase == ExpiredPhase
    ensures k < |ops| && ops[k].Sweep? && ops[k].now - LastMove(c, ops[..k], id) > c.sessionTimeoutMs
    ensures var s := After(c, INITIAL, ops[..k]).sessions; id in s && s[id].phase in UNFINISHED
  {
    hide ActiveIds;
    var n := |ops| - 1;
    var before := After(c, INITIAL, ops[..n]).sessions;
    LastStep(c, INITIAL, ops);
    if id in before && before[id].phase == ExpiredPhase {
      k := ExpiredOnlyBySweep(c, ops[..n], id);
      assert ops[..n][..k] == ops[..k];
    } else {
      IdleSinceLastMove(c, ops[..n], id);
      k := n;
    }
  }

  /** What a step makes of one session: only its owner answers its offer, only the cloud model
      ends its execution, and everything that is not said here stays as it is. */
  ghost predicate MovesTo(s: State, op: Op, x: Session, y: Session) {
    if op.Negotiate? && op.sessionId == x.sessionId && op.agentId == x.agentId && x.phase == HandshakePhase then
      y == x.(phase := y.phase, failureReason := y.failureReason, updatedAtMs := op.now)
      && (if op.accept then y.phase == ExecutePhase && y.failureReason == x.failureReason
          else y.phase == FailedPhase && y.failureReason == Some("agent_rejected"))
    else if op.CloudReply? && op.sessionId == x.sessionId && x.phase == ExecutePhase then
      y == x.(phase := ResultPhase, cloudResponse := Some(op.response), updatedAtMs := op.now)
    else if op.CloudError? && op.sessionId == x.sessionId && x.phase == ExecutePhase then
      y == x.(phase := FailedPhase, failureReason := Some("cloud_model_error: " + op.message), updatedAtMs := op.now)
    else if op.Sweep? && x.phase in UNFINISHED then
      y == x || y == x.(phase := ExpiredPhase, failureReason := Some("session_timeout"), updatedAtMs := op.now)
    else
      y == x
  }

  /** In every run a session begins with its review, moves only as MovesTo says, ends with its
      deletion, and the cloud model is started by exactly the accepted negotiations. */
  lemma SessionsMove(c: Config, ops: seq<Op>, op: Op, id: string)
    requires ValidRun(c, INITIAL, ops + [op])
    ensures var s, t := After(c, INITIAL, ops), After(c, INITIAL, ops + [op]);
            && (id in s.sessions ==> (id !in t.sessions <==> op == Delete(id)))
            && (id in s.sessions && id in t.sessions ==> MovesTo(s, op, s.sessions[id], t.sessions[id]))
            && (id !in s.sessions && id in t.sessions ==>
                  && op.Review? && op.freshId == id
                  && t.sessions[id] == Session(id, op.agentId, HandshakePhase, op.request, None, op.now, op.now, None))
            && t.started == (if op.Negotiate? && op.accept && Answers(s, op, op.sessionId)
                             then s.started + [op.sessionId] else s.started)
  {
    hide ActiveIds;
    assert (ops + [op])[..|ops|] == ops;
    LastStep(c, INITIAL, ops + [op]);
    InitialOk(c);
    RunKeeps(c, INITIAL, ops);
    var s := After(c, INITIAL, ops);
    if id in s.sessions {
      assert SessionOk(s, id);
    }
  }

  /** A review is admitted exactly when its agent has a place left. */
  lemma ReviewAdmitsExactly(c: Config, ops: seq<Op>, op: Op)
    requires op.Review? && ValidRun(c, INITIAL, ops + [op])
    ensures op.freshId in After(c, INITIAL, ops + [op]).sessions <==>
            |Unfinished(After(c, INITIAL, ops).sessions, op.agentId)| < c.maxSessionsPerAgent
  {
    var s := After(c, INITIAL, ops);
    assert (ops + [op])[..|ops|] == ops;
    LastStep(c, INITIAL, ops + [op]);
    assert op.freshId !in s.sessions by {
      InitialOk(c);
      RunKeeps(c, INITIAL, ops);
      assert op.freshId in s.sessions ==> SessionOk(s, op.freshId);
    }
    assert ActiveIds(s.sessions, op.agentId) == Unfinished(s.sessions, op.agentId);
  }

  lemma InitialOk(c: Config)
    ensures Invariant(c, INITIAL)
  {
    forall a ensures |ActiveIds(INITIAL.sessions, a)| == 0 {
      assert ActiveIds(INITIAL.sessions, a) == {};
    }
  }
}
