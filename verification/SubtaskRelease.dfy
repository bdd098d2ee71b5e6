/** Holding subtasks until their dependencies complete (src/swarm/subtask-deps.ts), the
    coordinator's admission rule (src/swarm/coordinator.ts), and the deadlock-freedom
    theorem that spans cycle detection and the hold/release protocol. */
module SubtaskRelease {
  import opened Prelude
  import Json
  import opened SubtaskGraph

  datatype Subtask = Subtask(id: string, taskId: string, input: string)

  /** What is held: the subtask, its dependencies and the enqueue option it was submitted with. */
  datatype Entry = Entry(subtask: Subtask, dependsOn: seq<string>, claimDelayMs: Option<int>)

  datatype Enqueued = Enqueued(subtask: Subtask, claimDelayMs: Option<int>)

  // ---------------------------------------------------------------- context injection

  function Line(i: nat, output: string): string {
    "Subtask " + Json.Decimal(i + 1) + " result: " + output
  }

  /** One line per completed dependency, in the order of `deps`, numbered by position. */
  function Lines(deps: seq<string>, outputs: map<string, string>): seq<string> {
    if deps == [] then []
    else
      var n := |deps| - 1;
      var lines := Lines(deps[..n], outputs);
      if deps[n] in outputs then lines + [Line(n, outputs[deps[n]])] else lines
  }

  function Context(deps: seq<string>, outputs: map<string, string>): string {
    var lines := Lines(deps, outputs);
    if lines == [] then ""
    else "[Context from previous subtasks]\n" + Joined(lines, "\n") + "\n\n[Your task]\n"
  }

  predicate Met(deps: seq<string>, outputs: map<string, string>) {
    forall d :: d in deps ==> d in outputs
  }

  /** Once every dependency has completed, the context has one line for each of them, in order. */
  lemma {:induction false} MetContextIsComplete(deps: seq<string>, outputs: map<string, string>)
    requires Met(deps, outputs)
    ensures |Lines(deps, outputs)| == |deps|
    ensures forall i :: 0 <= i < |deps| ==> Lines(deps, outputs)[i] == Line(i, outputs[deps[i]])
  {
    hide Line;
    if deps != [] {
      MetContextIsComplete(deps[..|deps| - 1], outputs);
    }
  }

  // ---------------------------------------------------------------- the two halves of a release

  function Enrich(e: Entry, outputs: map<string, string>): Enqueued {
    Enqueued(e.subtask.(input := Context(e.dependsOn, outputs) + e.subtask.input), e.claimDelayMs)
  }

  function Ready(pending: seq<Entry>, outputs: map<string, string>): seq<Enqueued> {
    if pending == [] then []
    else
      var n := |pending| - 1;
      var ready := Ready(pending[..n], outputs);
      if Met(pending[n].dependsOn, outputs) then ready + [Enrich(pending[n], outputs)] else ready
  }

  function Waiting(pending: seq<Entry>, outputs: map<string, string>): seq<Entry> {
    if pending == [] then []
    else
      var n := |pending| - 1;
      var waiting := Waiting(pending[..n], outputs);
      if Met(pending[n].dependsOn, outputs) then waiting else waiting + [pending[n]]
  }

  lemma ReleaseStep(p: seq<Entry>, k: nat, outputs: map<string, string>)
    requires k < |p|
    ensures Met(p[k].dependsOn, outputs) ==>
              && Waiting(p[..k + 1], outputs) == Waiting(p[..k], outputs)
              && Ready(p[..k + 1], outputs) == Ready(p[..k], outputs) + [Enrich(p[k], outputs)]
    ensures !Met(p[k].dependsOn, outputs) ==>
              && Waiting(p[..k + 1], outputs) == Waiting(p[..k], outputs) + [p[k]]
              && Ready(p[..k + 1], outputs) == Ready(p[..k], outputs)
  {
    assert p[..k + 1][..k] == p[..k];
  }

  lemma DropAt(w: seq<Entry>, p: seq<Entry>, k: nat)
    requires k < |p|
    ensures var s := w + p[k..];
            && s[|w|] == p[k] && s == (w + [p[k]]) + p[k + 1..]
            && s[..|w|] + s[|w| + 1..] == w + p[k + 1..]
  {
    assert p[k..] == [p[k]] + p[k + 1..];
  }

  function HasId(id: string): Entry -> bool {
    (e: Entry) => e.subtask.id == id
  }

  class SubtaskDepTracker {
    var pending: seq<Entry>
    var completedOutputs: map<string, string>

    constructor ()
      ensures pending == [] && completedOutputs == map[]
    {
      pending, completedOutputs := [], map[];
    }

    method BuildDependencyContext(depIds: seq<string>) returns (context: string)
      ensures context == Context(depIds, completedOutputs)
    {
      var lines: seq<string> := [];
      for i := 0 to |depIds|
        invariant lines == Lines(depIds[..i], completedOutputs)
      {
        assert depIds[..i + 1][..i] == depIds[..i];
        if depIds[i] in completedOutputs {
          lines := lines + [Line(i, completedOutputs[depIds[i]])];
        }
      }
      assert depIds[..|depIds|] == depIds;
      if |lines| == 0 {
        return "";
      }
      return "[Context from previous subtasks]\n" + Joined(lines, "\n") + "\n\n[Your task]\n";
    }

    method WithContext(entry: Entry) returns (enriched: Enqueued)
      ensures enriched == Enrich(entry, completedOutputs)
    {
      var context := BuildDependencyContext(entry.dependsOn);
      enriched := Enqueued(entry.subtask.(input := context + entry.subtask.input), entry.claimDelayMs);
    }

    /** Walks `pending` in order, deleting every entry whose dependencies have all completed
        and handing it on with its context. */
    method ReleaseMet() returns (held: seq<Entry>, released: seq<Enqueued>)
      ensures held == Waiting(pending, completedOutputs)
      ensures released == Ready(pending, completedOutputs)
    {
      held, released := pending, [];
      ghost var k := 0;
      var i := 0;
      while i < |held|
        invariant 0 <= k <= |pending|
        invariant held == Waiting(pending[..k], completedOutputs) + pending[k..]
        invariant i == |Waiting(pending[..k], completedOutputs)|
        invariant released == Ready(pending[..k], completedOutputs)
        decreases |pending| - k
      {
        hide Waiting, Ready, Enrich;
        var entry := held[i];
        ReleaseStep(pending, k, completedOutputs);
        DropAt(Waiting(pending[..k], completedOutputs), pending, k);
        if Met(entry.dependsOn, completedOutputs) {
          var enriched := WithContext(entry);
          held := held[..i] + held[i + 1..];
          released := released + [enriched];
        } else {
          i := i + 1;
        }
        k := k + 1;
      }
      assert pending[..k] == pending;
    }

    method RecordCompletionAndRelease(completedSubtaskId: string, output: string) returns (released: seq<Enqueued>)
      modifies this
      ensures completedOutputs == old(completedOutputs)[completedSubtaskId := output]
      ensures pending == Waiting(old(pending), completedOutputs)
      ensures released == Ready(old(pending), completedOutputs)
    {
      completedOutputs := completedOutputs[completedSubtaskId := output];
      var held;
      held, released := ReleaseMet();
      pending := held;
    }

    /** Map.set on the pending entries, which are kept in the order of insertion: an existing
        key keeps its place. */
    method Hold(entry: Entry)
      modifies this`pending
      ensures var i := First(old(pending), HasId(entry.subtask.id));
              pending == if i < |old(pending)| then old(pending)[i := entry] else old(pending) + [entry]
    {
      var i := 0;
      while i < |pending| && pending[i].subtask.id != entry.subtask.id
        invariant 0 <= i <= |pending| && pending == old(pending)
        invariant forall j :: 0 <= j < i ==> pending[j].subtask.id != entry.subtask.id
      {
        i := i + 1;
      }
      if i < |pending| {
        assert HasId(entry.subtask.id)(pending[i]);
        pending := pending[i := entry];
      } else {
        pending := pending + [entry];
      }
    }
  }

  // ---------------------------------------------------------------- admission

  datatype Submission = Submission(subtask: Subtask, dependsOn: Option<seq<string>>)

  function Refs(subs: seq<Submission>): seq<SubtaskRef> {
    seq(|subs|, i requires 0 <= i < |subs| => SubtaskRef(subs[i].subtask.id, subs[i].dependsOn))
  }

  predicate IsHeld(sub: Submission, circular: set<string>) {
    sub.dependsOn.Some? && sub.dependsOn.value != [] && sub.subtask.id !in circular
  }

  function HeldEntries(subs: seq<Submission>, circular: set<string>, delay: Option<int>): seq<Entry> {
    if subs == [] then []
    else
      var n := |subs| - 1;
      var held := HeldEntries(subs[..n], circular, delay);
      if IsHeld(subs[n], circular) then held + [Entry(subs[n].subtask, subs[n].dependsOn.value, delay)] else held
  }

  function Immediate(subs: seq<Submission>, circular: set<string>): seq<Subtask> {
    if subs == [] then []
    else
      var n := |subs| - 1;
      var created := Immediate(subs[..n], circular);
      if IsHeld(subs[n], circular) then created else created + [subs[n].subtask]
  }

  /** The subtasks that wait: they name dependencies and are not circular. */
  function Dependent(circular: set<string>): Submission -> bool {
    (x: Submission) => x.dependsOn.Some? && x.dependsOn.value != [] && x.subtask.id !in circular
  }

  function Independent(circular: set<string>): Submission -> bool {
    (x: Submission) => x.dependsOn.None? || x.dependsOn.value == [] || x.subtask.id in circular
  }

  /** The held entries are the waiting subtasks as submitted, in order. */
  lemma {:induction false} HeldExactly(subs: seq<Submission>, circular: set<string>, delay: Option<int>)
    ensures var at, held := Positions(subs, Dependent(circular)), HeldEntries(subs, circular, delay);
            && |held| == |at|
            && forall k :: 0 <= k < |held| ==>
                             && subs[at[k]].dependsOn.Some?
                             && held[k] == Entry(subs[at[k]].subtask, subs[at[k]].dependsOn.value, delay)
  {
    if subs != [] {
      HeldExactly(subs[..|subs| - 1], circular, delay);
    }
  }

  /** The created subtasks are all others as submitted, in order. */
  lemma {:induction false} CreatedExactly(subs: seq<Submission>, circular: set<string>)
    ensures var at, created := Positions(subs, Independent(circular)), Immediate(subs, circular);
            |created| == |at| && forall k :: 0 <= k < |created| ==> created[k] == subs[at[k]].subtask
  {
    if subs != [] {
      CreatedExactly(subs[..|subs| - 1], circular);
    }
  }

  ghost predicate Circular(subs: seq<Submission>, circular: set<string>) {
    forall x :: x in circular <==> OnCycle(GraphOf(Refs(subs)), x)
  }

  /** The coordinator's scheduling of one task: find the circular ids, hold every subtask
      that has dependencies and is not circular, enqueue the others at once. */
  method Schedule(tracker: SubtaskDepTracker, subs: seq<Submission>, delay: Option<int>)
    returns (created: seq<Subtask>, ghost circular: set<string>)
    requires DistinctIds(Refs(subs))
    requires forall e :: e in tracker.pending ==> e.subtask.id !in Ids(Refs(subs))
    modifies tracker`pending
    ensures Circular(subs, circular)
    ensures tracker.pending == old(tracker.pending) + HeldEntries(subs, circular, delay)
    ensures created == Immediate(subs, circular)
  {
    var circularIds := DetectCircularDeps(Refs(subs));
    forall x ensures x in circularIds <==> OnCycle(GraphOf(Refs(subs)), x) {
      DistinctIdsGiveCycles(Refs(subs), x);
    }
    circular := circularIds;
    created := [];
    for i := 0 to |subs|
      invariant tracker.pending == old(tracker.pending) + HeldEntries(subs[..i], circularIds, delay)
      invariant created == Immediate(subs[..i], circularIds)
    {
      hide GraphOf, OnCycle, First;
      var subtask := subs[i].subtask;
      assert subs[..i + 1][..i] == subs[..i];
      if subs[i].dependsOn.Some? && |subs[i].dependsOn.value| > 0 && subtask.id !in circularIds {
        ghost var before := tracker.pending;
        assert Refs(subs)[i].id == subtask.id;
        forall e | e in before ensures e.subtask.id != subtask.id {
          if e !in old(tracker.pending) {
            HeldAreOthers(subs, circularIds, delay, i, e);
          }
        }
        tracker.Hold(Entry(subtask, subs[i].dependsOn.value, delay));
        NotPending(before, subtask.id);
      } else {
        created := created + [subtask];
      }
    }
    assert subs[..|subs|] == subs;
  }

  lemma NotPending(pending: seq<Entry>, id: string)
    requires forall e :: e in pending ==> e.subtask.id != id
    ensures First(pending, HasId(id)) == |pending|
  {
    assert forall j :: 0 <= j < |pending| ==> pending[j] in pending;
  }

  lemma HeldAreOthers(subs: seq<Submission>, circular: set<string>, delay: Option<int>, i: nat, e: Entry)
    requires DistinctIds(Refs(subs)) && i < |subs| && e in HeldEntries(subs[..i], circular, delay)
    ensures e.subtask.id != subs[i].subtask.id
  {
    HeldComeFromSubs(subs[..i], circular, delay, e);
    var j :| 0 <= j < i && subs[..i][j].subtask == e.subtask;
    assert Refs(subs)[j].id == e.subtask.id && Refs(subs)[i].id == subs[i].subtask.id;
  }

  lemma {:induction false} HeldComeFromSubs(subs: seq<Submission>, circular: set<string>, delay: Option<int>, e: Entry)
    requires e in HeldEntries(subs, circular, delay)
    ensures e.claimDelayMs == delay
    ensures exists i :: 0 <= i < |subs| && subs[i].subtask == e.subtask && IsHeld(subs[i], circular)
                        && subs[i].dependsOn == Some(e.dependsOn)
  {
    var n := |subs| - 1;
    if e in HeldEntries(subs[..n], circular, delay) {
      HeldComeFromSubs(subs[..n], circular, delay, e);
      var i :| 0 <= i < n && subs[..n][i].subtask == e.subtask && IsHeld(subs[..n][i], circular)
               && subs[..n][i].dependsOn == Some(e.dependsOn);
      assert subs[i].subtask == e.subtask;
    } else {
      assert subs[n].subtask == e.subtask;
    }
  }

  // ---------------------------------------------------------------- the drawing of ids

  /** A subtask as the decomposition returns it: it may name dependencies, but has no id yet. */
  datatype Draft = Draft(taskId: string, input: string, dependsOn: Option<seq<string>>)

  function Drawn(drafts: seq<Draft>, ids: seq<string>): seq<Submission>
    requires |ids| == |drafts|
  {
    seq(|drafts|, i requires 0 <= i < |drafts| =>
      Submission(Subtask(ids[i], drafts[i].taskId, drafts[i].input), drafts[i].dependsOn))
  }

  predicate HasDependencies(d: Draft) {
    d.dependsOn.Some? && d.dependsOn.value != []
  }

  /** The ids are different from each other and were not used before, so that no dependency
      of the drafts names one. */
  ghost predicate Unused(drafts: seq<Draft>, ids: seq<string>) {
    && |ids| == |drafts| && Distinct(ids)
    && forall i, d :: 0 <= i < |drafts| && drafts[i].dependsOn.Some? && d in drafts[i].dependsOn.value ==> d !in ids
  }

  lemma DrawnIds(drafts: seq<Draft>, ids: seq<string>)
    requires Unused(drafts, ids)
    ensures SubmissionIds(Drawn(drafts, ids)) == ids && DistinctIds(Refs(Drawn(drafts, ids)))
    ensures forall x :: x in Ids(Refs(Drawn(drafts, ids))) <==> x in ids
    ensures forall i :: 0 <= i < |drafts| ==>
                          var x := Drawn(drafts, ids)[i];
                          && x.subtask.taskId == drafts[i].taskId && x.subtask.input == drafts[i].input
                          && x.dependsOn == drafts[i].dependsOn
  {
    var refs := Refs(Drawn(drafts, ids));
    assert forall i :: 0 <= i < |refs| ==> refs[i].id == ids[i];
  }

  /** Every dependency leads from a drawn id to something else. */
  lemma DrawnEdge(drafts: seq<Draft>, ids: seq<string>, a: string, b: string)
    requires Unused(drafts, ids) && Edge(GraphOf(Refs(Drawn(drafts, ids))), a, b)
    ensures a in ids && b !in ids
  {
    var refs := Refs(Drawn(drafts, ids));
    DrawnIds(drafts, ids);
    GraphKeys(refs);
    var i :| 0 <= i < |refs| && refs[i].id == a;
    GraphLookup(refs, i);
    assert drafts[i].dependsOn == refs[i].dependsOn;
  }

  /** Drawn ids never lie on a cycle: nothing depends on them. */
  lemma NothingCircular(drafts: seq<Draft>, ids: seq<string>)
    requires Unused(drafts, ids)
    ensures Circular(Drawn(drafts, ids), {})
  {
    var g := GraphOf(Refs(Drawn(drafts, ids)));
    forall x ensures !OnCycle(g, x) {
      if p :| WalkFrom(g, p, x, x) {
        DrawnEdge(drafts, ids, p[0], p[1]);
        DrawnEdge(drafts, ids, p[|p| - 2], p[|p| - 1]);
      }
    }
  }

  /** The scheduling of one task, from the decomposition on. */
  method ScheduleDrafts(tracker: SubtaskDepTracker, drafts: seq<Draft>, ids: seq<string>, delay: Option<int>)
    returns (created: seq<Subtask>)
    requires Unused(drafts, ids)
    requires forall e :: e in tracker.pending ==> e.subtask.id !in ids
    modifies tracker`pending
    ensures tracker.pending == old(tracker.pending) + HeldEntries(Drawn(drafts, ids), {}, delay)
    ensures created == Immediate(Drawn(drafts, ids), {})
  {
    DrawnIds(drafts, ids);
    ghost var circular;
    created, circular := Schedule(tracker, Drawn(drafts, ids), delay);
    NothingCircular(drafts, ids);
    assert circular == {};
  }

  // ---------------------------------------------------------------- runs of the protocol

  /** The tracker together with the ids enqueued so far, in order. */
  datatype State = State(pending: seq<Entry>, outputs: map<string, string>, released: seq<string>)

  datatype Completion = Completion(id: string, output: string)

  function EntryIds(es: seq<Entry>): seq<string> {
    seq(|es|, i requires 0 <= i < |es| => es[i].subtask.id)
  }

  function EnqueuedIds(es: seq<Enqueued>): seq<string> {
    seq(|es|, i requires 0 <= i < |es| => es[i].subtask.id)
  }

  function SubtaskIds(es: seq<Subtask>): seq<string> {
    seq(|es|, i requires 0 <= i < |es| => es[i].id)
  }

  function SubmissionIds(subs: seq<Submission>): seq<string> {
    seq(|subs|, i requires 0 <= i < |subs| => subs[i].subtask.id)
  }

  function Start(subs: seq<Submission>, circular: set<string>, delay: Option<int>): State {
    State(HeldEntries(subs, circular, delay), map[], SubtaskIds(Immediate(subs, circular)))
  }

  /** What one RecordCompletionAndRelease does to the tracker and to the enqueue log. */
  function Complete(s: State, c: Completion): State {
    var outputs := s.outputs[c.id := c.output];
    State(Waiting(s.pending, outputs), outputs, s.released + EnqueuedIds(Ready(s.pending, outputs)))
  }

  /** The state after a run. A run is any sequence of reports: their ids are not checked, so
      they may repeat, come early, or name subtasks that were never submitted. */
  function After(s: State, cs: seq<Completion>): State
    decreases |cs|
  {
    if cs == [] then s else After(Complete(s, cs[0]), cs[1..])
  }

  /** The reported ids. */
  function Reports(cs: seq<Completion>): set<string> {
    set c | c in cs :: c.id
  }

  /** Each report is of a subtask that has been enqueued. */
  predicate OnlyEnqueued(s: State, cs: seq<Completion>)
    decreases |cs|
  {
    cs == [] || (cs[0].id in s.released && OnlyEnqueued(Complete(s, cs[0]), cs[1..]))
  }

  /** No enqueued subtask is still to be completed. */
  predicate Quiescent(s: State) {
    forall x :: x in s.released ==> x in s.outputs
  }

  /** The entry is a subtask of the submission with its dependencies, and not circular. */
  ghost predicate Owns(subs: seq<Submission>, e: Entry) {
    var g := GraphOf(Refs(subs));
    e.subtask.id in g && g[e.subtask.id] == e.dependsOn && !OnCycle(g, e.subtask.id)
  }

  /** The id is one of the submission that may be enqueued: it has no dependencies, is
      circular, or its dependencies have completed. */
  ghost predicate Cleared(subs: seq<Submission>, x: string, outputs: map<string, string>) {
    var g := GraphOf(Refs(subs));
    x in g && (g[x] == [] || OnCycle(g, x) || Met(g[x], outputs))
  }

  ghost predicate Invariant(subs: seq<Submission>, s: State) {
    && multiset(EntryIds(s.pending)) + multiset(s.released) == multiset(SubmissionIds(subs))
    && (forall e :: e in s.pending ==> Owns(subs, e) && !Met(e.dependsOn, s.outputs))
    && (forall x :: x in s.released ==> Cleared(subs, x, s.outputs))
  }

  lemma SubmissionIdsAreIds(subs: seq<Submission>, x: string)
    ensures x in SubmissionIds(subs) <==> x in GraphOf(Refs(subs))
  {
    GraphKeys(Refs(subs));
    if x in SubmissionIds(subs) {
      var i :| 0 <= i < |subs| && subs[i].subtask.id == x;
      assert Refs(subs)[i].id == x;
    }
    if x in Ids(Refs(subs)) {
      var i :| 0 <= i < |subs| && Refs(subs)[i].id == x;
      assert SubmissionIds(subs)[i] == x;
    }
  }

  lemma {:induction false} AdmissionSplits(subs: seq<Submission>, circular: set<string>, delay: Option<int>)
    ensures multiset(EntryIds(HeldEntries(subs, circular, delay))) + multiset(SubtaskIds(Immediate(subs, circular)))
         == multiset(SubmissionIds(subs))
  {
    if subs != [] {
      var n := |subs| - 1;
      AdmissionSplits(subs[..n], circular, delay);
      var held, created := HeldEntries(subs[..n], circular, delay), Immediate(subs[..n], circular);
      if IsHeld(subs[n], circular) {
        assert EntryIds(HeldEntries(subs, circular, delay)) == EntryIds(held) + [subs[n].subtask.id];
      } else {
        assert SubtaskIds(Immediate(subs, circular)) == SubtaskIds(created) + [subs[n].subtask.id];
      }
      assert SubmissionIds(subs) == SubmissionIds(subs[..n]) + [subs[n].subtask.id];
    }
  }

  lemma {:induction false} ReleaseSplits(p: seq<Entry>, outputs: map<string, string>)
    ensures multiset(EntryIds(Waiting(p, outputs))) + multiset(EnqueuedIds(Ready(p, outputs))) == multiset(EntryIds(p))
  {
    if p != [] {
      hide Met, Context;
      var n := |p| - 1;
      ReleaseSplits(p[..n], outputs);
      if Met(p[n].dependsOn, outputs) {
        assert EnqueuedIds(Ready(p, outputs)) == EnqueuedIds(Ready(p[..n], outputs)) + [p[n].subtask.id];
      } else {
        assert EntryIds(Waiting(p, outputs)) == EntryIds(Waiting(p[..n], outputs)) + [p[n].subtask.id];
      }
      assert EntryIds(p) == EntryIds(p[..n]) + [p[n].subtask.id];
    }
  }

  lemma {:induction false} ImmediateWhy(subs: seq<Submission>, circular: set<string>, x: string)
    requires x in SubtaskIds(Immediate(subs, circular))
    ensures exists i :: 0 <= i < |subs| && subs[i].subtask.id == x && !IsHeld(subs[i], circular)
  {
    var n := |subs| - 1;
    var created := Immediate(subs, circular);
    var k :| 0 <= k < |created| && created[k].id == x;
    if k < |Immediate(subs[..n], circular)| {
      assert SubtaskIds(Immediate(subs[..n], circular))[k] == x;
      ImmediateWhy(subs[..n], circular, x);
      var i :| 0 <= i < n && subs[..n][i].subtask.id == x && !IsHeld(subs[..n][i], circular);
      assert subs[i].subtask.id == x;
    } else {
      assert subs[n].subtask.id == x;
    }
  }

  lemma {:induction false} WaitingMembers(p: seq<Entry>, outputs: map<string, string>, e: Entry)
    ensures e in Waiting(p, outputs) <==> e in p && !Met(e.dependsOn, outputs)
  {
    if p != [] {
      WaitingMembers(p[..|p| - 1], outputs, e);
      assert e in p <==> e in p[..|p| - 1] || e == p[|p| - 1];
    }
  }

  lemma {:induction false} ReadyMembers(p: seq<Entry>, outputs: map<string, string>, x: string)
    requires x in EnqueuedIds(Ready(p, outputs))
    ensures exists e :: e in p && e.subtask.id == x && Met(e.dependsOn, outputs)
  {
    var n := |p| - 1;
    var ready := Ready(p, outputs);
    var k :| 0 <= k < |ready| && ready[k].subtask.id == x;
    if k < |Ready(p[..n], outputs)| {
      assert EnqueuedIds(Ready(p[..n], outputs))[k] == x;
      ReadyMembers(p[..n], outputs, x);
    } else {
      assert p[n] in p;
    }
  }

  lemma PendingIdMember(p: seq<Entry>, x: string)
    requires x in EntryIds(p)
    ensures exists e :: e in p && e.subtask.id == x
  {
    var k :| 0 <= k < |p| && EntryIds(p)[k] == x;
    assert p[k] in p;
  }

  lemma HeldAreOwned(subs: seq<Submission>, circular: set<string>, delay: Option<int>, e: Entry)
    requires DistinctIds(Refs(subs)) && Circular(subs, circular) && e in HeldEntries(subs, circular, delay)
    ensures Owns(subs, e) && e.dependsOn != []
  {
    HeldComeFromSubs(subs, circular, delay, e);
    var i :| 0 <= i < |subs| && subs[i].subtask == e.subtask && IsHeld(subs[i], circular)
             && subs[i].dependsOn == Some(e.dependsOn);
    GraphLookup(Refs(subs), i);
  }

  lemma ImmediateAreCleared(subs: seq<Submission>, circular: set<string>, x: string, outputs: map<string, string>)
    requires DistinctIds(Refs(subs)) && Circular(subs, circular) && x in SubtaskIds(Immediate(subs, circular))
    ensures Cleared(subs, x, outputs)
  {
    ImmediateWhy(subs, circular, x);
    var i :| 0 <= i < |subs| && subs[i].subtask.id == x && !IsHeld(subs[i], circular);
    GraphLookup(Refs(subs), i);
  }

  lemma StartInvariant(subs: seq<Submission>, circular: set<string>, delay: Option<int>)
    requires DistinctIds(Refs(subs)) && Circular(subs, circular)
    ensures Invariant(subs, Start(subs, circular, delay))
  {
    hide Owns, Cleared;
    var s := Start(subs, circular, delay);
    AdmissionSplits(subs, circular, delay);
    forall e | e in s.pending ensures Owns(subs, e) && !Met(e.dependsOn, map[]) {
      HeldAreOwned(subs, circular, delay, e);
      assert e.dependsOn[0] in e.dependsOn;
    }
    forall x | x in s.released ensures Cleared(subs, x, map[]) {
      ImmediateAreCleared(subs, circular, x, map[]);
    }
  }

  /** A completion leaves pending what still waits, and clears what it releases. */
  lemma CompletionKeeps(s: State, c: Completion)
    ensures var t := Complete(s, c);
            && multiset(EntryIds(t.pending)) + multiset(t.released)
            == multiset(EntryIds(s.pending)) + multiset(s.released)
            && (forall e :: e in t.pending ==> e in s.pending && !Met(e.dependsOn, t.outputs))
            && forall x :: x in t.released && x !in s.released ==>
                             exists e :: e in s.pending && e.subtask.id == x && Met(e.dependsOn, t.outputs)
  {
    var t := Complete(s, c);
    ReleaseSplits(s.pending, t.outputs);
    forall e | e in t.pending ensures e in s.pending && !Met(e.dependsOn, t.outputs) {
      WaitingMembers(s.pending, t.outputs, e);
    }
    forall x | x in t.released && x !in s.released
      ensures exists e :: e in s.pending && e.subtask.id == x && Met(e.dependsOn, t.outputs)
    {
      ReadyMembers(s.pending, t.outputs, x);
    }
  }

  lemma StepInvariant(subs: seq<Submission>, s: State, c: Completion)
    requires Invariant(subs, s)
    ensures Invariant(subs, Complete(s, c))
  {
    hide Ready, Waiting, OnCycle, GraphOf;
    var t := Complete(s, c);
    CompletionKeeps(s, c);
    forall x | x in t.released ensures Cleared(subs, x, t.outputs) {
      if x !in s.released {
        var e :| e in s.pending && e.subtask.id == x && Met(e.dependsOn, t.outputs);
        assert Owns(subs, e);
      }
    }
  }

  /** The invariant holds after every run of reports, whatever they report. */
  lemma {:induction false} RunInvariant(subs: seq<Submission>, s: State, cs: seq<Completion>)
    requires Invariant(subs, s)
    ensures Invariant(subs, After(s, cs))
    decreases |cs|
  {
    if cs != [] {
      StepInvariant(subs, s, cs[0]);
      RunInvariant(subs, Complete(s, cs[0]), cs[1..]);
    }
  }

  /** Every held subtask depends only on subtasks of the same submission. */
  ghost predicate HeldDepsInside(subs: seq<Submission>, circular: set<string>) {
    forall i, d :: 0 <= i < |subs| && IsHeld(subs[i], circular) && d in subs[i].dependsOn.value
                   ==> d in SubmissionIds(subs)
  }

  /** Exactly-once release: in every state each submitted id is pending or enqueued, never
      both and never twice, and an id is enqueued only when its dependencies have completed
      (or it never had to wait). */
  lemma ReleasedExactlyOnce(subs: seq<Submission>, circular: set<string>, delay: Option<int>, cs: seq<Completion>)
    requires DistinctIds(Refs(subs)) && Circular(subs, circular)
    ensures var s := After(Start(subs, circular, delay), cs);
            forall i :: 0 <= i < |subs| ==>
              var x := subs[i].subtask.id;
              && multiset(EntryIds(s.pending))[x] + multiset(s.released)[x] == 1
              && (x in s.released && IsHeld(subs[i], circular) ==> Met(subs[i].dependsOn.value, s.outputs))
  {
    StartInvariant(subs, circular, delay);
    RunInvariant(subs, Start(subs, circular, delay), cs);
    var s := After(Start(subs, circular, delay), cs);
    forall i | 0 <= i < |subs|
      ensures multiset(EntryIds(s.pending))[subs[i].subtask.id] + multiset(s.released)[subs[i].subtask.id] == 1
      ensures subs[i].subtask.id in s.released && IsHeld(subs[i], circular) ==> Met(subs[i].dependsOn.value, s.outputs)
    {
      GraphLookup(Refs(subs), i);
      forall a, b | 0 <= a < b < |subs| ensures SubmissionIds(subs)[a] != SubmissionIds(subs)[b] {
        assert Refs(subs)[a].id != Refs(subs)[b].id;
      }
      DistinctCount(SubmissionIds(subs), subs[i].subtask.id);
      assert SubmissionIds(subs)[i] == subs[i].subtask.id;
    }
  }

  /** Progress: as long as something is held, some enqueued subtask is still to be completed.
      Circular submissions are included: the ids on a cycle were never held. */
  lemma NoDeadlock(subs: seq<Submission>, circular: set<string>, s: State)
    requires DistinctIds(Refs(subs)) && Circular(subs, circular) && HeldDepsInside(subs, circular)
    requires Invariant(subs, s)
    ensures s.pending != [] ==> exists x :: x in s.released && x !in s.outputs
  {
    if s.pending != [] && Quiescent(s) {
      var g := GraphOf(Refs(subs));
      var waiting := set e | e in s.pending :: e.subtask.id;
      assert s.pending[0].subtask.id in waiting;
      forall v | v in waiting ensures WaitsWithin(g, v, waiting) {
        var e :| e in s.pending && e.subtask.id == v;
        var d :| d in e.dependsOn && d !in s.outputs;
        DependencyInside(subs, circular, v, d);
        assert d in multiset(EntryIds(s.pending)) + multiset(s.released);
        PendingIdMember(s.pending, d);
        assert d in waiting && Edge(g, v, d);
      }
      var x := EveryoneWaitsMeansCycle(g, waiting);
      assert false;
    }
  }

  lemma DependencyInside(subs: seq<Submission>, circular: set<string>, v: string, d: string)
    requires DistinctIds(Refs(subs)) && Circular(subs, circular) && HeldDepsInside(subs, circular)
    requires v in GraphOf(Refs(subs)) && d in GraphOf(Refs(subs))[v] && !OnCycle(GraphOf(Refs(subs)), v)
    ensures d in multiset(SubmissionIds(subs))
  {
    GraphKeys(Refs(subs));
    var i :| 0 <= i < |subs| && Refs(subs)[i].id == v;
    GraphLookup(Refs(subs), i);
    assert IsHeld(subs[i], circular) && subs[i].dependsOn.value == GraphOf(Refs(subs))[v];
    assert d in SubmissionIds(subs);
  }

  /** From any reachable state, completing enqueued subtasks alone leads to a quiescent state. */
  lemma {:induction false} FinishRun(subs: seq<Submission>, s: State) returns (cs: seq<Completion>)
    requires Invariant(subs, s)
    ensures OnlyEnqueued(s, cs) && Quiescent(After(s, cs))
    ensures forall x :: x in After(s, cs).outputs ==> x in s.outputs || x in SubmissionIds(subs)
    decreases GraphOf(Refs(subs)).Keys - s.outputs.Keys
  {
    if Quiescent(s) {
      cs := [];
    } else {
      var x :| x in s.released && x !in s.outputs;
      var c := Completion(x, "");
      StepInvariant(subs, s, c);
      assert Complete(s, c).outputs.Keys == s.outputs.Keys + {x};
      assert x in GraphOf(Refs(subs)).Keys;
      SubmissionIdsAreIds(subs, x);
      var rest := FinishRun(subs, Complete(s, c));
      cs := [c] + rest;
    }
  }

  /** In every reachable state a held subtask is pending exactly while some dependency has no
      output. */
  lemma HeldUntilMet(subs: seq<Submission>, circular: set<string>, s: State, i: nat)
    requires DistinctIds(Refs(subs)) && Circular(subs, circular)
    requires i < |subs| && IsHeld(subs[i], circular) && Invariant(subs, s)
    ensures subs[i].subtask.id in EntryIds(s.pending) <==> !Met(subs[i].dependsOn.value, s.outputs)
  {
    var x := subs[i].subtask.id;
    GraphLookup(Refs(subs), i);
    SubmissionIdsAreIds(subs, x);
    assert x in multiset(EntryIds(s.pending)) + multiset(s.released);
    if x in EntryIds(s.pending) {
      PendingIdMember(s.pending, x);
      var e :| e in s.pending && e.subtask.id == x;
      assert Owns(subs, e);
    } else {
      assert Cleared(subs, x, s.outputs);
    }
  }

  lemma {:induction false} OutputsAreReports(s: State, cs: seq<Completion>, x: string)
    ensures x in After(s, cs).outputs <==> x in s.outputs || x in Reports(cs)
    decreases |cs|
  {
    if cs != [] {
      hide Ready, Waiting;
      OutputsAreReports(Complete(s, cs[0]), cs[1..], x);
      assert Reports(cs) == {cs[0].id} + Reports(cs[1..]) by {
        assert cs == [cs[0]] + cs[1..];
      }
    }
  }

  /** Held exactly until reported: after every run, a held subtask is pending if and only if
      some dependency of it has not been reported. A dependency outside the submission holds it
      until the outside id is reported. */
  lemma HeldExactlyUntilReported(subs: seq<Submission>, circular: set<string>, delay: Option<int>,
                                 cs: seq<Completion>, i: nat)
    requires DistinctIds(Refs(subs)) && Circular(subs, circular) && i < |subs| && IsHeld(subs[i], circular)
    ensures subs[i].subtask.id in EntryIds(After(Start(subs, circular, delay), cs).pending)
       <==> (exists d :: d in subs[i].dependsOn.value && d !in Reports(cs))
  {
    var s0 := Start(subs, circular, delay);
    StartInvariant(subs, circular, delay);
    RunInvariant(subs, s0, cs);
    HeldUntilMet(subs, circular, After(s0, cs), i);
    forall d ensures d in After(s0, cs).outputs <==> d in Reports(cs) {
      OutputsAreReports(s0, cs, d);
    }
  }

  // ---------------------------------------------------------------- what is released

  /** Everything that a run of reports hands on, in order. */
  function Dispatched(s: State, cs: seq<Completion>): seq<Enqueued>
    decreases |cs|
  {
    if cs == [] then []
    else Ready(s.pending, s.outputs[cs[0].id := cs[0].output]) + Dispatched(Complete(s, cs[0]), cs[1..])
  }

  /** The output last reported for an id. */
  function LastOutput(cs: seq<Completion>, id: string): Option<string> {
    if cs == [] then None
    else if cs[|cs| - 1].id == id then Some(cs[|cs| - 1].output)
    else LastOutput(cs[..|cs| - 1], id)
  }

  /** One line for each dependency, in order: its number and the output last reported for it. */
  function Told(deps: seq<string>, cs: seq<Completion>): string {
    if deps == [] then ""
    else
      var n := |deps| - 1;
      var output := LastOutput(cs, deps[n]);
      Told(deps[..n], cs)
      + ("Subtask " + Json.Decimal(n + 1) + " result: " + (if output.Some? then output.value else "") + "\n")
  }

  lemma {:induction false} LastReport(s: State, cs: seq<Completion>)
    requires cs != []
    ensures var n := |cs| - 1;
            && After(s, cs) == Complete(After(s, cs[..n]), cs[n])
            && Dispatched(s, cs)
            == Dispatched(s, cs[..n]) + Ready(After(s, cs[..n]).pending, After(s, cs).outputs)
    decreases |cs|
  {
    hide Ready, Waiting;
    var n := |cs| - 1;
    if n == 0 {
      assert cs[..n] == [] && cs[1..] == [];
    } else {
      LastReport(Complete(s, cs[0]), cs[1..]);
      assert cs[..n][1..] == cs[1..][..n - 1];
    }
  }

  lemma ReportsGrow(cs: seq<Completion>, c: Completion)
    ensures Reports(cs + [c]) == Reports(cs) + {c.id}
  {
  }

  lemma CompleteStores(s: State, c: Completion)
    ensures Complete(s, c).outputs == s.outputs[c.id := c.output]
  {
  }

  /** The stored outputs are those last reported. */
  lemma {:induction false} OutputsAreLast(s: State, cs: seq<Completion>, d: string)
    ensures var o := LastOutput(cs, d); var outputs := After(s, cs).outputs;
            && (o.Some? <==> d in Reports(cs))
            && (o.Some? ==> d in outputs && outputs[d] == o.value)
  {
    if cs != [] {
      hide Complete, Dispatched, After, Reports;
      var n := |cs| - 1;
      OutputsAreLast(s, cs[..n], d);
      LastReport(s, cs);
      CompleteStores(After(s, cs[..n]), cs[n]);
      ReportsGrow(cs[..n], cs[n]);
      assert cs == cs[..n] + [cs[n]];
    }
  }

  lemma {:induction false} PendingWereHeld(s: State, cs: seq<Completion>, e: Entry)
    requires e in After(s, cs).pending
    ensures e in s.pending
  {
    if cs != [] {
      hide Ready, Waiting, Dispatched;
      var n := |cs| - 1;
      LastReport(s, cs);
      CompletionKeeps(After(s, cs[..n]), cs[n]);
      PendingWereHeld(s, cs[..n], e);
    }
  }

  /** The lines that are stored for met dependencies, put together, are the lines told. */
  lemma {:induction false} LinesAreTold(deps: seq<string>, s: State, cs: seq<Completion>)
    requires forall d :: d in deps ==> d in Reports(cs)
    ensures |Lines(deps, After(s, cs).outputs)| == |deps|
    ensures deps != [] ==> Joined(Lines(deps, After(s, cs).outputs), "\n") + "\n" == Told(deps, cs)
  {
    if deps != [] {
      hide After, Joined, LastOutput, Reports, Json.Decimal;
      var n, outputs := |deps| - 1, After(s, cs).outputs;
      assert deps[n] in deps && forall d :: d in deps[..n] ==> d in deps;
      LinesAreTold(deps[..n], s, cs);
      OutputsAreLast(s, cs, deps[n]);
      var before, line := Lines(deps[..n], outputs), Line(n, outputs[deps[n]]);
      assert Lines(deps, outputs) == before + [line];
      JoinedWithBreak(before, line);
      assert Told(deps, cs) == Told(deps[..n], cs) + (line + "\n");
    }
  }

  lemma JoinedWithBreak(before: seq<string>, line: string)
    ensures Joined(before + [line], "\n") + "\n"
         == (if before == [] then "" else Joined(before, "\n") + "\n") + (line + "\n")
  {
    assert (before + [line])[..|before|] == before;
  }

  lemma ReadyItem(pending: seq<Entry>, outputs: map<string, string>, k: nat) returns (e: Entry)
    requires k < |Ready(pending, outputs)|
    ensures e in pending && Met(e.dependsOn, outputs) && Ready(pending, outputs)[k] == Enrich(e, outputs)
  {
    hide Met, Enrich;
    var n := |pending| - 1;
    if k < |Ready(pending[..n], outputs)| {
      e := ReadyItem(pending[..n], outputs, k);
    } else {
      e := pending[n];
    }
  }

  /** All dependencies have been reported, and the last report completed them. */
  ghost predicate JustReported(deps: seq<string>, cs: seq<Completion>) {
    && cs != [] && (forall d :: d in deps ==> d in Reports(cs))
    && exists d :: d in deps && d !in Reports(cs[..|cs| - 1])
  }

  /** The item is the submitted subtask as it is due after the reports `cs`: it keeps the id,
      the task and the claim delay, and its input is the submitted one behind the outputs last
      reported for its dependencies, one numbered line each, in the order of dependsOn. */
  ghost predicate Carries(item: Enqueued, sub: Submission, delay: Option<int>, cs: seq<Completion>) {
    && sub.dependsOn.Some? && sub.dependsOn.value != [] && JustReported(sub.dependsOn.value, cs)
    && item.subtask.id == sub.subtask.id && item.subtask.taskId == sub.subtask.taskId && item.claimDelayMs == delay
    && item.subtask.input == "[Context from previous subtasks]\n" + Told(sub.dependsOn.value, cs)
                             + "\n[Your task]\n" + sub.subtask.input
  }

  /** What is released, over every run of reports: each item handed on belongs to a held subtask
      whose last missing dependency has just been reported, and carries the outputs of all. */
  lemma {:induction false} ReleasedWithContext(subs: seq<Submission>, circular: set<string>, delay: Option<int>,
                                               cs: seq<Completion>, k: nat) returns (i: nat, n: nat)
    requires DistinctIds(Refs(subs)) && Circular(subs, circular)
    requires k < |Dispatched(Start(subs, circular, delay), cs)|
    ensures i < |subs| && n <= |cs| && subs[i].subtask.id !in circular
    ensures Carries(Dispatched(Start(subs, circular, delay), cs)[k], subs[i], delay, cs[..n])
    decreases |cs|
  {
    hide *;
    var s0, m := Start(subs, circular, delay), |cs| - 1;
    SomethingReported(s0, cs);
    LastReport(s0, cs);
    var before := Dispatched(s0, cs[..m]);
    if k < |before| {
      i, n := ReleasedWithContext(subs, circular, delay, cs[..m], k);
      assert cs[..m][..n] == cs[..n];
    } else {
      n := |cs|;
      assert cs[..n] == cs;
      i := ReleasedNow(subs, circular, delay, cs, k - |before|);
    }
  }

  lemma SomethingReported(s: State, cs: seq<Completion>)
    ensures Dispatched(s, cs) != [] ==> cs != []
  {
  }

  lemma ReleasedNow(subs: seq<Submission>, circular: set<string>, delay: Option<int>, cs: seq<Completion>, k: nat)
    returns (i: nat)
    requires DistinctIds(Refs(subs)) && Circular(subs, circular) && cs != []
    requires var s0 := Start(subs, circular, delay);
             k < |Ready(After(s0, cs[..|cs| - 1]).pending, After(s0, cs).outputs)|
    ensures i < |subs| && subs[i].subtask.id !in circular
    ensures var s0 := Start(subs, circular, delay);
            Carries(Ready(After(s0, cs[..|cs| - 1]).pending, After(s0, cs).outputs)[k], subs[i], delay, cs)
  {
    hide After, Start, Ready, Met, JustReported;
    var s0 := Start(subs, circular, delay);
    var outputs := After(s0, cs).outputs;
    var e := ReadyItem(After(s0, cs[..|cs| - 1]).pending, outputs, k);
    i := ReleasedEntry(subs, circular, delay, cs, e);
    EntryTells(s0, cs, e);
  }

  lemma EntryTells(s: State, cs: seq<Completion>, e: Entry)
    requires e.dependsOn != [] && JustReported(e.dependsOn, cs)
    ensures Enrich(e, After(s, cs).outputs).subtask.input
         == "[Context from previous subtasks]\n" + Told(e.dependsOn, cs) + "\n[Your task]\n" + e.subtask.input
  {
    hide After, Told, Lines, Joined;
    LinesAreTold(e.dependsOn, s, cs);
    var joined := Joined(Lines(e.dependsOn, After(s, cs).outputs), "\n");
    Framed(joined, Told(e.dependsOn, cs), e.subtask.input);
  }

  lemma Framed(joined: string, told: string, input: string)
    requires joined + "\n" == told
    ensures "[Context from previous subtasks]\n" + joined + "\n\n[Your task]\n" + input
         == "[Context from previous subtasks]\n" + told + "\n[Your task]\n" + input
  {
    assert "\n\n[Your task]\n" == "\n" + "\n[Your task]\n";
    var head := "[Context from previous subtasks]\n";
    assert (head + joined) + ("\n" + "\n[Your task]\n") == (head + (joined + "\n")) + "\n[Your task]\n";
  }

  lemma ReleasedEntry(subs: seq<Submission>, circular: set<string>, delay: Option<int>, cs: seq<Completion>, e: Entry)
    returns (i: nat)
    requires DistinctIds(Refs(subs)) && Circular(subs, circular) && cs != []
    requires var s0 := Start(subs, circular, delay);
             e in After(s0, cs[..|cs| - 1]).pending && Met(e.dependsOn, After(s0, cs).outputs)
    ensures i < |subs| && subs[i].subtask == e.subtask && subs[i].dependsOn == Some(e.dependsOn)
    ensures e.claimDelayMs == delay && e.dependsOn != [] && e.subtask.id !in circular
    ensures JustReported(e.dependsOn, cs)
  {
    var s0, before := Start(subs, circular, delay), cs[..|cs| - 1];
    PendingWereHeld(s0, before, e);
    HeldComeFromSubs(subs, circular, delay, e);
    i :| 0 <= i < |subs| && subs[i].subtask == e.subtask && IsHeld(subs[i], circular)
         && subs[i].dependsOn == Some(e.dependsOn);
    StartInvariant(subs, circular, delay);
    RunInvariant(subs, s0, before);
    forall d ensures d in After(s0, cs).outputs <==> d in Reports(cs) {
      OutputsAreReports(s0, cs, d);
    }
    forall d ensures d in After(s0, before).outputs <==> d in Reports(before) {
      OutputsAreReports(s0, before, d);
    }
    assert !Met(e.dependsOn, After(s0, before).outputs);
  }

  /** Nothing is handed on twice or left out: the log of enqueued ids grows by exactly these. */
  lemma {:induction false} DispatchedAreReleased(s: State, cs: seq<Completion>)
    ensures After(s, cs).released == s.released + EnqueuedIds(Dispatched(s, cs))
  {
    hide Ready, Waiting;
    if cs == [] {
      assert s.released + EnqueuedIds([]) == s.released;
    } else {
      var n := |cs| - 1;
      LastReport(s, cs);
      DispatchedAreReleased(s, cs[..n]);
      var a, b := Dispatched(s, cs[..n]), Ready(After(s, cs[..n]).pending, After(s, cs).outputs);
      assert EnqueuedIds(a + b) == EnqueuedIds(a) + EnqueuedIds(b);
      assert (s.released + EnqueuedIds(a)) + EnqueuedIds(b) == s.released + (EnqueuedIds(a) + EnqueuedIds(b));
    }
  }

  /** Every run that completes all it enqueues leaves nothing held. */
  ghost predicate AlwaysDrains(s: State) {
    forall cs :: Quiescent(After(s, cs)) ==> After(s, cs).pending == []
  }

  /** The main theorem. Every run that completes everything it enqueues, whatever else it
      reports, ends with nothing held, if and only if held subtasks depend only on subtasks of
      the submission. */
  lemma DrainsExactlyWhenClosed(subs: seq<Submission>, circular: set<string>, delay: Option<int>)
    requires DistinctIds(Refs(subs)) && Circular(subs, circular)
    ensures HeldDepsInside(subs, circular) <==> AlwaysDrains(Start(subs, circular, delay))
  {
    var s0 := Start(subs, circular, delay);
    StartInvariant(subs, circular, delay);
    if HeldDepsInside(subs, circular) {
      forall cs | Quiescent(After(s0, cs)) ensures After(s0, cs).pending == [] {
        RunInvariant(subs, s0, cs);
        NoDeadlock(subs, circular, After(s0, cs));
      }
    } else {
      var i, d :| 0 <= i < |subs| && IsHeld(subs[i], circular)
                  && d in subs[i].dependsOn.value && d !in SubmissionIds(subs);
      var cs := FinishRun(subs, s0);
      RunInvariant(subs, s0, cs);
      assert d !in After(s0, cs).outputs;
      HeldUntilMet(subs, circular, After(s0, cs), i);
    }
  }

  /** As the coordinator draws ids, a draft with dependencies waits for ids outside its
      submission: it is held until each of them is reported, and reports of the submission's
      own subtasks never release it. */
  lemma DraftsWithDependenciesStayHeld(drafts: seq<Draft>, ids: seq<string>, delay: Option<int>,
                                       cs: seq<Completion>, i: nat)
    requires Unused(drafts, ids) && i < |drafts| && HasDependencies(drafts[i])
    ensures ids[i] in EntryIds(After(Start(Drawn(drafts, ids), {}, delay), cs).pending)
       <==> (exists d :: d in drafts[i].dependsOn.value && d !in Reports(cs))
    ensures Reports(cs) <= Elements(ids) ==> ids[i] in EntryIds(After(Start(Drawn(drafts, ids), {}, delay), cs).pending)
  {
    var subs := Drawn(drafts, ids);
    DrawnIds(drafts, ids);
    NothingCircular(drafts, ids);
    HeldExactlyUntilReported(subs, {}, delay, cs, i);
    assert subs[i].dependsOn == drafts[i].dependsOn;
    var d := drafts[i].dependsOn.value[0];
    assert d in drafts[i].dependsOn.value && d !in Elements(ids);
  }

  /** A submission with drawn ids drains exactly when none of its drafts has dependencies. */
  lemma DrawnDrainsExactly(drafts: seq<Draft>, ids: seq<string>, delay: Option<int>)
    requires Unused(drafts, ids)
    ensures AlwaysDrains(Start(Drawn(drafts, ids), {}, delay)) <==>
            forall i :: 0 <= i < |drafts| ==> !HasDependencies(drafts[i])
  {
    var subs := Drawn(drafts, ids);
    DrawnIds(drafts, ids);
    NothingCircular(drafts, ids);
    DrainsExactlyWhenClosed(subs, {}, delay);
    assert forall i :: 0 <= i < |drafts| ==> (IsHeld(subs[i], {}) <==> HasDependencies(drafts[i]));
    if i :| 0 <= i < |drafts| && HasDependencies(drafts[i]) {
      var d := drafts[i].dependsOn.value[0];
      assert IsHeld(subs[i], {}) && d in subs[i].dependsOn.value && d !in ids;
    }
  }
}
