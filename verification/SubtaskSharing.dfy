/** The tracker as the coordinator uses it (src/swarm/coordinator.ts): one object shared by all
    submissions, which arrive between the reports of earlier ones. */
module SubtaskSharing {
  import opened Prelude
  import opened SubtaskGraph
  import opened SubtaskRelease

  datatype Event =
    | Submitted(subs: seq<Submission>, circular: set<string>, delay: Option<int>)
    | Reported(completion: Completion)

  const IDLE := State([], map[], [])

  /** What Schedule and RecordCompletionAndRelease do to the tracker and to the enqueue log. */
  function Take(s: State, e: Event): State {
    match e
    case Submitted(subs, circular, delay) =>
      State(s.pending + HeldEntries(subs, circular, delay), s.outputs,
            s.released + SubtaskIds(Immediate(subs, circular)))
    case Reported(c) => Complete(s, c)
  }

  function Reached(events: seq<Event>): State {
    if events == [] then IDLE else Take(Reached(events[..|events| - 1]), events[|events| - 1])
  }

  /** The submissions so far, in order. */
  function History(events: seq<Event>): seq<seq<Submission>> {
    if events == [] then []
    else
      var n := |events| - 1;
      var h := History(events[..n]);
      if events[n].Submitted? then h + [events[n].subs] else h
  }

  function AllIds(h: seq<seq<Submission>>): seq<string> {
    if h == [] then [] else AllIds(h[..|h| - 1]) + SubmissionIds(h[|h| - 1])
  }

  /** A submission brings ids that no submission had before and is checked for cycles on its
      own; a report may name any id. */
  ghost predicate Legal(h: seq<seq<Submission>>, e: Event) {
    e.Submitted? ==> Circular(e.subs, e.circular) && Distinct(AllIds(h + [e.subs]))
  }

  ghost predicate IsRun(events: seq<Event>) {
    events == [] ||
    var n := |events| - 1;
    IsRun(events[..n]) && Legal(History(events[..n]), events[n])
  }

  /** The ids that were reported at a time when they were not enqueued. */
  function EarlyReports(events: seq<Event>): set<string> {
    if events == [] then {}
    else
      var n := |events| - 1;
      var early := EarlyReports(events[..n]);
      if events[n].Reported? && events[n].completion.id !in Reached(events[..n]).released
      then early + {events[n].completion.id}
      else early
  }

  // ---------------------------------------------------------------- who waits for whom

  /** The subtasks of a submission that are not circular, with their dependencies. */
  ghost function HeldPart(subs: seq<Submission>): Graph {
    var g := GraphOf(Refs(subs));
    map x | x in g && !OnCycle(g, x) :: g[x]
  }

  /** The held parts of all submissions as one graph. */
  ghost function Waits(h: seq<seq<Submission>>): Graph {
    if h == [] then map[] else Waits(h[..|h| - 1]) + HeldPart(h[|h| - 1])
  }

  lemma HeldPartIds(subs: seq<Submission>, x: string)
    ensures x in HeldPart(subs) ==> x in SubmissionIds(subs)
  {
    SubmissionIdsAreIds(subs, x);
  }

  lemma {:induction false} WaitsIds(h: seq<seq<Submission>>, x: string)
    ensures x in Waits(h) ==> x in AllIds(h)
  {
    if h != [] {
      WaitsIds(h[..|h| - 1], x);
      HeldPartIds(h[|h| - 1], x);
    }
  }

  lemma DistinctParts<T>(a: seq<T>, b: seq<T>)
    requires Distinct(a + b)
    ensures Distinct(a) && Distinct(b) && forall x :: x in a ==> x !in b
  {
    var c := a + b;
    forall i, j | 0 <= i < j < |a| ensures a[i] != a[j] {
      assert c[i] == a[i] && c[j] == a[j];
    }
    forall i, j | 0 <= i < j < |b| ensures b[i] != b[j] {
      assert c[|a| + i] == b[i] && c[|a| + j] == b[j];
    }
    forall i, j | 0 <= i < |a| && 0 <= j < |b| ensures a[i] != b[j] {
      assert c[i] == a[i] && c[|a| + j] == b[j];
    }
  }

  lemma NewSubmission(h: seq<seq<Submission>>, subs: seq<Submission>)
    requires Distinct(AllIds(h + [subs]))
    ensures AllIds(h + [subs]) == AllIds(h) + SubmissionIds(subs)
    ensures Distinct(AllIds(h)) && DistinctIds(Refs(subs))
    ensures forall x :: x in AllIds(h) ==> x !in SubmissionIds(subs)
  {
    assert (h + [subs])[..|h|] == h;
    DistinctParts(AllIds(h), SubmissionIds(subs));
    forall i, j | 0 <= i < j < |subs| ensures Refs(subs)[i].id != Refs(subs)[j].id {
      assert SubmissionIds(subs)[i] != SubmissionIds(subs)[j];
    }
  }

  /** A new submission leaves what earlier ids wait for alone. */
  lemma NewWaits(h: seq<seq<Submission>>, subs: seq<Submission>, x: string)
    requires Distinct(AllIds(h + [subs]))
    ensures Waits(h + [subs]) == Waits(h) + HeldPart(subs)
    ensures x in AllIds(h) ==> x !in HeldPart(subs)
    ensures x in SubmissionIds(subs) ==> x !in Waits(h)
  {
    assert (h + [subs])[..|h|] == h;
    NewSubmission(h, subs);
    HeldPartIds(subs, x);
    WaitsIds(h, x);
  }

  /** Two graphs say the same about a node. */
  ghost predicate AgreeAt(g: Graph, g': Graph, x: string) {
    (x in g <==> x in g') && (x in g ==> g[x] == g'[x])
  }

  lemma {:induction false} WaitsPrefix(h: seq<seq<Submission>>, i: nat, x: string)
    requires Distinct(AllIds(h)) && i <= |h| && x in AllIds(h[..i])
    ensures AgreeAt(Waits(h[..i]), Waits(h), x) && x in AllIds(h)
    decreases |h|
  {
    if i == |h| {
      assert h[..i] == h;
    } else {
      var n := |h| - 1;
      assert h == h[..n] + [h[n]] && h[..n][..i] == h[..i];
      NewSubmission(h[..n], h[n]);
      WaitsPrefix(h[..n], i, x);
      NewWaits(h[..n], h[n], x);
    }
  }

  lemma {:induction false} HistoryPrefix(events: seq<Event>, n: nat)
    requires IsRun(events) && n <= |events|
    ensures IsRun(events[..n]) && EarlyReports(events[..n]) <= EarlyReports(events)
    ensures var k := |History(events[..n])|; k <= |History(events)| && History(events[..n]) == History(events)[..k]
    decreases |events|
  {
    if n == |events| {
      assert events[..n] == events;
    } else {
      var m := |events| - 1;
      HistoryPrefix(events[..m], n);
      assert events[..m][..n] == events[..n];
    }
  }

  // ---------------------------------------------------------------- the invariant

  ghost predicate SharedInvariant(h: seq<seq<Submission>>, s: State, early: set<string>) {
    && Distinct(AllIds(h))
    && multiset(EntryIds(s.pending)) + multiset(s.released) == multiset(AllIds(h))
    && (forall e :: e in s.pending ==> e.subtask.id in Waits(h) && Waits(h)[e.subtask.id] == e.dependsOn)
    && (forall x :: x in s.released && x in Waits(h) ==> Met(Waits(h)[x], s.outputs))
    && (forall x :: x in s.outputs ==> x in s.released || x in early)
    && forall x :: x in early ==> x in s.outputs
  }

  lemma KnownIds(h: seq<seq<Submission>>, s: State, early: set<string>, x: string)
    requires SharedInvariant(h, s, early)
    ensures x in AllIds(h) <==> x in EntryIds(s.pending) || x in s.released
  {
    assert x in multiset(AllIds(h)) <==> x in multiset(EntryIds(s.pending)) + multiset(s.released);
  }

  lemma SubmissionSplits(h: seq<seq<Submission>>, s: State, e: Event)
    requires e.Submitted? && AllIds(h + [e.subs]) == AllIds(h) + SubmissionIds(e.subs)
    requires multiset(EntryIds(s.pending)) + multiset(s.released) == multiset(AllIds(h))
    ensures var t := Take(s, e);
            multiset(EntryIds(t.pending)) + multiset(t.released) == multiset(AllIds(h + [e.subs]))
  {
    hide AllIds, HeldEntries, Immediate;
    AdmissionSplits(e.subs, e.circular, e.delay);
    assert EntryIds(Take(s, e).pending) == EntryIds(s.pending) + EntryIds(HeldEntries(e.subs, e.circular, e.delay));
  }

  lemma SubmittedEntry(h: seq<seq<Submission>>, s: State, early: set<string>, e: Event, x: Entry)
    requires SharedInvariant(h, s, early) && e.Submitted? && Legal(h, e) && x in Take(s, e).pending
    ensures var g := Waits(h + [e.subs]); x.subtask.id in g && g[x.subtask.id] == x.dependsOn
  {
    NewSubmission(h, e.subs);
    NewWaits(h, e.subs, x.subtask.id);
    hide Waits, AllIds;
    if x in s.pending {
      WaitsIds(h, x.subtask.id);
    } else {
      HeldAreOwned(e.subs, e.circular, e.delay, x);
    }
  }

  lemma SubmittedCreated(h: seq<seq<Submission>>, s: State, early: set<string>, e: Event, x: string)
    requires SharedInvariant(h, s, early) && e.Submitted? && Legal(h, e) && x in Take(s, e).released
    ensures x in Waits(h + [e.subs]) ==> Met(Waits(h + [e.subs])[x], s.outputs)
  {
    NewSubmission(h, e.subs);
    NewWaits(h, e.subs, x);
    hide Waits, AllIds, OnCycle;
    if x in s.released {
      KnownIds(h, s, early, x);
    } else {
      ImmediateAreCleared(e.subs, e.circular, x, s.outputs);
      SubmissionIdsAreIds(e.subs, x);
    }
  }

  lemma SubmissionKeeps(h: seq<seq<Submission>>, s: State, early: set<string>, e: Event)
    requires SharedInvariant(h, s, early) && e.Submitted? && Legal(h, e)
    ensures SharedInvariant(h + [e.subs], Take(s, e), early)
  {
    hide Waits, AllIds, Circular, HeldEntries, Immediate, Met, Distinct, Refs, SubmissionIds, EntryIds, SubtaskIds;
    var g, t := h + [e.subs], Take(s, e);
    NewSubmission(h, e.subs);
    SubmissionSplits(h, s, e);
    forall x | x in t.pending ensures x.subtask.id in Waits(g) && Waits(g)[x.subtask.id] == x.dependsOn {
      SubmittedEntry(h, s, early, e, x);
    }
    forall x | x in t.released && x in Waits(g) ensures Met(Waits(g)[x], t.outputs) {
      SubmittedCreated(h, s, early, e, x);
    }
  }

  lemma ReportedReleased(h: seq<seq<Submission>>, s: State, early: set<string>, c: Completion, x: string)
    requires SharedInvariant(h, s, early) && x in Complete(s, c).released && x in Waits(h)
    ensures Met(Waits(h)[x], Complete(s, c).outputs)
  {
    hide Waits, Ready, Waiting;
    CompletionKeeps(s, c);
    if x !in s.released {
      var e :| e in s.pending && e.subtask.id == x && Met(e.dependsOn, Complete(s, c).outputs);
    }
  }

  lemma ReportKeeps(h: seq<seq<Submission>>, s: State, early: set<string>, c: Completion)
    requires SharedInvariant(h, s, early)
    ensures SharedInvariant(h, Complete(s, c), if c.id in s.released then early else early + {c.id})
  {
    hide Waits, Ready, Waiting, Met;
    var t := Complete(s, c);
    CompletionKeeps(s, c);
    forall x | x in t.released && x in Waits(h) ensures Met(Waits(h)[x], t.outputs) {
      ReportedReleased(h, s, early, c, x);
    }
  }

  /** Every interleaving of submissions and reports keeps the invariant: each id submitted so
      far is pending or enqueued exactly once; a pending one has the dependencies of its
      submission; an enqueued one is circular or has all of its dependencies reported; and what
      was reported was enqueued or is an early report. */
  lemma {:induction false} SharedRunInvariant(events: seq<Event>)
    requires IsRun(events)
    ensures SharedInvariant(History(events), Reached(events), EarlyReports(events))
  {
    if events != [] {
      hide SharedInvariant;
      var n := |events| - 1;
      SharedRunInvariant(events[..n]);
      var h, s, early := History(events[..n]), Reached(events[..n]), EarlyReports(events[..n]);
      if events[n].Submitted? {
        SubmissionKeeps(h, s, early, events[n]);
      } else {
        ReportKeeps(h, s, early, events[n].completion);
      }
    } else {
      assert SharedInvariant([], IDLE, {});
    }
  }

  // ---------------------------------------------------------------- held until reported

  function ReportedIds(events: seq<Event>): set<string> {
    set n | 0 <= n < |events| && events[n].Reported? :: events[n].completion.id
  }

  lemma {:induction false} OutputsAreReportedIds(events: seq<Event>)
    ensures Reached(events).outputs.Keys == ReportedIds(events)
  {
    if events != [] {
      var n := |events| - 1;
      OutputsAreReportedIds(events[..n]);
      var before := ReportedIds(events[..n]);
      assert ReportedIds(events) == if events[n].Reported? then before + {events[n].completion.id} else before;
    }
  }

  ghost predicate NoneReady(s: State) {
    forall e :: e in s.pending ==> !Met(e.dependsOn, s.outputs)
  }

  /** In every run, a subtask that is not circular is pending as long as one of its dependencies
      has not been reported, in particular one that is never submitted; and exactly so long when
      nothing held is ready. */
  lemma SharedHeldUntilReported(events: seq<Event>, x: string)
    requires IsRun(events) && x in Waits(History(events))
    ensures var waiting := exists d :: d in Waits(History(events))[x] && d !in ReportedIds(events);
            && (waiting ==> x in EntryIds(Reached(events).pending))
            && (NoneReady(Reached(events)) ==> (waiting <==> x in EntryIds(Reached(events).pending)))
  {
    hide Waits, AllIds;
    var h, s := History(events), Reached(events);
    SharedRunInvariant(events);
    OutputsAreReportedIds(events);
    WaitsIds(h, x);
    KnownIds(h, s, EarlyReports(events), x);
    if x in EntryIds(s.pending) && NoneReady(s) {
      PendingIdMember(s.pending, x);
      var e :| e in s.pending && e.subtask.id == x;
      assert !Met(e.dependsOn, s.outputs);
    }
  }

  // ---------------------------------------------------------------- draining

  /** Whoever waits, waits for an id that was submitted or reported anyway. */
  ghost predicate AllKnown(h: seq<seq<Submission>>, early: set<string>) {
    forall x, d :: Edge(Waits(h), x, d) ==> d in AllIds(h) || d in early
  }

  /** The graph without the nodes that were reported early. */
  ghost function Unreported(g: Graph, early: set<string>): Graph {
    map x | x in g && x !in early :: g[x]
  }

  ghost predicate Acyclic(g: Graph) {
    forall x :: !OnCycle(g, x)
  }

  /** What a pending entry waits for is pending as well, and not reported. */
  lemma WaitsForPending(h: seq<seq<Submission>>, s: State, early: set<string>, e: Entry) returns (f: Entry)
    requires SharedInvariant(h, s, early) && AllKnown(h, early) && Quiescent(s) && NoneReady(s) && e in s.pending
    ensures f in s.pending && f.subtask.id !in s.outputs && Edge(Waits(h), e.subtask.id, f.subtask.id)
  {
    hide Waits, AllIds;
    var d :| d in e.dependsOn && d !in s.outputs;
    assert Edge(Waits(h), e.subtask.id, d);
    KnownIds(h, s, early, d);
    PendingIdMember(s.pending, d);
    f :| f in s.pending && f.subtask.id == d;
  }

  /** Progress over interleaved submissions: if nothing is running, nothing held is ready and
      everybody waits for known ids, then whatever is held waits for a cycle. */
  lemma StuckMeansCycle(h: seq<seq<Submission>>, s: State, early: set<string>)
    requires SharedInvariant(h, s, early) && AllKnown(h, early) && Quiescent(s) && NoneReady(s) && s.pending != []
    ensures !Acyclic(Unreported(Waits(h), early))
  {
    hide AllIds, Waits, AllKnown, NoneReady, Quiescent;
    var g := Unreported(Waits(h), early);
    var waiting := set e | e in s.pending && e.subtask.id !in s.outputs :: e.subtask.id;
    var first := WaitsForPending(h, s, early, s.pending[0]);
    assert first.subtask.id in waiting;
    forall v | v in waiting ensures WaitsWithin(g, v, waiting) {
      var e :| e in s.pending && e.subtask.id !in s.outputs && e.subtask.id == v;
      var f := WaitsForPending(h, s, early, e);
      assert f.subtask.id in waiting && Edge(g, v, f.subtask.id);
    }
    var x := EveryoneWaitsMeansCycle(g, waiting);
  }

  /** The next node of a cycle is on the cycle. */
  lemma NextOnCycle(g: Graph, x: string) returns (d: string)
    requires OnCycle(g, x)
    ensures x in g && Edge(g, x, d) && OnCycle(g, d)
  {
    var p :| WalkFrom(g, p, x, x);
    d := p[1];
    assert Edge(g, p[0], p[1]);
    var q := p[1..] + [d];
    forall i | 0 <= i < |q| - 1 ensures Edge(g, q[i], q[i + 1]) {
      if i < |p| - 2 {
        assert Edge(g, p[i + 1], p[i + 2]);
      }
    }
    assert WalkFrom(g, q, d, d);
  }

  /** A report that is not early is of something enqueued before it. */
  lemma ReportedAfterEnqueued(events: seq<Event>, d: string)
    requires IsRun(events) && events != [] && d in Reached(events).outputs && d !in EarlyReports(events)
    ensures d in Reached(events[..|events| - 1]).released
  {
    SharedRunInvariant(events[..|events| - 1]);
  }

  lemma RunDistinct(events: seq<Event>)
    requires IsRun(events)
    ensures Distinct(AllIds(History(events)))
  {
    SharedRunInvariant(events);
  }

  /** What an enqueued subtask waits for was reported, however the history goes on. */
  lemma EnqueuedIsMet(h: seq<seq<Submission>>, k: nat, s: State, early: set<string>, x: string, d: string)
    requires k <= |h| && SharedInvariant(h[..k], s, early) && Distinct(AllIds(h))
    requires x in s.released && Edge(Waits(h), x, d)
    ensures d in s.outputs
  {
    hide Waits, AllIds;
    KnownIds(h[..k], s, early, x);
    WaitsPrefix(h, k, x);
  }

  /** What an enqueued subtask waited for was enqueued before it, unless it was reported early. */
  lemma EnqueuedAfter(events: seq<Event>, n: nat, x: string, d: string)
    requires IsRun(events) && 0 < n <= |events| && x in Reached(events[..n]).released
    requires Edge(Waits(History(events)), x, d) && d !in EarlyReports(events)
    ensures d in Reached(events[..n - 1]).released
  {
    hide *;
    HistoryPrefix(events, n);
    RunDistinct(events);
    SharedRunInvariant(events[..n]);
    var k := |History(events[..n])|;
    EnqueuedIsMet(History(events), k, Reached(events[..n]), EarlyReports(events[..n]), x, d);
    assert events[..n][..n - 1] == events[..n - 1];
    ReportedAfterEnqueued(events[..n], d);
  }

  /** Whoever is on a cycle of waits that no early report breaks is never enqueued. */
  lemma {:induction false} CycleNeverEnqueued(events: seq<Event>, n: nat, x: string)
    requires IsRun(events) && n <= |events|
    requires OnCycle(Unreported(Waits(History(events)), EarlyReports(events)), x)
    ensures x !in Reached(events[..n]).released
    decreases n
  {
    hide IsRun, OnCycle, Waits, History, EarlyReports;
    if n > 0 && x in Reached(events[..n]).released {
      hide Reached;
      var g := Unreported(Waits(History(events)), EarlyReports(events));
      var d := NextOnCycle(g, x);
      var after := NextOnCycle(g, d);
      EnqueuedAfter(events, n, x, d);
      CycleNeverEnqueued(events, n - 1, d);
    }
  }

  /** The drain theorem for one tracker under interleaved submissions and any reports. Once
      everything enqueued has completed: nothing is held, if and only if nothing held is ready,
      everybody waits for ids that are submitted or reported, and no cycle of waits, within a
      submission or across, is left unbroken by early reports. */
  lemma SharedDrainsExactly(events: seq<Event>)
    requires IsRun(events) && Quiescent(Reached(events))
    ensures var h, s, early := History(events), Reached(events), EarlyReports(events);
            s.pending == [] <==> NoneReady(s) && AllKnown(h, early) && Acyclic(Unreported(Waits(h), early))
  {
    hide Waits, AllIds, OnCycle, IsRun, History, EarlyReports;
    var h, s, early := History(events), Reached(events), EarlyReports(events);
    SharedRunInvariant(events);
    if s.pending != [] {
      if NoneReady(s) && AllKnown(h, early) {
        StuckMeansCycle(h, s, early);
      }
    } else {
      forall x, d | Edge(Waits(h), x, d) ensures d in AllIds(h) || d in early {
        WaitsIds(h, x);
        KnownIds(h, s, early, x);
        KnownIds(h, s, early, d);
      }
      assert events[..|events|] == events;
      forall x ensures !OnCycle(Unreported(Waits(h), early), x) {
        if OnCycle(Unreported(Waits(h), early), x) {
          var d := NextOnCycle(Unreported(Waits(h), early), x);
          CycleNeverEnqueued(events, |events|, x);
          WaitsIds(h, x);
          KnownIds(h, s, early, x);
        }
      }
    }
  }

  /** A report leaves nothing ready behind, so for a run that ends with one the other two
      conditions decide. */
  lemma ReportedRunsDrainExactly(events: seq<Event>)
    requires IsRun(events) && Quiescent(Reached(events)) && events != [] && events[|events| - 1].Reported?
    ensures var h, early := History(events), EarlyReports(events);
            Reached(events).pending == [] <==> AllKnown(h, early) && Acyclic(Unreported(Waits(h), early))
  {
    hide Waits, AllKnown, Acyclic, EarlyReports;
    var n := |events| - 1;
    CompletionKeeps(Reached(events[..n]), events[n].completion);
    SharedDrainsExactly(events);
  }

  // ---------------------------------------------------------------- nobody waits for later ids

  ghost predicate NobodyWaitsFor(g: Graph, ids: seq<string>) {
    forall x, d :: Edge(g, x, d) ==> d !in ids
  }

  /** Nobody waits for an id that is submitted only later. */
  ghost predicate Timely(h: seq<seq<Submission>>) {
    forall i :: 0 <= i < |h| ==> NobodyWaitsFor(Waits(h[..i]), SubmissionIds(h[i]))
  }

  lemma TimelyPrefix(h: seq<seq<Submission>>)
    requires Timely(h) && h != []
    ensures Timely(h[..|h| - 1])
    ensures NobodyWaitsFor(Waits(h[..|h| - 1]), SubmissionIds(h[|h| - 1]))
  {
    hide Waits, NobodyWaitsFor;
    var n := |h| - 1;
    forall i | 0 <= i < n ensures NobodyWaitsFor(Waits(h[..n][..i]), SubmissionIds(h[..n][i])) {
      assert h[..n][..i] == h[..i];
    }
  }

  /** Who waits for an id of the last submission belongs to it. */
  lemma WaitsInsideLast(h: seq<seq<Submission>>, x: string, d: string)
    requires h != [] && Timely(h) && Edge(Waits(h), x, d) && d in SubmissionIds(h[|h| - 1])
    ensures x in SubmissionIds(h[|h| - 1])
  {
    hide Timely, HeldPart;
    var n := |h| - 1;
    TimelyPrefix(h);
    HeldPartIds(h[n], x);
    assert x in HeldPart(h[n]) || Edge(Waits(h[..n]), x, d);
  }

  lemma {:induction false} WalkStaysInLast(h: seq<seq<Submission>>, p: seq<string>, j: nat)
    requires h != [] && Timely(h) && Walk(Waits(h), p) && j < |p| && p[j] in SubmissionIds(h[|h| - 1])
    ensures forall i :: 0 <= i <= j ==> p[i] in SubmissionIds(h[|h| - 1])
  {
    hide Timely, Waits, Edge;
    if j > 0 {
      assert Edge(Waits(h), p[j - 1], p[j]);
      WaitsInsideLast(h, p[j - 1], p[j]);
      WalkStaysInLast(h, p, j - 1);
    }
  }

  /** No submission has a cycle in its held part. */
  lemma HeldPartAcyclic(subs: seq<Submission>, p: seq<string>)
    requires Walk(HeldPart(subs), p)
    ensures p[0] != p[|p| - 1]
  {
    assert Edge(HeldPart(subs), p[0], p[1]);
    forall i | 0 <= i < |p| - 1 ensures Edge(GraphOf(Refs(subs)), p[i], p[i + 1]) {
      assert Edge(HeldPart(subs), p[i], p[i + 1]);
    }
    assert p[0] == p[|p| - 1] ==> WalkFrom(GraphOf(Refs(subs)), p, p[0], p[0]);
  }

  /** If nobody waits for later ids, no cycle of waits crosses submissions, and so there is
      none: the check that looks at one submission at a time is enough. */
  lemma {:induction false} TimelyIsAcyclic(h: seq<seq<Submission>>, p: seq<string>)
    requires Distinct(AllIds(h)) && Timely(h) && Walk(Waits(h), p)
    ensures p[0] != p[|p| - 1]
    decreases |h|
  {
    assert Edge(Waits(h), p[0], p[1]);
    var n, m := |h| - 1, |p| - 1;
    if p[0] == p[m] {
      hide Timely, Waits;
      assert h == h[..n] + [h[n]];
      TimelyPrefix(h);
      NewSubmission(h[..n], h[n]);
      if p[m] in SubmissionIds(h[n]) {
        WalkStaysInLast(h, p, m);
        forall i | 0 <= i < m ensures Edge(HeldPart(h[n]), p[i], p[i + 1]) {
          assert Edge(Waits(h), p[i], p[i + 1]);
          NewWaits(h[..n], h[n], p[i]);
        }
        HeldPartAcyclic(h[n], p);
      } else {
        forall i | 0 <= i < m ensures Edge(Waits(h[..n]), p[i], p[i + 1]) {
          assert Edge(Waits(h), p[i], p[i + 1]);
          if p[i] in SubmissionIds(h[n]) {
            WalkStaysInLast(h, p, i);
          }
          NewWaits(h[..n], h[n], p[i]);
          HeldPartIds(h[n], p[i]);
        }
        TimelyIsAcyclic(h[..n], p);
      }
    }
  }

  /** Where nobody waits for an id that is submitted later, cycles need no mention. */
  lemma TimelyRunsDrainExactly(events: seq<Event>)
    requires IsRun(events) && Quiescent(Reached(events)) && Timely(History(events))
    ensures Reached(events).pending == []
       <==> NoneReady(Reached(events)) && AllKnown(History(events), EarlyReports(events))
  {
    hide Waits, Timely, AllKnown, NoneReady, IsRun, Reached, History, EarlyReports, AllIds;
    SharedRunInvariant(events);
    SharedDrainsExactly(events);
    var g := Unreported(Waits(History(events)), EarlyReports(events));
    forall x ensures !OnCycle(g, x) {
      if p :| WalkFrom(g, p, x, x) {
        forall i | 0 <= i < |p| - 1 ensures Edge(Waits(History(events)), p[i], p[i + 1]) {
          assert Edge(g, p[i], p[i + 1]);
        }
        TimelyIsAcyclic(History(events), p);
      }
    }
  }

  // ---------------------------------------------------------------- ids as the coordinator draws them

  /** Nobody waited for an id when it was drawn, in its own submission or an earlier one. */
  ghost predicate DrawnUnused(h: seq<seq<Submission>>) {
    forall i :: 0 <= i < |h| ==> NobodyWaitsFor(Waits(h[..i + 1]), SubmissionIds(h[i]))
  }

  lemma {:induction false} OwnerOf(h: seq<seq<Submission>>, x: string) returns (k: nat)
    requires x in AllIds(h)
    ensures k < |h| && x in SubmissionIds(h[k])
  {
    var n := |h| - 1;
    if x in SubmissionIds(h[n]) {
      k := n;
    } else {
      k := OwnerOf(h[..n], x);
    }
  }

  lemma {:induction false} OwnerIsKnown(h: seq<seq<Submission>>, k: nat, x: string)
    requires k < |h| && x in SubmissionIds(h[k])
    ensures x in AllIds(h)
  {
    var n := |h| - 1;
    if k < n {
      OwnerIsKnown(h[..n], k, x);
    }
  }

  /** As the coordinator draws ids nobody waits for later ids, and whoever waits for a submitted
      id waits for one of an earlier submission. */
  lemma DrawnIdsAreTimely(h: seq<seq<Submission>>)
    requires Distinct(AllIds(h)) && DrawnUnused(h)
    ensures Timely(h)
    ensures forall k, x, d :: 0 <= k < |h| && x in SubmissionIds(h[k]) && Edge(Waits(h), x, d) && d in AllIds(h)
                              ==> d in AllIds(h[..k])
  {
    hide Waits, AllIds;
    forall i | 0 <= i < |h| ensures NobodyWaitsFor(Waits(h[..i]), SubmissionIds(h[i])) {
      forall x, d | Edge(Waits(h[..i]), x, d) ensures d !in SubmissionIds(h[i]) {
        WaitsIds(h[..i], x);
        WaitsPrefix(h, i, x);
        var k := OwnerOf(h[..i], x);
        OwnerIsKnown(h[..i + 1], k, x);
        DrawnWaits(h, i, x, d);
      }
    }
    forall k, x, d | 0 <= k < |h| && x in SubmissionIds(h[k]) && Edge(Waits(h), x, d) && d in AllIds(h)
      ensures d in AllIds(h[..k])
    {
      var i := OwnerOf(h, d);
      if i < k {
        OwnerIsKnown(h[..k], i, d);
      } else {
        OwnerIsKnown(h[..i + 1], k, x);
        DrawnWaits(h, i, x, d);
      }
    }
  }

  lemma DrawnWaits(h: seq<seq<Submission>>, i: nat, x: string, d: string)
    requires Distinct(AllIds(h)) && DrawnUnused(h) && i < |h| && Edge(Waits(h), x, d) && x in AllIds(h[..i + 1])
    ensures d !in SubmissionIds(h[i])
  {
    hide Waits, AllIds, SubmissionIds;
    WaitsPrefix(h, i + 1, x);
    var before := Waits(h[..i + 1]);
    assert Edge(before, x, d);
    assert NobodyWaitsFor(before, SubmissionIds(h[i]));
  }

  /** With ids as the coordinator draws them. */
  lemma DrawnRunsDrainExactly(events: seq<Event>)
    requires IsRun(events) && Quiescent(Reached(events)) && DrawnUnused(History(events))
    ensures Reached(events).pending == []
       <==> NoneReady(Reached(events)) && AllKnown(History(events), EarlyReports(events))
  {
    hide Waits, DrawnUnused, AllKnown;
    SharedRunInvariant(events);
    DrawnIdsAreTimely(History(events));
    TimelyRunsDrainExactly(events);
  }

  // ---------------------------------------------------------------- closed submissions

  /** Everybody waits only for subtasks of the same submission. */
  ghost predicate Closed(h: seq<seq<Submission>>) {
    forall k, x, d :: 0 <= k < |h| && Edge(HeldPart(h[k]), x, d) ==> d in SubmissionIds(h[k])
  }

  lemma {:induction false} ClosedStaysKnown(h: seq<seq<Submission>>, x: string, d: string)
    requires Closed(h) && Edge(Waits(h), x, d)
    ensures d in AllIds(h)
  {
    var n := |h| - 1;
    if Edge(HeldPart(h[n]), x, d) {
      assert d in SubmissionIds(h[n]);
    } else {
      ClosedPrefix(h);
      ClosedStaysKnown(h[..n], x, d);
    }
  }

  lemma ClosedPrefix(h: seq<seq<Submission>>)
    requires Closed(h)
    ensures forall i :: 0 <= i <= |h| ==> Closed(h[..i])
  {
    forall i, k, x, d | 0 <= i <= |h| && 0 <= k < |h[..i]| && Edge(HeldPart(h[..i][k]), x, d)
      ensures d in SubmissionIds(h[..i][k])
    {
      assert h[..i][k] == h[k];
    }
  }

  lemma {:induction false} IdsApart(h: seq<seq<Submission>>, i: nat, d: string)
    requires Distinct(AllIds(h)) && i < |h| && d in AllIds(h[..i])
    ensures d !in SubmissionIds(h[i])
    decreases |h|
  {
    var n := |h| - 1;
    assert h == h[..n] + [h[n]];
    NewSubmission(h[..n], h[n]);
    if i < n {
      assert h[..n][..i] == h[..i];
      IdsApart(h[..n], i, d);
    }
  }

  lemma ClosedIsTimely(h: seq<seq<Submission>>, early: set<string>)
    requires Closed(h) && Distinct(AllIds(h))
    ensures Timely(h) && AllKnown(h, early)
  {
    hide Waits, AllIds;
    ClosedPrefix(h);
    forall i | 0 <= i < |h| ensures NobodyWaitsFor(Waits(h[..i]), SubmissionIds(h[i])) {
      forall x, d | Edge(Waits(h[..i]), x, d) ensures d !in SubmissionIds(h[i]) {
        ClosedStaysKnown(h[..i], x, d);
        IdsApart(h, i, d);
      }
    }
    forall x, d | Edge(Waits(h), x, d) ensures d in AllIds(h) {
      ClosedStaysKnown(h, x, d);
    }
  }

  /** No id was reported before it was submitted. */
  ghost predicate NewWhenSubmitted(events: seq<Event>) {
    events == [] ||
    var n := |events| - 1;
    && NewWhenSubmitted(events[..n])
    && (events[n].Submitted? ==> forall x :: x in SubmissionIds(events[n].subs) ==> x !in Reached(events[..n]).outputs)
  }

  lemma {:induction false} ClosedNoneReady(events: seq<Event>)
    requires IsRun(events) && Closed(History(events)) && NewWhenSubmitted(events)
    ensures NoneReady(Reached(events))
  {
    if events != [] {
      hide GraphOf, OnCycle, Ready, Waiting;
      var n, e := |events| - 1, events[|events| - 1];
      var h, s := History(events[..n]), Reached(events[..n]);
      if e.Submitted? {
        ClosedPrefix(History(events));
        assert History(events)[..|h|] == h && History(events)[|h|] == e.subs;
        ClosedNoneReady(events[..n]);
        NewSubmission(h, e.subs);
        forall x | x in Reached(events).pending ensures !Met(x.dependsOn, s.outputs) {
          if x !in s.pending {
            HeldAreOwned(e.subs, e.circular, e.delay, x);
            assert Edge(HeldPart(e.subs), x.subtask.id, x.dependsOn[0]);
          }
        }
      } else {
        CompletionKeeps(s, e.completion);
      }
    }
  }

  /** Submissions that depend only on themselves drain whatever the interleaving, and whatever
      else is reported, as long as no id is reported before it is submitted. */
  lemma ClosedSubmissionsDrain(events: seq<Event>)
    requires IsRun(events) && Quiescent(Reached(events)) && Closed(History(events)) && NewWhenSubmitted(events)
    ensures Reached(events).pending == []
  {
    hide Waits, Closed, Timely, AllKnown;
    SharedRunInvariant(events);
    ClosedIsTimely(History(events), EarlyReports(events));
    ClosedNoneReady(events);
    TimelyRunsDrainExactly(events);
  }

  // ---------------------------------------------------------------- each condition is needed

  lemma {:induction false} MetIsReady(pending: seq<Entry>, outputs: map<string, string>, e: Entry)
    requires e in pending && Met(e.dependsOn, outputs)
    ensures e.subtask.id in EnqueuedIds(Ready(pending, outputs))
  {
    hide Met, Context;
    var n := |pending| - 1;
    var ready := Ready(pending, outputs);
    if e in pending[..n] {
      MetIsReady(pending[..n], outputs, e);
      var k :| 0 <= k < |Ready(pending[..n], outputs)| && Ready(pending[..n], outputs)[k].subtask.id == e.subtask.id;
      assert EnqueuedIds(ready)[k] == e.subtask.id;
    } else {
      assert EnqueuedIds(ready)[|ready| - 1] == e.subtask.id;
    }
  }

  /** A subtask that is ready but held goes out with the next report, whatever it reports. */
  lemma AnyReportReleasesReady(s: State, c: Completion, e: Entry)
    requires e in s.pending && Met(e.dependsOn, s.outputs)
    ensures e.subtask.id in Complete(s, c).released
  {
    MetIsReady(s.pending, s.outputs[c.id := c.output], e);
  }

  /** A submission of one subtask. */
  function Single(id: string, dependsOn: Option<seq<string>>): Event {
    Submitted(Drawn([Draft("", "", dependsOn)], [id]), {}, None)
  }

  lemma SingleWaits(id: string, dependsOn: Option<seq<string>>)
    requires dependsOn.Some? ==> id !in dependsOn.value
    ensures var subs := Single(id, dependsOn).subs;
            && Circular(subs, {}) && SubmissionIds(subs) == [id]
            && HeldPart(subs) == map[id := if dependsOn.Some? then dependsOn.value else []]
  {
    hide OnCycle;
    var drafts, subs := [Draft("", "", dependsOn)], Single(id, dependsOn).subs;
    assert Unused(drafts, [id]);
    NothingCircular(drafts, [id]);
    var refs := Refs(subs);
    assert refs == [SubtaskRef(id, dependsOn)];
    assert refs[..0] == [] && GraphOf(refs[..0]) == map[];
    assert !OnCycle(GraphOf(refs), id);
  }

  lemma SingleIsLegal(h: seq<seq<Submission>>, id: string, dependsOn: Option<seq<string>>)
    requires Distinct(AllIds(h)) && id !in AllIds(h) && (dependsOn.Some? ==> id !in dependsOn.value)
    ensures Legal(h, Single(id, dependsOn))
    ensures AllIds(h + [Single(id, dependsOn).subs]) == AllIds(h) + [id]
    ensures Waits(h + [Single(id, dependsOn).subs])
         == Waits(h)[id := if dependsOn.Some? then dependsOn.value else []]
  {
    hide HeldPart, Circular;
    var subs := Single(id, dependsOn).subs;
    SingleWaits(id, dependsOn);
    assert (h + [subs])[..|h|] == h;
  }

  lemma SingleSplits(id: string, dependsOn: Option<seq<string>>)
    ensures var subs := Single(id, dependsOn).subs;
            if dependsOn.Some? && dependsOn.value != []
            then HeldEntries(subs, {}, None) == [Entry(Subtask(id, "", ""), dependsOn.value, None)]
                 && Immediate(subs, {}) == []
            else HeldEntries(subs, {}, None) == [] && Immediate(subs, {}) == [Subtask(id, "", "")]
  {
    var subs := Single(id, dependsOn).subs;
    assert subs[..0] == [];
  }

  lemma RunExtends(events: seq<Event>, e: Event)
    requires IsRun(events) && Legal(History(events), e)
    ensures IsRun(events + [e]) && Reached(events + [e]) == Take(Reached(events), e)
    ensures e.Submitted? ==> History(events + [e]) == History(events) + [e.subs]
    ensures e.Submitted? ==> EarlyReports(events + [e]) == EarlyReports(events)
    ensures e.Reported? ==> History(events + [e]) == History(events)
    ensures e.Reported? && e.completion.id in Reached(events).released ==>
              EarlyReports(events + [e]) == EarlyReports(events)
  {
    assert (events + [e])[..|events|] == events;
  }

  /** A dependency that is not ready to run is appended to what is held; nothing else changes. */
  lemma SingleHeld(events: seq<Event>, id: string, d: string)
    requires IsRun(events) && id !in AllIds(History(events)) && id != d
    ensures var e := Single(id, Some([d]));
            && IsRun(events + [e])
            && Reached(events + [e]) == Reached(events).(
                 pending := Reached(events).pending + [Entry(Subtask(id, "", ""), [d], None)])
            && AllIds(History(events + [e])) == AllIds(History(events)) + [id]
            && Waits(History(events + [e])) == Waits(History(events))[id := [d]]
            && EarlyReports(events + [e]) == EarlyReports(events)
  {
    SharedRunInvariant(events);
    SingleIsLegal(History(events), id, Some([d]));
    SingleSplits(id, Some([d]));
    RunExtends(events, Single(id, Some([d])));
    assert SubtaskIds([]) == [];
  }

  /** What goes wrong when only one condition of the drain theorem fails. */
  ghost predicate Stays(events: seq<Event>, ready: bool, known: bool, acyclic: bool) {
    var h, s := History(events), Reached(events);
    && IsRun(events) && EarlyReports(events) == {} && Quiescent(s) && s.pending != []
    && (NoneReady(s) <==> !ready) && (AllKnown(h, {}) <==> known) && (Acyclic(Unreported(Waits(h), {})) <==> acyclic)
  }

  /** Where nobody waits for someone who waits, there is no cycle. */
  lemma SinksMakeAcyclic(g: Graph)
    requires forall x, d, f :: Edge(g, x, d) ==> !Edge(g, d, f)
    ensures Acyclic(g)
  {
    forall x ensures !OnCycle(g, x) {
      if OnCycle(g, x) {
        var d := NextOnCycle(g, x);
        var f := NextOnCycle(g, d);
      }
    }
  }

  /** Who waits for an id that nobody submits stays held. */
  lemma UnknownStays(a: string, b: string) returns (events: seq<Event>)
    requires a != b
    ensures Stays(events, false, false, true) && EntryIds(Reached(events).pending) == [a]
  {
    hide IsRun, Reached, History, AllIds, Waits, EarlyReports, OnCycle;
    events := FirstHeld(a, b);
    var h := History(events);
    assert b in [b] && Edge(Waits(h), a, b);
    SinksMakeAcyclic(Waits(h));
    assert Unreported(Waits(h), {}) == Waits(h);
  }

  lemma FirstHeld(a: string, b: string) returns (events: seq<Event>)
    requires a != b
    ensures IsRun(events) && EarlyReports(events) == {}
    ensures Reached(events) == State([Entry(Subtask(a, "", ""), [b], None)], map[], [])
    ensures AllIds(History(events)) == [a] && Waits(History(events)) == map[a := [b]]
  {
    hide IsRun, Reached, History, AllIds, Waits, EarlyReports, Single;
    NoEvents();
    events := [] + [Single(a, Some([b]))];
    SingleHeld([], a, b);
  }

  lemma NoEvents()
    ensures IsRun([]) && Reached([]) == IDLE && History([]) == [] && EarlyReports([]) == {}
    ensures AllIds([]) == [] && Waits([]) == map[]
  {
  }

  lemma CrossWaits(a: string, b: string, h: seq<seq<Submission>>, s: State)
    requires a != b && Waits(h) == map[a := [b], b := [a]] && AllIds(h) == [a, b] && s.outputs == map[]
    requires s.pending == [Entry(Subtask(a, "", ""), [b], None), Entry(Subtask(b, "", ""), [a], None)]
    ensures NoneReady(s) && AllKnown(h, {}) && !Acyclic(Unreported(Waits(h), {}))
    ensures EntryIds(s.pending) == [a, b]
  {
    hide Waits, AllIds;
    assert a in AllIds(h) && b in AllIds(h);
    assert a in [a] && b in [b];
    var g := Waits(h);
    assert Unreported(g, {}) == g && Edge(g, a, b) && Edge(g, b, a);
    assert WalkFrom(g, [a, b, a], a, a) && OnCycle(g, a);
  }

  /** Two submissions that wait for each other stay held: the check for cycles looks at one
      submission at a time. */
  lemma CrossCycleStays(a: string, b: string) returns (events: seq<Event>)
    requires a != b
    ensures Stays(events, false, true, false) && EntryIds(Reached(events).pending) == [a, b]
  {
    hide IsRun, Reached, History, AllIds, Waits, EarlyReports, NoneReady, AllKnown, Acyclic;
    var first := FirstHeld(a, b);
    events := first + [Single(b, Some([a]))];
    SingleHeld(first, b, a);
    CrossWaits(a, b, History(events), Reached(events));
  }

  lemma OneSubmitted(a: string) returns (events: seq<Event>)
    ensures IsRun(events) && Reached(events) == State([], map[], [a])
    ensures AllIds(History(events)) == [a] && Waits(History(events)) == map[a := []] && EarlyReports(events) == {}
  {
    hide IsRun, Reached, History, AllIds, Waits, EarlyReports, HeldEntries, Immediate, Legal;
    NoEvents();
    events := [] + [Single(a, None)];
    SingleIsLegal([], a, None);
    SingleSplits(a, None);
    RunExtends([], Single(a, None));
    assert SubtaskIds([Subtask(a, "", "")]) == [a];
  }

  /** There are runs that complete a subtask. */
  lemma OneCompletes(a: string) returns (events: seq<Event>)
    ensures IsRun(events) && Reached(events) == State([], map[a := ""], [a])
    ensures AllIds(History(events)) == [a] && Waits(History(events)) == map[a := []] && EarlyReports(events) == {}
  {
    hide IsRun, Reached, History, AllIds, Waits, EarlyReports;
    var report := Reported(Completion(a, ""));
    var first := OneSubmitted(a);
    RunExtends(first, report);
    events := first + [report];
    assert EnqueuedIds([]) == [];
  }

  /** hold does not look at the completed outputs: after every run that completed `a`, a
      submission that depends on `a` alone is held although it is ready, with nothing running
      that could release it. */
  lemma LateDependentWaits(events: seq<Event>, a: string, b: string)
    requires IsRun(events) && Quiescent(Reached(events)) && a in Reached(events).outputs
    requires b != a && b !in AllIds(History(events))
    ensures var later := events + [Single(b, Some([a]))];
            && IsRun(later) && Quiescent(Reached(later))
            && b in EntryIds(Reached(later).pending) && !NoneReady(Reached(later))
  {
    SingleHeld(events, b, a);
    hide IsRun, Reached, History;
    var s, t, n := Reached(events), Reached(events + [Single(b, Some([a]))]), |Reached(events).pending|;
    assert t.pending[n] == Entry(Subtask(b, "", ""), [a], None);
    assert EntryIds(t.pending)[n] == b;
    assert t.pending[n] in t.pending && Met(t.pending[n].dependsOn, t.outputs);
  }

  /** A dependent that is submitted after its dependency completed stays held. */
  lemma LateDependentStays(a: string, b: string) returns (events: seq<Event>)
    requires a != b
    ensures Stays(events, true, true, true) && EntryIds(Reached(events).pending) == [b]
  {
    hide IsRun, Reached, History, AllIds, Waits, EarlyReports, OnCycle, NoneReady;
    var first := OneCompletes(a);
    LateDependentWaits(first, a, b);
    SingleHeld(first, b, a);
    events := first + [Single(b, Some([a]))];
    var h := History(events);
    var g := map[a := [], b := [a]];
    assert forall x, d :: Edge(g, x, d) ==> d == a;
    SinksMakeAcyclic(g);
    assert Unreported(Waits(h), {}) == Waits(h) == g;
    assert a in AllIds(h);
  }

}
