/** Replay detection with an expiring nonce store (src/security/nonce-verifier.ts).
    A verifyNonce call is two steps, a lookup and an insertion, because the source awaits the
    store in between; time is in whole milliseconds. */
module NonceVerifier {
  import opened Prelude

  datatype Entry = Entry(sourceId: string, expiresAtMs: int)

  type Store = map<string, Entry>

  datatype Verdict = Valid | Replay | TimestampSkew

  const DEFAULT_TTL_MS := 5 * 60_000

  function Ttl(ttlMs: Option<int>): int {
    if ttlMs.Some? then ttlMs.value else DEFAULT_TTL_MS
  }

  function Skew(now: int, timestampMs: int): int {
    if now >= timestampMs then now - timestampMs else timestampMs - now
  }

  /** The answer of a call, which its lookup decides. */
  function Check(s: Store, nonce: string, timestampMs: int, maxSkewMs: int, now: int): Verdict {
    if Skew(now, timestampMs) > maxSkewMs then TimestampSkew
    else if nonce in s then Replay
    else Valid
  }

  function Pruned(s: Store, now: int): Store {
    map n | n in s && s[n].expiresAtMs >= now :: s[n]
  }

  class InMemoryNonceStore {
    var entries: Store

    constructor ()
      ensures entries == map[]
    {
      entries := map[];
    }

    method Insert(nonce: string, sourceId: string, expiresAtMs: int)
      modifies this
      ensures entries == old(entries)[nonce := Entry(sourceId, expiresAtMs)]
    {
      entries := entries[nonce := Entry(sourceId, expiresAtMs)];
    }

    method Prune(now: int)
      modifies this
      ensures entries == Pruned(old(entries), now)
    {
      var todo := entries.Keys;
      while todo != {}
        invariant entries.Keys <= old(entries).Keys && todo <= entries.Keys
        invariant forall n :: n in entries ==> entries[n] == old(entries)[n]
        invariant forall n :: n in old(entries) && n !in todo ==> (n in entries <==> old(entries)[n].expiresAtMs >= now)
        decreases todo
      {
        var nonce :| nonce in todo;
        if entries[nonce].expiresAtMs < now {
          entries := entries - {nonce};
        }
        todo := todo - {nonce};
      }
    }
  }

  /** verifyNonce up to the answer of the lookup. */
  method BeginVerify(store: InMemoryNonceStore, nonce: string, timestampMs: int, maxSkewMs: int, now: int)
    returns (v: Verdict)
    ensures v == Check(store.entries, nonce, timestampMs, maxSkewMs, now)
    ensures v.TimestampSkew? <==> now - timestampMs > maxSkewMs || timestampMs - now > maxSkewMs
    ensures v.Replay? <==> && now - timestampMs <= maxSkewMs && timestampMs - now <= maxSkewMs
                           && nonce in store.entries
  {
    var skew := if now >= timestampMs then now - timestampMs else timestampMs - now;
    if skew > maxSkewMs {
      return TimestampSkew;
    }
    if nonce in store.entries {
      return Replay;
    }
    return Valid;
  }

  /** The rest of a call that found nothing against the nonce; `began` is the time it began. */
  method FinishVerify(store: InMemoryNonceStore, nonce: string, sourceId: string, ttlMs: Option<int>, began: int)
    modifies store
    ensures store.entries == old(store.entries)[nonce := Entry(sourceId, began + Ttl(ttlMs))]
    ensures ttlMs == None ==> store.entries[nonce].expiresAtMs == began + 5 * 60 * 1000
  {
    store.Insert(nonce, sourceId, began + Ttl(ttlMs));
  }

  /** A call during which nothing else happens to the store. */
  method VerifyNonce(store: InMemoryNonceStore, nonce: string, sourceId: string, timestampMs: int,
                     maxSkewMs: int, ttlMs: Option<int>, now: int) returns (v: Verdict)
    modifies store
    ensures v == Check(old(store.entries), nonce, timestampMs, maxSkewMs, now)
    ensures v.Valid? ==> store.entries == old(store.entries)[nonce := Entry(sourceId, now + Ttl(ttlMs))]
    ensures !v.Valid? ==> store.entries == old(store.entries)
  {
    v := BeginVerify(store, nonce, timestampMs, maxSkewMs, now);
    if v.Valid? {
      FinishVerify(store, nonce, sourceId, ttlMs, now);
    }
  }

  // ---------------------------------------------------------------- runs

  /** What a caller allows: the clock skew, and how long the nonce is remembered. */
  datatype Limits = Limits(maxSkewMs: int, ttlMs: Option<int>)

  /** An insertion names the position of the lookup that it finishes. */
  datatype Op =
    | Look(nonce: string, sourceId: string, timestampMs: int, limits: Limits, now: int)
    | Insert(call: nat, now: int)
    | Prune(now: int)

  function Time(): Op -> int {
    (op: Op) => op.now
  }

  function Expiry(op: Op): int
    requires op.Look?
  {
    op.now + Ttl(op.limits.ttlMs)
  }

  /** The store after the last step of `ops`. */
  function Step(ops: seq<Op>, s: Store, op: Op): Store {
    match op
    case Look(_, _, _, _, _) => s
    case Insert(k, _) =>
      if k < |ops| && ops[k].Look? then s[ops[k].nonce := Entry(ops[k].sourceId, Expiry(ops[k]))] else s
    case Prune(now) => Pruned(s, now)
  }

  /** The store after a run that starts from an empty one. */
  function After(ops: seq<Op>): Store {
    if ops == [] then map[] else Step(ops, After(ops[..|ops| - 1]), ops[|ops| - 1])
  }

  /** The call that looks up at position `i` is accepted. */
  predicate AcceptedAt(ops: seq<Op>, i: nat)
    requires i < |ops|
  {
    && ops[i].Look?
    && Check(After(ops[..i]), ops[i].nonce, ops[i].timestampMs, ops[i].limits.maxSkewMs, ops[i].now).Valid?
  }

  predicate InsertOf(op: Op, i: nat) {
    op.Insert? && op.call == i
  }

  /** The clock never goes back, and only accepted calls insert, once each, after their lookup. */
  ghost predicate IsRun(ops: seq<Op>) {
    && Monotone(ops, Time())
    && (forall n :: 0 <= n < |ops| && ops[n].Insert? ==> ops[n].call < n && AcceptedAt(ops, ops[n].call))
    && forall m, n :: 0 <= m < n < |ops| && ops[m].Insert? && ops[n].Insert? ==> ops[m].call != ops[n].call
  }

  /** The call that looked up at `i` has inserted its nonce before position `j`. */
  ghost predicate Inserted(ops: seq<Op>, i: nat, j: nat) {
    exists n :: i < n < j && n < |ops| && InsertOf(ops[n], i)
  }

  ghost predicate SameNonce(ops: seq<Op>, i: nat, j: nat) {
    i < |ops| && j < |ops| && ops[i].Look? && ops[j].Look? && ops[i].nonce == ops[j].nonce
  }

  /** No lookup of a nonce falls between an accepted lookup of it and the insertion. */
  ghost predicate NoOverlap(ops: seq<Op>) {
    forall i: nat, j: nat :: i < j && SameNonce(ops, i, j) && AcceptedAt(ops, i) ==> Inserted(ops, i, j)
  }

  /** The run accepts the same nonce and timestamp at two positions. */
  ghost predicate AcceptsTwice(ops: seq<Op>, i: nat, j: nat) {
    && i < j && SameNonce(ops, i, j) && AcceptedAt(ops, i) && AcceptedAt(ops, j)
    && ops[i].timestampMs == ops[j].timestampMs
  }

  lemma AfterStep(ops: seq<Op>, j: nat)
    requires j < |ops| && (ops[j].Insert? ==> ops[j].call < j)
    ensures After(ops[..j + 1]) == Step(ops, After(ops[..j]), ops[j])
  {
    assert ops[..j + 1][..j] == ops[..j];
  }

  lemma InTimeOrder(ops: seq<Op>, i: nat, j: nat)
    requires IsRun(ops) && i <= j < |ops|
    ensures ops[i].now <= ops[j].now
  {
    assert i < j ==> Time()(ops[i]) <= Time()(ops[j]);
  }

  // ---------------------------------------------------------------- calls that do not overlap

  /** Without overlaps, an inserted nonce stays in the store under its own expiry as long as the
      clock has not passed that expiry. */
  lemma {:induction false} KeptUntilExpiry(ops: seq<Op>, i: nat, n: nat, j: nat)
    requires IsRun(ops) && NoOverlap(ops) && i < n < j <= |ops| && ops[i].Look? && InsertOf(ops[n], i)
    requires ops[j - 1].now <= Expiry(ops[i])
    ensures var s := After(ops[..j]); ops[i].nonce in s && s[ops[i].nonce].expiresAtMs == Expiry(ops[i])
    decreases j
  {
    hide NoOverlap, AcceptedAt, After, Monotone;
    AfterStep(ops, j - 1);
    if j > n + 1 {
      InTimeOrder(ops, j - 2, j - 1);
      KeptUntilExpiry(ops, i, n, j - 1);
      if ops[j - 1].Insert? {
        NoSecondInsertion(ops, i, n, j - 1);
      }
    }
  }

  /** Nor does another call insert the nonce in that time. */
  lemma NoSecondInsertion(ops: seq<Op>, i: nat, n: nat, m: nat)
    requires IsRun(ops) && NoOverlap(ops) && i < n < m < |ops| && ops[i].Look? && InsertOf(ops[n], i)
    requires ops[m].Insert? && ops[m].now <= Expiry(ops[i])
    ensures ops[m].call < m && ops[ops[m].call].Look? && ops[ops[m].call].nonce != ops[i].nonce
    decreases m, 0
  {
    var k := ops[m].call;
    assert ops[k].nonce == ops[i].nonce ==> SameNonce(ops, k, i) && SameNonce(ops, i, k);
    if ops[k].nonce == ops[i].nonce && k > n {
      InTimeOrder(ops, k - 1, m);
      KeptUntilExpiry(ops, i, n, k);
    }
  }

  /** Without overlaps, a second acceptance of a nonce comes only after its first expiry. */
  lemma SecondAcceptanceIsLate(ops: seq<Op>, i: nat, j: nat)
    requires IsRun(ops) && NoOverlap(ops) && i < j && SameNonce(ops, i, j)
    requires AcceptedAt(ops, i) && AcceptedAt(ops, j)
    ensures ops[j].now > Expiry(ops[i])
  {
    if ops[j].now <= Expiry(ops[i]) {
      var n :| i < n < j && InsertOf(ops[n], i);
      InTimeOrder(ops, j - 1, j);
      KeptUntilExpiry(ops, i, n, j);
    }
  }

  /** A call under `a` protects against a replay under `b`: one of them accepts nothing, or
      the first remembers the nonce for as long as both skews together. */
  predicate Protects(a: Limits, b: Limits) {
    a.maxSkewMs < 0 || b.maxSkewMs < 0 || Ttl(a.ttlMs) >= a.maxSkewMs + b.maxSkewMs
  }

  /** Without overlaps, calls that accept a pair twice fall short of each other: the first time
      to live is below the sum of the two skews. */
  lemma SecondIsUnprotected(ops: seq<Op>, i: nat, j: nat)
    requires IsRun(ops) && NoOverlap(ops) && AcceptsTwice(ops, i, j)
    ensures !Protects(ops[i].limits, ops[j].limits)
  {
    SecondAcceptanceIsLate(ops, i, j);
  }

  ghost predicate CallsAllow(ops: seq<Op>, allowed: iset<Limits>) {
    forall i :: 0 <= i < |ops| && ops[i].Look? ==> ops[i].limits in allowed
  }

  /** No run without overlaps whose calls choose from the given limits accepts a pair twice. */
  ghost predicate ReplaySafe(allowed: iset<Limits>) {
    forall ops, i, j :: IsRun(ops) && NoOverlap(ops) && CallsAllow(ops, allowed) ==> !AcceptsTwice(ops, i, j)
  }

  /** The run behind the bound when the time to live is shorter: the request arrives as early
      as the first skew allows, expires, and arrives again as late as the second allows. */
  function ShortTtlRun(a: Limits, b: Limits): seq<Op> {
    var end := a.maxSkewMs + b.maxSkewMs;
    [Look("n", "a", a.maxSkewMs, a, 0), Insert(0, 0), Prune(end), Look("n", "a", a.maxSkewMs, b, end)]
  }

  lemma ShortTtlAcceptsTwice(a: Limits, b: Limits)
    requires !Protects(a, b)
    ensures var ops := ShortTtlRun(a, b); IsRun(ops) && NoOverlap(ops) && AcceptsTwice(ops, 0, 3)
  {
    var ops := ShortTtlRun(a, b);
    var end := a.maxSkewMs + b.maxSkewMs;
    assert ops[..0] == [];
    AfterStep(ops, 0);
    AfterStep(ops, 1);
    AfterStep(ops, 2);
    assert After(ops[..2]) == map["n" := Entry("a", Ttl(a.ttlMs))];
    assert "n" !in After(ops[..3]);
    assert AcceptedAt(ops, 0);
    assert InsertOf(ops[1], 0);
    assert Inserted(ops, 0, 3);
  }

  /** Replay safety, exactly: whatever limits the calls choose from a given set, no run in which
      no lookup of a nonce falls between an accepted lookup and its insertion accepts a (nonce,
      timestamp) pair twice, if and only if each choice protects against each other one and
      itself. */
  lemma ReplaySafeExactly(allowed: iset<Limits>)
    ensures ReplaySafe(allowed) <==> forall a, b :: a in allowed && b in allowed ==> Protects(a, b)
  {
    hide IsRun, NoOverlap, AcceptedAt;
    if a, b :| a in allowed && b in allowed && !Protects(a, b) {
      ShortTtlAcceptsTwice(a, b);
      assert CallsAllow(ShortTtlRun(a, b), allowed);
    } else {
      forall ops: seq<Op>, i: nat, j: nat | IsRun(ops) && NoOverlap(ops) && CallsAllow(ops, allowed)
        ensures !AcceptsTwice(ops, i, j)
      {
        if AcceptsTwice(ops, i, j) {
          SecondIsUnprotected(ops, i, j);
        }
      }
    }
  }

  /** For a caller with fixed limits: the time to live must be twice the allowed skew. */
  lemma FixedLimitsSafeExactly(limits: Limits)
    ensures ReplaySafe(iset{limits}) <==>
            || limits.maxSkewMs < 0
            || (if limits.ttlMs == None then 300000 else limits.ttlMs.value) >= 2 * limits.maxSkewMs
  {
    ReplaySafeExactly(iset{limits});
    assert limits in iset{limits};
  }

  // ---------------------------------------------------------------- calls that overlap

  /** Each nonce comes with one timestamp. */
  ghost predicate OneStamp(ops: seq<Op>) {
    forall i: nat, j: nat :: SameNonce(ops, i, j) ==> ops[i].timestampMs == ops[j].timestampMs
  }

  ghost predicate AllProtect(ops: seq<Op>) {
    forall i, j :: 0 <= i < |ops| && 0 <= j < |ops| && ops[i].Look? && ops[j].Look? ==>
                     Protects(ops[i].limits, ops[j].limits)
  }

  predicate InSkew(op: Op)
    requires op.Look?
  {
    Skew(op.now, op.timestampMs) <= op.limits.maxSkewMs
  }

  /** Whatever is stored was inserted by an accepted call. */
  lemma {:induction false} StoredWasInserted(ops: seq<Op>, j: nat, nonce: string) returns (i: nat)
    requires IsRun(ops) && j <= |ops| && nonce in After(ops[..j])
    ensures i < j && AcceptedAt(ops, i) && ops[i].nonce == nonce && Inserted(ops, i, j)
  {
    hide AcceptedAt;
    AfterStep(ops, j - 1);
    if ops[j - 1].Insert? && ops[ops[j - 1].call].Look? && ops[ops[j - 1].call].nonce == nonce {
      i := ops[j - 1].call;
      assert InsertOf(ops[j - 1], i);
    } else {
      i := StoredWasInserted(ops, j - 1, nonce);
      var n :| i < n < j - 1 && InsertOf(ops[n], i);
    }
  }

  /** An inserted nonce stays in the store until the earliest expiry that any accepted call gives
      it, overlaps or not. */
  lemma {:induction false} KeptUntil(ops: seq<Op>, i: nat, n: nat, j: nat, time: int)
    requires IsRun(ops) && i < n < j <= |ops| && AcceptedAt(ops, i) && InsertOf(ops[n], i) && ops[j - 1].now <= time
    requires forall k :: 0 <= k < j && SameNonce(ops, i, k) && AcceptedAt(ops, k) ==> time <= Expiry(ops[k])
    ensures var s := After(ops[..j]); ops[i].nonce in s && s[ops[i].nonce].expiresAtMs >= time
    decreases j
  {
    hide AcceptedAt, After, Monotone;
    assert ops[i].Look? by {
      LookAt(ops, i);
    }
    AfterStep(ops, j - 1);
    if j > n + 1 {
      InTimeOrder(ops, j - 2, j - 1);
      KeptUntil(ops, i, n, j - 1, time);
      if ops[j - 1].Insert? {
        LookAt(ops, ops[j - 1].call);
        assert ops[ops[j - 1].call].nonce == ops[i].nonce ==> SameNonce(ops, i, ops[j - 1].call);
      }
    } else {
      assert SameNonce(ops, i, i);
    }
  }

  lemma LookAt(ops: seq<Op>, i: nat)
    requires i < |ops| && AcceptedAt(ops, i)
    ensures ops[i].Look? && InSkew(ops[i])
  {
  }

  /** Whether a lookup passes, exactly: under limits that protect and one timestamp for a nonce,
      a call within its skew is accepted if and only if no accepted call of the nonce has
      inserted it before. */
  lemma LookupExact(ops: seq<Op>, j: nat)
    requires IsRun(ops) && OneStamp(ops) && AllProtect(ops) && j < |ops| && ops[j].Look? && InSkew(ops[j])
    ensures AcceptedAt(ops, j) <==>
            !exists i: nat :: i < j && SameNonce(ops, i, j) && AcceptedAt(ops, i) && Inserted(ops, i, j)
  {
    if ops[j].nonce in After(ops[..j]) {
      var i := StoredWasInserted(ops, j, ops[j].nonce);
      assert SameNonce(ops, i, j);
    }
    if i: nat :| i < j && SameNonce(ops, i, j) && AcceptedAt(ops, i) && Inserted(ops, i, j) {
      InsertedIsFound(ops, i, j);
    }
  }

  lemma InsertedIsFound(ops: seq<Op>, i: nat, j: nat)
    requires IsRun(ops) && OneStamp(ops) && AllProtect(ops) && i < j && SameNonce(ops, i, j) && InSkew(ops[j])
    requires AcceptedAt(ops, i) && Inserted(ops, i, j)
    ensures ops[j].nonce in After(ops[..j])
  {
    var n :| i < n < j && InsertOf(ops[n], i);
    hide AcceptedAt;
    forall k: nat | k < j && SameNonce(ops, i, k) && AcceptedAt(ops, k) ensures ops[j].now <= Expiry(ops[k]) {
      LookAt(ops, k);
      assert SameNonce(ops, k, j);
      assert Protects(ops[k].limits, ops[j].limits);
    }
    InTimeOrder(ops, j - 1, j);
    KeptUntil(ops, i, n, j, ops[j].now);
  }

  /** A call within its skew looks up a nonce between the accepted lookup at `i` and the
      insertion of it. */
  ghost predicate Overlaps(ops: seq<Op>, i: nat, j: nat) {
    i < j && SameNonce(ops, i, j) && AcceptedAt(ops, i) && InSkew(ops[j]) && !Inserted(ops, i, j)
  }

  /** The await between lookup and insertion, exactly: under limits that protect and one
      timestamp for a nonce, a run accepts some pair twice if and only if some call overlaps. */
  lemma TwiceExactlyWhenOverlapping(ops: seq<Op>)
    requires IsRun(ops) && OneStamp(ops) && AllProtect(ops)
    ensures (exists i: nat, j: nat :: AcceptsTwice(ops, i, j)) <==> (exists i: nat, j: nat :: Overlaps(ops, i, j))
  {
    if i: nat, j: nat :| AcceptsTwice(ops, i, j) {
      LookAt(ops, j);
      LookupExact(ops, j);
      assert Overlaps(ops, i, j);
    }
    if i: nat, j: nat :| Overlaps(ops, i, j) {
      LookupExact(ops, j);
      if AcceptedAt(ops, j) {
        assert AcceptsTwice(ops, i, j);
      } else {
        var k: nat :| k < j && SameNonce(ops, k, j) && AcceptedAt(ops, k) && Inserted(ops, k, j);
        assert SameNonce(ops, i, k) && SameNonce(ops, k, i);
        assert AcceptsTwice(ops, i, k) || AcceptsTwice(ops, k, i);
      }
    }
  }

  /** Any number of calls with one nonce that look it up before any of them inserts it. */
  function Overlapping(limits: Limits, n: nat): seq<Op> {
    seq(n, _ => Look("n", "a", 0, limits, 0))
  }

  lemma {:induction false} NothingStored(limits: Limits, n: nat)
    ensures After(Overlapping(limits, n)) == map[]
  {
    if n > 0 {
      NothingStored(limits, n - 1);
      assert Overlapping(limits, n)[..n - 1] == Overlapping(limits, n - 1);
    }
  }

  /** They are all accepted, whatever the limits are, as long as they accept anything. */
  lemma OverlappingAllAccepted(limits: Limits, n: nat, i: nat)
    requires limits.maxSkewMs >= 0 && i < n
    ensures IsRun(Overlapping(limits, n)) && AcceptedAt(Overlapping(limits, n), i)
  {
    var ops := Overlapping(limits, n);
    assert ops[..i] == Overlapping(limits, i);
    NothingStored(limits, i);
  }
}
