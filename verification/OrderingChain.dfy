/** The signed hash chain of queue events: how a record is hashed and made
    (src/ledger/record.ts), the builder (src/ledger/chain.ts) and the verifier
    (src/ledger/verify.ts). */
module OrderingChain {
  import opened Prelude
  import Json

  /** The library calls the ledger relies on: SHA-256 in hex, and a signature scheme. */
  datatype Crypto = Crypto(sha256: string -> string,
                           sign: (string, string) -> string,
                           verify: (string, string, string) -> bool)

  /** Whatever the private key signs, the public key accepts. */
  ghost predicate Matching(c: Crypto, publicKey: string, privateKey: string) {
    forall m :: c.verify(m, c.sign(m, privateKey), publicKey)
  }

  /** The fields that go into the hash. */
  datatype Payload = Payload(eventType: string, taskId: string, subtaskId: Option<string>, actorId: string,
                             sequence: int, issuedAtMs: int, prevHash: string, coordinatorId: Option<string>,
                             checkpointHeight: Option<int>, checkpointHash: Option<string>, payloadJson: Option<string>)

  datatype Record = Record(id: string, payload: Payload, hash: string, signature: string)

  // ---------------------------------------------------------------- hashing a record

  /** A member whose value is undefined is left out of the object. */
  function TextMember(key: string, o: Option<string>, rest: seq<Json.Member>): seq<Json.Member> {
    if o.Some? then [Json.Member(key, Json.Str(o.value))] + rest else rest
  }

  function NumberMember(key: string, o: Option<int>, rest: seq<Json.Member>): seq<Json.Member> {
    if o.Some? then [Json.Member(key, Json.Num(o.value))] + rest else rest
  }

  function MembersFromHash(p: Payload): seq<Json.Member> {
    TextMember("checkpointHash", p.checkpointHash, TextMember("payloadJson", p.payloadJson, []))
  }

  function MembersFromCoordinator(p: Payload): seq<Json.Member> {
    TextMember("coordinatorId", p.coordinatorId,
               NumberMember("checkpointHeight", p.checkpointHeight, MembersFromHash(p)))
  }

  function MembersFromActor(p: Payload): seq<Json.Member> {
    [Json.Member("actorId", Json.Str(p.actorId)), Json.Member("sequence", Json.Num(p.sequence)),
     Json.Member("issuedAtMs", Json.Num(p.issuedAtMs)), Json.Member("prevHash", Json.Str(p.prevHash))]
    + MembersFromCoordinator(p)
  }

  function Members(p: Payload): seq<Json.Member> {
    [Json.Member("eventType", Json.Str(p.eventType)), Json.Member("taskId", Json.Str(p.taskId))]
    + TextMember("subtaskId", p.subtaskId, MembersFromActor(p))
  }

  /** The text that is hashed for a record. */
  function Text(p: Payload): string {
    Json.Stringify(Members(p))
  }

  function HashRecordPayload(c: Crypto, p: Payload): string {
    c.sha256(Text(p))
  }

  function Texts(records: seq<Record>): set<string> {
    set r | r in records :: Text(r.payload)
  }

  /** A field of the hashed object, with its value unless that is undefined. */
  datatype Field = Field(key: string, value: Option<Json.Value>)

  function TextValue(o: Option<string>): Option<Json.Value> {
    if o.Some? then Some(Json.Str(o.value)) else None
  }

  function NumberValue(o: Option<int>): Option<Json.Value> {
    if o.Some? then Some(Json.Num(o.value)) else None
  }

  /** The fields that have a value, in order. */
  function Present(fields: seq<Field>): seq<Json.Member> {
    if fields == [] then []
    else if fields[0].value.None? then Present(fields[1..])
    else [Json.Member(fields[0].key, fields[0].value.value)] + Present(fields[1..])
  }

  /** The fields of a record in the order in which hashRecordPayload lists them. */
  function Fields(p: Payload): seq<Field> {
    [Field("eventType", Some(Json.Str(p.eventType))),
     Field("taskId", Some(Json.Str(p.taskId))),
     Field("subtaskId", TextValue(p.subtaskId))] + (ActorFields(p) + CoordinatorFields(p))
  }

  function ActorFields(p: Payload): seq<Field> {
    [Field("actorId", Some(Json.Str(p.actorId))),
     Field("sequence", Some(Json.Num(p.sequence))),
     Field("issuedAtMs", Some(Json.Num(p.issuedAtMs))),
     Field("prevHash", Some(Json.Str(p.prevHash)))]
  }

  function CoordinatorFields(p: Payload): seq<Field> {
    [Field("coordinatorId", TextValue(p.coordinatorId)),
     Field("checkpointHeight", NumberValue(p.checkpointHeight)),
     Field("checkpointHash", TextValue(p.checkpointHash)),
     Field("payloadJson", TextValue(p.payloadJson))]
  }

  lemma {:induction false} PresentConcat(a: seq<Field>, b: seq<Field>)
    ensures Present(a + b) == Present(a) + Present(b)
  {
    if a == [] {
      assert a + b == b;
    } else {
      PresentConcat(a[1..], b);
      assert (a + b)[1..] == a[1..] + b;
    }
  }

  lemma OnePresent(f: Field)
    ensures Present([f]) == if f.value.None? then [] else [Json.Member(f.key, f.value.value)]
  {
    assert [f][1..] == [] && Present([]) == [];
  }

  lemma FourPresent(a: Field, b: Field, c: Field, d: Field)
    ensures Present([a, b, c, d]) == Present([a]) + (Present([b]) + (Present([c]) + Present([d])))
  {
    hide Present;
    assert [a, b, c, d] == [a] + ([b] + ([c] + [d]));
    PresentConcat([a], [b] + ([c] + [d]));
    PresentConcat([b], [c] + [d]);
    PresentConcat([c], [d]);
  }

  lemma ThreePresent(a: Field, b: Field, c: Field)
    ensures Present([a, b, c]) == Present([a]) + (Present([b]) + Present([c]))
  {
    hide Present;
    assert [a, b, c] == [a] + ([b] + [c]);
    PresentConcat([a], [b] + [c]);
    PresentConcat([b], [c]);
  }

  lemma CoordinatorFieldsPresent(p: Payload)
    ensures Present(CoordinatorFields(p)) == MembersFromCoordinator(p)
  {
    hide Present;
    var fs := CoordinatorFields(p);
    var a, b, c, d := fs[0], fs[1], fs[2], fs[3];
    FourPresent(a, b, c, d);
    OnePresent(a);
    OnePresent(b);
    OnePresent(c);
    OnePresent(d);
  }

  lemma ActorFieldsPresent(p: Payload)
    ensures Present(ActorFields(p)) + MembersFromCoordinator(p) == MembersFromActor(p)
  {
    hide Present, MembersFromCoordinator;
    var fs := ActorFields(p);
    var a, b, c, d := fs[0], fs[1], fs[2], fs[3];
    FourPresent(a, b, c, d);
    OnePresent(a);
    OnePresent(b);
    OnePresent(c);
    OnePresent(d);
  }

  lemma FieldsPresent(p: Payload)
    ensures Present(Fields(p)) == Members(p)
  {
    hide Present, MembersFromCoordinator, MembersFromActor, ActorFields, CoordinatorFields;
    var a, b := Field("eventType", Some(Json.Str(p.eventType))), Field("taskId", Some(Json.Str(p.taskId)));
    var c := Field("subtaskId", TextValue(p.subtaskId));
    PresentConcat([a, b, c], ActorFields(p) + CoordinatorFields(p));
    PresentConcat(ActorFields(p), CoordinatorFields(p));
    CoordinatorFieldsPresent(p);
    ActorFieldsPresent(p);
    ThreePresent(a, b, c);
    OnePresent(a);
    OnePresent(b);
    OnePresent(c);
  }

  /** What is hashed, read back by a reader of its own: each field under its name, in the order
      in which hashRecordPayload lists them, and no member for a field that is undefined. */
  lemma TextNamesFields(p: Payload)
    ensures Json.Read(Text(p)) == Some(Present(Fields(p)))
  {
    hide Present, Fields, Members, Json.Read, Json.Stringify;
    FieldsPresent(p);
    Json.StringifyReads(Members(p));
  }

  ghost predicate StartsOtherwise(ms: seq<Json.Member>, key: string) {
    ms == [] || ms[0].key != key
  }

  lemma TextMemberInjective(key: string, o: Option<string>, o': Option<string>,
                            r: seq<Json.Member>, r': seq<Json.Member>)
    requires TextMember(key, o, r) == TextMember(key, o', r') && StartsOtherwise(r, key) && StartsOtherwise(r', key)
    ensures o == o' && r == r'
  {
    var u, v := TextMember(key, o, r), TextMember(key, o', r');
    if o.Some? {
      assert u[0].key == key && v[0].key == key;
      assert r == u[1..] && r' == v[1..];
    }
  }

  lemma NumberMemberInjective(key: string, o: Option<int>, o': Option<int>, r: seq<Json.Member>, r': seq<Json.Member>)
    requires NumberMember(key, o, r) == NumberMember(key, o', r') && StartsOtherwise(r, key) && StartsOtherwise(r', key)
    ensures o == o' && r == r'
  {
    var u, v := NumberMember(key, o, r), NumberMember(key, o', r');
    if o.Some? {
      assert u[0].key == key && v[0].key == key;
      assert r == u[1..] && r' == v[1..];
    }
  }

  lemma CoordinatorMembersInjective(p: Payload, q: Payload)
    requires MembersFromCoordinator(p) == MembersFromCoordinator(q)
    ensures p.coordinatorId == q.coordinatorId && p.checkpointHeight == q.checkpointHeight
    ensures p.checkpointHash == q.checkpointHash && p.payloadJson == q.payloadJson
  {
    var hp, hq := MembersFromHash(p), MembersFromHash(q);
    TextMemberInjective("coordinatorId", p.coordinatorId, q.coordinatorId,
                        NumberMember("checkpointHeight", p.checkpointHeight, hp),
                        NumberMember("checkpointHeight", q.checkpointHeight, hq));
    NumberMemberInjective("checkpointHeight", p.checkpointHeight, q.checkpointHeight, hp, hq);
    TextMemberInjective("checkpointHash", p.checkpointHash, q.checkpointHash,
                        TextMember("payloadJson", p.payloadJson, []), TextMember("payloadJson", q.payloadJson, []));
    TextMemberInjective("payloadJson", p.payloadJson, q.payloadJson, [], []);
  }

  lemma ActorMembersInjective(p: Payload, q: Payload)
    requires MembersFromActor(p) == MembersFromActor(q)
    ensures p.(eventType := q.eventType, taskId := q.taskId, subtaskId := q.subtaskId) == q
  {
    var u, v := MembersFromActor(p), MembersFromActor(q);
    assert u[0] == v[0] && u[1] == v[1] && u[2] == v[2] && u[3] == v[3];
    assert MembersFromCoordinator(p) == u[4..] && MembersFromCoordinator(q) == v[4..];
    CoordinatorMembersInjective(p, q);
  }

  lemma MembersInjective(p: Payload, q: Payload)
    requires Members(p) == Members(q)
    ensures p == q
  {
    var u, v := Members(p), Members(q);
    assert u[0] == v[0] && u[1] == v[1];
    assert TextMember("subtaskId", p.subtaskId, MembersFromActor(p)) == u[2..];
    assert TextMember("subtaskId", q.subtaskId, MembersFromActor(q)) == v[2..];
    TextMemberInjective("subtaskId", p.subtaskId, q.subtaskId, MembersFromActor(p), MembersFromActor(q));
    ActorMembersInjective(p, q);
  }

  /** Records with the same hash agree on every hashed field, unless their two texts collide:
      the serialisation loses nothing. */
  lemma HashDeterminesPayload(c: Crypto, p: Payload, q: Payload)
    requires CollisionFreeOn(c.sha256, {Text(p), Text(q)}) && HashRecordPayload(c, p) == HashRecordPayload(c, q)
    ensures p == q
  {
    Json.StringifyInjective(Members(p), Members(q));
    MembersInjective(p, q);
  }

  // ---------------------------------------------------------------- what the verifier accepts

  function PrevHash(records: seq<Record>, i: nat): string
    requires i <= |records|
  {
    if i == 0 then "GENESIS" else records[i - 1].hash
  }

  /** The first check a record fails at position `i`, in the order they are made. */
  function Fault(c: Crypto, publicKey: string, records: seq<Record>, i: nat): Option<string>
    requires i < |records|
  {
    var r := records[i];
    if r.payload.sequence != i + 1 then Some("invalid_sequence")
    else if r.payload.prevHash != PrevHash(records, i) then Some("invalid_prev_hash")
    else if HashRecordPayload(c, r.payload) != r.hash then Some("hash_mismatch")
    else if !c.verify(r.hash, r.signature, publicKey) then Some("invalid_signature")
    else None
  }

  ghost predicate Accepted(c: Crypto, publicKey: string, records: seq<Record>) {
    forall i :: 0 <= i < |records| ==> Fault(c, publicKey, records, i) == None
  }

  /** Record `i` is the first faulty one, and `reason` is its first fault. */
  ghost predicate FirstFault(c: Crypto, publicKey: string, records: seq<Record>, i: nat, reason: Option<string>) {
    && i < |records| && Accepted(c, publicKey, records[..i])
    && reason.Some? && reason == Fault(c, publicKey, records, i)
  }

  /** The record at position `i` is sound: it has the next number, continues the record before
      it, carries the hash of its fields and a signature that verifies. */
  ghost predicate Sound(c: Crypto, publicKey: string, records: seq<Record>, i: nat) {
    && i < |records|
    && records[i].payload.sequence == i + 1
    && records[i].payload.prevHash == (if i == 0 then "GENESIS" else records[i - 1].hash)
    && records[i].hash == c.sha256(Text(records[i].payload))
    && c.verify(records[i].hash, records[i].signature, publicKey)
  }

  /** What each reason of a refusal means. */
  lemma FaultsExactly(c: Crypto, publicKey: string, records: seq<Record>, i: nat)
    requires i < |records|
    ensures var p, fault := records[i].payload, Fault(c, publicKey, records, i);
            var linked := p.prevHash == if i == 0 then "GENESIS" else records[i - 1].hash;
            && (fault == None <==> Sound(c, publicKey, records, i))
            && (fault == Some("invalid_sequence") <==> p.sequence != i + 1)
            && (fault == Some("invalid_prev_hash") <==> p.sequence == i + 1 && !linked)
            && (fault == Some("hash_mismatch") <==>
                  p.sequence == i + 1 && linked && records[i].hash != c.sha256(Text(p)))
            && (fault == Some("invalid_signature") <==>
                  && p.sequence == i + 1 && linked && records[i].hash == c.sha256(Text(p))
                  && !c.verify(records[i].hash, records[i].signature, publicKey))
  {
    hide Text;
  }

  /** What is accepted: exactly the chains of sound records. */
  lemma AcceptedExactly(c: Crypto, publicKey: string, records: seq<Record>)
    ensures Accepted(c, publicKey, records) <==> forall i: nat :: i < |records| ==> Sound(c, publicKey, records, i)
  {
    hide Fault, Sound;
    forall i: nat | i < |records| ensures Fault(c, publicKey, records, i) == None <==> Sound(c, publicKey, records, i) {
      FaultsExactly(c, publicKey, records, i);
    }
  }

  datatype Verdict = Verdict(ok: bool, reason: Option<string>)

  /** verifyOrderingChain: accepts exactly the fault-free chains, and otherwise reports the
      fault of the first faulty record. */
  method VerifyOrderingChain(c: Crypto, records: seq<Record>, publicKey: string) returns (v: Verdict)
    ensures v.ok <==> Accepted(c, publicKey, records)
    ensures v.ok ==> v.reason == None
    ensures !v.ok ==> exists i :: FirstFault(c, publicKey, records, i, v.reason)
  {
    hide HashRecordPayload;
    var prevHash := "GENESIS";
    for i := 0 to |records|
      invariant prevHash == PrevHash(records, i)
      invariant forall j :: 0 <= j < i ==> Fault(c, publicKey, records, j) == None
    {
      var record := records[i];
      FaultOfPrefix(c, publicKey, records, i);
      assert Fault(c, publicKey, records, i).Some? ==>
          FirstFault(c, publicKey, records, i, Fault(c, publicKey, records, i));
      if record.payload.sequence != i + 1 {
        return Verdict(false, Some("invalid_sequence"));
      }
      if record.payload.prevHash != prevHash {
        return Verdict(false, Some("invalid_prev_hash"));
      }
      var expectedHash := HashRecordPayload(c, record.payload);
      if expectedHash != record.hash {
        return Verdict(false, Some("hash_mismatch"));
      }
      var sigOk := c.verify(record.hash, record.signature, publicKey);
      if !sigOk {
        return Verdict(false, Some("invalid_signature"));
      }
      prevHash := record.hash;
    }
    return Verdict(true, None);
  }

  /** A fault depends only on the records up to it. */
  lemma FaultOfPrefix(c: Crypto, publicKey: string, records: seq<Record>, n: nat)
    requires n <= |records|
    ensures forall j :: 0 <= j < n ==> Fault(c, publicKey, records[..n], j) == Fault(c, publicKey, records, j)
    ensures Accepted(c, publicKey, records) ==> Accepted(c, publicKey, records[..n])
  {
    hide HashRecordPayload;
  }

  /** Fault-free records with the same hash have the same payload, so the same position and
      the same predecessor hash. */
  lemma StepBack(c: Crypto, key: string, a: seq<Record>, i: nat, key': string, b: seq<Record>, j: nat)
    requires CollisionFreeOn(c.sha256, Texts(a) + Texts(b))
    requires i < |a| && j < |b| && a[i].hash == b[j].hash
    requires Fault(c, key, a, i) == None && Fault(c, key', b, j) == None
    ensures i == j && a[i].payload == b[j].payload
    ensures i > 0 ==> a[i - 1].hash == b[j - 1].hash
  {
    hide Text;
    assert Text(a[i].payload) in Texts(a) && Text(b[j].payload) in Texts(b);
    HashDeterminesPayload(c, a[i].payload, b[j].payload);
  }

  /** Tamper evidence. If a record of one accepted chain has the hash of a record of another,
      the two stand at the same position and the chains agree on every hashed field of every
      record up to there; the keys the chains were checked with need not be the same, and the
      digest need only tell the texts of these two chains apart. */
  lemma {:induction false} SameHashSameHistory(c: Crypto, key: string, a: seq<Record>, i: nat,
                                               key': string, b: seq<Record>, j: nat)
    requires CollisionFreeOn(c.sha256, Texts(a) + Texts(b)) && Accepted(c, key, a) && Accepted(c, key', b)
    requires i < |a| && j < |b| && a[i].hash == b[j].hash
    ensures i == j
    ensures forall k :: 0 <= k <= i ==> a[k].payload == b[k].payload && a[k].hash == b[k].hash
    decreases i
  {
    hide HashRecordPayload, Texts, CollisionFreeOn;
    StepBack(c, key, a, i, key', b, j);
    if i > 0 {
      SameHashSameHistory(c, key, a, i - 1, key', b, j - 1);
    }
  }

  /** Two accepted, non-empty chains with the same last hash are the same history. */
  lemma SameLastHashSameChain(c: Crypto, key: string, a: seq<Record>, key': string, b: seq<Record>)
    requires CollisionFreeOn(c.sha256, Texts(a) + Texts(b)) && Accepted(c, key, a) && Accepted(c, key', b)
    requires a != [] && b != [] && a[|a| - 1].hash == b[|b| - 1].hash
    ensures |a| == |b| && forall k :: 0 <= k < |a| ==> a[k].payload == b[k].payload && a[k].hash == b[k].hash
  {
    hide HashRecordPayload, Texts, CollisionFreeOn;
    SameHashSameHistory(c, key, a, |a| - 1, key', b, |b| - 1);
  }

  /** What the chain does not protect: a record's id is outside the hash, and any signature
      that verifies will do. */
  lemma IdAndSignatureAreFree(c: Crypto, key: string, a: seq<Record>, i: nat, id: string, signature: string)
    requires i < |a|
    requires c.verify(a[i].hash, signature, key)
    ensures Accepted(c, key, a) ==> Accepted(c, key, a[i := a[i].(id := id, signature := signature)])
  {
    hide HashRecordPayload;
    if Accepted(c, key, a) {
      var b := a[i := a[i].(id := id, signature := signature)];
      forall k | 0 <= k < |b| ensures Fault(c, key, b, k) == None {
        assert Fault(c, key, a, k) == None;
      }
    }
  }

  // ---------------------------------------------------------------- the builder

  datatype Event = Event(eventType: string, taskId: string, subtaskId: Option<string>, actorId: string,
                         coordinatorId: Option<string>, checkpointHeight: Option<int>,
                         checkpointHash: Option<string>, payloadJson: Option<string>)

  /** An event with the id and the time that append draws for it. */
  datatype Stamped = Stamped(event: Event, id: string, now: int)

  function CreateQueueEventRecord(c: Crypto, id: string, p: Payload, privateKey: string): Record {
    var hash := HashRecordPayload(c, p);
    Record(id, p, hash, c.sign(hash, privateKey))
  }

  function NextRecord(c: Crypto, privateKey: string, records: seq<Record>, e: Stamped): Record {
    CreateQueueEventRecord(c, e.id,
                           Payload(e.event.eventType, e.event.taskId, e.event.subtaskId, e.event.actorId, |records| + 1,
                                   e.now, PrevHash(records, |records|), e.event.coordinatorId, e.event.checkpointHeight,
                                   e.event.checkpointHash, e.event.payloadJson),
                           privateKey)
  }

  /** The records after a series of appends. */
  function Built(c: Crypto, privateKey: string, events: seq<Stamped>): seq<Record> {
    if events == [] then []
    else
      var before := Built(c, privateKey, events[..|events| - 1]);
      before + [NextRecord(c, privateKey, before, events[|events| - 1])]
  }

  datatype Proof = Proof(recordId: string, hash: string, prevHash: string, sequence: int, signerPeerId: string)

  class Chain {
    const crypto: Crypto
    const signerPeerId: string
    const privateKey: string
    var records: seq<Record>
    ghost var events: seq<Stamped>

    ghost predicate Valid()
      reads this
    {
      records == Built(crypto, privateKey, events)
    }

    constructor (crypto: Crypto, signerPeerId: string, privateKey: string)
      ensures Valid() && events == []
      ensures this.crypto == crypto && this.signerPeerId == signerPeerId && this.privateKey == privateKey
    {
      this.crypto, this.signerPeerId, this.privateKey := crypto, signerPeerId, privateKey;
      records, events := [], [];
    }

    method Append(event: Event, freshId: string, now: int) returns (record: Record)
      requires Valid()
      modifies this
      ensures Valid() && events == old(events) + [Stamped(event, freshId, now)]
      ensures records == old(records) + [record]
      ensures record.id == freshId
      ensures record.payload == Payload(event.eventType, event.taskId, event.subtaskId, event.actorId, |records|, now,
                                        if old(records) == [] then "GENESIS" else old(records)[|old(records)| - 1].hash,
                                        event.coordinatorId, event.checkpointHeight, event.checkpointHash,
                                        event.payloadJson)
      ensures record.hash == crypto.sha256(Text(record.payload))
      ensures record.signature == crypto.sign(record.hash, privateKey)
    {
      hide Text;
      var prevHash := if |records| > 0 then records[|records| - 1].hash else "GENESIS";
      record := CreateQueueEventRecord(
        crypto, freshId,
        Payload(event.eventType, event.taskId, event.subtaskId, event.actorId, |records| + 1, now, prevHash,
                event.coordinatorId, event.checkpointHeight, event.checkpointHash, event.payloadJson),
        privateKey);
      records := records + [record];
      events := events + [Stamped(event, freshId, now)];
      assert events[..|events| - 1] == old(events);
    }

    /** The proof names the last record; by the theorem below it fixes the whole chain. */
    method LatestProof() returns (proof: Option<Proof>)
      ensures proof.None? <==> records == []
      ensures proof.Some? ==> var r := records[|records| - 1];
                              proof.value == Proof(r.id, r.hash, r.payload.prevHash, r.payload.sequence, signerPeerId)
    {
      if |records| == 0 {
        return None;
      }
      var latest := records[|records| - 1];
      return Some(Proof(latest.id, latest.hash, latest.payload.prevHash, latest.payload.sequence, signerPeerId));
    }

    method Snapshot() returns (copy: seq<Record>)
      ensures copy == records
    {
      copy := records;
    }
  }

  /** Completeness: every chain built by appends, and every prefix of it, is accepted under
      the matching public key. */
  lemma {:induction false} BuiltChainsAreAccepted(c: Crypto, publicKey: string, privateKey: string,
                                                  events: seq<Stamped>, n: nat)
    requires Matching(c, publicKey, privateKey)
    ensures |Built(c, privateKey, events)| == |events|
    ensures n <= |events| ==> Accepted(c, publicKey, Built(c, privateKey, events)[..n])
  {
    hide HashRecordPayload;
    if events != [] {
      var m := |events| - 1;
      var before := Built(c, privateKey, events[..m]);
      BuiltChainsAreAccepted(c, publicKey, privateKey, events[..m], m);
      var all := Built(c, privateKey, events);
      assert all[..m] == before && before[..m] == before;
      forall i | 0 <= i < |all| ensures Fault(c, publicKey, all, i) == None {
        if i < m {
          assert Fault(c, publicKey, before, i) == None;
        }
      }
      if n <= |events| {
        FaultOfPrefix(c, publicKey, all, n);
      }
    }
  }
}
