/** Duplicate suppression for mesh messages with a bounded cache (src/mesh/protocol.ts). */
module MeshProtocol {
  import opened Prelude

  const SEEN_CACHE_LIMIT := 5_000

  datatype Message = Message(id: string, body: string, issuedAtMs: int, ttlMs: int, signature: string)

  datatype Verdict = Accepted | Duplicate | Expired | InvalidSignature

  /** One call: the message, the clock and whether the signature verifies. */
  datatype Call = Call(message: Message, now: int, signed: bool)

  function Judge(seen: seq<string>, call: Call): Verdict {
    if call.message.id in seen then Duplicate
    else if call.now > call.message.issuedAtMs + call.message.ttlMs then Expired
    else if !call.signed then InvalidSignature
    else Accepted
  }

  /** The set of seen ids in insertion order. When it outgrows the limit its oldest id is
      dropped, unless that id is the empty string. */
  function Remember(seen: seq<string>, id: string): seq<string> {
    var grown := seen + [id];
    if |grown| > SEEN_CACHE_LIMIT && grown[0] != "" then grown[1..] else grown
  }

  class Protocol {
    var seenIds: seq<string>

    constructor ()
      ensures seenIds == []
    {
      seenIds := [];
    }

    method ValidateMessage(message: Message, publicKey: string, now: int, verify: (Message, string) -> bool)
      returns (v: Verdict)
      modifies this
      ensures v == Judge(old(seenIds), Call(message, now, verify(message, publicKey)))
      ensures seenIds == if v.Accepted? then Remember(old(seenIds), message.id) else old(seenIds)
      ensures v.Duplicate? <==> message.id in old(seenIds)
      ensures v.Expired? <==> message.id !in old(seenIds) && now > message.issuedAtMs + message.ttlMs
      ensures v.Accepted? <==> && message.id !in old(seenIds) && now <= message.issuedAtMs + message.ttlMs
                               && verify(message, publicKey)
    {
      if message.id in seenIds {
        return Duplicate;
      }
      var expired := now > message.issuedAtMs + message.ttlMs;
      if expired {
        return Expired;
      }
      var valid := verify(message, publicKey);
      if !valid {
        return InvalidSignature;
      }
      seenIds := seenIds + [message.id];
      if |seenIds| > SEEN_CACHE_LIMIT {
        var first := seenIds[0];
        if first != "" {
          seenIds := seenIds[1..];
        }
      }
      return Accepted;
    }
  }

  // ---------------------------------------------------------------- the cache against the full log

  function Seen(calls: seq<Call>): seq<string> {
    if calls == [] then []
    else
      var seen, call := Seen(calls[..|calls| - 1]), calls[|calls| - 1];
      if Judge(seen, call).Accepted? then Remember(seen, call.message.id) else seen
  }

  /** Every accepted id, in order: the unbounded log. */
  function Log(calls: seq<Call>): seq<string> {
    if calls == [] then []
    else
      var n := |calls| - 1;
      if Judge(Seen(calls[..n]), calls[n]).Accepted? then Log(calls[..n]) + [calls[n].message.id] else Log(calls[..n])
  }

  function IsEmptyId(): string -> bool {
    (id: string) => id == ""
  }

  /** How much of the log has been forgotten: all but the last 5000 ids, but nothing from the
      first empty id on. */
  function Forgotten(log: seq<string>): nat {
    var surplus := if |log| > SEEN_CACHE_LIMIT then |log| - SEEN_CACHE_LIMIT else 0;
    var pin := First(log, IsEmptyId());
    if surplus < pin then surplus else pin
  }

  lemma {:induction false} FirstAppend(log: seq<string>, id: string)
    ensures First(log + [id], IsEmptyId()) == if First(log, IsEmptyId()) < |log| then First(log, IsEmptyId())
                                              else if id == "" then |log| else |log| + 1
  {
    if log == [] {
      assert log + [id] == [id];
    } else {
      FirstAppend(log[1..], id);
      assert (log + [id])[1..] == log[1..] + [id];
    }
  }

  /** The cache is always the log without its forgotten part. */
  lemma {:induction false} CacheIsSuffixOfLog(calls: seq<Call>)
    ensures Forgotten(Log(calls)) <= |Log(calls)|
    ensures Seen(calls) == Log(calls)[Forgotten(Log(calls))..]
  {
    if calls != [] {
      var n := |calls| - 1;
      CacheIsSuffixOfLog(calls[..n]);
      var seen, log := Seen(calls[..n]), Log(calls[..n]);
      if Judge(seen, calls[n]).Accepted? {
        RememberForgets(seen, log, calls[n].message.id);
      }
    }
  }

  lemma RememberForgets(seen: seq<string>, log: seq<string>, id: string)
    requires Forgotten(log) <= |log| && seen == log[Forgotten(log)..]
    ensures Forgotten(log + [id]) <= |log + [id]|
    ensures Remember(seen, id) == (log + [id])[Forgotten(log + [id])..]
  {
    hide First;
    FirstAppend(log, id);
    var d := Forgotten(log);
    var grown := seen + [id];
    assert grown == (log + [id])[d..];
    assert grown[0] == (log + [id])[d];
    assert grown[1..] == (log + [id])[d + 1..];
    var pin := First(log + [id], IsEmptyId());
    if pin < |log| + 1 {
      assert (log + [id])[pin] == "";
    }
    assert d < pin ==> (log + [id])[d] != "";
  }

  /** For non-empty ids the cache is exactly the last min(n, 5000) accepted ids. */
  lemma CacheIsLastIds(calls: seq<Call>)
    requires forall k :: 0 <= k < |Log(calls)| ==> Log(calls)[k] != ""
    ensures var log := Log(calls);
            Seen(calls) == if |log| > 5000 then log[|log| - 5000..] else log
  {
    CacheIsSuffixOfLog(calls);
  }

  /** The cache stays within its limit exactly as long as no empty id has become the oldest
      one that should have been dropped. */
  lemma CacheBoundedExactly(calls: seq<Call>)
    ensures var log := Log(calls);
            |Seen(calls)| <= 5000 <==> |log| - 5000 <= First(log, IsEmptyId())
  {
    CacheIsSuffixOfLog(calls);
  }

  /** The ids that were accepted, in order: those of the signed calls within their time to live
      whose id was not in the cache when they came. */
  function AcceptedIds(calls: seq<Call>): seq<string> {
    if calls == [] then []
    else
      var n := |calls| - 1;
      var call, before := calls[n], AcceptedIds(calls[..n]);
      if call.signed && call.now - call.message.issuedAtMs <= call.message.ttlMs && call.message.id !in Seen(calls[..n])
      then before + [call.message.id]
      else before
  }

  /** Accepted are exactly the signed calls within their time to live whose id is new. */
  lemma {:induction false} AcceptsExactly(calls: seq<Call>)
    ensures Log(calls) == AcceptedIds(calls)
  {
    if calls != [] {
      AcceptsExactly(calls[..|calls| - 1]);
    }
  }

  /** For non-empty ids, in terms of the log alone: a call is accepted exactly if it is signed,
      within its time to live, and its id is not among the last 5000 accepted. */
  lemma AcceptedByLog(calls: seq<Call>, call: Call)
    requires forall k :: 0 <= k < |Log(calls)| ==> Log(calls)[k] != ""
    ensures var log := Log(calls);
            var recent := if |log| > 5000 then log[|log| - 5000..] else log;
            Log(calls + [call]) ==
            if call.signed && call.now - call.message.issuedAtMs <= call.message.ttlMs && call.message.id !in recent
            then log + [call.message.id] else log
  {
    assert (calls + [call])[..|calls|] == calls;
    CacheIsLastIds(calls);
  }

  /** Ids of growing length, the empty one first. */
  function PinnedIds(n: nat): seq<string> {
    seq(n, i requires 0 <= i < n => seq(i, _ => 'x'))
  }

  function PinnedCalls(n: nat): seq<Call> {
    seq(n, i requires 0 <= i < n => Call(Message(seq(i, _ => 'x'), "", 0, 0, ""), 0, true))
  }

  lemma PinnedNext(m: nat)
    ensures PinnedCalls(m + 1)[..m] == PinnedCalls(m) && PinnedCalls(m + 1)[m].message.id == PinnedIds(m + 1)[m]
    ensures PinnedIds(m + 1) == PinnedIds(m) + [PinnedIds(m + 1)[m]] && PinnedIds(m + 1)[0] == ""
  {
  }

  /** The limit fails: once the empty id is the oldest, nothing is ever dropped. For every n
      some run of n valid messages with different ids leaves all n of them in the cache, 5001
      after 5001 messages. */
  lemma {:induction false} EmptyIdPinsCache(n: nat)
    ensures Distinct(PinnedIds(n)) && Seen(PinnedCalls(n)) == PinnedIds(n) && |Seen(PinnedCalls(n))| == n
  {
    forall i, j | 0 <= i < j < n ensures PinnedIds(n)[i] != PinnedIds(n)[j] {
      assert |PinnedIds(n)[i]| == i && |PinnedIds(n)[j]| == j;
    }
    if n > 0 {
      var m := n - 1;
      EmptyIdPinsCache(m);
      PinnedNext(m);
      assert forall i :: 0 <= i < m ==> PinnedIds(m)[i] == PinnedIds(n)[i];
    }
  }

  /** The call that made the k-th acceptance. */
  lemma {:induction false} AcceptanceOf(calls: seq<Call>, k: nat) returns (n: nat)
    requires k < |Log(calls)|
    ensures n < |calls| && Log(calls[..n]) == Log(calls)[..k]
    ensures calls[n].message.id == Log(calls)[k] && Judge(Seen(calls[..n]), calls[n]).Accepted?
  {
    var m := |calls| - 1;
    if k < |Log(calls[..m])| {
      n := AcceptanceOf(calls[..m], k);
      assert calls[..m][..n] == calls[..n];
      assert Log(calls[..m])[..k] == Log(calls)[..k];
    } else {
      n := m;
      assert Log(calls)[..k] == Log(calls[..m]);
    }
  }

  /** Two acceptances of one id are separated by at least 5000 other acceptances. */
  lemma RepeatsAreFarApart(calls: seq<Call>, i: nat, j: nat)
    requires i < j < |Log(calls)| && Log(calls)[i] == Log(calls)[j]
    ensures j - i - 1 >= 5000
  {
    var n := AcceptanceOf(calls, j);
    CacheIsSuffixOfLog(calls[..n]);
    var log := Log(calls[..n]);
    TailHas(log, Forgotten(log), i);
  }

  lemma TailHas(log: seq<string>, d: nat, i: nat)
    requires d <= |log|
    ensures d <= i < |log| ==> log[i] in log[d..]
  {
    if d <= i < |log| {
      assert log[d..][i - d] == log[i];
    }
  }

}
