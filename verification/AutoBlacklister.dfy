/** Strikes and automatic blacklisting (src/security/auto-blacklister.ts). */
module AutoBlacklister {
  import opened Prelude
  import opened SlidingWindow

  datatype Severity = Critical | High | Warn | Info

  datatype Anomaly = Anomaly(ruleId: string, severity: Severity, blacklistReason: string, description: string)

  datatype Action = Action(agentId: string, reasonCode: string, reason: string, evidenceHash: string,
                           events: seq<Anomaly>)

  /** `digest` stands for the hash of the serialised anomalies. */
  datatype Config = Config(windowMs: int, threshold: int, digest: seq<Anomaly> -> string)

  type Strikes = map<string, seq<Timed<Anomaly>>>

  function StrikesOf(s: Strikes, a: string): seq<Timed<Anomaly>> {
    if a in s then s[a] else []
  }

  function Rank(s: Severity): nat {
    match s case Critical => 0 case High => 1 case Warn => 2 case Info => 3
  }

  /** The position of the first anomaly of the worst severity: the head of a stable sort. */
  function Primary(anomalies: seq<Anomaly>): (i: nat)
    requires anomalies != []
    ensures i < |anomalies|
    ensures forall j :: 0 <= j < |anomalies| ==> Rank(anomalies[i].severity) <= Rank(anomalies[j].severity)
    ensures forall j :: 0 <= j < i ==> Rank(anomalies[i].severity) < Rank(anomalies[j].severity)
  {
    if |anomalies| == 1 then 0
    else
      var n := |anomalies| - 1;
      var i := Primary(anomalies[..n]);
      if Rank(anomalies[n].severity) < Rank(anomalies[i].severity) then n else i
  }

  function RuleIds(anomalies: seq<Anomaly>): seq<string> {
    seq(|anomalies|, i requires 0 <= i < |anomalies| => anomalies[i].ruleId)
  }

  function BuildAction(c: Config, a: string, anomalies: seq<Anomaly>): Action
    requires anomalies != []
  {
    var primary := anomalies[Primary(anomalies)];
    Action(a, primary.blacklistReason,
           "Auto-blacklisted by behavioral monitoring: " + Joined(RuleIds(anomalies), ", ")
           + " \U{2014} " + primary.description,
           c.digest(anomalies), anomalies)
  }

  function IsCritical(): Anomaly -> bool {
    (x: Anomaly) => x.severity == Critical
  }

  predicate HasCritical(anomalies: seq<Anomaly>) {
    First(anomalies, IsCritical()) < |anomalies|
  }

  function Stamp(anomalies: seq<Anomaly>, now: int): seq<Timed<Anomaly>> {
    seq(|anomalies|, i requires 0 <= i < |anomalies| => Timed(now, anomalies[i]))
  }

  function Events(strikes: seq<Timed<Anomaly>>): seq<Anomaly> {
    seq(|strikes|, i requires 0 <= i < |strikes| => strikes[i].item)
  }

  /** The strikes in the window together with the new ones. */
  function Tally(c: Config, s: Strikes, a: string, anomalies: seq<Anomaly>, now: int): seq<Timed<Anomaly>> {
    Since(StrikesOf(s, a), now - c.windowMs) + Stamp(anomalies, now)
  }

  /** The outcome of processAnomalies and the strikes it leaves. */
  datatype Outcome = Outcome(action: Option<Action>, strikes: Strikes)

  function Process(c: Config, s: Strikes, a: string, anomalies: seq<Anomaly>, now: int): Outcome {
    if anomalies == [] then Outcome(None, s)
    else if HasCritical(anomalies) then Outcome(Some(BuildAction(c, a, anomalies)), s)
    else
      var tally := Tally(c, s, a, anomalies, now);
      if |tally| >= c.threshold then Outcome(Some(BuildAction(c, a, Events(tally))), s - {a})
      else Outcome(None, s[a := tally])
  }

  class Blacklister {
    const config: Config
    var strikes: Strikes
    /** The actions handed to the onBlacklist callback. */
    var actions: seq<Action>

    constructor (config: Config)
      ensures strikes == map[] && actions == [] && this.config == config
    {
      this.config := config;
      strikes, actions := map[], [];
    }

    method ProcessAnomalies(agentId: string, anomalies: seq<Anomaly>, now: int) returns (action: Option<Action>)
      modifies this
      ensures Outcome(action, strikes) == Process(config, old(strikes), agentId, anomalies, now)
      ensures actions == if action.Some? then old(actions) + [action.value] else old(actions)
    {
      if |anomalies| == 0 {
        return None;
      }
      if First(anomalies, IsCritical()) < |anomalies| {
        var instant := BuildAction(config, agentId, anomalies);
        actions := actions + [instant];
        return Some(instant);
      }
      var agentStrikes := if agentId in strikes then strikes[agentId] else [];
      var cutoff := now - config.windowMs;
      agentStrikes := Since(agentStrikes, cutoff);
      ghost var kept := agentStrikes;
      for i := 0 to |anomalies|
        invariant agentStrikes == kept + Stamp(anomalies, now)[..i]
      {
        agentStrikes := agentStrikes + [Timed(now, anomalies[i])];
      }
      assert agentStrikes == Tally(config, old(strikes), agentId, anomalies, now);
      ghost var before := strikes;
      strikes := strikes[agentId := agentStrikes];
      if |agentStrikes| >= config.threshold {
        var all := BuildAction(config, agentId, Events(agentStrikes));
        strikes := strikes - {agentId};
        assert strikes == before - {agentId};
        actions := actions + [all];
        return Some(all);
      }
      return None;
    }

    method GetStrikeCount(agentId: string, now: int) returns (count: nat)
      ensures count == |Since(StrikesOf(strikes, agentId), now - config.windowMs)|
    {
      if agentId !in strikes {
        return 0;
      }
      return |Since(strikes[agentId], now - config.windowMs)|;
    }
  }

  // ---------------------------------------------------------------- runs

  datatype Call = Call(agentId: string, anomalies: seq<Anomaly>, now: int)

  function Time(): Call -> int {
    (k: Call) => k.now
  }

  function After(c: Config, calls: seq<Call>): Strikes {
    if calls == [] then map[]
    else
      var k := calls[|calls| - 1];
      Process(c, After(c, calls[..|calls| - 1]), k.agentId, k.anomalies, k.now).strikes
  }

  /** Whether a call would lead to an action after the given calls. */
  predicate Acts(c: Config, calls: seq<Call>, k: Call) {
    Process(c, After(c, calls), k.agentId, k.anomalies, k.now).action.Some?
  }

  /** How a call changes the log of an agent: strikes are added, or start anew after an action
      that strikes triggered; a critical anomaly neither adds strikes nor clears them. */
  function LogAfter(c: Config, s: Strikes, k: Call, a: string, log: seq<Timed<Anomaly>>): seq<Timed<Anomaly>> {
    if k.agentId != a || HasCritical(k.anomalies) then log
    else if Process(c, s, a, k.anomalies, k.now).action.Some? then []
    else log + Stamp(k.anomalies, k.now)
  }

  /** Every strike of an agent since the last action its strikes triggered, never pruned. */
  function Log(c: Config, calls: seq<Call>, a: string): seq<Timed<Anomaly>> {
    if calls == [] then []
    else
      var n := |calls| - 1;
      LogAfter(c, After(c, calls[..n]), calls[n], a, Log(c, calls[..n], a))
  }

  lemma CallStands(c: Config, s: Strikes, k: Call, a: string, log: seq<Timed<Anomaly>>)
    requires Stands(StrikesOf(s, a), log, k.now - c.windowMs)
    ensures Stands(StrikesOf(Process(c, s, k.agentId, k.anomalies, k.now).strikes, a), LogAfter(c, s, k, a, log),
                   k.now - c.windowMs)
  {
    hide Since, HasCritical, BuildAction, Stands;
    var cutoff := k.now - c.windowMs;
    if k.anomalies == [] {
      assert log + Stamp(k.anomalies, k.now) == log;
    } else {
      StandsAfter(StrikesOf(s, a), log, cutoff, cutoff, Stamp(k.anomalies, k.now));
      NothingStands(cutoff);
    }
  }

  lemma NothingStands(from: int)
    ensures Stands<Anomaly>([], [], from)
  {
  }

  lemma {:induction false} StrikesStandForLog(c: Config, calls: seq<Call>, a: string, last: int)
    requires MonotoneUntil(calls, Time(), last)
    ensures Stands(StrikesOf(After(c, calls), a), Log(c, calls, a), last - c.windowMs)
    decreases |calls|
  {
    hide Stands, Process, LogAfter;
    if calls == [] {
      NothingStands(last - c.windowMs);
    } else {
      var n := |calls| - 1;
      var k := calls[n];
      StrikesStandForLog(c, calls[..n], a, k.now);
      CallStands(c, After(c, calls[..n]), k, a, Log(c, calls[..n], a));
      StandsLater(StrikesOf(After(c, calls), a), Log(c, calls, a), k.now - c.windowMs, last - c.windowMs);
    }
  }

  /** When processAnomalies acts, in terms of the full log: there is a critical anomaly, or
      the new anomalies bring the strikes of the window, counted since the last action that
      strikes triggered, to the threshold. */
  lemma ActsExactly(c: Config, calls: seq<Call>, k: Call)
    requires MonotoneUntil(calls, Time(), k.now)
    ensures Acts(c, calls, k) <==>
            k.anomalies != [] &&
            ((exists i :: 0 <= i < |k.anomalies| && k.anomalies[i].severity == Critical)
             || |Since(Log(c, calls, k.agentId), k.now - c.windowMs)| + |k.anomalies| >= c.threshold)
  {
    hide Log, After, Since, Stands;
    StrikesStandForLog(c, calls, k.agentId, k.now);
    StandsAt(StrikesOf(After(c, calls), k.agentId), Log(c, calls, k.agentId), k.now - c.windowMs, k.now - c.windowMs);
  }

  /** A severity is at least as bad as another one. */
  predicate AsBad(a: Severity, b: Severity) {
    match a
    case Critical => true
    case High => b != Critical
    case Warn => b == Warn || b == Info
    case Info => b == Info
  }

  /** The action names the first of the worst anomalies, with its reason code, its description
      behind all rule ids, and the hash of all anomalies. */
  ghost predicate Names(c: Config, action: Action, i: nat) {
    var events := action.events;
    && i < |events|
    && (forall j :: 0 <= j < |events| ==> AsBad(events[i].severity, events[j].severity))
    && (forall j :: 0 <= j < i ==> events[j].severity != events[i].severity)
    && action.reasonCode == events[i].blacklistReason
    && action.reason == "Auto-blacklisted by behavioral monitoring: " + Joined(RuleIds(events), ", ")
                        + " \U{2014} " + events[i].description
    && action.evidenceHash == c.digest(events)
  }

  lemma ActionNames(c: Config, a: string, anomalies: seq<Anomaly>)
    requires anomalies != []
    ensures Names(c, BuildAction(c, a, anomalies), Primary(anomalies))
    ensures BuildAction(c, a, anomalies).agentId == a && BuildAction(c, a, anomalies).events == anomalies
  {
  }

  /** What an action carries, in terms of the full log: the anomalies of the call if one of them
      is critical, otherwise the strikes of the window and the new ones; and it names the first
      of the worst. */
  lemma ActionCarries(c: Config, calls: seq<Call>, k: Call) returns (i: nat)
    requires MonotoneUntil(calls, Time(), k.now) && Acts(c, calls, k)
    ensures var action := Process(c, After(c, calls), k.agentId, k.anomalies, k.now).action.value;
            var strikes := Since(Log(c, calls, k.agentId), k.now - c.windowMs);
            && action.agentId == k.agentId && Names(c, action, i)
            && if exists j :: 0 <= j < |k.anomalies| && k.anomalies[j].severity == Critical
               then action.events == k.anomalies
               else action.events == Events(strikes) + k.anomalies
  {
    hide Log, After, Since, Stands, BuildAction, Names;
    StrikesStandForLog(c, calls, k.agentId, k.now);
    StandsAt(StrikesOf(After(c, calls), k.agentId), Log(c, calls, k.agentId), k.now - c.windowMs, k.now - c.windowMs);
    var tally := Tally(c, After(c, calls), k.agentId, k.anomalies, k.now);
    var strikes := Since(Log(c, calls, k.agentId), k.now - c.windowMs);
    assert Events(tally) == Events(strikes) + k.anomalies;
    var events := if HasCritical(k.anomalies) then k.anomalies else Events(tally);
    ActionNames(c, k.agentId, events);
    i := Primary(events);
  }

  /** getStrikeCount reports the strikes of the window in the full log. */
  lemma StrikeCountExact(c: Config, calls: seq<Call>, a: string, now: int)
    requires MonotoneUntil(calls, Time(), now)
    ensures |Since(StrikesOf(After(c, calls), a), now - c.windowMs)| == |Since(Log(c, calls, a), now - c.windowMs)|
  {
    StrikesStandForLog(c, calls, a, now);
  }

  /** Stored strikes stay below a positive threshold. */
  lemma {:induction false} StoredBelowThreshold(c: Config, calls: seq<Call>, a: string)
    requires c.threshold > 0
    ensures |StrikesOf(After(c, calls), a)| < c.threshold
  {
    if calls != [] {
      StoredBelowThreshold(c, calls[..|calls| - 1], a);
    }
  }
}
