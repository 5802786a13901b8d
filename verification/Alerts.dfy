/** Validated alerts, their scenario, and the names the other modules derive from them. */
module Alerts {
  import Text
  import opened Enrichment

  type CaseId = nat

  datatype Scenario = SuspiciousLogin | AccountActivity | SuspiciousFile | SuspiciousDomain | SecurityAlert

  /**
   A validated alert: `hour` is its timestamp in UTC cut to the hour, `printed` is the text form
   of `data` in lower case, and `other` is whatever else the canonical payload holds.
   */
  datatype Alert = Alert(
    id: string, timestamp: string, hour: string, ruleId: string, agentId: string, data: Json, printed: string,
    other: string)

  predicate HasKey(data: Json, names: set<string>) {
    data.Obj? && exists f | f in data.fields :: Text.Lower(f.key) in names
  }

  function ScenarioFor(a: Alert): Scenario {
    if a.ruleId == "100100" then SuspiciousLogin
    else if a.ruleId == "100102" then AccountActivity
    else if HasKey(a.data, {"hash", "md5", "sha1", "sha256"}) || Text.Contains(a.printed, "sha256")
    then SuspiciousFile
    else if HasKey(a.data, {"domain", "query", "url", "uri"}) || Text.Contains(a.printed, ".test")
    then SuspiciousDomain
    else SecurityAlert
  }

  function Labels(found: seq<Indicator>): seq<string> {
    seq(|found|, i requires 0 <= i < |found| => found[i].kind + ":" + found[i].value)
  }

  /** The incident fingerprint; the digest of this text is taken to be the text itself. */
  function Fingerprint(valid: iset<Indicator>, a: Alert): string {
    Text.Join("|", [a.hour, a.ruleId, a.agentId] + Labels(Indicators(valid, a.data)))
  }

  /** The trace identifier, likewise represented by the text that is digested. */
  function TraceOf(key: string, alertId: string): string {
    key + ":" + alertId
  }

  predicate ColonFree(key: string) {
    ':' !in key
  }

  /** Alerts of one rule, agent and hour with rearranged data fall under one incident. */
  lemma FingerprintInvariant(valid: iset<Indicator>, a: Alert, b: Alert)
    requires a.hour == b.hour && a.ruleId == b.ruleId && a.agentId == b.agentId
    requires SameContent(a.data, b.data)
    ensures Fingerprint(valid, a) == Fingerprint(valid, b)
  {
    ExtractionInvariant(valid, a.data, b.data);
  }

  /** No vertical bar in what identifies an alert's incident, beside the indicators. */
  predicate Plain(a: Alert) {
    '|' !in a.hour && '|' !in a.ruleId && '|' !in a.agentId
  }

  ghost predicate PlainIndicators(valid: iset<Indicator>, a: Alert) {
    forall i | i in valid && Offers(a.data, i) :: '|' !in i.value
  }

  lemma FingerprintParts(valid: iset<Indicator>, a: Alert)
    ensures var labels := Labels(Indicators(valid, a.data));
      Fingerprint(valid, a) == a.hour + "|" + (a.ruleId + "|" + (a.agentId +
        if labels == [] then "" else "|" + Text.Join("|", labels)))
  {
    var labels := Labels(Indicators(valid, a.data));
    var parts := [a.hour, a.ruleId, a.agentId] + labels;
    var last := Text.Join("|", [a.agentId] + labels);
    assert ([a.agentId] + labels)[1..] == labels;
    assert last == a.agentId + if labels == [] then "" else "|" + Text.Join("|", labels);
    assert parts[1..] == [a.ruleId, a.agentId] + labels && parts[1..][1..] == [a.agentId] + labels;
    assert Text.Join("|", parts[1..]) == a.ruleId + "|" + last;
    assert Text.Join("|", parts) == a.hour + "|" + (a.ruleId + "|" + last);
  }

  /** Fingerprints tell hours, rules and agents apart, and the printed indicators. */
  lemma FingerprintTells(valid: iset<Indicator>, a: Alert, b: Alert)
    requires Plain(a) && Plain(b) && Fingerprint(valid, a) == Fingerprint(valid, b)
    ensures a.hour == b.hour && a.ruleId == b.ruleId && a.agentId == b.agentId
    ensures Text.Join("|", Labels(Indicators(valid, a.data))) == Text.Join("|", Labels(Indicators(valid, b.data)))
  {
    FingerprintParts(valid, a);
    FingerprintParts(valid, b);
    var p, q := Labels(Indicators(valid, a.data)), Labels(Indicators(valid, b.data));
    var x := a.agentId + if p == [] then "" else "|" + Text.Join("|", p);
    var y := b.agentId + if q == [] then "" else "|" + Text.Join("|", q);
    Text.SplitsAt(a.hour, b.hour, a.ruleId + "|" + x, b.ruleId + "|" + y, '|');
    Text.SplitsAt(a.ruleId, b.ruleId, x, y, '|');
    AgentAndLabels(a.agentId, b.agentId, p, q);
  }

  lemma AgentAndLabels(a: string, b: string, p: seq<string>, q: seq<string>)
    requires '|' !in a && '|' !in b
    requires a + (if p == [] then "" else "|" + Text.Join("|", p)) ==
             b + (if q == [] then "" else "|" + Text.Join("|", q))
    ensures a == b && Text.Join("|", p) == Text.Join("|", q)
  {
    BarOnlyBeforeLabels(a, p);
    BarOnlyBeforeLabels(b, q);
    if p != [] {
      assert a + ("|" + Text.Join("|", p)) == a + "|" + Text.Join("|", p);
      assert b + ("|" + Text.Join("|", q)) == b + "|" + Text.Join("|", q);
      Text.SplitsAt(a, b, Text.Join("|", p), Text.Join("|", q), '|');
    } else {
      assert a + "" == a && b + "" == b;
    }
  }

  lemma BarOnlyBeforeLabels(agent: string, labels: seq<string>)
    requires '|' !in agent
    ensures '|' in agent + (if labels == [] then "" else "|" + Text.Join("|", labels)) <==> labels != []
  {
    if labels != [] {
      assert (agent + ("|" + Text.Join("|", labels)))[|agent|] == '|';
    } else {
      assert agent + "" == agent;
    }
  }

  lemma LabelOf(valid: iset<Indicator>, a: Alert, i: nat)
    requires i < |Indicators(valid, a.data)|
    ensures var x := Indicators(valid, a.data)[i];
      && x in valid && Offers(a.data, x) && ':' !in x.kind && '|' !in x.kind
      && Labels(Indicators(valid, a.data))[i] == x.kind + [':'] + x.value
  {
    IndicatorsCanonical(valid, a.data);
    assert Indicators(valid, a.data)[i] in Indicators(valid, a.data);
  }

  lemma LabelsInjective(valid: iset<Indicator>, a: Alert, b: Alert)
    requires Labels(Indicators(valid, a.data)) == Labels(Indicators(valid, b.data))
    ensures Indicators(valid, a.data) == Indicators(valid, b.data)
  {
    var p, q := Indicators(valid, a.data), Indicators(valid, b.data);
    assert |p| == |Labels(p)| == |Labels(q)| == |q|;
    forall i | 0 <= i < |p| ensures p[i] == q[i] {
      LabelOf(valid, a, i);
      LabelOf(valid, b, i);
      Text.SplitsAt(p[i].kind, q[i].kind, p[i].value, q[i].value, ':');
    }
  }

  lemma PlainLabels(valid: iset<Indicator>, a: Alert)
    requires PlainIndicators(valid, a)
    ensures forall t | t in Labels(Indicators(valid, a.data)) :: t != "" && '|' !in t
  {
    forall t | t in Labels(Indicators(valid, a.data)) ensures t != "" && '|' !in t {
      var i :| 0 <= i < |Indicators(valid, a.data)| && t == Labels(Indicators(valid, a.data))[i];
      LabelOf(valid, a, i);
    }
  }

  /** Alerts fall under one incident exactly if hour, rule, agent and the indicators they offer agree. */
  lemma FingerprintExactly(valid: iset<Indicator>, a: Alert, b: Alert)
    requires Plain(a) && Plain(b) && PlainIndicators(valid, a) && PlainIndicators(valid, b)
    ensures Fingerprint(valid, a) == Fingerprint(valid, b) <==>
            && a.hour == b.hour && a.ruleId == b.ruleId && a.agentId == b.agentId
            && forall i | i in valid :: Offers(a.data, i) <==> Offers(b.data, i)
  {
    if Fingerprint(valid, a) == Fingerprint(valid, b) {
      FingerprintTells(valid, a, b);
      PlainLabels(valid, a);
      PlainLabels(valid, b);
      Text.JoinInjective(Labels(Indicators(valid, a.data)), Labels(Indicators(valid, b.data)), '|');
      LabelsInjective(valid, a, b);
    }
    SameOffers(valid, a.data, b.data);
  }

  /** What follows a vertical bar in the rule may as well precede one in the agent. */
  lemma FingerprintCollision(valid: iset<Indicator>, a: Alert, part: string)
    ensures Fingerprint(valid, a.(ruleId := a.ruleId + "|" + part)) ==
            Fingerprint(valid, a.(agentId := part + "|" + a.agentId))
  {
    var b, d := a.(ruleId := a.ruleId + "|" + part), a.(agentId := part + "|" + a.agentId);
    FingerprintParts(valid, b);
    FingerprintParts(valid, d);
    var rest := if Labels(Indicators(valid, a.data)) == [] then ""
                else "|" + Text.Join("|", Labels(Indicators(valid, a.data)));
    assert a.ruleId + "|" + part + "|" + (a.agentId + rest) == a.ruleId + "|" + (part + "|" + a.agentId + rest);
  }

  /** No other rule or agent has alerts with the fingerprint of this one. */
  ghost predicate Unmistakable(valid: iset<Indicator>, a: Alert) {
    forall b: Alert | '|' !in b.hour && Fingerprint(valid, b) == Fingerprint(valid, a) ::
      b.ruleId == a.ruleId && b.agentId == a.agentId
  }

  lemma BarInRule(valid: iset<Indicator>, a: Alert)
    requires '|' !in a.hour && '|' in a.ruleId
    ensures !Unmistakable(valid, a)
  {
    var n :| 0 <= n < |a.ruleId| && a.ruleId[n] == '|';
    var part, short := a.ruleId[n + 1..], a.(ruleId := a.ruleId[..n]);
    assert a.ruleId == short.ruleId + "|" + part;
    assert a == short.(ruleId := short.ruleId + "|" + part);
    FingerprintCollision(valid, short, part);
    assert short.(agentId := part + "|" + a.agentId).ruleId != a.ruleId;
  }

  lemma BarInAgent(valid: iset<Indicator>, a: Alert)
    requires '|' !in a.hour && '|' in a.agentId
    ensures !Unmistakable(valid, a)
  {
    var n :| 0 <= n < |a.agentId| && a.agentId[n] == '|';
    var part, short := a.agentId[..n], a.(agentId := a.agentId[n + 1..]);
    assert a.agentId == part + "|" + short.agentId;
    assert a == short.(agentId := part + "|" + short.agentId);
    FingerprintCollision(valid, short, part);
    assert short.(ruleId := a.ruleId + "|" + part).ruleId != a.ruleId;
  }

  lemma SomeLabels(valid: iset<Indicator>, a: Alert)
    requires '|' !in a.hour && Labels(Indicators(valid, a.data)) != []
    ensures !Unmistakable(valid, a)
  {
    var labels := Labels(Indicators(valid, a.data));
    var b := a.(ruleId := a.ruleId + "|" + a.agentId, agentId := Text.Join("|", labels), data := Obj([]));
    FingerprintParts(valid, a);
    FingerprintParts(valid, b);
    NothingOffered(valid);
    assert a.ruleId + "|" + (a.agentId + ("|" + b.agentId)) == b.ruleId + "|" + (b.agentId + "");
    assert b.ruleId != a.ruleId;
  }

  lemma NothingOffered(valid: iset<Indicator>)
    ensures Labels(Indicators(valid, Obj([]))) == []
  {
    IndicatorsCanonical(valid, Obj([]));
    var found := Indicators(valid, Obj([]));
    assert forall i | i in found :: Offers(Obj([]), i);
    assert forall i :: i !in found;
    assert found == [];
  }

  lemma OneBar(rule: string, agent: string, other: string, rest: string)
    requires '|' !in rule && '|' !in agent && rule + "|" + agent == other + "|" + rest
    ensures rule == other && agent == rest
  {
    var t := rule + "|" + agent;
    assert t[|other|] == '|';
    assert forall i | 0 <= i < |t| ::
      t[i] == if i < |rule| then rule[i] else if i == |rule| then '|' else agent[i - |rule| - 1];
    assert |other| == |rule|;
    assert rule == t[..|rule|] && other == t[..|other|];
    assert agent == t[|rule| + 1..] && rest == t[|other| + 1..];
  }

  lemma BarBetween(left: string, right: string)
    ensures '|' in left + ("|" + right)
  {
    assert (left + ("|" + right))[|left|] == '|';
  }

  lemma NoBarsLeft(valid: iset<Indicator>, a: Alert, b: Alert)
    requires Plain(a) && Labels(Indicators(valid, a.data)) == []
    requires '|' !in b.hour && Fingerprint(valid, b) == Fingerprint(valid, a)
    ensures b.ruleId == a.ruleId && b.agentId == a.agentId
  {
    FingerprintParts(valid, a);
    FingerprintParts(valid, b);
    var labels := Labels(Indicators(valid, b.data));
    var rest := b.agentId + if labels == [] then "" else "|" + Text.Join("|", labels);
    BarBetween(b.agentId, Text.Join("|", labels));
    Text.SplitsAt(a.hour, b.hour, a.ruleId + "|" + (a.agentId + ""), b.ruleId + "|" + rest, '|');
    OneBar(a.ruleId, a.agentId + "", b.ruleId, rest);
    assert b.agentId + "" == b.agentId && a.agentId + "" == a.agentId;
  }

  /** A fingerprint tells rule and agent exactly if neither has a vertical bar and there are no indicators. */
  lemma FingerprintDetermines(valid: iset<Indicator>, a: Alert)
    requires '|' !in a.hour
    ensures Unmistakable(valid, a) <==>
            '|' !in a.ruleId && '|' !in a.agentId && forall i | i in valid :: !Offers(a.data, i)
  {
    IndicatorsCanonical(valid, a.data);
    var found := Indicators(valid, a.data);
    assert found != [] ==> found[0] in found;
    assert |Labels(found)| == |found|;
    if '|' in a.ruleId {
      BarInRule(valid, a);
    } else if '|' in a.agentId {
      BarInAgent(valid, a);
    } else if found != [] {
      SomeLabels(valid, a);
    } else {
      forall b: Alert | '|' !in b.hour && Fingerprint(valid, b) == Fingerprint(valid, a)
        ensures b.ruleId == a.ruleId && b.agentId == a.agentId
      {
        NoBarsLeft(valid, a, b);
      }
    }
  }

  // ---- Scenarios.

  /** A member at the top of the data has one of these names, in whatever case. */
  ghost predicate TopMember(data: Json, names: set<string>) {
    data.Obj? && exists i :: 0 <= i < |data.fields| && Text.Lower(data.fields[i].key) in names
  }

  /** This text stands somewhere in the printed data. */
  ghost predicate Printed(a: Alert, part: string) {
    exists before, after :: a.printed == before + part + after
  }

  /**
   The rule decides for logins and account activity, whatever the data is; otherwise a hash comes before
   a domain, and either may be a member's name or stand anywhere in the printed data.
   */
  lemma ScenarioExactly(a: Alert)
    ensures ScenarioFor(a) == SuspiciousLogin <==> a.ruleId == "100100"
    ensures ScenarioFor(a) == AccountActivity <==> a.ruleId == "100102"
    ensures var hashed := TopMember(a.data, {"hash", "md5", "sha1", "sha256"}) || Printed(a, "sha256");
      var named := TopMember(a.data, {"domain", "query", "url", "uri"}) || Printed(a, ".test");
      a.ruleId !in {"100100", "100102"} ==>
        && (ScenarioFor(a) == SuspiciousFile <==> hashed)
        && (ScenarioFor(a) == SuspiciousDomain <==> !hashed && named)
        && (ScenarioFor(a) == SecurityAlert <==> !hashed && !named)
  {
    Text.ContainsExactly(a.printed, "sha256");
    Text.ContainsExactly(a.printed, ".test");
    TopMembers(a.data, {"hash", "md5", "sha1", "sha256"});
    TopMembers(a.data, {"domain", "query", "url", "uri"});
  }

  lemma TopMembers(data: Json, names: set<string>)
    ensures HasKey(data, names) <==> TopMember(data, names)
  {
    if data.Obj? {
      assert forall f :: f in data.fields <==> exists i :: 0 <= i < |data.fields| && data.fields[i] == f;
    }
  }

  // ---- Traces.

  /** One key, a colon, and more. */
  predicate Extends(k1: string, k2: string) {
    k1 + ":" <= k2
  }

  /** Two alerts of one trace have the same key, or one key extends the other. */
  lemma SharedTrace(k1: string, a1: string, k2: string, a2: string)
    requires TraceOf(k1, a1) == TraceOf(k2, a2)
    ensures k1 == k2 || Extends(k1, k2) || Extends(k2, k1)
  {
    var t := TraceOf(k1, a1);
    assert t[..|k1|] == k1 && t[..|k2|] == k2;
    assert t[|k1|] == ':' && t[|k2|] == ':';
    if |k1| < |k2| {
      assert k2[..|k1| + 1] == t[..|k1| + 1] == k1 + ":";
    } else if |k2| < |k1| {
      assert k1[..|k2| + 1] == t[..|k2| + 1] == k2 + ":";
    }
  }

  ghost predicate ShareATrace(k1: string, k2: string) {
    exists a1, a2 :: a1 != "" && a2 != "" && TraceOf(k1, a1) == TraceOf(k2, a2)
  }

  /** Keys can share a trace exactly if they are equal or one extends the other at a colon. */
  lemma TracesShared(k1: string, k2: string)
    ensures ShareATrace(k1, k2) <==> k1 == k2 || Extends(k1, k2) || Extends(k2, k1)
  {
    if ShareATrace(k1, k2) {
      var a1, a2 :| a1 != "" && a2 != "" && TraceOf(k1, a1) == TraceOf(k2, a2);
      SharedTrace(k1, a1, k2, a2);
    }
    if k1 == k2 {
      assert TraceOf(k1, "a") == TraceOf(k2, "a");
    } else if Extends(k1, k2) {
      ExtensionShares(k1, k2);
    } else if Extends(k2, k1) {
      ExtensionShares(k2, k1);
      var a2, a1 :| a1 != "" && a2 != "" && TraceOf(k2, a2) == TraceOf(k1, a1);
      assert TraceOf(k1, a1) == TraceOf(k2, a2);
    }
  }

  lemma ExtensionShares(k1: string, k2: string)
    requires Extends(k1, k2)
    ensures ShareATrace(k1, k2)
  {
    var more := k2[|k1| + 1..];
    assert k2 == k1 + ":" + more;
    assert TraceOf(k1, more + ":" + "a") == TraceOf(k2, "a");
  }

  lemma ExtensionHasColon(k1: string, k2: string)
    ensures Extends(k1, k2) ==> !ColonFree(k2)
  {
    if Extends(k1, k2) {
      assert k2[|k1|] == ':';
    }
  }

  /** Keys without a colon have traces of their own, whatever the alert identifiers are. */
  lemma TracesDistinct(k1: string, a1: string, k2: string, a2: string)
    requires ColonFree(k1) && ColonFree(k2) && TraceOf(k1, a1) == TraceOf(k2, a2)
    ensures k1 == k2
  {
    SharedTrace(k1, a1, k2, a2);
    ExtensionHasColon(k1, k2);
    ExtensionHasColon(k2, k1);
  }

  /** Two keys that intake accepts, and two alerts, of one trace. */
  lemma TraceCollision() returns (k1: string, a1: string, k2: string, a2: string)
    ensures 8 <= |k1| <= 128 && 8 <= |k2| <= 128 && a1 != "" && a2 != ""
    ensures k1 != k2 && TraceOf(k1, a1) == TraceOf(k2, a2)
  {
    k1, a1, k2, a2 := "wazuh-01", "a:b", "wazuh-01:a", "b";
    assert TraceOf(k1, a1) == "wazuh-01:a:b" == TraceOf(k2, a2);
  }
}
