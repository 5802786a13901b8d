/**
 The Wazuh adapter and its spool (docker/wazuh/integrations/soc_gateway_adapter.py), together with
 the gateway. Adapter processes may overlap and die at any point; requests may be lost, arrive
 late or arrive twice, and answers may be lost.
 */
module Adapters {
  import opened Basics
  import opened Sorting
  import opened Alerts
  import opened Deliveries
  import opened Protocol
  import opened Invariants
  import opened ShuffleBound
  import Text

  // ---- Keys.

  /** A record as Wazuh hands it over. */
  datatype Raw = Raw(groups: set<string>, alert: Alert)

  /** Only records of the laboratory's own rules are forwarded. */
  predicate Forwarded(a: Alert) {
    a.ruleId in {"100100", "100101", "100102"}
  }

  function Normalized(raw: Raw): Option<Alert> {
    if Forwarded(raw.alert) && "soc_lab" in raw.groups then Some(raw.alert) else None
  }

  function HexDigit(n: nat): char
    requires n < 16
  {
    "0123456789abcdef"[n]
  }

  function Hex(n: nat, digits: nat): string {
    if digits == 0 then "" else Hex(n / 16, digits - 1) + [HexDigit(n % 16)]
  }

  /** A digest: hexadecimal, and distinct for distinct texts. */
  function Digest(text: string): string {
    if text == "" then "" else Hex(text[0] as int, 6) + Digest(text[1..])
  }

  function KeyOf(a: Alert): string {
    "wazuh-" + Digest(Text.Join("|", [a.id, a.timestamp, a.agentId, a.ruleId]))
  }

  lemma {:induction false} HexColonFree(n: nat, digits: nat)
    ensures ColonFree(Hex(n, digits)) && |Hex(n, digits)| == digits
  {
    if digits > 0 {
      HexColonFree(n / 16, digits - 1);
    }
  }

  lemma {:induction false} DigestColonFree(text: string)
    ensures ColonFree(Digest(text))
  {
    if text != "" {
      HexColonFree(text[0] as int, 6);
      DigestColonFree(text[1..]);
    }
  }

  /** Keys of the adapter have no colon, so that the traces derived from them are distinct. */
  lemma KeyColonFree(a: Alert)
    ensures ColonFree(KeyOf(a))
  {
    DigestColonFree(Text.Join("|", [a.id, a.timestamp, a.agentId, a.ruleId]));
  }

  lemma {:induction false} HexInjective(m: nat, n: nat, digits: nat)
    requires Hex(m, digits) == Hex(n, digits) && m < Power16(digits) && n < Power16(digits)
    ensures m == n
  {
    if digits > 0 {
      HexColonFree(m / 16, digits - 1);
      HexColonFree(n / 16, digits - 1);
      var a, b := Hex(m, digits), Hex(n, digits);
      assert a[..digits - 1] == Hex(m / 16, digits - 1) && b[..digits - 1] == Hex(n / 16, digits - 1);
      assert a[digits - 1] == HexDigit(m % 16) && b[digits - 1] == HexDigit(n % 16);
      HexInjective(m / 16, n / 16, digits - 1);
    }
  }

  function Power16(n: nat): nat {
    if n == 0 then 1 else 16 * Power16(n - 1)
  }

  lemma {:induction false} DigestInjective(a: string, b: string)
    requires Digest(a) == Digest(b)
    ensures a == b
  {
    if a != "" { HexColonFree(a[0] as int, 6); }
    if b != "" { HexColonFree(b[0] as int, 6); }
    if a != "" && b != "" {
      var x, y := Digest(a), Digest(b);
      assert x[..6] == Hex(a[0] as int, 6) && y[..6] == Hex(b[0] as int, 6);
      assert x[6..] == Digest(a[1..]) && y[6..] == Digest(b[1..]);
      assert Power16(6) == 16777216;
      HexInjective(a[0] as int, b[0] as int, 6);
      DigestInjective(a[1..], b[1..]);
      assert a == [a[0]] + a[1..] && b == [b[0]] + b[1..];
    }
  }

  /** The parts of a key: identifier, time, agent and rule. */
  predicate PlainParts(a: Alert) {
    '|' !in a.id && '|' !in a.timestamp && '|' !in a.agentId
  }

  /** Keys tell alerts apart exactly by identifier, time, agent and rule; the data is not in them. */
  lemma KeysAgreeExactly(a: Alert, b: Alert)
    requires PlainParts(a) && PlainParts(b)
    ensures KeyOf(a) == KeyOf(b) <==>
            a.id == b.id && a.timestamp == b.timestamp && a.agentId == b.agentId && a.ruleId == b.ruleId
  {
    if KeyOf(a) == KeyOf(b) {
      KeyParts(a);
      KeyParts(b);
      Text.SplitsAt(a.id, b.id, a.timestamp + "|" + (a.agentId + "|" + a.ruleId),
                    b.timestamp + "|" + (b.agentId + "|" + b.ruleId), '|');
      Text.SplitsAt(a.timestamp, b.timestamp, a.agentId + "|" + a.ruleId, b.agentId + "|" + b.ruleId, '|');
      Text.SplitsAt(a.agentId, b.agentId, a.ruleId, b.ruleId, '|');
    }
  }

  lemma KeyParts(a: Alert)
    ensures |KeyOf(a)| >= 6 && KeyOf(a)[..6] == "wazuh-"
    ensures forall b | KeyOf(b) == KeyOf(a) ::
              a.id + "|" + (a.timestamp + "|" + (a.agentId + "|" + a.ruleId)) ==
              b.id + "|" + (b.timestamp + "|" + (b.agentId + "|" + b.ruleId))
  {
    forall b | KeyOf(b) == KeyOf(a)
      ensures a.id + "|" + (a.timestamp + "|" + (a.agentId + "|" + a.ruleId)) ==
              b.id + "|" + (b.timestamp + "|" + (b.agentId + "|" + b.ruleId))
    {
      var x, y := Text.Join("|", [a.id, a.timestamp, a.agentId, a.ruleId]),
                  Text.Join("|", [b.id, b.timestamp, b.agentId, b.ruleId]);
      assert Digest(x) == KeyOf(a)[6..] && Digest(y) == KeyOf(b)[6..];
      DigestInjective(x, y);
      Joined(a);
      Joined(b);
    }
  }

  lemma Joined(a: Alert)
    ensures Text.Join("|", [a.id, a.timestamp, a.agentId, a.ruleId]) ==
            a.id + "|" + (a.timestamp + "|" + (a.agentId + "|" + a.ruleId))
  {
    var parts := [a.id, a.timestamp, a.agentId, a.ruleId];
    assert parts[1..] == [a.timestamp, a.agentId, a.ruleId] && parts[1..][1..] == [a.agentId, a.ruleId];
    assert parts[1..][1..][1..] == [a.ruleId];
    assert Text.Join("|", [a.agentId, a.ruleId]) == a.agentId + "|" + a.ruleId;
    assert Text.Join("|", parts[1..]) == a.timestamp + "|" + (a.agentId + "|" + a.ruleId);
  }

  // ---- The adapter processes, the spool and the gateway as one system.

  datatype Request = Request(key: string, alert: Alert)

  function RequestFor(a: Alert): Request {
    Request(KeyOf(a), a)
  }

  /** How far a process has got; `todo` are the spooled files it still has to try. */
  datatype Proc =
    | Flushing(todo: seq<string>, own: Request)
    | AwaitingFile(file: Request, todo: seq<string>, own: Request)
    | Removing(file: Request, todo: seq<string>, own: Request)
    | AwaitingOwn(own: Request)
    | Writing(own: Request)

  /**
   `spool` maps file names, which are keys, to what is stored; `sent` are the requests that may
   still reach the gateway, once or more often, unless they were refused; `handled` are the alerts for
   which some process returned normally; `created` counts per key how often the gateway's queue
   answered that it was new.
   */
  datatype System = System(
    gateway: State, spool: map<string, Alert>, procs: map<nat, Proc>,
    launched: set<Request>, sent: multiset<Request>, handled: set<Request>, created: multiset<string>)

  /** What the adapter sees of a request: 202, a permanent refusal, or anything else. */
  datatype Answer = Accepted | Rejected | NoAnswer

  datatype Step =
    | Inside(event: Protocol.Event)
    | Launch(pid: nat, raw: Raw, todo: seq<string>)
    | Skip(pid: nat)
    | SendFile(pid: nat)
    | SendOwn(pid: nat)
    | Arrive(request: Request)
    | Answered(pid: nat, answer: Answer)
    | Unlink(pid: nat)
    | Write(pid: nat)
    | Die(pid: nat)

  /** The first `most` names of the spool in their order. */
  ghost predicate Listing(todo: seq<string>, names: set<string>, most: nat) {
    && Ascending(todo, Text.Less)
    && (forall f | f in todo :: f in names)
    && |todo| <= most
    && (forall f | f in names && f !in todo :: |todo| == most && forall g | g in todo :: Text.Less(g, f))
  }

  predicate Awaiting(p: Proc) {
    p.AwaitingFile? || p.AwaitingOwn?
  }

  function Asked(p: Proc): Request
    requires Awaiting(p)
  {
    if p.AwaitingFile? then p.file else p.own
  }

  /** The gateway holds this key with this alert. */
  predicate Holds(s: System, q: Request) {
    q.key in s.gateway.rows && s.gateway.rows[q.key].alert == q.alert
  }

  /** A 202 is only ever given for an alert that is in the queue; nothing else is promised. */
  ghost predicate Possible(c: Config, most: nat, s: System, e: Step) {
    match e
    case Inside(event) => !event.Intake? && Enabled(c, s.gateway, event)
    case Launch(pid, raw, todo) =>
      pid !in s.procs && Normalized(raw).Some? && Listing(todo, s.spool.Keys, most)
    case Skip(pid) => pid in s.procs && s.procs[pid].Flushing? && s.procs[pid].todo != []
    case SendFile(pid) =>
      pid in s.procs && s.procs[pid].Flushing? && s.procs[pid].todo != [] && s.procs[pid].todo[0] in s.spool
    case SendOwn(pid) => pid in s.procs && s.procs[pid].Flushing? && s.procs[pid].todo == []
    case Arrive(q) => q in s.sent
    case Answered(pid, answer) =>
      pid in s.procs && Awaiting(s.procs[pid]) && (answer.Accepted? ==> Holds(s, Asked(s.procs[pid])))
    case Unlink(pid) => pid in s.procs && s.procs[pid].Removing?
    case Write(pid) => pid in s.procs && s.procs[pid].Writing?
    case Die(pid) => pid in s.procs
  }

  function Sent(s: System, pid: nat, q: Request, p: Proc): System {
    s.(sent := s.sent + multiset{q}, procs := s.procs[pid := p])
  }

  /** A request that was refused for good is not under way any more. */
  function Remaining(sent: multiset<Request>, q: Request, answer: Answer): multiset<Request> {
    if answer.Rejected? then sent - multiset{q} else sent
  }

  function Done(s: System, pid: nat, q: Request): System {
    s.(procs := s.procs - {pid}, handled := s.handled + {q})
  }

  function AfterAnswer(s: System, pid: nat, answer: Answer): System
    requires pid in s.procs && Awaiting(s.procs[pid])
  {
    var p, rest := s.procs[pid], Remaining(s.sent, Asked(s.procs[pid]), answer);
    if p.AwaitingFile? then
      s.(sent := rest, procs := s.procs[pid :=
        if answer.Accepted? then Removing(p.file, p.todo, p.own) else Flushing(p.todo, p.own)])
    else
      match answer
      case Accepted => Done(s, pid, p.own)
      case Rejected => s.(sent := rest, procs := s.procs - {pid})
      case NoAnswer => s.(procs := s.procs[pid := Writing(p.own)])
  }

  function After(c: Config, most: nat, s: System, e: Step): System
    requires Possible(c, most, s, e)
  {
    match e
    case Inside(event) => s.(gateway := Next(c, s.gateway, event))
    case Launch(pid, raw, todo) =>
      var own := RequestFor(Normalized(raw).value);
      s.(procs := s.procs[pid := Flushing(todo, own)], launched := s.launched + {own})
    case Skip(pid) =>
      var p := s.procs[pid];
      s.(procs := s.procs[pid := Flushing(p.todo[1..], p.own)])
    case SendFile(pid) =>
      var p := s.procs[pid];
      var q := Request(p.todo[0], s.spool[p.todo[0]]);
      Sent(s, pid, q, AwaitingFile(q, p.todo[1..], p.own))
    case SendOwn(pid) => Sent(s, pid, s.procs[pid].own, AwaitingOwn(s.procs[pid].own))
    case Arrive(q) =>
      s.(gateway := Next(c, s.gateway, Intake(q.key, q.alert)),
         created := if EnqueueAnswerFor(s.gateway.rows, q.key, q.alert) == New then s.created + multiset{q.key}
                    else s.created)
    case Answered(pid, answer) => AfterAnswer(s, pid, answer)
    case Unlink(pid) =>
      var p := s.procs[pid];
      if p.file.key in s.spool then
        s.(spool := s.spool - {p.file.key}, procs := s.procs[pid := Flushing(p.todo, p.own)])
      else s.(procs := s.procs - {pid})
    case Write(pid) =>
      var q := s.procs[pid].own;
      Done(s.(spool := s.spool[q.key := q.alert]), pid, q)
    case Die(pid) => s.(procs := s.procs - {pid})
  }

  function Empty(now: int): System {
    System(Initial(now), map[], map[], {}, multiset{}, {}, multiset{})
  }

  /** A history of the whole system. */
  datatype Trail = Fresh(now: int) | On(before: Trail, step: Step)

  ghost function End(c: Config, most: nat, h: Trail): System {
    if h.Fresh? then Empty(h.now)
    else if Possible(c, most, End(c, most, h.before), h.step) then After(c, most, End(c, most, h.before), h.step)
    else End(c, most, h.before)
  }

  ghost predicate Lawful(c: Config, most: nat, h: Trail) {
    h.Fresh? || (Lawful(c, most, h.before) && Possible(c, most, End(c, most, h.before), h.step))
  }

  // ---- What every step keeps.

  /** The key is in the spool or in the gateway's queue. */
  predicate Kept(s: System, key: string) {
    key in s.spool || key in s.gateway.rows
  }

  ghost predicate Known(s: System, q: Request) {
    q in s.launched && ColonFree(q.key)
  }

  /** A process only deals in requests that were launched, and removes what was accepted. */
  ghost predicate Fair(s: System, p: Proc) {
    && Known(s, p.own)
    && (p.AwaitingFile? || p.Removing? ==> Known(s, p.file))
    && (p.Removing? ==> p.file.key in s.gateway.rows)
  }

  ghost predicate Sane(s: System) {
    && Exclusive(s.gateway)
    && (forall q | q in s.launched :: ColonFree(q.key))
    && (forall q | q in s.sent :: Known(s, q))
    && (forall k | k in s.spool :: Known(s, Request(k, s.spool[k])))
    && (forall k | k in s.gateway.rows :: Known(s, Request(k, s.gateway.rows[k].alert)))
    && (forall pid | pid in s.procs :: Fair(s, s.procs[pid]))
    && (forall q | q in s.handled :: q in s.launched && Kept(s, q.key))
    && (forall k :: s.created[k] == if k in s.gateway.rows then 1 else 0)
  }

  /** The queue only grows, and its rows keep their alert. */
  lemma GatewayStep(c: Config, s: State, e: Protocol.Event)
    requires Exclusive(s) && Enabled(c, s, e)
    ensures Exclusive(Next(c, s, e))
    ensures forall k | k in s.rows :: k in Next(c, s, e).rows && Next(c, s, e).rows[k].alert == s.rows[k].alert
    ensures forall k | k in Next(c, s, e).rows && k !in s.rows ::
              e.Intake? && e.key == k && Next(c, s, e).rows[k].alert == e.alert
    ensures e.Intake? ==> e.key in Next(c, s, e).rows
  {
    ExclusiveStep(c, s, e);
    RowsStay(c, s, e);
  }

  lemma SaneInside(c: Config, most: nat, s: System, e: Step)
    requires Sane(s) && Possible(c, most, s, e) && e.Inside?
    ensures Sane(After(c, most, s, e))
  {
    GatewayStep(c, s.gateway, e.event);
  }

  lemma SaneArrive(c: Config, most: nat, s: System, e: Step)
    requires Sane(s) && Possible(c, most, s, e) && e.Arrive?
    ensures Sane(After(c, most, s, e))
  {
    GatewayStep(c, s.gateway, Intake(e.request.key, e.request.alert));
    SaneAfterArrival(s, After(c, most, s, e), e.request);
  }

  lemma CreatedAfterArrival(s: System, n: System, q: Request, k: string)
    requires s.created[k] == if k in s.gateway.rows then 1 else 0
    requires n.created == if q.key in s.gateway.rows then s.created else s.created + multiset{q.key}
    requires q.key in n.gateway.rows && (k in s.gateway.rows ==> k in n.gateway.rows)
    requires k in n.gateway.rows && k !in s.gateway.rows ==> k == q.key
    ensures n.created[k] == if k in n.gateway.rows then 1 else 0
  {
  }

  lemma SaneAfterArrival(s: System, n: System, q: Request)
    requires Sane(s) && q in s.sent && Exclusive(n.gateway) && q.key in n.gateway.rows
    requires n == s.(gateway := n.gateway, created := n.created)
    requires n.created == if q.key in s.gateway.rows then s.created else s.created + multiset{q.key}
    requires forall k | k in s.gateway.rows ::
               k in n.gateway.rows && n.gateway.rows[k].alert == s.gateway.rows[k].alert
    requires forall k | k in n.gateway.rows && k !in s.gateway.rows :: k == q.key && n.gateway.rows[k].alert == q.alert
    ensures Sane(n)
  {
    forall k ensures n.created[k] == if k in n.gateway.rows then 1 else 0 {
      CreatedAfterArrival(s, n, q, k);
    }
    forall pid | pid in n.procs ensures Fair(n, n.procs[pid]) {
      assert Fair(s, s.procs[pid]);
    }
  }

  lemma SaneLaunch(c: Config, most: nat, s: System, e: Step)
    requires Sane(s) && Possible(c, most, s, e) && e.Launch?
    ensures Sane(After(c, most, s, e))
  {
    KeyColonFree(Normalized(e.raw).value);
  }

  lemma SaneSend(c: Config, most: nat, s: System, e: Step)
    requires Sane(s) && Possible(c, most, s, e) && (e.Skip? || e.SendFile? || e.SendOwn?)
    ensures Sane(After(c, most, s, e))
  {
  }

  /** Processes get on and alerts are handled; the rest of the system is as it was. */
  ghost predicate OnlyProcesses(s: System, n: System) {
    && n == s.(sent := n.sent, procs := n.procs, handled := n.handled)
    && (forall q | q in n.sent :: q in s.sent)
    && (forall p | p in n.procs :: p in s.procs && (n.procs[p] == s.procs[p] || Fair(s, n.procs[p])))
    && (forall q | q in n.handled :: q in s.handled || (q in s.launched && Kept(s, q.key)))
  }

  lemma SaneOnly(s: System, n: System)
    requires Sane(s) && OnlyProcesses(s, n)
    ensures Sane(n)
  {
  }

  lemma FileAnswerOnly(s: System, pid: nat, answer: Answer)
    requires Sane(s) && pid in s.procs && s.procs[pid].AwaitingFile?
    requires answer.Accepted? ==> Holds(s, s.procs[pid].file)
    ensures OnlyProcesses(s, AfterAnswer(s, pid, answer))
  {
    assert Fair(s, s.procs[pid]);
  }

  lemma AnswerOnly(s: System, pid: nat, answer: Answer)
    requires Sane(s) && pid in s.procs && Awaiting(s.procs[pid]) && (answer.Accepted? ==> Holds(s, Asked(s.procs[pid])))
    ensures OnlyProcesses(s, AfterAnswer(s, pid, answer))
  {
    if s.procs[pid].AwaitingFile? {
      FileAnswerOnly(s, pid, answer);
    } else {
      assert Fair(s, s.procs[pid]);
    }
  }

  lemma SaneAnswer(c: Config, most: nat, s: System, e: Step)
    requires Sane(s) && Possible(c, most, s, e) && e.Answered?
    ensures Sane(After(c, most, s, e))
  {
    AnswerOnly(s, e.pid, e.answer);
    SaneOnly(s, After(c, most, s, e));
  }

  lemma SaneUnlink(c: Config, most: nat, s: System, e: Step)
    requires Sane(s) && Possible(c, most, s, e) && e.Unlink?
    ensures Sane(After(c, most, s, e))
  {
    assert Fair(s, s.procs[e.pid]);
  }

  lemma SaneSpool(c: Config, most: nat, s: System, e: Step)
    requires Sane(s) && Possible(c, most, s, e) && (e.Write? || e.Die?)
    ensures Sane(After(c, most, s, e))
  {
  }

  lemma SaneStep(c: Config, most: nat, s: System, e: Step)
    requires Sane(s) && Possible(c, most, s, e)
    ensures Sane(After(c, most, s, e))
  {
    match e
    case Inside(_) => SaneInside(c, most, s, e);
    case Arrive(_) => SaneArrive(c, most, s, e);
    case Launch(_, _, _) => SaneLaunch(c, most, s, e);
    case Unlink(_) => SaneUnlink(c, most, s, e);
    case Write(_) => SaneSpool(c, most, s, e);
    case Die(_) => SaneSpool(c, most, s, e);
    case Answered(_, _) => SaneAnswer(c, most, s, e);
    case _ => SaneSend(c, most, s, e);
  }

  lemma {:induction false} SaneAlways(c: Config, most: nat, h: Trail)
    requires Lawful(c, most, h)
    ensures Sane(End(c, most, h))
  {
    if h.On? {
      SaneAlways(c, most, h.before);
      SaneStep(c, most, End(c, most, h.before), h.step);
    }
  }

  // ---- Nothing is lost, and nothing is queued twice.

  /** In every history the key of every alert that was handled is in the spool or in the queue. */
  lemma NothingLost(c: Config, most: nat, h: Trail, q: Request)
    requires Lawful(c, most, h) && q in End(c, most, h).handled
    ensures Kept(End(c, most, h), q.key)
  {
    SaneAlways(c, most, h);
  }

  /** Every key in the queue was created exactly once, however often it was sent. */
  lemma CreatedExactlyOnce(c: Config, most: nat, h: Trail, key: string)
    requires Lawful(c, most, h)
    ensures End(c, most, h).created[key] == if key in End(c, most, h).gateway.rows then 1 else 0
  {
    SaneAlways(c, most, h);
  }

  /** No two launched alerts share a key. */
  ghost predicate KeysDetermine(launched: set<Request>) {
    forall a, b | a in launched && b in launched && a.key == b.key :: a == b
  }

  /** Where the key determines the alert, it is that very alert that is kept. */
  lemma AlertKept(c: Config, most: nat, h: Trail, q: Request)
    requires Lawful(c, most, h) && q in End(c, most, h).handled && KeysDetermine(End(c, most, h).launched)
    ensures var s := End(c, most, h);
      Holds(s, q) || (q.key in s.spool && s.spool[q.key] == q.alert)
  {
    SaneAlways(c, most, h);
    var s := End(c, most, h);
    if q.key in s.spool {
      assert Known(s, Request(q.key, s.spool[q.key]));
    } else {
      assert Known(s, Request(q.key, s.gateway.rows[q.key].alert));
    }
  }

  /** A file leaves the spool only once its key is in the queue: with its alert, if keys determine alerts. */
  lemma RemovedAfterAcceptance(c: Config, most: nat, h: Trail, file: string)
    requires Lawful(c, most, h) && h.On?
    requires file in End(c, most, h.before).spool && file !in End(c, most, h).spool
    ensures h.step.Unlink? && file in End(c, most, h).gateway.rows
    ensures KeysDetermine(End(c, most, h).launched) ==>
              End(c, most, h).gateway.rows[file].alert == End(c, most, h.before).spool[file]
  {
    var s := End(c, most, h.before);
    SaneAlways(c, most, h.before);
    OnlyUnlinkRemoves(c, most, s, h.step, file);
    assert Known(s, Request(file, s.spool[file]));
    assert Known(s, Request(file, s.gateway.rows[file].alert));
  }

  lemma OnlyUnlinkRemoves(c: Config, most: nat, s: System, e: Step, file: string)
    requires Sane(s) && Possible(c, most, s, e) && file in s.spool && file !in After(c, most, s, e).spool
    ensures e.Unlink? && After(c, most, s, e).gateway == s.gateway && After(c, most, s, e).launched == s.launched
    ensures file in s.gateway.rows
  {
    if e.Unlink? {
      assert Fair(s, s.procs[e.pid]);
    }
  }

  // ---- The gateway's own history within that of the system.

  ghost function GatewayRun(h: Trail): Run {
    if h.Fresh? then From(Initial(h.now))
    else match h.step
      case Inside(event) => Then(GatewayRun(h.before), event)
      case Arrive(q) => Then(GatewayRun(h.before), Intake(q.key, q.alert))
      case _ => GatewayRun(h.before)
  }

  lemma SentColonFree(c: Config, most: nat, h: Trail, q: Request)
    requires Lawful(c, most, h) && q in End(c, most, h).sent
    ensures ColonFree(q.key)
  {
    SaneAlways(c, most, h);
  }

  lemma RunGoesOn(c: Config, r: Run, e: Protocol.Event)
    requires Execution(c, r) && Enabled(c, Final(c, r), e) && ColonFreeIntake(r) && (e.Intake? ==> ColonFree(e.key))
    ensures Execution(c, Then(r, e)) && Start(Then(r, e)) == Start(r) && ColonFreeIntake(Then(r, e))
    ensures Final(c, Then(r, e)) == Next(c, Final(c, r), e)
  {
    assert Start(Then(r, e)) == Start(r);
  }

  lemma {:induction false} GatewayRuns(c: Config, most: nat, h: Trail)
    requires Lawful(c, most, h)
    ensures Execution(c, GatewayRun(h)) && Start(GatewayRun(h)) == Initial(Beginning(h))
    ensures Final(c, GatewayRun(h)) == End(c, most, h).gateway && ColonFreeIntake(GatewayRun(h))
  {
    if h.Fresh? {
      assert Start(GatewayRun(h)) == Initial(h.now);
    } else {
      GatewayRuns(c, most, h.before);
      var r := GatewayRun(h.before);
      match h.step
      case Arrive(q) => ArrivalGoesOn(c, most, h.before, q, r);
      case Inside(e) => InsideGoesOn(c, most, h.before, e, r);
      case _ => OtherStepsSpareGateway(c, most, End(c, most, h.before), h.step);
    }
  }

  lemma ArrivalGoesOn(c: Config, most: nat, h: Trail, q: Request, r: Run)
    requires Lawful(c, most, On(h, Arrive(q)))
    requires Execution(c, r) && Final(c, r) == End(c, most, h).gateway && ColonFreeIntake(r)
    ensures var n := Then(r, Intake(q.key, q.alert));
      && Execution(c, n) && Start(n) == Start(r) && ColonFreeIntake(n)
      && Final(c, n) == End(c, most, On(h, Arrive(q))).gateway
  {
    SentColonFree(c, most, h, q);
    RunGoesOn(c, r, Intake(q.key, q.alert));
  }

  lemma InsideGoesOn(c: Config, most: nat, h: Trail, e: Protocol.Event, r: Run)
    requires Lawful(c, most, On(h, Inside(e)))
    requires Execution(c, r) && Final(c, r) == End(c, most, h).gateway && ColonFreeIntake(r)
    ensures Execution(c, Then(r, e)) && Start(Then(r, e)) == Start(r) && ColonFreeIntake(Then(r, e))
    ensures Final(c, Then(r, e)) == End(c, most, On(h, Inside(e))).gateway
  {
    RunGoesOn(c, r, e);
  }

  lemma OtherStepsSpareGateway(c: Config, most: nat, s: System, e: Step)
    requires Possible(c, most, s, e) && !e.Arrive? && !e.Inside?
    ensures After(c, most, s, e).gateway == s.gateway
  {
  }

  function Beginning(h: Trail): int {
    if h.Fresh? then h.now else Beginning(h.before)
  }

  /** It is a history of the protocol, and its keys have no colon, so that traces are distinct. */
  lemma GatewayIsLawful(c: Config, most: nat, h: Trail)
    requires Lawful(c, most, h)
    ensures Execution(c, GatewayRun(h)) && AdmissibleRun(c, GatewayRun(h))
    ensures Final(c, GatewayRun(h)) == End(c, most, h).gateway
  {
    GatewayRuns(c, most, h);
    ColonFreeIsAdmissible(c, GatewayRun(h));
  }

  /**
   From Wazuh to Shuffle: a handled alert is kept, queued under its key at most once, and triggers
   at most one accepted execution beyond the retries that analysts allowed.
   */
  lemma EndToEnd(c: Config, most: nat, h: Trail, q: Request)
    requires Lawful(c, most, h) && q in End(c, most, h).handled && KeysDetermine(End(c, most, h).launched)
    ensures var s := End(c, most, h);
      && (Holds(s, q) || (q.key in s.spool && s.spool[q.key] == q.alert))
      && s.created[q.key] <= 1
      && s.gateway.world.accepted[TraceOf(q.key, q.alert.id)] <=
           1 + Retries(c, GatewayRun(h), TraceOf(q.key, q.alert.id))
      && (forall k | k in s.gateway.rows && s.gateway.rows[k].trace == TraceOf(q.key, q.alert.id) :: k == q.key)
  {
    AlertKept(c, most, h, q);
    CreatedExactlyOnce(c, most, h, q.key);
    GatewayIsLawful(c, most, h);
    AcceptedBounded(c, GatewayRun(h), TraceOf(q.key, q.alert.id));
    InvAlways(c, GatewayRun(h));
    SaneAlways(c, most, h);
    var s := End(c, most, h);
    forall k | k in s.gateway.rows && s.gateway.rows[k].trace == TraceOf(q.key, q.alert.id) ensures k == q.key {
      assert Known(s, Request(k, s.gateway.rows[k].alert));
      TracesDistinct(k, s.gateway.rows[k].alert.id, q.key, q.alert.id);
    }
  }

  // ---- Alerts are kept exactly if their keys tell them apart.

  /** Only these alerts are handed to the adapter. */
  ghost predicate Over(h: Trail, alerts: iset<Alert>) {
    h.Fresh? || (Over(h.before, alerts) && (h.step.Launch? ==> h.step.raw.alert in alerts))
  }

  lemma Continue(c: Config, most: nat, h: Trail, e: Step, alerts: iset<Alert>)
    requires Lawful(c, most, h) && Possible(c, most, End(c, most, h), e)
    ensures Lawful(c, most, On(h, e)) && End(c, most, On(h, e)) == After(c, most, End(c, most, h), e)
    ensures Over(h, alerts) && (e.Launch? ==> e.raw.alert in alerts) ==> Over(On(h, e), alerts)
  {
  }

  function Unanswered(h: Trail, pid: nat): Trail {
    On(On(On(h, SendOwn(pid)), Answered(pid, NoAnswer)), Write(pid))
  }

  /** A process that gets no answer spools its alert, over whatever was stored under the key. */
  lemma UnansweredSpools(c: Config, most: nat, h: Trail, pid: nat, own: Request, alerts: iset<Alert>)
    requires Lawful(c, most, h) && Over(h, alerts)
    requires pid in End(c, most, h).procs && End(c, most, h).procs[pid] == Flushing([], own)
    ensures var s, n := End(c, most, h), End(c, most, Unanswered(h, pid));
      && Lawful(c, most, Unanswered(h, pid)) && Over(Unanswered(h, pid), alerts)
      && n.spool == s.spool[own.key := own.alert] && n.handled == s.handled + {own}
      && n.gateway == s.gateway && n.procs == s.procs - {pid}
  {
    Continue(c, most, h, SendOwn(pid), alerts);
    Continue(c, most, On(h, SendOwn(pid)), Answered(pid, NoAnswer), alerts);
    Continue(c, most, On(On(h, SendOwn(pid)), Answered(pid, NoAnswer)), Write(pid), alerts);
  }

  /** Two alerts under one key, and no gateway: both are handled, and the first is kept nowhere. */
  lemma OverwrittenAlert(c: Config, most: nat, a: Alert, b: Alert, alerts: iset<Alert>) returns (h: Trail)
    requires a != b && KeyOf(a) == KeyOf(b) && Forwarded(a) && Forwarded(b) && a in alerts && b in alerts
    ensures Lawful(c, most, h) && Over(h, alerts) && RequestFor(a) in End(c, most, h).handled
    ensures var s := End(c, most, h);
      !Holds(s, RequestFor(a)) && KeyOf(a) in s.spool && s.spool[KeyOf(a)] == b
  {
    h := Fresh(0);
    var first, second := Launch(0, Raw({"soc_lab"}, a), []), Launch(1, Raw({"soc_lab"}, b), []);
    Continue(c, most, h, first, alerts);
    Continue(c, most, On(h, first), second, alerts);
    h := On(On(h, first), second);
    UnansweredSpools(c, most, h, 0, RequestFor(a), alerts);
    h := Unanswered(h, 0);
    UnansweredSpools(c, most, h, 1, RequestFor(b), alerts);
    h := Unanswered(h, 1);
  }

  lemma {:induction false} LaunchedAlerts(c: Config, most: nat, h: Trail, alerts: iset<Alert>)
    requires Lawful(c, most, h) && Over(h, alerts)
    ensures forall q | q in End(c, most, h).launched ::
              q == RequestFor(q.alert) && q.alert in alerts && Forwarded(q.alert)
  {
    if h.On? {
      LaunchedAlerts(c, most, h.before, alerts);
      LaunchedStep(c, most, End(c, most, h.before), h.step);
    }
  }

  lemma LaunchedStep(c: Config, most: nat, s: System, e: Step)
    requires Possible(c, most, s, e)
    ensures After(c, most, s, e).launched ==
            s.launched + if e.Launch? then {RequestFor(Normalized(e.raw).value)} else {}
  {
  }

  ghost predicate KeptOver(c: Config, most: nat, alerts: iset<Alert>, h: Trail) {
    Lawful(c, most, h) && Over(h, alerts) ==>
      var s := End(c, most, h);
      forall q | q in s.handled :: Holds(s, q) || (q.key in s.spool && s.spool[q.key] == q.alert)
  }

  /**
   Every handled alert is kept itself, in every history over a set of alerts, if and only if no two
   alerts of that set that are forwarded have the same key.
   */
  lemma KeptExactly(c: Config, most: nat, alerts: iset<Alert>)
    ensures (forall h :: KeptOver(c, most, alerts, h)) <==>
            (forall a, b | a in alerts && b in alerts && Forwarded(a) && Forwarded(b) && KeyOf(a) == KeyOf(b) :: a == b)
  {
    if a, b :| a in alerts && b in alerts && Forwarded(a) && Forwarded(b) && KeyOf(a) == KeyOf(b) && a != b {
      var h := OverwrittenAlert(c, most, a, b, alerts);
      assert !KeptOver(c, most, alerts, h);
    } else {
      forall h ensures KeptOver(c, most, alerts, h) {
        if Lawful(c, most, h) && Over(h, alerts) {
          LaunchedAlerts(c, most, h, alerts);
          forall q | q in End(c, most, h).handled
            ensures Holds(End(c, most, h), q) ||
                    (q.key in End(c, most, h).spool && End(c, most, h).spool[q.key] == q.alert)
          {
            AlertKept(c, most, h, q);
          }
        }
      }
    }
  }
}
