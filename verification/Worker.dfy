/**
 The worker as it runs: one delivery is claimed, enriched, correlated, handed off and finished,
 with every exception ending in one recorded failure (src/soc_integration/worker.py and
 pipeline.py). Each method is shown to take steps of the protocol and nothing else.
 */
module Workers {
  import opened Basics
  import opened Alerts
  import opened Deliveries
  import opened Approvals
  import opened Protocol
  import opened Attempts
  import opened Progress
  import opened Timestamps
  import opened DeliveryStores
  import opened IncidentStores
  import opened ApprovalStores
  import Http = RetryingClient

  /** What the worker hears from other systems. */
  datatype Heard =
    | Asked(ok: bool)
    | Listed(found: FindReply)
    | CaseAnswered(caseAnswer: Http.Attempt, caseBody: Body<CaseId>)
    | TriggerAnswered(answer: Http.Attempt, body: Body<string>)

  predicate Bad(h: Heard) {
    h == Asked(false) || h == Listed(FindError)
  }

  /** Nothing bad was heard in between. */
  ghost predicate Untroubled(before: seq<Heard>, after: seq<Heard>) {
    before <= after && forall i | |before| <= i < |after| :: !Bad(after[i])
  }

  /** The last thing heard in between was bad, or the answer to a request. */
  ghost predicate Troubled(before: seq<Heard>, after: seq<Heard>) {
    && before < after
    && var last := after[|after| - 1];
    && (Bad(last) || last.CaseAnswered? || last.TriggerAnswered?)
  }

  predicate CaseHeard(heard: seq<Heard>, i: nat, answer: Http.Attempt) {
    i < |heard| && heard[i].CaseAnswered? && heard[i].caseAnswer == answer
  }

  /** MISP, TheHive and Shuffle, whose answers are arbitrary within what Enabled allows. */
  class Externals {
    var world: World
    /** The cases on which a comment was asked for. */
    var comments: seq<CaseId>
    /** All answers so far. */
    ghost var heard: seq<Heard>

    constructor (world: World)
      ensures this.world == world && comments == [] && heard == []
    {
      this.world, comments, heard := world, [], [];
    }

    /** Any call that only succeeds or fails. */
    method Ask() returns (ok: bool)
      modifies this`heard
      ensures heard == old(heard) + [Asked(ok)]
    {
      ok := *;
      heard := heard + [Asked(ok)];
    }

    method FindCaseByTag(fingerprint: string) returns (found: FindReply)
      modifies this`heard
      ensures heard == old(heard) + [Listed(found)]
      ensures found.Found? ==> found.id in world.cases && world.cases[found.id] == fingerprint
      ensures found.NoCase? ==> fingerprint !in world.cases.Values
    {
      found := *;
      if (found.Found? && !(found.id in world.cases && world.cases[found.id] == fingerprint))
         || (found.NoCase? && fingerprint in world.cases.Values) {
        found := FindError;
      }
      heard := heard + [Listed(found)];
    }

    /** One create request; TheHive may act on it now, later or never, whatever the answer. */
    method PostCase(fingerprint: string)
      returns (created: Option<CaseId>, late: bool, answer: Http.Attempt, body: Body<CaseId>)
      modifies this`world, this`heard
      ensures heard == old(heard) + [CaseAnswered(answer, body)]
      ensures created.Some? ==> !late && created.value !in old(world).cases
      ensures body.Names? ==> created == Some(body.value)
      ensures world == Posted(old(world), fingerprint, created, late)
    {
      created, late, answer, body := *, *, *, *;
      if created.Some? && (late || created.value in world.cases) {
        created := None;
      }
      if body.Names? && created != Some(body.value) {
        body := NamesNothing;
      }
      world := Posted(world, fingerprint, created, late);
      heard := heard + [CaseAnswered(answer, body)];
    }

    /** One trigger request, never repeated; it may be accepted before, after or never. */
    method Trigger(trace: string) returns (accepted: bool, answer: Http.Attempt, body: Body<string>)
      modifies this`world, this`heard
      ensures heard == old(heard) + [TriggerAnswered(answer, body)]
      ensures Denies(answer) ==> !accepted
      ensures world == Sent(old(world), trace, accepted, Denies(answer))
    {
      accepted, answer, body := *, *, *;
      if Denies(answer) {
        accepted := false;
      }
      world := Sent(world, trace, accepted, Denies(answer));
      heard := heard + [TriggerAnswered(answer, body)];
    }

    /** A comment on a case, which may fail. */
    method AddComment(id: CaseId) returns (ok: bool)
      modifies this`comments, this`heard
      ensures comments == old(comments) + [id] && heard == old(heard) + [Asked(ok)]
    {
      ok := *;
      comments, heard := comments + [id], heard + [Asked(ok)];
    }
  }

  function SentOnly(w: World, t: string): World {
    w.(sent := w.sent + multiset{t}, underway := w.underway + multiset{t})
  }

  function AcceptedToo(w: World, t: string, accepted: bool): World {
    if accepted then w.(underway := w.underway - multiset{t}, accepted := w.accepted + multiset{t}) else w
  }

  /** A request was sent; then possibly accepted, or answered with a refusal. */
  function Sent(w: World, t: string, accepted: bool, refused: bool): World {
    var v := AcceptedToo(SentOnly(w, t), t, accepted);
    if refused then v.(underway := v.underway - multiset{t}) else v
  }

  /** Sending, and the acceptance that may follow at once. */
  lemma SendWorks(c: Config, s: State, m: State, accepted: bool)
    requires Works(c, s, m) && m.pc.HandoffReserved? && m.pc.key in m.rows
    ensures var trace := Held(m).trace;
      Works(c, s, m.(world := AcceptedToo(SentOnly(m.world, trace), trace, accepted),
                     pc := Triggering(m.pc.key, m.pc.incident, m.pc.disposition)))
  {
    WorkStep(c, s, m, SendTrigger);
    if accepted {
      WorkStep(c, s, Protocol.Next(c, m, SendTrigger), ShuffleAccepts(Held(m).trace));
    }
  }

  /** Without a webhook there is nothing to hand off. */
  lemma NotHooked(c: Config, s: State)
    requires s.pc.Handing? && s.pc.key in s.rows && ScenarioFor(s.rows[s.pc.key].alert) !in c.webhooks
    ensures Works(c, s, s.(pc := Proposing(s.pc.key, s.pc.incident, s.pc.disposition, None)))
  {
    WorkStep(c, s, s, BeginHandoff);
  }

  /** The clock moves on, and the failure is recorded. */
  lemma FailureWorks(c: Config, s: State, finish: Instant, logged: bool)
    requires s.pc.Failing? && s.pc.key in s.rows
    ensures var row := Held(s);
      var delay := RetryDelay(c.backoff, row.attempts);
      Works(c, s, s.(rows := s.rows[s.pc.key := FailedOnce(row, s.pc.error, c.maxAttempts, delay, finish)],
                     pc := Idle, now := finish, stopped := !logged))
  {
    WorkStep(c, s, s, Clock(finish));
    WorkStep(c, s, s.(now := finish), Settle(logged));
  }

  /** Every retry that can still be scheduled falls within the calendar. */
  ghost predicate Headroom(c: Config, now: Instant) {
    forall a: nat | a < c.maxAttempts :: now + RetryDelay(c.backoff, a) < END
  }

  lemma DelayNotNegative(backoff: nat, attempts: nat)
    ensures RetryDelay(backoff, attempts) >= 0
    ensures RetryDelay(backoff, attempts) == backoff * Pow2(if attempts == 0 then 0 else attempts - 1)
  {
    DoubledNotNegative(backoff, if attempts <= 1 then 0 else attempts - 1);
    DoubledIsProduct(backoff, if attempts <= 1 then 0 else attempts - 1);
  }

  /** What becomes of a row in processing: an end or a later retry, as its attempts demand. */
  ghost predicate Concluded(c: Config, before: Row, after: Row) {
    && after.attempts == before.attempts
    && after.alert == before.alert && after.trace == before.trace && after.created == before.created
    && (after.status == Completed || after.status == Retrying || after.status == Failed)
    && (after.status == Completed <==> after.lastError.None?)
    && (after.status == Failed ==> after.attempts >= c.maxAttempts)
    && (after.status == Retrying ==> after.attempts < c.maxAttempts && after.next.Some?)
    && (after.status == Completed ==> after.result.Some? && after.result.value.scenario == ScenarioFor(after.alert))
  }

  /** When one round of the loop begins and ends. */
  datatype Round = Round(start: Instant, finish: Instant)

  ghost predicate RestartsBy(c: Config, s: State, startup: Instant, logged: bool, m: State, n: State) {
    && Protocol.Enabled(c, s.(now := startup), Crash(logged))
    && m == Protocol.Next(c, s.(now := startup), Crash(logged)) && Works(c, m, n)
  }

  /** A restart in any state of the worker, then work of its own. */
  ghost predicate Restarts(c: Config, s: State, startup: Instant, n: State) {
    exists logged, m :: RestartsBy(c, s, startup, logged, m, n)
  }

  lemma Restarting(c: Config, s: State, logged: bool)
    requires logged || Interrupted(s.rows)
    ensures Protocol.Enabled(c, s, Crash(logged))
    ensures Protocol.Next(c, s, Crash(logged)) ==
            s.(rows := AllRecovered(s.rows, s.now), pc := Idle, stopped := !logged)
  {
  }

  lemma TriggerJudged(answer: Http.Attempt, body: Body<string>)
    ensures answer.Response? && answer.status >= 400 <==> JudgeTrigger(answer, body) == Refused
    ensures answer.Timeout? || answer.Unreachable? ==> JudgeTrigger(answer, body) == Ambiguous("IntegrationError")
    ensures answer.Response? && answer.status < 400 ==>
              JudgeTrigger(answer, body) ==
              if body.Unreadable? then Ambiguous("JSONDecodeError")
              else Accepted(if body.Names? && body.value != "" then Some(body.value) else None)
  {
  }

  lemma PostJudged(c: Config, posts: nat, seen: Http.Attempt, body: Body<CaseId>)
    ensures var v := JudgePost(c, posts, seen, body);
      && (v == Again <==> (seen.Response? ==> seen.status in {429, 502, 503, 504}) && posts + 1 < c.clientAttempts)
      && (v != Again && !(seen.Response? && seen.status < 400) ==> v == Abandon("IntegrationError"))
      && (v != Again && seen.Response? && seen.status < 400 ==>
            match body
            case Unreadable => v == Abandon("JSONDecodeError")
            case NamesNothing => v == Abandon("RuntimeError")
            case Names(id) => v == Opened(id))
  {
  }

  lemma SomeInterrupted(rows: Rows)
    ensures |WithStatus(rows, Processing)| > 0 <==> Interrupted(rows)
  {
    if |WithStatus(rows, Processing)| > 0 {
      var k :| k in WithStatus(rows, Processing);
    }
    if k :| k in rows && rows[k].status == Processing {
      assert k in WithStatus(rows, Processing);
    }
  }

  /** An identifier that is not in use. */
  method NewIdentifier(used: set<ApprovalId>) returns (id: ApprovalId)
    ensures id !in used
  {
    id := 0;
    var left := used;
    while id in left
      invariant left <= used && forall i | i in used && i !in left :: i < id
      decreases left
    {
      left := left - {id};
      id := id + 1;
    }
  }

  /** Cases are added at most. */
  ghost predicate MoreCases(w: World, v: World) {
    && v == w.(cases := v.cases, opening := v.opening)
    && forall id | id in w.cases :: id in v.cases && v.cases[id] == w.cases[id]
  }

  /**
   What the pipeline makes of a fingerprint, given the incidents and TheHive's cases before and after. A
   recorded case is reused, a reservation without a case leaves the delivery pending, and nothing else
   happens; otherwise the case is one that TheHive had, or a new one, and is recorded. Whatever is raised
   leaves no reservation behind, and nothing recorded unless only the audit line was lost.
   */
  ghost predicate Correlated(
    f: string, before: map<string, Option<CaseId>>, after: map<string, Option<CaseId>>,
    known: map<CaseId, string>, cases: map<CaseId, string>, a: PipelineAnswer)
  {
    if f in before then
      && after == before && cases == known
      && (a.Answer? ==> a.incident == before[f] && a.disposition == if before[f].Some? then Reused else Pending)
    else if a.Answer? then
      && a.incident.Some? && after == before[f := a.incident]
      && a.incident.value in cases && cases[a.incident.value] == f
      && a.disposition == if a.incident.value in known then Reused else Deliveries.Created
    else if a.error == "OSError" then
      exists id :: id in cases && cases[id] == f && after == before[f := Some(id)]
    else
      after == before
  }

  datatype PipelineAnswer = Answer(incident: Option<CaseId>, disposition: Disposition) | PipelineRaised(error: string)

  datatype HandoffAnswer = Handed(execution: Option<string>) | HandoffRaised(error: string)

  class DeliveryWorker {
    const c: Config
    const store: DeliveryStore
    const incidents: IncidentStore
    const approvals: ApprovalStore
    const ext: Externals

    constructor (c: Config, store: DeliveryStore, incidents: IncidentStore, approvals: ApprovalStore, ext: Externals)
      ensures this.c == c && this.store == store && this.incidents == incidents
      ensures this.approvals == approvals && this.ext == ext
    {
      this.c, this.store, this.incidents, this.approvals, this.ext := c, store, incidents, approvals, ext;
    }

    /** The state of the protocol while the worker is at `pc`. */
    ghost function View(pc: Pc, now: int): State
      reads store, incidents, approvals, ext`world
    {
      State(now, store.rows, store.handoffs, incidents.table, approvals.Contents(), pc, false, ext.world)
    }

    /** The same while the worker holds nothing: between two rounds, or after an exception has ended its loop. */
    ghost function Rest(stopped: bool, now: int): State
      reads store, incidents, approvals, ext`world
    {
      View(Idle, now).(stopped := stopped)
    }

    function AfterPipeline(k: string, a: PipelineAnswer): Pc {
      if a.Answer? then Handing(k, a.incident, a.disposition) else Failing(k, a.error)
    }

    /** The pipeline's audit line, which may fail like any other call. */
    method NoteResult(k: string, incident: Option<CaseId>, d: Disposition, ghost now: int) returns (a: PipelineAnswer)
      requires k in store.rows
      modifies ext`heard
      ensures a == Answer(incident, d) || a == PipelineRaised("OSError")
      ensures ext.heard == old(ext.heard) + [Asked(a.Answer?)]
      ensures Works(c, View(Auditing(k, incident, d), now), View(AfterPipeline(k, a), now))
    {
      ghost var s := View(Auditing(k, incident, d), now);
      var ok := ext.Ask();
      WorkStep(c, s, s, Note(ok));
      a := if ok then Answer(incident, d) else PipelineRaised("OSError");
    }

    function AfterFind(k: string, found: FindReply): Pc {
      match found
      case Found(id) => Auditing(k, Some(id), Reused)
      case NoCase => Creating(k, 0)
      case FindError => Failing(k, "IntegrationError")
    }

    /** The lookup by tag: the case found is recorded, and an error gives the reservation up. */
    method Find(k: string, fingerprint: string, ghost now: int) returns (found: FindReply)
      requires k in store.rows && fingerprint == Fingerprint(c.valid, store.rows[k].alert)
      requires fingerprint in incidents.table && incidents.table[fingerprint].None?
      modifies incidents, ext`heard
      ensures Works(c, old(View(Finding(k), now)), View(AfterFind(k, found), now))
      ensures ext.heard == old(ext.heard) + [Listed(found)]
      ensures found.Found? ==>
                && found.id in ext.world.cases && ext.world.cases[found.id] == fingerprint
                && incidents.table == old(incidents.table)[fingerprint := Some(found.id)]
      ensures found.NoCase? ==> fingerprint !in ext.world.cases.Values && incidents.table == old(incidents.table)
      ensures found.FindError? ==> incidents.table == old(incidents.table) - {fingerprint}
    {
      ghost var s := View(Finding(k), now);
      found := ext.FindCaseByTag(fingerprint);
      WorkStep(c, s, s, FindCase(found));
      match found
      case Found(id) =>
        incidents.Complete(fingerprint, id);
      case NoCase =>
      case FindError =>
        incidents.Release(fingerprint);
    }

    /** What follows under a fresh reservation: give up, reuse the case found, or open one. */
    method LookUp(k: string, fingerprint: string, ghost now: int) returns (a: PipelineAnswer)
      requires k in store.rows && fingerprint == Fingerprint(c.valid, store.rows[k].alert)
      requires fingerprint in incidents.table && incidents.table[fingerprint].None?
      modifies incidents, ext`world, ext`heard
      ensures Works(c, old(View(Finding(k), now)), View(AfterPipeline(k, a), now))
      ensures a.Answer? ==> Untroubled(old(ext.heard), ext.heard)
      ensures a.PipelineRaised? ==> Troubled(old(ext.heard), ext.heard)
      ensures MoreCases(old(ext.world), ext.world)
      ensures Correlated(fingerprint, old(incidents.table) - {fingerprint}, incidents.table,
                         old(ext.world).cases, ext.world.cases, a)
    {
      ghost var before := incidents.table - {fingerprint};
      assert incidents.table == before[fingerprint := None];
      var found := Find(k, fingerprint, now);
      match found
      case FindError =>
        a := PipelineRaised("IntegrationError");
      case Found(id) =>
        a := NoteResult(k, Some(id), Reused, now);
        assert incidents.table == before[fingerprint := Some(id)];
      case NoCase =>
        a := OpenCase(k, fingerprint, now);
    }

    /** The reservation of the incident; a known one is reused, or pending. */
    method ReserveOrReuse(k: string, fingerprint: string, ghost now: int) returns (a: PipelineAnswer)
      requires k in store.rows && fingerprint == Fingerprint(c.valid, store.rows[k].alert)
      modifies incidents, ext`world, ext`heard
      ensures Works(c, old(View(Reserving(k), now)), View(AfterPipeline(k, a), now))
      ensures a.Answer? ==> Untroubled(old(ext.heard), ext.heard)
      ensures a.PipelineRaised? ==> Troubled(old(ext.heard), ext.heard)
      ensures MoreCases(old(ext.world), ext.world)
      ensures Correlated(fingerprint, old(incidents.table), incidents.table, old(ext.world).cases, ext.world.cases, a)
    {
      ghost var s := View(Reserving(k), now);
      var reserved, existing := incidents.Reserve(fingerprint);
      WorkStep(c, s, s, ReserveIncident);
      if reserved {
        assert incidents.table - {fingerprint} == old(incidents.table);
        a := LookUp(k, fingerprint, now);
      } else {
        a := NoteResult(k, existing, if existing.Some? then Reused else Pending, now);
      }
    }

    /** The incident pipeline: enrich, reserve, look up, create, complete or release. */
    method Correlate(k: string, ghost now: int) returns (a: PipelineAnswer)
      requires k in store.rows
      modifies incidents, ext`world, ext`heard
      ensures Works(c, old(View(Enriching(k), now)), View(AfterPipeline(k, a), now))
      ensures a.Answer? ==> Untroubled(old(ext.heard), ext.heard)
      ensures a.PipelineRaised? ==> Troubled(old(ext.heard), ext.heard)
      ensures MoreCases(old(ext.world), ext.world)
      ensures Correlated(Fingerprint(c.valid, store.rows[k].alert), old(incidents.table), incidents.table,
                         old(ext.world).cases, ext.world.cases, a)
              || (a == PipelineRaised("IntegrationError") && incidents.table == old(incidents.table))
    {
      ghost var s := View(Enriching(k), now);
      var ok := ext.Ask();
      WorkStep(c, s, s, Enrich(ok));
      if ok {
        a := ReserveOrReuse(k, Fingerprint(c.valid, store.rows[k].alert), now);
      } else {
        a := PipelineRaised("IntegrationError");
      }
    }

    function AfterPost(k: string, posts: nat, v: PostVerdict): Pc {
      match v
      case Again => Creating(k, posts + 1)
      case Abandon(error) => Failing(k, error)
      case Opened(id) => Observing(k, id)
    }

    /** One create request; its answer can name only the case that it created. */
    method SendRequest(k: string, fingerprint: string, posts: nat, ghost now: int)
      returns (created: Option<CaseId>, answer: Http.Attempt, read: Body<CaseId>)
      requires k in store.rows && fingerprint == Fingerprint(c.valid, store.rows[k].alert) && posts < c.clientAttempts
      modifies ext`world, ext`heard
      ensures ext.heard == old(ext.heard) + [CaseAnswered(answer, read)]
      ensures Works(c, old(View(Creating(k, posts), now)), View(AwaitingCase(k, posts, created), now))
      ensures MoreCases(old(ext.world), ext.world)
      ensures read.Names? ==>
                && created == Some(read.value) && read.value !in old(ext.world).cases
                && read.value in ext.world.cases && ext.world.cases[read.value] == fingerprint
    {
      ghost var s := View(Creating(k, posts), now);
      var late;
      created, late, answer, read := ext.PostCase(fingerprint);
      WorkStep(c, s, s, SendCase(created, late));
    }

    /** One create request and its answer; the reservation is released when the call gives up. */
    method Post(k: string, fingerprint: string, posts: nat, ghost now: int)
      returns (v: PostVerdict, ghost seen: Http.Attempt, ghost body: Body<CaseId>)
      requires k in store.rows && fingerprint == Fingerprint(c.valid, store.rows[k].alert) && posts < c.clientAttempts
      requires fingerprint in incidents.table && incidents.table[fingerprint].None?
      modifies incidents, ext`world, ext`heard
      ensures ext.heard == old(ext.heard) + [CaseAnswered(seen, body)]
      ensures Works(c, old(View(Creating(k, posts), now)), View(AfterPost(k, posts, v), now))
      ensures v == Again <==> (seen.Response? ==> seen.status in {429, 502, 503, 504}) && posts + 1 < c.clientAttempts
      ensures v != Again && !(seen.Response? && seen.status < 400) ==> v == Abandon("IntegrationError")
      ensures v != Again && seen.Response? && seen.status < 400 ==>
                match body
                case Unreadable => v == Abandon("JSONDecodeError")
                case NamesNothing => v == Abandon("RuntimeError")
                case Names(id) => v == Opened(id)
      ensures MoreCases(old(ext.world), ext.world)
      ensures v.Opened? ==>
                v.id !in old(ext.world).cases && v.id in ext.world.cases && ext.world.cases[v.id] == fingerprint
      ensures incidents.table == if v.Abandon? then old(incidents.table) - {fingerprint} else old(incidents.table)
    {
      ghost var s := View(Creating(k, posts), now);
      var created, answer, read := SendRequest(k, fingerprint, posts, now);
      WorkStep(c, s, View(AwaitingCase(k, posts, created), now), CaseReply(answer, read));
      v, seen, body := JudgePost(c, posts, answer, read), answer, read;
      PostJudged(c, posts, answer, read);
      if v.Abandon? {
        incidents.Release(fingerprint);
      }
    }

    /** The observables of a new case, then the record of it. */
    method AddObservables(k: string, fingerprint: string, id: CaseId, ghost now: int) returns (a: PipelineAnswer)
      requires k in store.rows && fingerprint == Fingerprint(c.valid, store.rows[k].alert)
      requires fingerprint in incidents.table && incidents.table[fingerprint].None?
      modifies incidents, ext`heard
      ensures ext.heard == old(ext.heard) + if a == PipelineRaised("IntegrationError") then [Asked(false)]
                                            else [Asked(true), Asked(a.Answer?)]
      ensures Works(c, old(View(Observing(k, id), now)), View(AfterPipeline(k, a), now))
      ensures a in {Answer(Some(id), Deliveries.Created), PipelineRaised("IntegrationError"), PipelineRaised("OSError")}
      ensures incidents.table == if a == PipelineRaised("IntegrationError") then old(incidents.table) - {fingerprint}
                                 else old(incidents.table)[fingerprint := Some(id)]
    {
      ghost var s := View(Observing(k, id), now);
      var ok := ext.Ask();
      WorkStep(c, s, s, Observe(ok));
      if ok {
        incidents.Complete(fingerprint, id);
        a := NoteResult(k, Some(id), Deliveries.Created, now);
      } else {
        incidents.Release(fingerprint);
        a := PipelineRaised("IntegrationError");
      }
    }

    /**
     The client's call that creates a case: its requests and its verdict are those of the client's own
     loop on the same answers.
     */
    method PostAll(k: string, fingerprint: string, ghost now: int)
      returns (v: PostVerdict, ghost answers: seq<Http.Attempt>, ghost body: Body<CaseId>)
      requires k in store.rows && fingerprint == Fingerprint(c.valid, store.rows[k].alert)
      requires fingerprint in incidents.table && incidents.table[fingerprint].None?
      modifies incidents, ext`world, ext`heard
      ensures Http.Exchange(answers, c.clientAttempts) && v != Again
      ensures Untroubled(old(ext.heard), ext.heard) && |ext.heard| == |old(ext.heard)| + |answers|
      ensures forall j | 0 <= j < |answers| :: CaseHeard(ext.heard, |old(ext.heard)| + j, answers[j])
      ensures var last := answers[|answers| - 1];
        && ext.heard[|ext.heard| - 1] == CaseAnswered(last, body)
        && (!(last.Response? && last.status < 400) ==> v == Abandon("IntegrationError"))
        && (last.Response? && last.status < 400 ==>
              v == if body.Unreadable? then Abandon("JSONDecodeError")
                   else if body.NamesNothing? then Abandon("RuntimeError") else Opened(body.value))
      ensures Works(c, old(View(Creating(k, 0), now)), View(AfterPost(k, 0, v), now))
      ensures MoreCases(old(ext.world), ext.world)
      ensures v.Opened? ==>
                v.id !in old(ext.world).cases && v.id in ext.world.cases && ext.world.cases[v.id] == fingerprint
      ensures incidents.table == if v.Abandon? then old(incidents.table) - {fingerprint} else old(incidents.table)
    {
      ghost var s := View(Creating(k, 0), now);
      var posts := 0;
      answers := [];
      while true
        invariant posts == |answers| < c.clientAttempts
        invariant forall j | 0 <= j < posts :: Http.Transient(answers[j])
        invariant Works(c, s, View(Creating(k, posts), now))
        invariant incidents.table == old(incidents.table)
        invariant MoreCases(old(ext.world), ext.world)
        invariant Untroubled(old(ext.heard), ext.heard) && |ext.heard| == |old(ext.heard)| + posts
        invariant forall j | 0 <= j < posts :: CaseHeard(ext.heard, |old(ext.heard)| + j, answers[j])
        decreases c.clientAttempts - posts
      {
        ghost var seen;
        v, seen, body := Post(k, fingerprint, posts, now);
        answers := answers + [seen];
        if v != Again {
          return;
        }
        posts := posts + 1;
      }
    }

    /** A case is opened, and its observables are added. */
    method OpenCase(k: string, fingerprint: string, ghost now: int) returns (a: PipelineAnswer)
      requires k in store.rows && fingerprint == Fingerprint(c.valid, store.rows[k].alert)
      requires fingerprint in incidents.table && incidents.table[fingerprint].None?
      modifies incidents, ext`world, ext`heard
      ensures a.Answer? ==> Untroubled(old(ext.heard), ext.heard) && a.disposition == Deliveries.Created
      ensures a.PipelineRaised? ==> Troubled(old(ext.heard), ext.heard)
      ensures Works(c, old(View(Creating(k, 0), now)), View(AfterPipeline(k, a), now))
      ensures MoreCases(old(ext.world), ext.world)
      ensures Correlated(fingerprint, old(incidents.table) - {fingerprint}, incidents.table,
                         old(ext.world).cases, ext.world.cases, a)
    {
      ghost var before := incidents.table - {fingerprint};
      assert incidents.table == before[fingerprint := None];
      ghost var answers, body;
      var v;
      v, answers, body := PostAll(k, fingerprint, now);
      if v.Opened? {
        a := AddObservables(k, fingerprint, v.id, now);
        assert old(incidents.table)[fingerprint := Some(v.id)] == before[fingerprint := Some(v.id)];
      } else {
        a := PipelineRaised(v.error);
      }
    }

    function AfterHandingOff(k: string, incident: Option<CaseId>, d: Disposition, h: HandoffAnswer): Pc {
      if h.Handed? then Proposing(k, incident, d, h.execution) else Failing(k, h.error)
    }

    function AfterBegin(k: string, incident: Option<CaseId>, d: Disposition, r: Reservation): Pc {
      if r.reserved then HandoffReserved(k, incident, d)
      else if r.prior.None? then Failing(k, "RuntimeError")
      else AfterHandoff(k, incident, d, r.prior)
    }

    /** The reservation of the handoff. */
    method Begin(k: string, incident: Option<CaseId>, d: Disposition, ghost now: int) returns (r: Reservation)
      requires k in store.rows && ScenarioFor(store.rows[k].alert) in c.webhooks
      modifies store`handoffs
      ensures Works(c, old(View(Handing(k, incident, d), now)), View(AfterBegin(k, incident, d, r), now))
      ensures var t := store.rows[k].trace;
        if t !in old(store.handoffs) then
          r.reserved && store.handoffs == old(store.handoffs)[t := Handoff(false, None)]
        else
          && store.handoffs == old(store.handoffs)
          && var known := old(store.handoffs)[t].execution;
          && r == Reservation(false, if known == Some("") then None else known)
    {
      ghost var s := View(Handing(k, incident, d), now);
      r := store.ReserveHandoff(store.rows[k].trace);
      WorkStep(c, s, s, BeginHandoff);
    }

    /**
     The execution of the handoff: a known one is reused and nothing is sent; a handoff without one is
     refused; a new one is reserved and sent once, and what is kept of it depends on the answer.
     */
    method Obtain(k: string, incident: Option<CaseId>, d: Disposition, ghost now: int) returns (h: HandoffAnswer)
      requires k in store.rows && ScenarioFor(store.rows[k].alert) in c.webhooks
      modifies store`handoffs, ext`world, ext`heard
      ensures Works(c, old(View(Handing(k, incident, d), now)), View(AfterTrigger(k, incident, d, h), now))
      ensures var t := store.rows[k].trace;
        t in old(store.handoffs) ==>
          && store.handoffs == old(store.handoffs) && ext.world == old(ext.world) && ext.heard == old(ext.heard)
          && var known := old(store.handoffs)[t].execution;
          && h == if known.None? || known.value == "" then HandoffRaised("RuntimeError") else Handed(known)
      ensures var t := store.rows[k].trace;
        t !in old(store.handoffs) ==>
          && ext.world.sent == old(ext.world).sent + multiset{t}
          && |ext.heard| == |old(ext.heard)| + 1 && old(ext.heard) < ext.heard
          && var last := ext.heard[|old(ext.heard)|];
          && last.TriggerAnswered?
          && (h.Handed? <==> last.answer.Response? && last.answer.status < 400 && !last.body.Unreadable?)
          && (h.HandoffRaised? ==>
                h.error == if last.answer.Response? && last.answer.status < 400 then "JSONDecodeError"
                           else "IntegrationError")
          && store.handoffs ==
               if h.Handed? then old(store.handoffs)[t := Handoff(true, h.execution)]
               else if last.answer.Response? && last.answer.status >= 400 then old(store.handoffs)
               else old(store.handoffs)[t := Handoff(false, None)]
    {
      var r := Begin(k, incident, d, now);
      if r.reserved {
        ghost var answer, body;
        h, answer, body := Trigger(k, incident, d, now);
        assert store.handoffs - {store.rows[k].trace} == old(store.handoffs) - {store.rows[k].trace};
      } else {
        h := if r.prior.None? then HandoffRaised("RuntimeError") else Handed(r.prior);
      }
    }

    /** The Shuffle handoff, and the comment about it on the case. */
    method HandOff(k: string, incident: Option<CaseId>, d: Disposition, ghost now: int) returns (h: HandoffAnswer)
      requires k in store.rows
      modifies store`handoffs, ext
      ensures Works(c, old(View(Handing(k, incident, d), now)), View(AfterHandingOff(k, incident, d, h), now))
      ensures var t, hooked := store.rows[k].trace, ScenarioFor(store.rows[k].alert) in c.webhooks;
        && (forall u | u != t :: (u in store.handoffs <==> u in old(store.handoffs))
              && (u in old(store.handoffs) ==> store.handoffs[u] == old(store.handoffs)[u]))
        && (!hooked ==> h == Handed(None) && store.handoffs == old(store.handoffs) && ext.world == old(ext.world))
        && (hooked && t in old(store.handoffs) ==>
              && store.handoffs == old(store.handoffs) && ext.world == old(ext.world)
              && var known := old(store.handoffs)[t].execution;
              && (known.None? || known.value == "" ==> h == HandoffRaised("RuntimeError"))
              && (h.Handed? ==> h.execution == known))
        && (hooked && t !in old(store.handoffs) ==>
              && ext.world.sent == old(ext.world).sent + multiset{t}
              && (h.Handed? ==> t in store.handoffs && store.handoffs[t] == Handoff(true, h.execution))
              && (t in store.handoffs && !store.handoffs[t].completed ==>
                    h.HandoffRaised? && store.handoffs[t].execution == None))
        && (h.Handed? ==>
              ext.comments == old(ext.comments) + if hooked && incident.Some? then [incident.value] else [])
      ensures old(ext.heard) <= ext.heard && (h.Handed? ==> Untroubled(old(ext.heard), ext.heard))
      ensures h.HandoffRaised? ==> Troubled(old(ext.heard), ext.heard) || h.error == "RuntimeError"
    {
      if ScenarioFor(store.rows[k].alert) !in c.webhooks {
        NotHooked(c, View(Handing(k, incident, d), now));
        return Handed(None);
      }
      h := Obtain(k, incident, d, now);
      if h.Handed? && incident.Some? {
        h := CommentOn(k, incident, d, h.execution, now);
      }
    }

    /** The comment on the case. */
    method CommentOn(k: string, incident: Option<CaseId>, d: Disposition, execution: Option<string>, ghost now: int)
      returns (h: HandoffAnswer)
      requires k in store.rows && incident.Some?
      modifies ext`comments, ext`heard
      ensures ext.heard == old(ext.heard) + [Asked(h.Handed?)]
      ensures Works(c, old(View(Commenting(k, incident, d, execution), now)),
                    View(AfterHandingOff(k, incident, d, h), now))
      ensures h == Handed(execution) || h == HandoffRaised("IntegrationError")
      ensures ext.comments == old(ext.comments) + [incident.value]
    {
      ghost var s := View(Commenting(k, incident, d, execution), now);
      var ok := ext.AddComment(incident.value);
      WorkStep(c, s, s, Comment(ok));
      h := if ok then Handed(execution) else HandoffRaised("IntegrationError");
    }

    function AfterTrigger(k: string, incident: Option<CaseId>, d: Disposition, h: HandoffAnswer): Pc {
      if h.Handed? then AfterHandoff(k, incident, d, h.execution) else Failing(k, h.error)
    }

    /**
     One trigger under a fresh reservation. An HTTP error releases the reservation; without an answer, or
     with one that cannot be read, it is kept; any other answer completes it with what it names.
     */
    method Trigger(k: string, incident: Option<CaseId>, d: Disposition, ghost now: int)
      returns (h: HandoffAnswer, ghost answer: Http.Attempt, ghost body: Body<string>)
      requires k in store.rows
      requires store.rows[k].trace in store.handoffs && !store.handoffs[store.rows[k].trace].completed
      modifies store`handoffs, ext`world, ext`heard
      ensures ext.heard == old(ext.heard) + [TriggerAnswered(answer, body)]
      ensures Works(c, old(View(HandoffReserved(k, incident, d), now)), View(AfterTrigger(k, incident, d, h), now))
      ensures ext.world.sent == old(ext.world).sent + multiset{store.rows[k].trace}
      ensures answer.Response? && answer.status >= 400 ==>
                store.handoffs == old(store.handoffs) - {store.rows[k].trace} && h == HandoffRaised("IntegrationError")
      ensures answer.Timeout? || answer.Unreachable? ==>
                store.handoffs == old(store.handoffs) && h == HandoffRaised("IntegrationError")
      ensures answer.Response? && answer.status < 400 && body.Unreadable? ==>
                store.handoffs == old(store.handoffs) && h == HandoffRaised("JSONDecodeError")
      ensures answer.Response? && answer.status < 400 && !body.Unreadable? ==>
                && h == Handed(if body.Names? && body.value != "" then Some(body.value) else None)
                && store.handoffs == old(store.handoffs)[store.rows[k].trace := Handoff(true, h.execution)]
    {
      var trace := store.rows[k].trace;
      ghost var s := View(HandoffReserved(k, incident, d), now);
      var accepted, reply, read := ext.Trigger(trace);
      answer, body := reply, read;
      ghost var m := s.(
        world := AcceptedToo(SentOnly(s.world, trace), trace, accepted), pc := Triggering(k, incident, d));
      SendWorks(c, s, s, accepted);
      WorkStep(c, s, m, TriggerReply(reply, read));
      TriggerJudged(reply, read);
      match JudgeTrigger(reply, read)
      case Refused =>
        store.ReleaseHandoff(trace);
        h := HandoffRaised("IntegrationError");
      case Ambiguous(error) =>
        h := HandoffRaised(error);
      case Accepted(execution) =>
        store.CompleteHandoff(trace, execution);
        h := Handed(execution);
    }

    /** The approval of an incident of rule 100102: one for its trace, for the one allow-listed response. */
    method Propose(k: string, incident: Option<CaseId>, d: Disposition, execution: Option<string>, ghost now: int)
      requires k in store.rows && Linked(approvals.Contents())
      modifies approvals
      ensures Linked(approvals.Contents()) && approvals.identities == old(approvals.identities)
      ensures Works(c, old(View(Proposing(k, incident, d, execution), now)),
                    View(Finishing(k, incident, d, execution), now))
      ensures var row := store.rows[k];
        if row.alert.ruleId == "100102" && incident.Some? && row.trace !in old(approvals.sources) then
          exists id: ApprovalId | id !in old(approvals.approvals) ::
            && approvals.approvals == old(approvals.approvals)[id := Approval(
                 Proposal(incident.value, "disable_synthetic_account", "soc-response-test"), None, None)]
            && approvals.sources == old(approvals.sources)[row.trace := id]
        else approvals.Contents() == old(approvals.Contents())
    {
      ghost var s := View(Proposing(k, incident, d, execution), now);
      var row := store.rows[k];
      var id := NewIdentifier(approvals.approvals.Keys);
      if ScenarioFor(row.alert).AccountActivity? && incident.Some? {
        var record := approvals.CreateOnce(row.trace, id, Proposal(incident.value, ACTION, TARGET));
      }
      WorkStep(c, s, s, ProposeOnce(id));
    }

    method StoreResult(k: string, incident: Option<CaseId>, d: Disposition, execution: Option<string>, now: Instant)
      requires store.Valid() && k in store.rows
      modifies store`rows
      ensures store.Valid()
      ensures var row := old(store.rows)[k];
        store.rows == old(store.rows)[k := row.(
          status := Completed, lastError := None, next := None, updated := now,
          result := Some(Outcome(incident, d, ScenarioFor(row.alert), execution)))]
      ensures Works(c, old(View(Finishing(k, incident, d, execution), now)), View(Reporting(k), now))
    {
      ghost var s := View(Finishing(k, incident, d, execution), now);
      store.Complete(k, Outcome(incident, d, ScenarioFor(store.rows[k].alert), execution), now);
      WorkStep(c, s, s, Finish);
    }

    /** The audit line of a completed delivery. */
    method ReportDone(k: string, ghost now: int) returns (reported: bool)
      requires k in store.rows
      modifies ext`heard
      ensures ext.heard == old(ext.heard) + [Asked(reported)]
      ensures Works(c, View(Reporting(k), now), View(if reported then Idle else Failing(k, "OSError"), now))
    {
      ghost var s := View(Reporting(k), now);
      reported := ext.Ask();
      WorkStep(c, s, s, Report(reported));
    }

    /** The approval of an account incident, then, some time later, the stored result and its report. */
    method Close(k: string, incident: Option<CaseId>, d: Disposition, execution: Option<string>,
                 ghost start: Instant, finish: Instant) returns (reported: bool)
      requires store.Valid() && k in store.rows && Linked(approvals.Contents())
      modifies store`rows, approvals, ext`heard
      ensures store.Valid() && Linked(approvals.Contents())
      ensures ext.heard == old(ext.heard) + [Asked(reported)]
      ensures var row := old(store.rows)[k];
        store.rows == old(store.rows)[k := row.(
          status := Completed, lastError := None, next := None, updated := finish,
          result := Some(Outcome(incident, d, ScenarioFor(row.alert), execution)))]
      ensures old(store.rows)[k].alert.ruleId == "100102" && incident.Some? ==>
                old(store.rows)[k].trace in approvals.sources
      ensures old(store.rows)[k].alert.ruleId != "100102" || incident.None? ==>
                approvals.Contents() == old(approvals.Contents())
      ensures Works(c, old(View(Proposing(k, incident, d, execution), start)),
                    View(if reported then Idle else Failing(k, "OSError"), finish))
    {
      ghost var s := View(Proposing(k, incident, d, execution), start);
      Propose(k, incident, d, execution, start);
      WorkStep(c, s, View(Finishing(k, incident, d, execution), start), Clock(finish));
      StoreResult(k, incident, d, execution, finish);
      reported := ReportDone(k, finish);
    }

    /**
     An exception, wherever it was raised, recorded as one failed attempt, of a completed delivery too.
     The audit line of the record may fail, and then this raises.
     */
    method RecordFailure(k: string, error: string, ghost start: Instant, finish: Instant) returns (raised: bool)
      requires store.Valid() && k in store.rows && Headroom(c, finish)
      modifies store`rows, ext`heard
      ensures store.Valid()
      ensures ext.heard == old(ext.heard) + [Asked(!raised)]
      ensures var row := old(store.rows)[k];
        store.rows == old(store.rows)[k := row.(
          status := if row.attempts >= c.maxAttempts then Failed else Retrying,
          next := if row.attempts >= c.maxAttempts then None
                  else Some(finish + c.backoff * Pow2(if row.attempts == 0 then 0 else row.attempts - 1)),
          lastError := Some(if |error| <= 200 then error else error[..200]), updated := finish)]
      ensures Works(c, old(View(Failing(k, error), start)), Rest(raised, finish))
    {
      ghost var s := View(Failing(k, error), start);
      var attempts := store.rows[k].attempts;
      DelayNotNegative(c.backoff, attempts);
      var status := store.Fail(k, error, c.maxAttempts, RetryDelay(c.backoff, attempts), finish);
      var logged := ext.Ask();
      raised := !logged;
      FailureWorks(c, s, finish, logged);
    }

    /** The end of a delivery that was handed off; if its audit line is lost, that is recorded as a failure. */
    method Conclude(k: string, incident: Option<CaseId>, d: Disposition, execution: Option<string>,
                    ghost start: Instant, finish: Instant) returns (raised: bool)
      requires store.Valid() && k in store.rows && Linked(approvals.Contents()) && Headroom(c, finish)
      modifies store`rows, approvals, ext`heard
      ensures store.Valid() && Linked(approvals.Contents())
      ensures k in store.rows && store.rows == old(store.rows)[k := store.rows[k]]
      ensures Concluded(c, old(store.rows)[k], store.rows[k])
      ensures ext.heard == old(ext.heard) + if store.rows[k].status == Completed then [Asked(true)]
                                            else [Asked(false), Asked(!raised)]
      ensures store.rows[k].result == Some(Outcome(incident, d, ScenarioFor(old(store.rows)[k].alert), execution))
      ensures raised ==> store.rows[k].status != Completed
      ensures Works(c, old(View(Proposing(k, incident, d, execution), start)), Rest(raised, finish))
    {
      var reported := Close(k, incident, d, execution, start, finish);
      raised := false;
      if !reported {
        raised := RecordFailure(k, "OSError", finish, finish);
      }
    }

    /** What is done with a claimed delivery; every exception ends in one recorded failure. */
    method Handle(k: string, start: Instant, finish: Instant) returns (raised: bool)
      requires store.Valid() && k in store.rows && Linked(approvals.Contents()) && Headroom(c, finish)
      modifies store, incidents, approvals, ext
      ensures store.Valid() && Linked(approvals.Contents())
      ensures k in store.rows && store.rows == old(store.rows)[k := store.rows[k]]
      ensures Concluded(c, old(store.rows)[k], store.rows[k])
      ensures store.rows[k].status == Completed ==> Untroubled(old(ext.heard), ext.heard)
      ensures raised ==> store.rows[k].status != Completed
      ensures old(ext.heard) < ext.heard && (raised ==> ext.heard[|ext.heard| - 1] == Asked(false))
      ensures Works(c, old(View(Enriching(k), start)), Rest(raised, finish))
    {
      var a := Correlate(k, start);
      var error := if a.PipelineRaised? then a.error else "";
      if a.Answer? {
        var h := HandOff(k, a.incident, a.disposition, start);
        if h.Handed? {
          raised := Conclude(k, a.incident, a.disposition, h.execution, start, finish);
          return;
        }
        error := h.error;
      }
      raised := RecordFailure(k, error, start, finish);
    }

    /** Claims and processes one due delivery. */
    method ProcessOnce(start: Instant, finish: Instant) returns (claimed: Option<string>, raised: bool)
      requires store.Valid() && Linked(approvals.Contents()) && Headroom(c, finish)
      modifies store, incidents, approvals, ext
      ensures store.Valid() && Linked(approvals.Contents())
      ensures Works(c, old(View(Idle, start)), Rest(raised, finish))
      ensures claimed.None? <==> forall k | k in old(store.rows) ::
                var row := old(store.rows)[k];
                !((row.status == Queued || row.status == Retrying) && (row.next.None? || row.next.value <= start))
      ensures claimed.None? ==> !raised && store.rows == old(store.rows) && store.handoffs == old(store.handoffs)
      ensures claimed.Some? ==>
                && OldestDue(old(store.rows), claimed.value, start) && claimed.value in store.rows
                && store.rows == old(store.rows)[claimed.value := store.rows[claimed.value]]
                && Concluded(c, Claimed(old(store.rows)[claimed.value], start), store.rows[claimed.value])
                && (raised ==> store.rows[claimed.value].status != Completed)
    {
      ghost var s := View(Idle, start);
      claimed := store.ClaimDue(start);
      raised := false;
      if claimed.None? {
        WorkStep(c, s, s, Clock(finish));
      } else {
        WorkStep(c, s, s, Claim(claimed.value));
        raised := Handle(claimed.value, start, finish);
      }
    }

    /** One round of the loop, some time after the last; a claim uses up one unit of the budget. */
    method Turn(ghost before: Instant, round: Round) returns (claimed: bool, raised: bool)
      requires store.Valid() && Linked(approvals.Contents()) && Headroom(c, round.finish)
      modifies store, incidents, approvals, ext
      ensures store.Valid() && Linked(approvals.Contents())
      ensures Works(c, old(View(Idle, before)), Rest(raised, round.finish))
      ensures Total(c, store.rows) + (if claimed then 1 else 0) <= Total(c, old(store.rows))
    {
      ghost var rows := store.rows;
      ghost var s := View(Idle, before);
      WorkStep(c, s, s, Clock(round.start));
      var key;
      key, raised := ProcessOnce(round.start, round.finish);
      claimed := key.Some?;
      if claimed {
        TotalUpdate(c, rows, key.value, store.rows[key.value]);
      }
    }

    /** Interrupted deliveries go back to the queue, to be claimed at once; the audit line of that may fail. */
    method Recover(ghost interrupted: Pc, ghost halted: bool, ghost before: int, startup: Instant)
      returns (logged: bool)
      requires store.Valid()
      modifies store`rows, ext`heard
      ensures var interrupted := exists k :: k in old(store.rows) && old(store.rows)[k].status == Processing;
        ext.heard == old(ext.heard) + if interrupted then [Asked(logged)] else []
      ensures (forall k | k in old(store.rows) :: old(store.rows)[k].status != Processing) ==> logged
      ensures store.Valid() && store.rows == AllRecovered(old(store.rows), startup)
      ensures store.rows.Keys == old(store.rows).Keys
      ensures forall k | k in old(store.rows) ::
                store.rows[k] == if old(store.rows)[k].status != Processing then old(store.rows)[k]
                                 else old(store.rows)[k].(status := Retrying, next := Some(startup),
                                                          lastError := Some("worker_restart"), updated := startup)
      ensures var s := old(View(interrupted, before)).(now := startup, stopped := halted);
        Protocol.Enabled(c, s, Crash(logged)) && Protocol.Next(c, s, Crash(logged)) == Rest(!logged, startup)
    {
      ghost var s := View(interrupted, before).(now := startup, stopped := halted);
      var recovered := store.RecoverProcessing(startup);
      assert store.rows == AllRecovered(old(store.rows), startup);
      logged := true;
      SomeInterrupted(old(store.rows));
      if recovered > 0 {
        logged := ext.Ask();
      }
      Restarting(c, s, logged);
    }

    /**
     The service loop after a start: interrupted deliveries are recovered, then one round follows
     the other until an exception ends the loop. However many rounds there are, no more deliveries are
     claimed than the recovered queue can pay for.
     */
    method Run(ghost interrupted: Pc, ghost halted: bool, ghost before: int, startup: Instant, rounds: seq<Round>)
      returns (processed: nat, done: nat, raised: bool)
      requires store.Valid() && Linked(approvals.Contents())
      requires forall i | 0 <= i < |rounds| :: Headroom(c, rounds[i].finish)
      modifies store, incidents, approvals, ext
      ensures store.Valid() && Linked(approvals.Contents())
      ensures done <= |rounds| && (!raised ==> done == |rounds|)
      ensures Restarts(c, old(View(interrupted, before)).(stopped := halted), startup,
                       Rest(raised, if done == 0 then startup else rounds[done - 1].finish))
      ensures processed + Total(c, store.rows) <= Total(c, AllRecovered(old(store.rows), startup))
    {
      ghost var s := View(interrupted, before).(stopped := halted);
      var logged := Recover(interrupted, halted, before, startup);
      ghost var m := Rest(!logged, startup);
      processed, done, raised := 0, 0, !logged;
      ghost var now := startup;
      while done < |rounds| && !raised
        invariant store.Valid() && Linked(approvals.Contents()) && done <= |rounds|
        invariant now == if done == 0 then startup else rounds[done - 1].finish
        invariant Works(c, m, Rest(raised, now))
        invariant processed + Total(c, store.rows) <= Total(c, m.rows)
      {
        var claimed;
        claimed, raised := Turn(now, rounds[done]);
        now, done := rounds[done].finish, done + 1;
        processed := processed + if claimed then 1 else 0;
      }
      assert RestartsBy(c, s, startup, logged, m, Rest(raised, now));
    }
  }
}
