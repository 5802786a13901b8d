/**
 The delivery protocol as one transition system. Every transaction is one step, every external
 call ends in an answer the environment chooses, a crash may fall between any two worker steps,
 and intake and operators may act at any time.
 */
module Protocol {
  import opened Basics
  import opened Enrichment
  import opened Alerts
  import opened Deliveries
  import opened Approvals
  import Http = RetryingClient

  /** Settings: at least one attempt each; `webhooks` is empty when no Shuffle client exists. */
  datatype Settings = Settings(
    maxAttempts: nat, backoff: nat, clientAttempts: nat, webhooks: set<Scenario>, valid: iset<Indicator>)

  type Config = c: Settings | c.maxAttempts >= 1 && c.clientAttempts >= 1
    witness Settings(1, 0, 1, {}, iset{})

  /**
   How far the worker has got with the delivery it holds; every constructor is a crash point. At
   Auditing and Reporting a line is written to the audit file, which may fail.
   */
  datatype Pc =
    | Idle
    | Enriching(key: string)
    | Reserving(key: string)
    | Finding(key: string)
    | Creating(key: string, posts: nat)
    | AwaitingCase(key: string, posts: nat, created: Option<CaseId>)
    | Observing(key: string, caseId: CaseId)
    | Auditing(key: string, incident: Option<CaseId>, disposition: Disposition)
    | Handing(key: string, incident: Option<CaseId>, disposition: Disposition)
    | HandoffReserved(key: string, incident: Option<CaseId>, disposition: Disposition)
    | Triggering(key: string, incident: Option<CaseId>, disposition: Disposition)
    | Commenting(key: string, incident: Option<CaseId>, disposition: Disposition, execution: Option<string>)
    | Proposing(key: string, incident: Option<CaseId>, disposition: Disposition, execution: Option<string>)
    | Finishing(key: string, incident: Option<CaseId>, disposition: Disposition, execution: Option<string>)
    | Reporting(key: string)
    | Failing(key: string, error: string)

  /**
   The outside world: TheHive's cases with the fingerprint in their tag, and per fingerprint the
   create requests that outlive their call; per trace the Shuffle requests sent, those still under
   way, and those accepted.
   */
  datatype World = World(
    cases: map<CaseId, string>, opening: multiset<string>,
    sent: multiset<string>, underway: multiset<string>, accepted: multiset<string>)

  /**
   The stores, the outside world, and where the worker is: it has stopped once the audit line of a
   recovery or of a recorded failure could not be written, which ends its loop.
   */
  datatype State = State(
    now: int, rows: Rows, handoffs: Handoffs, incidents: map<string, Option<CaseId>>,
    ledger: Ledger, pc: Pc, stopped: bool, world: World)

  datatype FindReply = Found(id: CaseId) | NoCase | FindError

  /** The body of an answer: unreadable, or read and naming something or nothing. */
  datatype Body<T> = Unreadable | Names(value: T) | NamesNothing

  datatype Event =
    // intake, operators and time
    | Intake(key: string, alert: Alert)
    | Replay(key: string)
    | Reconcile(key: string, finding: Deliveries.Finding)
    | Propose(id: ApprovalId, proposal: Proposal)
    | Decide(id: ApprovalId, decision: Decision)
    | Clock(now: int)
    | ShuffleAccepts(trace: string)
    | ShuffleDrops(trace: string)
    | CaseAppears(id: CaseId, fingerprint: string)
    | Crash(logged: bool)
    // the worker
    | Claim(key: string)
    | Enrich(ok: bool)
    | ReserveIncident
    | FindCase(found: FindReply)
    | SendCase(created: Option<CaseId>, late: bool)
    | CaseReply(caseAnswer: Http.Attempt, caseBody: Body<CaseId>)
    | Observe(ok: bool)
    | Note(ok: bool)
    | BeginHandoff
    | SendTrigger
    | TriggerReply(answer: Http.Attempt, executionBody: Body<string>)
    | Comment(ok: bool)
    | ProposeOnce(id: ApprovalId)
    | Finish
    | Report(ok: bool)
    | Settle(logged: bool)

  function Initial(now: int): State {
    State(now, map[], map[], map[], EmptyLedger(), Idle, false,
          World(map[], multiset{}, multiset{}, multiset{}, multiset{}))
  }

  function Fp(c: Config, r: Row): string {
    Fingerprint(c.valid, r.alert)
  }

  predicate HasWebhook(c: Config, r: Row) {
    ScenarioFor(r.alert) in c.webhooks
  }

  /** The row the worker holds. */
  function Held(s: State): Row
    requires !s.pc.Idle? && s.pc.key in s.rows
  {
    s.rows[s.pc.key]
  }

  /** After the handoff: a comment if there is a case to comment on. */
  function AfterHandoff(k: string, incident: Option<CaseId>, d: Disposition, execution: Option<string>): Pc {
    if incident.Some? then Commenting(k, incident, d, execution) else Proposing(k, incident, d, execution)
  }

  /** An exception inside the incident window: the reservation is released unless it has a case. */
  function GiveUp(c: Config, s: State, error: string): State
    requires !s.pc.Idle? && s.pc.key in s.rows
  {
    var fp := Fp(c, Held(s));
    s.(incidents := if fp in s.incidents && s.incidents[fp].None? then s.incidents - {fp} else s.incidents,
       pc := Failing(s.pc.key, error))
  }

  /** The case is recorded for the fingerprint (an update, so only where a row exists). */
  function Record(c: Config, s: State, id: CaseId, d: Disposition): State
    requires !s.pc.Idle? && s.pc.key in s.rows
  {
    var fp := Fp(c, Held(s));
    s.(incidents := if fp in s.incidents then s.incidents[fp := Some(id)] else s.incidents,
       pc := Auditing(s.pc.key, Some(id), d))
  }

  /** What the worker makes of one create request: try again, give up, or go on with the case. */
  datatype PostVerdict = Again | Abandon(error: string) | Opened(id: CaseId)

  function JudgePost(c: Config, posts: nat, answer: Http.Attempt, body: Body<CaseId>): PostVerdict {
    if Http.Transient(answer) && posts + 1 < c.clientAttempts then Again
    else if Http.Judge(answer).Raised? then Abandon("IntegrationError")
    else match body
      case Unreadable => Abandon("JSONDecodeError")
      case NamesNothing => Abandon("RuntimeError")
      case Names(id) => Opened(id)
  }

  /** What the worker makes of the trigger: certainly refused, unknown, or accepted. */
  datatype TriggerVerdict = Refused | Ambiguous(error: string) | Accepted(execution: Option<string>)

  function JudgeTrigger(answer: Http.Attempt, body: Body<string>): TriggerVerdict {
    var j := Http.Judge(answer);
    if j.Raised? then
      if j.category.TimedOut? || j.category.Unavailable? then Ambiguous("IntegrationError") else Refused
    else match body
      case Unreadable => Ambiguous("JSONDecodeError")
      case NamesNothing => Accepted(None)
      case Names(id) => Accepted(if id == "" then None else Some(id))
  }

  /** Only an HTTP error answer means that a trigger was not accepted. */
  predicate Denies(answer: Http.Attempt) {
    answer.Response? && answer.status >= 400
  }

  /** Parties outside the queue; the queue itself; then the parts of processing a delivery. */
  datatype Phase = Outside | Queueing | Correlating | Posting | HandingOff | Closing

  function PhaseOf(e: Event): Phase {
    match e
    case Propose(_, _) => Outside
    case Decide(_, _) => Outside
    case Clock(_) => Outside
    case ShuffleAccepts(_) => Outside
    case ShuffleDrops(_) => Outside
    case CaseAppears(_, _) => Outside
    case Intake(_, _) => Queueing
    case Replay(_) => Queueing
    case Reconcile(_, _) => Queueing
    case Crash(_) => Queueing
    case Claim(_) => Queueing
    case Enrich(_) => Correlating
    case ReserveIncident => Correlating
    case FindCase(_) => Correlating
    case SendCase(_, _) => Posting
    case CaseReply(_, _) => Posting
    case Observe(_) => Correlating
    case Note(_) => Correlating
    case BeginHandoff => HandingOff
    case SendTrigger => HandingOff
    case TriggerReply(_, _) => HandingOff
    case Comment(_) => HandingOff
    case ProposeOnce(_) => Closing
    case Finish => Closing
    case Report(_) => Closing
    case Settle(_) => Closing
  }

  /**
   When a step may be taken. The environment is constrained in four ways only: TheHive lists its
   own cases and invents none, identifiers it issues are new, an HTTP error answer from Shuffle
   means that the request was not accepted, and no system acts on a request more than once.
   */
  predicate Enabled(c: Config, s: State, e: Event) {
    match PhaseOf(e)
    case Outside => OutsideEnabled(s, e)
    case Queueing => QueueingEnabled(s, e)
    case Correlating => !s.pc.Idle? && s.pc.key in s.rows && CorrelatingEnabled(c, s, e)
    case Posting => !s.pc.Idle? && s.pc.key in s.rows && PostingEnabled(c, s, e)
    case HandingOff => !s.pc.Idle? && s.pc.key in s.rows && HandingOffEnabled(s, e)
    case Closing => !s.pc.Idle? && s.pc.key in s.rows && ClosingEnabled(s, e)
  }

  function Next(c: Config, s: State, e: Event): State
    requires Enabled(c, s, e)
  {
    match PhaseOf(e)
    case Outside => OutsideNext(s, e)
    case Queueing => QueueingNext(s, e)
    case Correlating => CorrelatingNext(c, s, e)
    case Posting => PostingNext(c, s, e)
    case HandingOff => HandingOffNext(c, s, e)
    case Closing => ClosingNext(c, s, e)
  }

  predicate OutsideEnabled(s: State, e: Event)
    requires PhaseOf(e) == Outside
  {
    match e
    case Propose(id, _) => id !in s.ledger.approvals
    case Decide(id, d) => Decided(s.ledger, id, d).Done?
    case Clock(_) => true
    case ShuffleAccepts(t) => t in s.world.underway
    case ShuffleDrops(t) => t in s.world.underway
    case CaseAppears(id, f) => f in s.world.opening && id !in s.world.cases
  }

  function OutsideNext(s: State, e: Event): State
    requires PhaseOf(e) == Outside && OutsideEnabled(s, e)
  {
    match e
    case Propose(id, p) => s.(ledger := Approvals.Created(s.ledger, id, p))
    case Decide(id, d) => s.(ledger := Decided(s.ledger, id, d).ledger)
    case Clock(now) => s.(now := now)
    case ShuffleAccepts(t) =>
      s.(world := s.world.(
        underway := s.world.underway - multiset{t}, accepted := s.world.accepted + multiset{t}))
    case ShuffleDrops(t) => s.(world := s.world.(underway := s.world.underway - multiset{t}))
    case CaseAppears(id, f) =>
      s.(world := s.world.(cases := s.world.cases[id := f], opening := s.world.opening - multiset{f}))
  }

  predicate Interrupted(rows: Rows) {
    exists k :: k in rows && rows[k].status == Processing
  }

  predicate QueueingEnabled(s: State, e: Event)
    requires PhaseOf(e) == Queueing
  {
    match e
    case Intake(_, _) => true
    case Replay(k) => k in s.rows && s.rows[k].status == Failed
    case Reconcile(k, finding) =>
      && k in s.rows && s.rows[k].status == Failed
      && finding != Observed(None)
      && Reconciled(s.handoffs, s.rows[k].trace, finding).Resolved?
    case Crash(logged) => logged || Interrupted(s.rows)
    case Claim(k) => s.pc.Idle? && !s.stopped && OldestDue(s.rows, k, s.now)
  }

  function QueueingNext(s: State, e: Event): State
    requires PhaseOf(e) == Queueing && QueueingEnabled(s, e)
  {
    match e
    case Intake(k, alert) => s.(rows := Enqueued(s.rows, k, alert, TraceOf(k, alert.id), s.now))
    case Replay(k) => s.(rows := s.rows[k := Requeued(s.rows[k], s.now)])
    case Reconcile(k, finding) =>
      s.(handoffs := Reconciled(s.handoffs, s.rows[k].trace, finding).handoffs,
         rows := s.rows[k := Requeued(s.rows[k], s.now)])
    case Crash(logged) => s.(rows := AllRecovered(s.rows, s.now), pc := Idle, stopped := !logged)
    case Claim(k) => s.(rows := s.rows[k := Claimed(s.rows[k], s.now)], pc := Enriching(k))
  }

  predicate CorrelatingEnabled(c: Config, s: State, e: Event)
    requires PhaseOf(e) == Correlating && !s.pc.Idle? && s.pc.key in s.rows
  {
    match e
    case Enrich(_) => s.pc.Enriching?
    case ReserveIncident => s.pc.Reserving?
    case FindCase(found) =>
      && s.pc.Finding?
      && (found.Found? ==> found.id in s.world.cases && s.world.cases[found.id] == Fp(c, Held(s)))
      && (found.NoCase? ==> Fp(c, Held(s)) !in s.world.cases.Values)
    case Observe(_) => s.pc.Observing?
    case Note(_) => s.pc.Auditing?
  }

  function CorrelatingNext(c: Config, s: State, e: Event): State
    requires PhaseOf(e) == Correlating && !s.pc.Idle? && s.pc.key in s.rows && CorrelatingEnabled(c, s, e)
  {
    var k, fp := s.pc.key, Fp(c, Held(s));
    match e
    case Enrich(ok) => s.(pc := if ok then Reserving(k) else Failing(k, "IntegrationError"))
    case ReserveIncident =>
      if fp in s.incidents then
        s.(pc := Auditing(k, s.incidents[fp], if s.incidents[fp].Some? then Reused else Pending))
      else
        s.(incidents := s.incidents[fp := None], pc := Finding(k))
    case FindCase(found) =>
      (match found
       case Found(id) => Record(c, s, id, Reused)
       case NoCase => s.(pc := Creating(k, 0))
       case FindError => GiveUp(c, s, "IntegrationError"))
    case Observe(ok) =>
      if ok then Record(c, s, s.pc.caseId, Deliveries.Created) else GiveUp(c, s, "IntegrationError")
    case Note(ok) =>
      s.(pc := if ok then Handing(k, s.pc.incident, s.pc.disposition) else Failing(k, "OSError"))
  }

  /**
   A create request may be acted on during its call, outlive it, or be lost; an answer can name
   only the case that the request created.
   */
  predicate PostingEnabled(c: Config, s: State, e: Event)
    requires PhaseOf(e) == Posting && !s.pc.Idle? && s.pc.key in s.rows
  {
    match e
    case SendCase(created, late) =>
      && s.pc.Creating? && s.pc.posts < c.clientAttempts
      && (created.Some? ==> !late && created.value !in s.world.cases)
    case CaseReply(_, body) =>
      s.pc.AwaitingCase? && (body.Names? ==> s.pc.created == Some(body.value))
  }

  /** TheHive once a create request was sent. */
  function Posted(w: World, fingerprint: string, created: Option<CaseId>, late: bool): World {
    if created.Some? then w.(cases := w.cases[created.value := fingerprint])
    else if late then w.(opening := w.opening + multiset{fingerprint})
    else w
  }

  function PostingNext(c: Config, s: State, e: Event): State
    requires PhaseOf(e) == Posting && !s.pc.Idle? && s.pc.key in s.rows && PostingEnabled(c, s, e)
  {
    match e
    case SendCase(created, late) =>
      s.(world := Posted(s.world, Fp(c, Held(s)), created, late),
         pc := AwaitingCase(s.pc.key, s.pc.posts, created))
    case CaseReply(answer, body) =>
      (match JudgePost(c, s.pc.posts, answer, body)
       case Again => s.(pc := Creating(s.pc.key, s.pc.posts + 1))
       case Abandon(error) => GiveUp(c, s, error)
       case Opened(id) => s.(pc := Observing(s.pc.key, id)))
  }

  predicate HandingOffEnabled(s: State, e: Event)
    requires PhaseOf(e) == HandingOff && !s.pc.Idle? && s.pc.key in s.rows
  {
    match e
    case BeginHandoff => s.pc.Handing?
    case SendTrigger => s.pc.HandoffReserved?
    case TriggerReply(answer, body) =>
      s.pc.Triggering? && (Denies(answer) ==> Held(s).trace in s.world.underway)
    case Comment(_) => s.pc.Commenting?
  }

  function HandingOffNext(c: Config, s: State, e: Event): State
    requires PhaseOf(e) == HandingOff && !s.pc.Idle? && s.pc.key in s.rows && HandingOffEnabled(s, e)
  {
    var k, row := s.pc.key, Held(s);
    match e
    case BeginHandoff =>
      if !HasWebhook(c, row) then s.(pc := Proposing(k, s.pc.incident, s.pc.disposition, None))
      else
        var r := ReservationFor(s.handoffs, row.trace);
        if r.reserved then
          s.(handoffs := Reserved(s.handoffs, row.trace),
             pc := HandoffReserved(k, s.pc.incident, s.pc.disposition))
        else if r.prior.None? then s.(pc := Failing(k, "RuntimeError"))
        else s.(pc := AfterHandoff(k, s.pc.incident, s.pc.disposition, r.prior))
    case SendTrigger =>
      s.(world := s.world.(sent := s.world.sent + multiset{row.trace},
                           underway := s.world.underway + multiset{row.trace}),
         pc := Triggering(k, s.pc.incident, s.pc.disposition))
    case TriggerReply(answer, body) =>
      var w := if Denies(answer) then s.world.(underway := s.world.underway - multiset{row.trace}) else s.world;
      (match JudgeTrigger(answer, body)
       case Refused =>
         s.(world := w, handoffs := Released(s.handoffs, row.trace), pc := Failing(k, "IntegrationError"))
       case Ambiguous(error) => s.(world := w, pc := Failing(k, error))
       case Accepted(execution) =>
         s.(world := w, handoffs := HandoffCompleted(s.handoffs, row.trace, execution),
            pc := AfterHandoff(k, s.pc.incident, s.pc.disposition, execution)))
    case Comment(ok) =>
      s.(pc := if ok then Proposing(k, s.pc.incident, s.pc.disposition, s.pc.execution)
               else Failing(k, "IntegrationError"))
  }

  predicate ClosingEnabled(s: State, e: Event)
    requires PhaseOf(e) == Closing && !s.pc.Idle? && s.pc.key in s.rows
  {
    match e
    case ProposeOnce(id) => s.pc.Proposing? && id !in s.ledger.approvals
    case Finish => s.pc.Finishing?
    case Report(_) => s.pc.Reporting?
    case Settle(_) => s.pc.Failing?
  }

  function ClosingNext(c: Config, s: State, e: Event): State
    requires PhaseOf(e) == Closing && !s.pc.Idle? && s.pc.key in s.rows && ClosingEnabled(s, e)
  {
    var k, row := s.pc.key, Held(s);
    match e
    case ProposeOnce(id) =>
      s.(ledger := if ScenarioFor(row.alert).AccountActivity? && s.pc.incident.Some?
                   then CreatedOnce(s.ledger, row.trace, id, Proposal(s.pc.incident.value, ACTION, TARGET))
                   else s.ledger,
         pc := Finishing(k, s.pc.incident, s.pc.disposition, s.pc.execution))
    case Finish =>
      var result := Outcome(s.pc.incident, s.pc.disposition, ScenarioFor(row.alert), s.pc.execution);
      s.(rows := s.rows[k := Finished(row, result, s.now)], pc := Reporting(k))
    case Report(ok) => s.(pc := if ok then Idle else Failing(k, "OSError"))
    case Settle(logged) =>
      var delay := RetryDelay(c.backoff, row.attempts);
      s.(rows := s.rows[k := FailedOnce(row, s.pc.error, c.maxAttempts, delay, s.now)],
         pc := Idle, stopped := !logged)
  }

  /** A history: a state and the events since. */
  datatype Run = From(start: State) | Then(past: Run, event: Event)

  ghost predicate Valid(c: Config, r: Run) {
    r.From? || (Valid(c, r.past) && Enabled(c, Final(c, r.past), r.event))
  }

  ghost function Start(r: Run): State {
    if r.From? then r.start else Start(r.past)
  }

  /** The state a history ends in. */
  ghost function Final(c: Config, r: Run): State {
    if r.From? then r.start
    else if Enabled(c, Final(c, r.past), r.event) then Next(c, Final(c, r.past), r.event)
    else Final(c, r.past)
  }

  /** A history of the service from its empty tables. */
  ghost predicate Execution(c: Config, r: Run) {
    Valid(c, r) && exists now :: Start(r) == Initial(now)
  }
}
