/** What every step of the protocol keeps. */
module Invariants {
  import opened Basics
  import opened Alerts
  import opened Deliveries
  import opened Approvals
  import opened Protocol

  /** Rows carry the trace of their key, and no two rows share a trace. */
  ghost predicate Keyed(s: State) {
    && (forall k | k in s.rows :: s.rows[k].trace == TraceOf(k, s.rows[k].alert.id))
    && (forall j, k | j in s.rows && k in s.rows && s.rows[j].trace == s.rows[k].trace :: j == k)
  }

  /** No new delivery takes the trace of another one. */
  ghost predicate Admissible(s: State, e: Event) {
    e.Intake? && e.key !in s.rows ==> forall k | k in s.rows :: s.rows[k].trace != TraceOf(e.key, e.alert.id)
  }

  /**
   The worker holds a processing row, or a completed one whose report is to be written or has
   failed, and none once it has stopped; no other row is processing, and completed rows have a result.
   */
  ghost predicate Exclusive(s: State) {
    && (s.stopped ==> s.pc.Idle?)
    && (!s.pc.Idle? ==>
          && s.pc.key in s.rows
          && (s.rows[s.pc.key].status == Processing || (s.rows[s.pc.key].status == Completed && s.pc.Failing?)
              || (s.rows[s.pc.key].status == Completed && s.pc.Reporting?))
          && (s.pc.Reporting? ==> s.rows[s.pc.key].status == Completed))
    && (forall k | k in s.rows && s.rows[k].status == Processing :: !s.pc.Idle? && s.pc.key == k)
    && (forall k | k in s.rows && s.rows[k].status == Completed :: s.rows[k].result.Some?)
  }

  /** The worker has the answer of the handoff, or needs none. */
  predicate HandedOff(pc: Pc) {
    pc.Commenting? || pc.Proposing? || pc.Finishing?
  }

  /** The worker has the answer of the pipeline. */
  predicate HasIncident(pc: Pc) {
    pc.Auditing? || pc.Handing? || pc.HandoffReserved? || pc.Triggering? || HandedOff(pc)
  }

  /** The worker is between reserving an incident and recording its case. */
  predicate InWindow(pc: Pc) {
    pc.Finding? || pc.Creating? || pc.AwaitingCase? || pc.Observing?
  }

  /** `execution` is what the handoff of this row ended in. */
  ghost predicate Agrees(c: Config, s: State, r: Row, execution: Option<string>) {
    if HasWebhook(c, r) then r.trace in s.handoffs && s.handoffs[r.trace] == Handoff(true, execution)
    else execution == None
  }

  ghost predicate HandoffsAgree(c: Config, s: State)
    requires Exclusive(s)
  {
    && (forall t | t in s.handoffs ::
          s.handoffs[t].execution != Some("") && (!s.handoffs[t].completed ==> s.handoffs[t].execution == None))
    && (s.pc.HandoffReserved? || s.pc.Triggering? ==>
          HasWebhook(c, Held(s)) && Held(s).trace in s.handoffs && !s.handoffs[Held(s).trace].completed)
    && (HandedOff(s.pc) ==> Agrees(c, s, Held(s), s.pc.execution))
    && (forall k | k in s.rows && s.rows[k].status == Completed ::
          && s.rows[k].result.value.scenario == ScenarioFor(s.rows[k].alert)
          && Agrees(c, s, s.rows[k], s.rows[k].result.value.execution))
  }

  ghost predicate KnownCase(c: Config, s: State, r: Row, incident: Option<CaseId>, d: Disposition) {
    && (incident.None? <==> d == Pending)
    && (incident.Some? ==> Fp(c, r) in s.incidents && s.incidents[Fp(c, r)] == incident)
  }

  /** What the worker knows of the incident it deals with. */
  ghost predicate PcAgrees(c: Config, s: State)
    requires Exclusive(s)
  {
    && (s.pc.Creating? || s.pc.AwaitingCase? ==> s.pc.posts < c.clientAttempts)
    && (s.pc.AwaitingCase? && s.pc.created.Some? ==>
          s.pc.created.value in s.world.cases && s.world.cases[s.pc.created.value] == Fp(c, Held(s)))
    && (InWindow(s.pc) ==> Fp(c, Held(s)) in s.incidents && s.incidents[Fp(c, Held(s))] == None)
    && (s.pc.Observing? ==>
          s.pc.caseId in s.world.cases && s.world.cases[s.pc.caseId] == Fp(c, Held(s)))
    && (HasIncident(s.pc) ==> KnownCase(c, s, Held(s), s.pc.incident, s.pc.disposition))
    && (forall f | f in s.incidents && s.incidents[f].Some? ::
          s.incidents[f].value in s.world.cases && s.world.cases[s.incidents[f].value] == f)
  }

  ghost predicate IncidentsAgree(c: Config, s: State)
    requires Exclusive(s)
  {
    && PcAgrees(c, s)
    && (forall k | k in s.rows && s.rows[k].status == Completed ::
          KnownCase(c, s, s.rows[k], s.rows[k].result.value.incident, s.rows[k].result.value.disposition))
  }

  /** The row's trace has an approval, and the approval names this case. */
  ghost predicate Approved(s: State, r: Row, id: CaseId) {
    && r.trace in s.ledger.sources
    && s.ledger.sources[r.trace] in s.ledger.approvals
    && s.ledger.approvals[s.ledger.sources[r.trace]].proposal == Proposal(id, ACTION, TARGET)
  }

  /** An approval for the trace of this row names the case recorded for its fingerprint. */
  ghost predicate ApprovalFits(c: Config, s: State, r: Row) {
    r.trace in s.ledger.sources ==>
      && ScenarioFor(r.alert).AccountActivity?
      && Fp(c, r) in s.incidents && s.incidents[Fp(c, r)].Some?
      && Approved(s, r, s.incidents[Fp(c, r)].value)
  }

  /** A delivery of account activity that is past its proposal has one. */
  ghost predicate ProposalMade(s: State, r: Row, scenario: Scenario, incident: Option<CaseId>) {
    scenario.AccountActivity? && incident.Some? ==> r.trace in s.ledger.sources
  }

  ghost predicate HasRow(s: State, trace: string) {
    exists k :: k in s.rows && s.rows[k].trace == trace
  }

  ghost predicate ApprovalsAgree(c: Config, s: State)
    requires Exclusive(s)
  {
    && Linked(s.ledger)
    && (forall t | t in s.ledger.sources :: HasRow(s, t))
    && (forall k | k in s.rows :: ApprovalFits(c, s, s.rows[k]))
    && (s.pc.Finishing? ==> ProposalMade(s, Held(s), ScenarioFor(Held(s).alert), s.pc.incident))
    && (forall k | k in s.rows && s.rows[k].status == Completed ::
          ProposalMade(s, s.rows[k], s.rows[k].result.value.scenario, s.rows[k].result.value.incident))
  }

  ghost predicate Inv(c: Config, s: State) {
    Keyed(s) && Exclusive(s) && HandoffsAgree(c, s) && IncidentsAgree(c, s) && ApprovalsAgree(c, s)
  }

  /** No other row has the trace of row k. */
  lemma OneRowPerTrace(s: State, k: string)
    requires Keyed(s) && k in s.rows
    ensures forall j | j in s.rows && s.rows[j].trace == s.rows[k].trace :: j == k
  {
  }

  // ---- What each part of the work leaves alone.

  /** The worker holds the same delivery before and after. */
  predicate SameKey(p: Pc, q: Pc) {
    !p.Idle? && !q.Idle? && p.key == q.key
  }

  ghost predicate CasesGrow(w: World, v: World) {
    forall id | id in w.cases :: id in v.cases && v.cases[id] == w.cases[id]
  }

  ghost predicate HandedOn(s: State, n: State) {
    && n == s.(handoffs := n.handoffs, pc := n.pc,
               world := s.world.(sent := n.world.sent, underway := n.world.underway, accepted := n.world.accepted))
    && SameKey(s.pc, n.pc) && HasIncident(s.pc) && !n.pc.Finishing? && !n.pc.Reporting?
    && (n.pc.Failing? ||
        (HasIncident(n.pc) && n.pc.incident == s.pc.incident && n.pc.disposition == s.pc.disposition))
  }

  /** The parts of the state that a step of each phase may change, and where the worker gets to. */
  ghost predicate Framed(s: State, n: State, e: Event) {
    match PhaseOf(e)
    case Outside =>
      && n == s.(now := n.now, ledger := n.ledger, world := n.world)
      && CasesGrow(s.world, n.world) && n.world.sent == s.world.sent
    case Queueing =>
      && n == s.(rows := n.rows, handoffs := n.handoffs, pc := n.pc, stopped := n.stopped)
      && (n.pc == s.pc || n.pc.Idle? || (s.pc.Idle? && n.pc.Enriching?))
    case Correlating =>
      && n == s.(incidents := n.incidents, pc := n.pc) && SameKey(s.pc, n.pc)
      && (s.pc.Enriching? || s.pc.Reserving? || s.pc.Finding? || s.pc.Observing? || s.pc.Auditing?)
      && (InWindow(n.pc) || n.pc.Reserving? || n.pc.Auditing? || n.pc.Handing? || n.pc.Failing?)
    case Posting =>
      && n == s.(incidents := n.incidents, pc := n.pc,
                 world := s.world.(cases := n.world.cases, opening := n.world.opening))
      && CasesGrow(s.world, n.world) && SameKey(s.pc, n.pc) && (s.pc.Creating? || s.pc.AwaitingCase?)
      && (n.pc.Creating? || n.pc.AwaitingCase? || n.pc.Observing? || n.pc.Failing?)
    case HandingOff => HandedOn(s, n)
    case Closing =>
      && n == s.(rows := n.rows, ledger := n.ledger, pc := n.pc, stopped := n.stopped)
      && (n.pc.Idle? || SameKey(s.pc, n.pc))
      && (s.pc.Proposing? || s.pc.Finishing? || s.pc.Reporting? || s.pc.Failing?)
      && (n.pc.Idle? || n.pc.Finishing? || n.pc.Reporting? || n.pc.Failing?)
  }

  lemma FramedOutside(s: State, e: Event)
    requires PhaseOf(e) == Outside && OutsideEnabled(s, e)
    ensures Framed(s, OutsideNext(s, e), e)
  {
  }

  lemma FramedQueueing(s: State, e: Event)
    requires PhaseOf(e) == Queueing && QueueingEnabled(s, e)
    ensures Framed(s, QueueingNext(s, e), e)
  {
  }

  lemma FramedCorrelating(c: Config, s: State, e: Event)
    requires PhaseOf(e) == Correlating && !s.pc.Idle? && s.pc.key in s.rows && CorrelatingEnabled(c, s, e)
    ensures Framed(s, CorrelatingNext(c, s, e), e)
  {
  }

  lemma FramedPosting(c: Config, s: State, e: Event)
    requires PhaseOf(e) == Posting && !s.pc.Idle? && s.pc.key in s.rows && PostingEnabled(c, s, e)
    ensures Framed(s, PostingNext(c, s, e), e)
  {
  }

  lemma FramedHandingOff(c: Config, s: State, e: Event)
    requires PhaseOf(e) == HandingOff && !s.pc.Idle? && s.pc.key in s.rows && HandingOffEnabled(s, e)
    ensures Framed(s, HandingOffNext(c, s, e), e)
  {
    if e.TriggerReply? {
      FramedTriggerReply(c, s, e);
    } else if e.BeginHandoff? {
      FramedBeginHandoff(c, s, e);
    }
  }

  lemma FramedBeginHandoff(c: Config, s: State, e: Event)
    requires e.BeginHandoff? && s.pc.Handing? && s.pc.key in s.rows
    ensures HandedOn(s, HandingOffNext(c, s, e))
  {
  }

  lemma FramedTriggerReply(c: Config, s: State, e: Event)
    requires e.TriggerReply? && s.pc.Triggering? && s.pc.key in s.rows && HandingOffEnabled(s, e)
    ensures HandedOn(s, HandingOffNext(c, s, e))
  {
    TriggerReplyPc(c, s, e);
    TriggerReplyState(c, s, e);
  }

  lemma TriggerReplyPc(c: Config, s: State, e: Event)
    requires e.TriggerReply? && s.pc.Triggering? && s.pc.key in s.rows && HandingOffEnabled(s, e)
    ensures var p := HandingOffNext(c, s, e).pc;
      && p.key == s.pc.key && (p.Failing? || p.Commenting? || p.Proposing?)
      && (!p.Failing? ==> p.incident == s.pc.incident && p.disposition == s.pc.disposition)
  {
  }

  lemma TriggerReplyState(c: Config, s: State, e: Event)
    requires e.TriggerReply? && s.pc.Triggering? && s.pc.key in s.rows && HandingOffEnabled(s, e)
    ensures var n := HandingOffNext(c, s, e);
      n == s.(handoffs := n.handoffs, pc := n.pc, world := s.world.(underway := n.world.underway))
  {
  }

  lemma FramedClosing(c: Config, s: State, e: Event)
    requires PhaseOf(e) == Closing && !s.pc.Idle? && s.pc.key in s.rows && ClosingEnabled(s, e)
    ensures Framed(s, ClosingNext(c, s, e), e)
  {
  }

  /** Every step keeps to the frame of its phase. */
  lemma Frame(c: Config, s: State, e: Event)
    requires Enabled(c, s, e)
    ensures Framed(s, Next(c, s, e), e)
  {
    match PhaseOf(e)
    case Outside => FramedOutside(s, e);
    case Queueing => FramedQueueing(s, e);
    case Correlating => FramedCorrelating(c, s, e);
    case Posting => FramedPosting(c, s, e);
    case HandingOff => FramedHandingOff(c, s, e);
    case Closing => FramedClosing(c, s, e);
  }

  // ---- What a step does to the rows.

  predicate Requeues(e: Event, k: string) {
    (e.Replay? || e.Reconcile?) && e.key == k
  }

  /** What one step does to the row of key k. */
  ghost function RowAfter(c: Config, s: State, e: Event, k: string): Row
    requires k in s.rows
  {
    var r := s.rows[k];
    if e == Claim(k) then Claimed(r, s.now)
    else if Requeues(e, k) then Requeued(r, s.now)
    else if e.Crash? then Recovered(r, s.now)
    else if e.Settle? && s.pc.Failing? && s.pc.key == k then
      FailedOnce(r, s.pc.error, c.maxAttempts, RetryDelay(c.backoff, r.attempts), s.now)
    else if e.Finish? && s.pc.Finishing? && s.pc.key == k then
      Finished(r, Outcome(s.pc.incident, s.pc.disposition, ScenarioFor(r.alert), s.pc.execution), s.now)
    else r
  }

  /** Every row is as the step leaves it, and only intake adds one. */
  ghost predicate RowsStepped(c: Config, s: State, n: State, e: Event) {
    && (forall k | k in s.rows :: k in n.rows && n.rows[k] == RowAfter(c, s, e, k))
    && (forall k | k in n.rows && k !in s.rows ::
          e.Intake? && e.key == k && n.rows[k] == FreshRow(e.alert, TraceOf(k, e.alert.id), s.now))
    && (e.Intake? ==> e.key in n.rows)
  }

  lemma RowsQueueing(c: Config, s: State, e: Event)
    requires PhaseOf(e) == Queueing && QueueingEnabled(s, e)
    ensures RowsStepped(c, s, QueueingNext(s, e), e)
  {
  }

  lemma RowsClosing(c: Config, s: State, e: Event)
    requires PhaseOf(e) == Closing && !s.pc.Idle? && s.pc.key in s.rows && ClosingEnabled(s, e)
    ensures RowsStepped(c, s, ClosingNext(c, s, e), e)
  {
  }

  lemma RowsElsewhere(c: Config, s: State, n: State, e: Event)
    requires Framed(s, n, e) && PhaseOf(e) != Queueing && PhaseOf(e) != Closing
    ensures RowsStepped(c, s, n, e)
  {
    assert n.rows == s.rows;
    forall k | k in s.rows ensures RowAfter(c, s, e, k) == s.rows[k] {
      RowElsewhere(c, s, e, k);
    }
  }

  lemma RowElsewhere(c: Config, s: State, e: Event, k: string)
    requires k in s.rows && PhaseOf(e) != Queueing && PhaseOf(e) != Closing
    ensures RowAfter(c, s, e, k) == s.rows[k]
  {
  }

  lemma RowsStep(c: Config, s: State, e: Event)
    requires Enabled(c, s, e)
    ensures RowsStepped(c, s, Next(c, s, e), e)
  {
    match PhaseOf(e)
    case Queueing => RowsQueueing(c, s, e);
    case Closing => RowsClosing(c, s, e);
    case _ =>
      Frame(c, s, e);
      RowsElsewhere(c, s, Next(c, s, e), e);
  }

  // ---- At most one row is processing, and it is the worker's.

  lemma ExclusiveStep(c: Config, s: State, e: Event)
    requires Exclusive(s) && Enabled(c, s, e)
    ensures Exclusive(Next(c, s, e))
  {
    match PhaseOf(e)
    case Queueing => ExclusiveQueueing(c, s, e);
    case Closing => ExclusiveClosing(c, s, e);
    case _ =>
      Frame(c, s, e);
      ExclusiveElsewhere(s, Next(c, s, e), e);
  }

  lemma ExclusiveElsewhere(s: State, n: State, e: Event)
    requires Exclusive(s) && Framed(s, n, e) && PhaseOf(e) != Queueing && PhaseOf(e) != Closing
    ensures Exclusive(n)
  {
  }

  lemma ExclusiveQueueing(c: Config, s: State, e: Event)
    requires Exclusive(s) && PhaseOf(e) == Queueing && QueueingEnabled(s, e)
    ensures Exclusive(QueueingNext(s, e))
  {
  }

  lemma ExclusiveClosing(c: Config, s: State, e: Event)
    requires Exclusive(s) && PhaseOf(e) == Closing && !s.pc.Idle? && s.pc.key in s.rows && ClosingEnabled(s, e)
    ensures Exclusive(ClosingNext(c, s, e))
  {
  }

  /** Rows are never removed and keep their alert and trace; only intake adds one. */
  ghost predicate RowsEndure(s: State, n: State, e: Event) {
    && (forall k | k in s.rows ::
          k in n.rows && n.rows[k].trace == s.rows[k].trace && n.rows[k].alert == s.rows[k].alert)
    && (forall k | k in n.rows && k !in s.rows ::
          e.Intake? && e.key == k && n.rows[k].alert == e.alert && n.rows[k].trace == TraceOf(k, e.alert.id))
  }

  /** No row is completed that was not. */
  ghost predicate NoneCompletes(s: State, n: State) {
    forall k | k in n.rows && n.rows[k].status == Completed :: k in s.rows && n.rows[k] == s.rows[k]
  }

  lemma EndureQueueing(s: State, e: Event)
    requires PhaseOf(e) == Queueing && QueueingEnabled(s, e)
    ensures RowsEndure(s, QueueingNext(s, e), e)
  {
  }

  lemma CompletesQueueing(s: State, e: Event)
    requires PhaseOf(e) == Queueing && QueueingEnabled(s, e)
    ensures NoneCompletes(s, QueueingNext(s, e))
  {
  }

  lemma EndureClosing(c: Config, s: State, e: Event)
    requires PhaseOf(e) == Closing && !s.pc.Idle? && s.pc.key in s.rows && ClosingEnabled(s, e)
    ensures RowsEndure(s, ClosingNext(c, s, e), e)
  {
  }

  lemma RowsStay(c: Config, s: State, e: Event)
    requires Enabled(c, s, e)
    ensures RowsEndure(s, Next(c, s, e), e) && (PhaseOf(e) != Closing ==> NoneCompletes(s, Next(c, s, e)))
  {
    match PhaseOf(e)
    case Queueing =>
      EndureQueueing(s, e);
      CompletesQueueing(s, e);
    case Closing => EndureClosing(c, s, e);
    case _ => Frame(c, s, e);
  }

  lemma KeyedStep(c: Config, s: State, e: Event)
    requires Exclusive(s) && Keyed(s) && Enabled(c, s, e) && Admissible(s, e)
    ensures Keyed(Next(c, s, e))
  {
    RowsStay(c, s, e);
    KeyedKept(s, Next(c, s, e), e);
  }

  lemma KeyedKept(s: State, n: State, e: Event)
    requires Keyed(s) && Admissible(s, e) && RowsEndure(s, n, e)
    ensures Keyed(n)
  {
  }

  // ---- Handoffs.

  lemma HandoffsStep(c: Config, s: State, e: Event)
    requires Exclusive(s) && Keyed(s) && HandoffsAgree(c, s) && Enabled(c, s, e)
    ensures Exclusive(Next(c, s, e)) && HandoffsAgree(c, Next(c, s, e))
  {
    ExclusiveStep(c, s, e);
    match PhaseOf(e)
    case Outside => HandoffsOutside(c, s, e);
    case Queueing => HandoffsQueueing(c, s, e);
    case Correlating => HandoffsCorrelating(c, s, e);
    case Posting => HandoffsPosting(c, s, e);
    case HandingOff => HandoffsHandingOff(c, s, e);
    case Closing => HandoffsClosing(c, s, e);
  }

  lemma HandoffsOutside(c: Config, s: State, e: Event)
    requires Exclusive(s) && HandoffsAgree(c, s) && PhaseOf(e) == Outside && OutsideEnabled(s, e)
    requires Exclusive(OutsideNext(s, e))
    ensures HandoffsAgree(c, OutsideNext(s, e))
  {
    HandoffsKept(c, s, OutsideNext(s, e));
  }

  lemma HandoffsCorrelating(c: Config, s: State, e: Event)
    requires Exclusive(s) && HandoffsAgree(c, s)
    requires PhaseOf(e) == Correlating && !s.pc.Idle? && CorrelatingEnabled(c, s, e)
    requires Exclusive(CorrelatingNext(c, s, e))
    ensures HandoffsAgree(c, CorrelatingNext(c, s, e))
  {
    HandoffsKept(c, s, CorrelatingNext(c, s, e));
  }

  lemma HandoffsPosting(c: Config, s: State, e: Event)
    requires Exclusive(s) && HandoffsAgree(c, s) && PhaseOf(e) == Posting && !s.pc.Idle? && PostingEnabled(c, s, e)
    requires Exclusive(PostingNext(c, s, e))
    ensures HandoffsAgree(c, PostingNext(c, s, e))
  {
    HandoffsKept(c, s, PostingNext(c, s, e));
  }

  lemma HandoffsKept(c: Config, s: State, n: State)
    requires Exclusive(s) && HandoffsAgree(c, s) && Exclusive(n)
    requires n.rows == s.rows && n.handoffs == s.handoffs
    requires n.pc == s.pc || !(HandedOff(n.pc) || n.pc.HandoffReserved? || n.pc.Triggering?)
    ensures HandoffsAgree(c, n)
  {
  }

  lemma HandoffsQueueing(c: Config, s: State, e: Event)
    requires Exclusive(s) && Keyed(s) && HandoffsAgree(c, s) && PhaseOf(e) == Queueing && QueueingEnabled(s, e)
    requires Exclusive(QueueingNext(s, e))
    ensures HandoffsAgree(c, QueueingNext(s, e))
  {
    if e.Reconcile? {
      HandoffsReconcile(c, s, e);
    } else {
      HandoffsUnresolved(c, s, QueueingNext(s, e));
    }
  }

  /** Rows may be added and requeued, and the worker may take one or stop. */
  lemma HandoffsUnresolved(c: Config, s: State, n: State)
    requires Exclusive(s) && HandoffsAgree(c, s) && Exclusive(n) && n.handoffs == s.handoffs
    requires n.pc == s.pc || n.pc.Idle? || n.pc.Enriching?
    requires !n.pc.Idle? && n.pc == s.pc ==>
               n.rows[n.pc.key].alert == Held(s).alert && n.rows[n.pc.key].trace == Held(s).trace
    requires forall k | k in n.rows && n.rows[k].status == Completed :: k in s.rows && n.rows[k] == s.rows[k]
    ensures HandoffsAgree(c, n)
  {
  }

  lemma HandoffsReconcile(c: Config, s: State, e: Event)
    requires Exclusive(s) && Keyed(s) && HandoffsAgree(c, s) && e.Reconcile? && QueueingEnabled(s, e)
    requires Exclusive(QueueingNext(s, e))
    ensures HandoffsAgree(c, QueueingNext(s, e))
  {
    OneRowPerTrace(s, e.key);
  }

  lemma HandoffsHandingOff(c: Config, s: State, e: Event)
    requires Exclusive(s) && Keyed(s) && HandoffsAgree(c, s)
    requires PhaseOf(e) == HandingOff && !s.pc.Idle? && HandingOffEnabled(s, e) && Exclusive(HandingOffNext(c, s, e))
    ensures HandoffsAgree(c, HandingOffNext(c, s, e))
  {
    OneRowPerTrace(s, s.pc.key);
    HandoffsOfOthers(c, s, e);
    if e.TriggerReply? {
      HandoffsAnswered(c, s, e);
    }
  }

  lemma HandoffsAnswered(c: Config, s: State, e: Event)
    requires Exclusive(s) && HandoffsAgree(c, s) && e.TriggerReply? && !s.pc.Idle? && HandingOffEnabled(s, e)
    requires Exclusive(HandingOffNext(c, s, e))
    ensures var n := HandingOffNext(c, s, e);
      && (HandedOff(n.pc) ==> Agrees(c, n, Held(n), n.pc.execution))
      && (forall t | t in n.handoffs ::
            n.handoffs[t].execution != Some("") && (!n.handoffs[t].completed ==> n.handoffs[t].execution == None))
  {
  }

  /** Handing off leaves the rows and the handoffs of other deliveries alone. */
  lemma HandoffsOfOthers(c: Config, s: State, e: Event)
    requires Exclusive(s) && Keyed(s) && HandoffsAgree(c, s)
    requires PhaseOf(e) == HandingOff && !s.pc.Idle? && HandingOffEnabled(s, e)
    ensures var n := HandingOffNext(c, s, e);
      && n.rows == s.rows
      && (forall k | k in s.rows && s.rows[k].status == Completed ::
            Agrees(c, n, s.rows[k], s.rows[k].result.value.execution))
  {
    OneRowPerTrace(s, s.pc.key);
  }

  /** Handing off touches the reservation of one trace only. */
  lemma OtherHandoffsStay(c: Config, s: State, e: Event)
    requires PhaseOf(e) == HandingOff && !s.pc.Idle? && s.pc.key in s.rows && HandingOffEnabled(s, e)
    ensures var n := HandingOffNext(c, s, e);
      forall t | t != Held(s).trace && t in s.handoffs :: t in n.handoffs && n.handoffs[t] == s.handoffs[t]
  {
  }

  lemma HandoffsClosing(c: Config, s: State, e: Event)
    requires Exclusive(s) && HandoffsAgree(c, s) && PhaseOf(e) == Closing && !s.pc.Idle? && ClosingEnabled(s, e)
    requires Exclusive(ClosingNext(c, s, e))
    ensures HandoffsAgree(c, ClosingNext(c, s, e))
  {
  }

  // ---- Incidents.

  /** Recorded cases stay recorded. */
  ghost predicate RecordsStay(s: State, n: State) {
    forall f | f in s.incidents && s.incidents[f].Some? :: f in n.incidents && n.incidents[f] == s.incidents[f]
  }

  lemma RecordsCorrelating(c: Config, s: State, e: Event)
    requires Exclusive(s) && IncidentsAgree(c, s)
    requires PhaseOf(e) == Correlating && !s.pc.Idle? && CorrelatingEnabled(c, s, e)
    ensures RecordsStay(s, CorrelatingNext(c, s, e))
  {
  }

  lemma RecordsPosting(c: Config, s: State, e: Event)
    requires Exclusive(s) && IncidentsAgree(c, s) && PhaseOf(e) == Posting && !s.pc.Idle? && PostingEnabled(c, s, e)
    ensures RecordsStay(s, PostingNext(c, s, e))
  {
  }

  lemma CasesStay(c: Config, s: State, e: Event)
    requires Exclusive(s) && IncidentsAgree(c, s) && Enabled(c, s, e)
    ensures RecordsStay(s, Next(c, s, e))
  {
    match PhaseOf(e)
    case Correlating => RecordsCorrelating(c, s, e);
    case Posting => RecordsPosting(c, s, e);
    case _ => Frame(c, s, e);
  }

  lemma IncidentsStep(c: Config, s: State, e: Event)
    requires Exclusive(s) && IncidentsAgree(c, s) && Enabled(c, s, e)
    ensures Exclusive(Next(c, s, e)) && IncidentsAgree(c, Next(c, s, e))
  {
    ExclusiveStep(c, s, e);
    match PhaseOf(e)
    case Queueing => IncidentsQueueing(c, s, e);
    case Correlating => IncidentsCorrelating(c, s, e);
    case Posting => IncidentsPosting(c, s, e);
    case Closing => IncidentsClosing(c, s, e);
    case _ =>
      Frame(c, s, e);
      IncidentsElsewhere(c, s, Next(c, s, e), e);
  }

  lemma IncidentsElsewhere(c: Config, s: State, n: State, e: Event)
    requires Exclusive(s) && IncidentsAgree(c, s) && Exclusive(n) && Framed(s, n, e)
    requires PhaseOf(e) == Outside || PhaseOf(e) == HandingOff
    ensures IncidentsAgree(c, n)
  {
  }

  lemma IncidentsQueueing(c: Config, s: State, e: Event)
    requires Exclusive(s) && IncidentsAgree(c, s) && PhaseOf(e) == Queueing && QueueingEnabled(s, e)
    requires Exclusive(QueueingNext(s, e))
    ensures IncidentsAgree(c, QueueingNext(s, e))
  {
    EndureQueueing(s, e);
    CompletesQueueing(s, e);
    FramedQueueing(s, e);
    IncidentsUntouched(c, s, QueueingNext(s, e), e);
  }

  /** Rows may be added and requeued, and the worker may take one or stop. */
  lemma IncidentsUntouched(c: Config, s: State, n: State, e: Event)
    requires Exclusive(s) && IncidentsAgree(c, s) && Exclusive(n)
    requires PhaseOf(e) == Queueing && Framed(s, n, e) && RowsEndure(s, n, e) && NoneCompletes(s, n)
    ensures IncidentsAgree(c, n)
  {
  }

  lemma IncidentsCorrelating(c: Config, s: State, e: Event)
    requires Exclusive(s) && IncidentsAgree(c, s)
    requires PhaseOf(e) == Correlating && !s.pc.Idle? && CorrelatingEnabled(c, s, e)
    requires Exclusive(CorrelatingNext(c, s, e))
    ensures IncidentsAgree(c, CorrelatingNext(c, s, e))
  {
    RecordsCorrelating(c, s, e);
    IncidentsOfPc(c, s, e);
    FramedCorrelating(c, s, e);
    RecordsAgree(c, s, CorrelatingNext(c, s, e));
  }

  lemma IncidentsOfPc(c: Config, s: State, e: Event)
    requires Exclusive(s) && PcAgrees(c, s) && PhaseOf(e) == Correlating && !s.pc.Idle? && CorrelatingEnabled(c, s, e)
    requires Exclusive(CorrelatingNext(c, s, e))
    ensures PcAgrees(c, CorrelatingNext(c, s, e))
  {
  }

  lemma RecordsAgree(c: Config, s: State, n: State)
    requires Exclusive(s) && IncidentsAgree(c, s) && Exclusive(n) && n.rows == s.rows && RecordsStay(s, n)
    requires PcAgrees(c, n)
    ensures IncidentsAgree(c, n)
  {
  }

  lemma IncidentsPosting(c: Config, s: State, e: Event)
    requires Exclusive(s) && IncidentsAgree(c, s) && PhaseOf(e) == Posting && !s.pc.Idle? && PostingEnabled(c, s, e)
    requires Exclusive(PostingNext(c, s, e))
    ensures IncidentsAgree(c, PostingNext(c, s, e))
  {
    RecordsPosting(c, s, e);
  }

  lemma IncidentsClosing(c: Config, s: State, e: Event)
    requires Exclusive(s) && IncidentsAgree(c, s) && PhaseOf(e) == Closing && !s.pc.Idle? && ClosingEnabled(s, e)
    requires Exclusive(ClosingNext(c, s, e))
    ensures IncidentsAgree(c, ClosingNext(c, s, e))
  {
  }

  // ---- Approvals.

  ghost predicate LedgerStepped(s: State, n: State, e: Event) {
    && Linked(n.ledger) && Grows(s.ledger, n.ledger)
    && (n.ledger.sources.Keys == s.ledger.sources.Keys || ProposesFor(s, n, e))
  }

  lemma LedgerOutside(s: State, e: Event)
    requires Linked(s.ledger) && PhaseOf(e) == Outside && OutsideEnabled(s, e)
    ensures LedgerStepped(s, OutsideNext(s, e), e)
  {
    if e.Propose? {
      CreateGrows(s.ledger, e.id, e.proposal);
    } else if e.Decide? {
      DecideGrows(s.ledger, e.id, e.decision);
    }
  }

  lemma LedgerClosing(c: Config, s: State, e: Event)
    requires Linked(s.ledger) && PhaseOf(e) == Closing && !s.pc.Idle? && s.pc.key in s.rows && ClosingEnabled(s, e)
    ensures LedgerStepped(s, ClosingNext(c, s, e), e)
  {
    if e.ProposeOnce? && s.pc.incident.Some? {
      CreateOnceGrows(s.ledger, Held(s).trace, e.id, Proposal(s.pc.incident.value, ACTION, TARGET));
    }
  }

  lemma LedgerStays(c: Config, s: State, e: Event)
    requires Linked(s.ledger) && Enabled(c, s, e)
    ensures LedgerStepped(s, Next(c, s, e), e)
  {
    match PhaseOf(e)
    case Outside => LedgerOutside(s, e);
    case Closing => LedgerClosing(c, s, e);
    case _ =>
      Frame(c, s, e);
      assert Next(c, s, e).ledger == s.ledger;
  }

  /** The step proposes for the delivery the worker holds, whose trace had no proposal. */
  ghost predicate ProposesFor(s: State, n: State, e: Event) {
    && e.ProposeOnce? && s.pc.Proposing? && s.pc.incident.Some? && s.pc.key in s.rows
    && ScenarioFor(Held(s).alert).AccountActivity?
    && Held(s).trace !in s.ledger.sources
    && n.ledger.sources.Keys == s.ledger.sources.Keys + {Held(s).trace}
    && Approved(n, Held(s), s.pc.incident.value)
  }

  lemma ApprovalFitsStep(c: Config, s: State, e: Event, k: string)
    requires Keyed(s) && Exclusive(s) && IncidentsAgree(c, s) && ApprovalsAgree(c, s)
    requires Enabled(c, s, e) && Admissible(s, e)
    requires k in Next(c, s, e).rows
    ensures ApprovalFits(c, Next(c, s, e), Next(c, s, e).rows[k])
  {
    var n := Next(c, s, e);
    var t := n.rows[k].trace;
    KeyedStep(c, s, e);
    RowsStay(c, s, e);
    CasesStay(c, s, e);
    LedgerStays(c, s, e);
    OneRowPerTrace(n, k);
    if t in s.ledger.sources {
      assert HasRow(s, t);
      assert k in s.rows;
      assert ApprovalFits(c, s, s.rows[k]);
    } else if t in n.ledger.sources {
      assert k == s.pc.key;
      assert KnownCase(c, s, Held(s), s.pc.incident, s.pc.disposition);
    }
  }

  /** Deliveries past their proposal have one. */
  ghost predicate ProposalsMade(n: State)
    requires Exclusive(n)
  {
    && (n.pc.Finishing? ==> ProposalMade(n, Held(n), ScenarioFor(Held(n).alert), n.pc.incident))
    && (forall k | k in n.rows && n.rows[k].status == Completed ::
          ProposalMade(n, n.rows[k], n.rows[k].result.value.scenario, n.rows[k].result.value.incident))
  }

  lemma ProposalsClosing(c: Config, s: State, e: Event)
    requires Exclusive(s) && ProposalsMade(s) && PhaseOf(e) == Closing && !s.pc.Idle? && ClosingEnabled(s, e)
    requires Exclusive(ClosingNext(c, s, e)) && Grows(s.ledger, ClosingNext(c, s, e).ledger)
    ensures ProposalsMade(ClosingNext(c, s, e))
  {
  }

  lemma ProposalsElsewhere(c: Config, s: State, n: State, e: Event)
    requires Exclusive(s) && ProposalsMade(s) && Exclusive(n) && Grows(s.ledger, n.ledger)
    requires Framed(s, n, e) && PhaseOf(e) != Closing && RowsEndure(s, n, e) && NoneCompletes(s, n)
    ensures ProposalsMade(n)
  {
  }

  lemma ProposalsStay(c: Config, s: State, e: Event)
    requires Exclusive(s) && ProposalsMade(s) && Enabled(c, s, e)
    requires Exclusive(Next(c, s, e)) && Grows(s.ledger, Next(c, s, e).ledger)
    ensures ProposalsMade(Next(c, s, e))
  {
    if PhaseOf(e) == Closing {
      ProposalsClosing(c, s, e);
    } else {
      Frame(c, s, e);
      RowsStay(c, s, e);
      ProposalsElsewhere(c, s, Next(c, s, e), e);
    }
  }

  lemma SourcesHaveRows(s: State, n: State, e: Event)
    requires (forall t | t in s.ledger.sources :: HasRow(s, t)) && RowsEndure(s, n, e) && LedgerStepped(s, n, e)
    ensures forall t | t in n.ledger.sources :: HasRow(n, t)
  {
    forall t | t in n.ledger.sources ensures HasRow(n, t) {
      if t in s.ledger.sources {
        var k :| k in s.rows && s.rows[k].trace == t;
        assert n.rows[k].trace == t;
      } else {
        assert n.rows[s.pc.key].trace == t;
      }
    }
  }

  lemma ApprovalsStep(c: Config, s: State, e: Event)
    requires Keyed(s) && Exclusive(s) && IncidentsAgree(c, s) && ApprovalsAgree(c, s)
    requires Enabled(c, s, e) && Admissible(s, e)
    ensures Exclusive(Next(c, s, e)) && ApprovalsAgree(c, Next(c, s, e))
  {
    ExclusiveStep(c, s, e);
    RowsStay(c, s, e);
    LedgerStays(c, s, e);
    ProposalsStay(c, s, e);
    SourcesHaveRows(s, Next(c, s, e), e);
    forall k | k in Next(c, s, e).rows ensures ApprovalFits(c, Next(c, s, e), Next(c, s, e).rows[k]) {
      ApprovalFitsStep(c, s, e, k);
    }
  }

  // ---- Everything together, over whole histories.

  lemma InvStep(c: Config, s: State, e: Event)
    requires Inv(c, s) && Enabled(c, s, e) && Admissible(s, e)
    ensures Inv(c, Next(c, s, e))
  {
    KeyedStep(c, s, e);
    HandoffsStep(c, s, e);
    IncidentsStep(c, s, e);
    ApprovalsStep(c, s, e);
  }

  ghost predicate AdmissibleRun(c: Config, r: Run) {
    r.From? || (AdmissibleRun(c, r.past) && Admissible(Final(c, r.past), r.event))
  }

  /** All deliveries have keys without a colon. */
  ghost predicate ColonFreeKeys(s: State) {
    forall k | k in s.rows :: ColonFree(k)
  }

  ghost predicate ColonFreeIntake(r: Run) {
    r.From? || (ColonFreeIntake(r.past) && (r.event.Intake? ==> ColonFree(r.event.key)))
  }

  lemma ColonFreeAdmits(s: State, e: Event)
    requires Keyed(s) && ColonFreeKeys(s) && (e.Intake? ==> ColonFree(e.key))
    ensures Admissible(s, e)
  {
    if e.Intake? {
      forall k | k in s.rows && s.rows[k].trace == TraceOf(e.key, e.alert.id) ensures k == e.key {
        TracesDistinct(k, s.rows[k].alert.id, e.key, e.alert.id);
      }
    }
  }

  /** Intake under keys without a colon keeps traces distinct. */
  lemma {:induction false} ColonFreeIsAdmissible(c: Config, r: Run)
    requires Valid(c, r) && Inv(c, Start(r)) && ColonFreeKeys(Start(r)) && ColonFreeIntake(r)
    ensures AdmissibleRun(c, r) && Inv(c, Final(c, r)) && ColonFreeKeys(Final(c, r))
  {
    if r.Then? {
      ColonFreeIsAdmissible(c, r.past);
      ColonFreeAdmits(Final(c, r.past), r.event);
      InvStep(c, Final(c, r.past), r.event);
      RowsStay(c, Final(c, r.past), r.event);
    }
  }

  /** A history goes on with any step that may be taken. */
  lemma Extend(c: Config, r: Run, e: Event)
    requires Valid(c, r) && AdmissibleRun(c, r) && Enabled(c, Final(c, r), e) && Admissible(Final(c, r), e)
    ensures Valid(c, Then(r, e)) && AdmissibleRun(c, Then(r, e)) && Start(Then(r, e)) == Start(r)
    ensures Final(c, Then(r, e)) == Next(c, Final(c, r), e)
  {
  }

  lemma {:induction false} InvFrom(c: Config, r: Run)
    requires Valid(c, r) && AdmissibleRun(c, r) && Inv(c, Start(r))
    ensures Inv(c, Final(c, r))
  {
    if r.Then? {
      InvFrom(c, r.past);
      InvStep(c, Final(c, r.past), r.event);
    }
  }

  lemma InvAlways(c: Config, r: Run)
    requires Execution(c, r) && AdmissibleRun(c, r)
    ensures Inv(c, Final(c, r))
  {
    InvFrom(c, r);
  }
}
