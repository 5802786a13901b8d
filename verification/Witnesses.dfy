/**
 Histories from the empty tables in which the failures described elsewhere happen: an ambiguous
 handoff that costs two acceptances, or one after a careful retry, a dead end, an incident without a
 case, one case too many, a completed delivery that is retried, a worker that stops, two deliveries
 that share a trace, or an incident.
 */
module Witnesses {
  import opened Basics
  import opened Alerts
  import opened Deliveries
  import opened Approvals
  import opened Protocol
  import opened Invariants
  import opened ShuffleBound
  import opened Lifecycle
  import opened Cases
  import opened Attempts
  import opened Progress
  import opened Recovery
  import Http = RetryingClient

  // ---- Plain steps.

  /** Neither intake nor a reconciliation, no late case, no failed report and no lost audit line. */
  predicate Plain(e: Event) {
    !e.Intake? && !e.Reconcile? && !e.CaseAppears? && e != Report(false) && !LosesLine(e)
  }

  ghost predicate ClosedPlain(c: Config, within: iset<State>) {
    forall m, e | m in within && Plain(e) && Enabled(c, m, e) :: Next(c, m, e) in within
  }

  /** Plain steps lead from s to n: n is in every set closed under them that s is in. */
  ghost predicate Leads(c: Config, s: State, n: State) {
    forall within: iset<State> | ClosedPlain(c, within) && s in within :: n in within
  }

  lemma PlainStep(c: Config, s: State, m: State, e: Event)
    requires Leads(c, s, m) && Enabled(c, m, e) && Plain(e)
    ensures Leads(c, s, Next(c, m, e))
  {
  }

  /** A history with the same beginning, and as many retries, late cases, failed reports and lost lines. */
  ghost predicate Adds(c: Config, r: Run, q: Run) {
    && Execution(c, q) && FailedReports(q) == FailedReports(r) && LostLines(q) == LostLines(r)
    && (AdmissibleRun(c, r) ==> AdmissibleRun(c, q))
    && (forall t :: Retries(c, q, t) == Retries(c, r, t)) && (forall f :: Late(c, q, f) == Late(c, r, f))
  }

  ghost predicate AddsTo(c: Config, r: Run, n: State) {
    exists q :: Adds(c, r, q) && Final(c, q) == n
  }

  /** Where plain steps lead, a history leads. */
  lemma Follow(c: Config, r: Run, n: State) returns (q: Run)
    requires Execution(c, r) && Leads(c, Final(c, r), n)
    ensures Adds(c, r, q) && Final(c, q) == n
  {
    var within := iset m | AddsTo(c, r, m);
    assert Adds(c, r, r);
    forall m, e | m in within && Plain(e) && Enabled(c, m, e) ensures Next(c, m, e) in within {
      var p :| Adds(c, r, p) && Final(c, p) == m;
      assert Start(Then(p, e)) == Start(p);
      assert Adds(c, r, Then(p, e)) && Final(c, Then(p, e)) == Next(c, m, e);
    }
    assert ClosedPlain(c, within);
    q :| Adds(c, r, q) && Final(c, q) == n;
  }

  // ---- One delivery at a time.

  /** The worker is idle, and k is the only delivery that is not completed. */
  ghost predicate Alone(s: State, k: string) {
    && s.pc.Idle? && !s.stopped && k in s.rows && (s.rows[k].status == Failed || Waiting(s.rows[k]))
    && forall j | j in s.rows && j != k :: s.rows[j].status == Completed
  }

  /** The first history: one delivery is queued. */
  lemma Queue(c: Config, k: string, a: Alert) returns (r: Run)
    ensures Execution(c, r) && AdmissibleRun(c, r) && FailedReports(r) == 0 && LostLines(r) == 0
    ensures (forall t :: Retries(c, r, t) == 0) && (forall f :: Late(c, r, f) == 0)
    ensures Final(c, r) == Initial(0).(rows := map[k := FreshRow(a, TraceOf(k, a.id), 0)])
    ensures forall f :: CasesOf(Final(c, r), f) == {}
  {
    Extend(c, From(Initial(0)), Intake(k, a));
    r := Then(From(Initial(0)), Intake(k, a));
  }

  /** What claiming leaves alone. */
  ghost predicate Same(s: State, n: State, k: string) {
    && k in s.rows && n.rows.Keys == s.rows.Keys && (forall j | j in s.rows && j != k :: n.rows[j] == s.rows[j])
    && k in n.rows && n.rows[k].alert == s.rows[k].alert && n.rows[k].trace == s.rows[k].trace
    && n.handoffs == s.handoffs && n.incidents == s.incidents && n.world == s.world && n.ledger == s.ledger
  }

  /** An operator and the clock make the delivery due. */
  lemma Await(c: Config, s: State, k: string) returns (n: State)
    requires Alone(s, k)
    ensures Leads(c, s, n) && Same(s, n, k) && Alone(n, k) && OldestDue(n.rows, k, n.now)
  {
    n := s;
    if s.rows[k].status == Failed {
      PlainStep(c, s, n, Replay(k));
      n := Next(c, n, Replay(k));
    }
    var now := if n.rows[k].next.Some? then Max(n.now, n.rows[k].next.value) else n.now;
    PlainStep(c, s, n, Clock(now));
    n := n.(now := now);
  }

  /** The worker claims the delivery. */
  lemma Grab(c: Config, s: State, k: string) returns (n: State)
    requires Alone(s, k)
    ensures Leads(c, s, n) && Same(s, n, k) && n.pc == Enriching(k) && n.rows[k].status == Processing && !n.stopped
  {
    var m := Await(c, s, k);
    PlainStep(c, s, m, Claim(k));
    n := Next(c, m, Claim(k));
  }

  /** The worker claims the delivery and enriches it. */
  lemma Take(c: Config, s: State, k: string) returns (n: State)
    requires Alone(s, k)
    ensures Leads(c, s, n) && Same(s, n, k) && n.pc == Reserving(k) && n.rows[k].status == Processing && !n.stopped
  {
    var m := Grab(c, s, k);
    PlainStep(c, s, m, Enrich(true));
    n := m.(pc := Reserving(k));
  }

  /** The fingerprint of row k is neither reserved nor known to TheHive. */
  ghost predicate Unknown(c: Config, s: State, k: string)
    requires k in s.rows
  {
    Fp(c, s.rows[k]) !in s.incidents && CasesOf(s, Fp(c, s.rows[k])) == {}
  }

  function AfterReserve(c: Config, s: State, k: string): State
    requires k in s.rows
  {
    s.(pc := Creating(k, 0), incidents := s.incidents[Fp(c, s.rows[k]) := None])
  }

  lemma Reserve(c: Config, s: State, k: string)
    requires s.pc == Reserving(k) && k in s.rows && Unknown(c, s, k)
    ensures Leads(c, s, AfterReserve(c, s, k))
  {
    var f := Fp(c, s.rows[k]);
    PlainStep(c, s, s, ReserveIncident);
    assert forall id | id in s.world.cases && s.world.cases[id] == f :: id in CasesOf(s, f);
    PlainStep(c, s, s.(incidents := s.incidents[f := None], pc := Finding(k)), FindCase(NoCase));
  }

  /** The state after a new case was opened and recorded. */
  function WithCase(c: Config, s: State, k: string, id: CaseId): State
    requires k in s.rows
  {
    var f := Fp(c, s.rows[k]);
    s.(world := s.world.(cases := s.world.cases[id := f]), incidents := s.incidents[f := Some(id)],
       pc := Handing(k, Some(id), Deliveries.Created))
  }

  lemma CaseNamed(c: Config, s: State, k: string, id: CaseId)
    requires s.pc == AwaitingCase(k, 0, Some(id)) && k in s.rows
    ensures Enabled(c, s, CaseReply(OK, Names(id)))
    ensures Next(c, s, CaseReply(OK, Names(id))) == s.(pc := Observing(k, id))
  {
  }

  lemma OpenCase(c: Config, s: State, k: string, id: CaseId)
    requires s.pc == Creating(k, 0) && k in s.rows && id !in s.world.cases
    ensures Leads(c, s, s.(world := s.world.(cases := s.world.cases[id := Fp(c, s.rows[k])]), pc := Observing(k, id)))
  {
    PlainStep(c, s, s, SendCase(Some(id), false));
    var m := Next(c, s, SendCase(Some(id), false));
    CaseNamed(c, m, k, id);
    PlainStep(c, s, m, CaseReply(OK, Names(id)));
  }

  lemma RecordCase(c: Config, s: State, k: string, id: CaseId)
    requires s.pc == Observing(k, id) && k in s.rows && Fp(c, s.rows[k]) in s.incidents
    ensures Leads(c, s, s.(incidents := s.incidents[Fp(c, s.rows[k]) := Some(id)],
                           pc := Handing(k, Some(id), Deliveries.Created)))
  {
    PlainStep(c, s, s, Observe(true));
    PlainStep(c, s, Next(c, s, Observe(true)), Note(true));
  }

  /** From the claim to the handoff, with a new case. */
  lemma Correlate(c: Config, s: State, k: string, id: CaseId)
    requires s.pc == Reserving(k) && k in s.rows && Unknown(c, s, k) && id !in s.world.cases
    ensures Leads(c, s, WithCase(c, s, k, id))
  {
    var f := Fp(c, s.rows[k]);
    Reserve(c, s, k);
    OpenCase(c, AfterReserve(c, s, k), k, id);
    var m := AfterReserve(c, s, k).(world := s.world.(cases := s.world.cases[id := f]), pc := Observing(k, id));
    RecordCase(c, m, k, id);
    assert m.(incidents := m.incidents[f := Some(id)], pc := Handing(k, Some(id), Deliveries.Created))
        == WithCase(c, s, k, id);
  }

  // ---- Handoffs.

  function Sending(s: State, k: string): State
    requires k in s.rows && s.pc.Handing?
  {
    var t := s.rows[k].trace;
    s.(handoffs := s.handoffs[t := Handoff(false, None)],
       world := s.world.(sent := s.world.sent + multiset{t}, underway := s.world.underway + multiset{t}),
       pc := Triggering(k, s.pc.incident, s.pc.disposition))
  }

  /** To the trigger, whose answer is awaited. */
  lemma SendTheTrigger(c: Config, s: State, k: string)
    requires s.pc.Handing? && s.pc.key == k && k in s.rows
    requires HasWebhook(c, s.rows[k]) && s.rows[k].trace !in s.handoffs
    ensures Leads(c, s, Sending(s, k))
  {
    PlainStep(c, s, s, BeginHandoff);
    var m := s.(handoffs := s.handoffs[s.rows[k].trace := Handoff(false, None)],
                pc := HandoffReserved(k, s.pc.incident, s.pc.disposition));
    PlainStep(c, s, m, SendTrigger);
  }

  function Acknowledged(s: State, k: string, execution: Option<string>): State
    requires k in s.rows && s.pc.Triggering?
  {
    s.(handoffs := s.handoffs[s.rows[k].trace := Handoff(true, execution)],
       pc := Commenting(k, s.pc.incident, s.pc.disposition, execution))
  }

  /** The trigger is acknowledged, with or without an identifier. */
  lemma Acknowledge(c: Config, s: State, k: string, body: Body<string>, execution: Option<string>)
    requires s.pc.Triggering? && s.pc.key == k && s.pc.incident.Some? && k in s.rows && s.rows[k].trace in s.handoffs
    requires JudgeTrigger(OK, body) == Accepted(execution)
    ensures Leads(c, s, Acknowledged(s, k, execution))
  {
    PlainStep(c, s, s, TriggerReply(OK, body));
  }

  function Concluded(c: Config, s: State, k: string, id: ApprovalId): State
    requires k in s.rows && s.pc.Proposing?
  {
    var row := s.rows[k];
    s.(ledger := if ScenarioFor(row.alert).AccountActivity? && s.pc.incident.Some?
                 then CreatedOnce(s.ledger, row.trace, id, Proposal(s.pc.incident.value, ACTION, TARGET))
                 else s.ledger,
       rows := s.rows[k := Finished(row,
         Outcome(s.pc.incident, s.pc.disposition, ScenarioFor(row.alert), s.pc.execution), s.now)],
       pc := Reporting(k))
  }

  /** The proposal and the result. */
  lemma Conclude(c: Config, s: State, k: string, id: ApprovalId)
    requires s.pc.Proposing? && s.pc.key == k && k in s.rows && id !in s.ledger.approvals
    ensures Leads(c, s, Concluded(c, s, k, id))
  {
    PlainStep(c, s, s, ProposeOnce(id));
    PlainStep(c, s, Next(c, s, ProposeOnce(id)), Finish);
  }

  lemma CommentOn(c: Config, s: State, ok: bool)
    requires s.pc.Commenting? && s.pc.key in s.rows
    ensures Leads(c, s, s.(pc := if ok then Proposing(s.pc.key, s.pc.incident, s.pc.disposition, s.pc.execution)
                                 else Failing(s.pc.key, "IntegrationError")))
  {
    PlainStep(c, s, s, Comment(ok));
  }

  lemma RecordFailure(c: Config, s: State) returns (n: State)
    requires s.pc.Failing? && s.pc.key in s.rows
    ensures Leads(c, s, n) && n.pc.Idle? && !n.stopped && n.handoffs == s.handoffs && n.incidents == s.incidents
    ensures n.world == s.world && n.ledger == s.ledger && n.rows.Keys == s.rows.Keys
    ensures forall j | j in s.rows && j != s.pc.key :: n.rows[j] == s.rows[j]
    ensures var a, b := s.rows[s.pc.key], n.rows[s.pc.key];
      (b.status == Failed || b.status == Retrying) && b.alert == a.alert && b.trace == a.trace && b.result == a.result
  {
    PlainStep(c, s, s, Settle(true));
    n := Next(c, s, Settle(true));
  }

  // ---- An incident without a case.

  /** The worker's own steps do not resolve what a crash left unresolved. */
  lemma UnresolvedStays(c: Config, s: State, n: State, f: string)
    requires Exclusive(s) && Works(c, s, n) && Unresolved(s, f) && !InWindowOf(c, s, f)
    ensures Unresolved(n, f) && !InWindowOf(c, n, f)
  {
    var within := iset m: State | Exclusive(m) && Unresolved(m, f) && !InWindowOf(c, m, f);
    forall m, e | m in within && Internal(e) && Enabled(c, m, e) ensures Next(c, m, e) in within {
      ExclusiveStep(c, m, e);
      UnresolvedStep(c, m, e, f);
    }
    assert Closed(c, within);
  }

  lemma CrashIn(c: Config, s: State, k: string)
    requires !s.pc.Idle? && !s.stopped && s.pc.key == k && s.rows.Keys == {k} && s.rows[k].status == Processing
    ensures Leads(c, s, s.(rows := s.rows[k := Recovered(s.rows[k], s.now)], pc := Idle))
  {
    PlainStep(c, s, s, Crash(true));
    assert AllRecovered(s.rows, s.now) == s.rows[k := Recovered(s.rows[k], s.now)];
  }

  /** A crash inside the window. */
  lemma CrashReached(c: Config, k: string, a: Alert) returns (r: Run)
    ensures Execution(c, r) && AdmissibleRun(c, r) && CrashedInside(c, r, Fingerprint(c.valid, a))
    ensures var s, f := Final(c, r), Fingerprint(c.valid, a);
      && Alone(s, k) && s.handoffs == map[] && s.rows[k].alert == a && Unresolved(s, f) && !InWindowOf(c, s, f)
  {
    r := Queue(c, k, a);
    var s := Final(c, r);
    var m := Take(c, s, k);
    Reserve(c, m, k);
    CrashIn(c, AfterReserve(c, m, k), k);
    m := AfterReserve(c, m, k);
    r := Follow(c, r, m.(rows := m.rows[k := Recovered(m.rows[k], m.now)], pc := Idle));
    UnresolvedExactlyAfterCrash(c, r, Fingerprint(c.valid, a));
  }

  /** After such a crash the delivery itself is completed, as pending. */
  lemma PendingReached(c: Config, k: string, a: Alert) returns (r: Run)
    ensures Execution(c, r) && CrashedInside(c, r, Fingerprint(c.valid, a))
    ensures var s := Final(c, r);
      && k in s.rows && s.rows[k].status == Completed
      && s.rows[k].result.Some? && s.rows[k].result.value.disposition == Pending
  {
    var f := Fingerprint(c.valid, a);
    var q := CrashReached(c, k, a);
    var m := Take(c, Final(c, q), k);
    q := Follow(c, q, m);
    InvAlways(c, q);
    var n := Drive(c, m);
    UnresolvedStays(c, m, n, f);
    r := Prolong(c, q, n);
    UnresolvedExactlyAfterCrash(c, r, f);
    RowsKept(c, m, n, k);
    PendingMeansCrash(c, r, k);
  }

  lemma RowsKept(c: Config, s: State, n: State, k: string)
    requires Exclusive(s) && Works(c, s, n) && k in s.rows
    ensures k in n.rows && n.rows[k].alert == s.rows[k].alert && n.rows[k].trace == s.rows[k].trace
  {
    WorkIsARun(c, s, n);
    var r :| WorksBy(c, s, n, r);
    RowsAreKept(c, r, k);
  }

  // ---- Handoffs that need an analyst.

  /** The only delivery awaits the answer to its trigger. */
  lemma SendReached(c: Config, k: string, a: Alert) returns (r: Run, s: State)
    requires ScenarioFor(a) in c.webhooks
    ensures Execution(c, r) && AdmissibleRun(c, r) && Leads(c, Final(c, r), s)
    ensures FailedReports(r) == 0 && forall t :: Retries(c, r, t) == 0
    ensures var t := TraceOf(k, a.id);
      && s.pc.Triggering? && s.pc.key == k && s.pc.incident == Some(0) && !s.stopped
      && s.rows.Keys == {k} && s.rows[k].alert == a && s.rows[k].trace == t && s.rows[k].status == Processing
      && s.handoffs == map[t := Handoff(false, None)] && s.ledger == EmptyLedger()
      && s.world.sent == s.world.underway == multiset{t} && s.world.accepted == multiset{}
      && s.incidents == map[Fingerprint(c.valid, a) := s.pc.incident]
      && s.world.cases == map[s.pc.incident.value := Fingerprint(c.valid, a)]
  {
    r := Queue(c, k, a);
    var m := Take(c, Final(c, r), k);
    Correlate(c, m, k, 0);
    m := WithCase(c, m, k, 0);
    SendTheTrigger(c, m, k);
    s := Sending(m, k);
  }

  /** What a blocked delivery's attempts leave alone. */
  ghost predicate StillBlocked(c: Config, s: State, n: State, k: string)
    requires k in s.rows
  {
    var t := s.rows[k].trace;
    && Blocked(c, n, k) && n.rows[k].trace == t && t in s.handoffs && n.handoffs[t] == s.handoffs[t]
    && n.world.accepted == s.world.accepted && n.world.underway[t] == s.world.underway[t]
    && n.world.sent[t] == s.world.sent[t]
  }

  lemma BlockedTurn(c: Config, s: State, n: State, j: string, k: string)
    requires Inv(c, s) && Blocked(c, s, k) && j in s.rows && Works(c, s, n) && OnlyTouches(s, n, j)
    ensures StillBlocked(c, s, n, k)
  {
    WorkIsARun(c, s, n);
    var r :| WorksBy(c, s, n, r);
    InternalIsUnreconciled(c, r, k);
    BlockedUntilReconciled(c, r, k);
  }

  lemma {:induction false} InternalIsUnreconciled(c: Config, r: Run, k: string)
    requires InternalRun(r)
    ensures Unreconciled(r, k) && AdmissibleRun(c, r)
  {
    if r.Then? {
      InternalIsUnreconciled(c, r.past, k);
    }
  }

  /** The remaining attempts of a blocked delivery end in its failure; time is all that is needed. */
  lemma {:induction false} BlockedExhausts(c: Config, r: Run, k: string) returns (q: Run)
    requires Execution(c, r) && AdmissibleRun(c, r) && Final(c, r).pc.Idle? && !Final(c, r).stopped
    requires Blocked(c, Final(c, r), k)
    ensures Prolongs(c, r, q)
    ensures StillBlocked(c, Final(c, r), Final(c, q), k) && Final(c, q).rows[k].status == Failed
    decreases Total(c, Final(c, r).rows)
  {
    var s := Final(c, r);
    InvAlways(c, r);
    if s.rows[k].status == Failed {
      q := r;
    } else {
      var now := if s.rows[k].next.Some? then Max(s.now, s.rows[k].next.value) else s.now;
      var m := s.(now := now);
      WorkStep(c, s, s, Clock(now));
      InvStep(c, s, Clock(now));
      SomeOldestDue(s.rows, now, k);
      var j :| OldestDue(s.rows, j, now);
      var n := Turn(c, m, j);
      BlockedTurn(c, m, n, j, k);
      var p := Prolong(c, r, n);
      q := BlockedExhausts(c, p, k);
    }
  }

  /** An unanswered trigger: the analyst is asked while the request may still be accepted. */
  lemma AmbiguityReached(c: Config, k: string, a: Alert) returns (r: Run)
    requires ScenarioFor(a) in c.webhooks
    ensures Execution(c, r) && AdmissibleRun(c, r) && AwaitsAnalyst(c, Final(c, r), k)
    ensures var s, t := Final(c, r), TraceOf(k, a.id);
      && s.rows[k].trace == t && Retries(c, r, t) == 0
      && s.world.accepted[t] == 0 && s.world.underway[t] == 1 && s.world.sent[t] == 1
  {
    var q, s := SendReached(c, k, a);
    PlainStep(c, s, s, TriggerReply(Http.Timeout, Unreadable));
    var m := RecordFailure(c, s.(pc := Failing(k, "IntegrationError")));
    q := Follow(c, q, m);
    r := BlockedExhausts(c, q, k);
    InvAlways(c, r);
  }

  /** One retry, allowed while nothing had been accepted, and two acceptances. */
  lemma TwoAcceptances(c: Config, k: string, a: Alert) returns (r: Run)
    requires ScenarioFor(a) in c.webhooks
    ensures Execution(c, r) && AdmissibleRun(c, r)
    ensures var t := TraceOf(k, a.id);
      Retries(c, r, t) == 1 && Careless(c, r, t) == 1 && Final(c, r).world.accepted[t] >= 2
  {
    var t, e := TraceOf(k, a.id), Reconcile(k, Retry);
    var q := AmbiguityReached(c, k, a);
    CarelessAreRetries(c, q, t);
    var n := RetryTooEarly(c, Final(c, q), k);
    ExtendExecution(c, q, e);
    InvAlways(c, Then(q, e));
    r := ProlongAwake(c, Then(q, e), n);
  }

  /** The request was lost: the analyst is asked, with nothing accepted and nothing under way. */
  lemma LostTriggerReached(c: Config, k: string, a: Alert) returns (r: Run)
    requires ScenarioFor(a) in c.webhooks
    ensures Execution(c, r) && AdmissibleRun(c, r) && AwaitsAnalyst(c, Final(c, r), k)
    ensures var s, t := Final(c, r), TraceOf(k, a.id);
      && s.rows[k].trace == t && Retries(c, r, t) == 0
      && s.world.accepted[t] == 0 && s.world.underway[t] == 0 && s.world.sent[t] == 1
  {
    var t := TraceOf(k, a.id);
    var q := AmbiguityReached(c, k, a);
    ExtendExecution(c, q, ShuffleDrops(t));
    r := Then(q, ShuffleDrops(t));
    InvAlways(c, r);
  }

  /** The retry for which the endpoint is there: after a lost request, the second one is accepted, once. */
  lemma CarefulRetryReached(c: Config, k: string, a: Alert) returns (r: Run)
    requires ScenarioFor(a) in c.webhooks
    ensures Execution(c, r) && AdmissibleRun(c, r)
    ensures var s, t := Final(c, r), TraceOf(k, a.id);
      && Retries(c, r, t) == 1 && Careless(c, r, t) == 0
      && s.world.sent[t] == 2 && s.world.accepted[t] == 1 && s.world.underway[t] == 0
      && k in s.rows && s.rows[k].status == Completed
  {
    var t, e := TraceOf(k, a.id), Reconcile(k, Retry);
    var q := LostTriggerReached(c, k, a);
    CarelessAreRetries(c, q, t);
    RequeuedIsReady(c, Final(c, q), e, k);
    var m := Next(c, Final(c, q), e);
    var n := ReadyCompletes(c, m, k);
    AcceptOne(c, Awake(m), n, t);
    ExtendExecution(c, q, e);
    r := ProlongAwake(c, Then(q, e), AcceptedOne(n, t));
  }

  /** In all histories with at most so many careless retries, a trace is accepted once exactly if that is none. */
  lemma OnceExactly(c: Config, k: string, a: Alert, careless: nat)
    requires ScenarioFor(a) in c.webhooks
    ensures var t := TraceOf(k, a.id);
      (forall r | Execution(c, r) && AdmissibleRun(c, r) && Careless(c, r, t) <= careless ::
        Final(c, r).world.accepted[t] <= 1) <==> careless == 0
  {
    var t := TraceOf(k, a.id);
    if careless == 0 {
      forall r | Execution(c, r) && AdmissibleRun(c, r) && Careless(c, r, t) <= careless
        ensures Final(c, r).world.accepted[t] <= 1
      {
        AcceptedOnce(c, r, t);
      }
    } else {
      var r := TwoAcceptances(c, k, a);
    }
  }

  /** A trigger acknowledged without an identifier and a failed comment: a delivery beyond help. */
  lemma DeadEndReached(c: Config, k: string, a: Alert) returns (r: Run)
    requires ScenarioFor(a) in c.webhooks
    ensures Execution(c, r) && AdmissibleRun(c, r)
    ensures var s := Final(c, r);
      && Inv(c, s) && k in s.rows && s.rows[k].status == Failed && DeadEnd(c, s, k) && !Completable(c, s, k)
  {
    var q, s := SendReached(c, k, a);
    Acknowledge(c, s, k, NamesNothing, None);
    var m := Acknowledged(s, k, None);
    CommentOn(c, m, false);
    m := RecordFailure(c, m.(pc := Failing(k, "IntegrationError")));
    q := Follow(c, q, m);
    r := BlockedExhausts(c, q, k);
    InvAlways(c, r);
    CompletableExactly(c, Final(c, r), k);
  }

  // ---- A completed delivery that is retried.

  /** The handoff of a new delivery, without an identifier, if there is one. */
  lemma HandOff(c: Config, s: State, k: string) returns (m: State)
    requires s.pc.Handing? && s.pc.key == k && s.pc.incident.Some? && k in s.rows && s.rows[k].trace !in s.handoffs
    ensures Leads(c, s, m) && m.pc == Proposing(k, s.pc.incident, s.pc.disposition, None) && m.rows == s.rows
    ensures HasWebhook(c, s.rows[k]) ==>
              s.rows[k].trace in m.handoffs && m.handoffs[s.rows[k].trace] == Handoff(true, None)
  {
    if HasWebhook(c, s.rows[k]) {
      SendTheTrigger(c, s, k);
      Acknowledge(c, Sending(s, k), k, NamesNothing, None);
      m := Acknowledged(Sending(s, k), k, None);
      CommentOn(c, m, true);
      m := m.(pc := Proposing(k, s.pc.incident, s.pc.disposition, None));
    } else {
      PlainStep(c, s, s, BeginHandoff);
      m := s.(pc := Proposing(k, s.pc.incident, s.pc.disposition, None));
    }
  }

  lemma StopAtReport(c: Config, s: State, k: string) returns (n: State)
    requires s.pc.Handing? && s.pc.key == k && s.pc.incident.Some? && k in s.rows && s.rows[k].trace !in s.handoffs
    ensures Leads(c, s, n) && n.pc == Reporting(k) && n.rows.Keys == s.rows.Keys
    ensures n.rows[k].status == Completed && n.rows[k].result.Some?
    ensures n.rows[k].alert == s.rows[k].alert && n.rows[k].trace == s.rows[k].trace
    ensures HasWebhook(c, s.rows[k]) ==>
              s.rows[k].trace in n.handoffs && n.handoffs[s.rows[k].trace] == Handoff(true, None)
  {
    var m := HandOff(c, s, k);
    var id := Above(m.ledger.approvals.Keys);
    Conclude(c, m, k, id);
    n := Concluded(c, m, k, id);
  }

  lemma ReportReached(c: Config, k: string, a: Alert) returns (r: Run)
    ensures Execution(c, r) && AdmissibleRun(c, r) && FailedReports(r) == 0
    ensures var s := Final(c, r);
      && s.pc == Reporting(k) && k in s.rows && s.rows[k].status == Completed && s.rows[k].result.Some?
      && s.rows[k].alert == a
      && (ScenarioFor(a) in c.webhooks ==>
            s.rows[k].trace in s.handoffs && s.handoffs[s.rows[k].trace] == Handoff(true, None))
  {
    r := Queue(c, k, a);
    var s := Final(c, r);
    var m := Take(c, s, k);
    Correlate(c, m, k, 0);
    var n := StopAtReport(c, WithCase(c, m, k, 0), k);
    r := Follow(c, r, n);
  }

  lemma FailedReport(c: Config, s: State, k: string) returns (n: State)
    requires s.pc == Reporting(k) && k in s.rows && s.rows[k].status == Completed
    ensures var m := s.(pc := Failing(k, "OSError"));
      && Enabled(c, s, Report(false)) && Next(c, s, Report(false)) == m
      && Enabled(c, m, Settle(true)) && Next(c, m, Settle(true)) == n
    ensures n.pc.Idle? && !n.stopped && k in n.rows && n.rows[k].result == s.rows[k].result && n.handoffs == s.handoffs
    ensures n.rows[k].trace == s.rows[k].trace && n.rows[k].alert == s.rows[k].alert
    ensures n.rows[k].status == Retrying || n.rows[k].status == Failed
  {
    n := Next(c, s.(pc := Failing(k, "OSError")), Settle(true));
  }

  lemma ExtendExecution(c: Config, r: Run, e: Event)
    requires Execution(c, r) && AdmissibleRun(c, r) && Enabled(c, Final(c, r), e) && !e.Intake?
    ensures Execution(c, Then(r, e)) && AdmissibleRun(c, Then(r, e))
    ensures Final(c, Then(r, e)) == Next(c, Final(c, r), e)
  {
    Extend(c, r, e);
  }

  /** A failed report: the delivery was completed, is to be retried or has failed, and keeps its result. */
  lemma RelapseReached(c: Config, k: string, a: Alert) returns (r: Run)
    ensures Execution(c, r) && AdmissibleRun(c, r) && FailedReports(r) == 1 && !StaysCompleted(c, r, k)
    ensures var s := Final(c, r);
      && s.pc.Idle? && !s.stopped && k in s.rows && (s.rows[k].status == Retrying || s.rows[k].status == Failed)
      && s.rows[k].result.Some? && (ScenarioFor(a) in c.webhooks ==> DeadEnd(c, s, k))
  {
    var q := ReportReached(c, k, a);
    var n := FailedReport(c, Final(c, q), k);
    ExtendExecution(c, q, Report(false));
    var p := Then(q, Report(false));
    ExtendExecution(c, p, Settle(true));
    r := Then(p, Settle(true));
  }

  /** If its handoff named no execution, it ends as a failed delivery that is beyond help, with a result. */
  lemma RelapseIntoDeadEnd(c: Config, k: string, a: Alert) returns (r: Run)
    requires ScenarioFor(a) in c.webhooks
    ensures Execution(c, r) && AdmissibleRun(c, r)
    ensures var s := Final(c, r);
      && Inv(c, s) && k in s.rows && s.rows[k].status == Failed && DeadEnd(c, s, k) && !Completable(c, s, k)
  {
    var q := RelapseReached(c, k, a);
    r := BlockedExhausts(c, q, k);
    InvAlways(c, r);
    CompletableExactly(c, Final(c, r), k);
  }

  /** In all histories with at most so many failed reports, completed rows are final exactly if that is none. */
  lemma FinalityExactly(c: Config, k: string, a: Alert, failed: nat)
    ensures (forall r | Execution(c, r) && FailedReports(r) <= failed :: StaysCompleted(c, r, k)) <==> failed == 0
  {
    if failed == 0 {
      forall r | Execution(c, r) && FailedReports(r) <= failed ensures StaysCompleted(c, r, k) {
        ReportedIsFinal(c, r, k);
      }
    } else {
      var r := RelapseReached(c, k, a);
    }
  }

  // ---- A worker that stops.

  /** A failure is recorded, its audit line is lost, and another delivery arrives: it waits for a restart. */
  lemma StopReached(c: Config, j: string, a: Alert, k: string, b: Alert) returns (r: Run)
    requires j != k
    ensures Execution(c, r) && LostLines(r) == 1
    ensures var s := Final(c, r);
      && Exclusive(s) && s.pc.Idle? && s.stopped && k in s.rows && s.rows[k].status == Queued && !CanGoOn(c, s)
  {
    var q := Queue(c, j, a);
    var s := Final(c, q);
    var m := Grab(c, s, j);
    PlainStep(c, s, m, Enrich(false));
    m := m.(pc := Failing(j, "IntegrationError"));
    q := Follow(c, q, m);
    LoseLine(c, m);
    ExtendExecution(c, q, Settle(false));
    r := StopWith(c, Then(q, Settle(false)), k, b);
  }

  lemma LoseLine(c: Config, s: State)
    requires s.pc.Failing? && s.pc.key in s.rows
    ensures Enabled(c, s, Settle(false))
    ensures Next(c, s, Settle(false)).stopped && Next(c, s, Settle(false)).rows.Keys == s.rows.Keys
  {
  }

  /** A delivery that arrives after the worker has stopped waits. */
  lemma StopWith(c: Config, r: Run, k: string, b: Alert) returns (q: Run)
    requires Execution(c, r) && Final(c, r).stopped && k !in Final(c, r).rows
    ensures Execution(c, q) && LostLines(q) == LostLines(r)
    ensures var s := Final(c, q);
      && Exclusive(s) && s.pc.Idle? && s.stopped && k in s.rows && s.rows[k].status == Queued && !CanGoOn(c, s)
  {
    q := Then(r, Intake(k, b));
    assert Start(q) == Start(r);
    ExclusiveAlways(c, q);
    assert k in Final(c, q).rows && Final(c, q).rows[k].status == Queued;
    SettledExactly(c, Final(c, q).rows);
    ClaimableExactly(c, Final(c, q));
  }

  /**
   In all histories with at most so many lost audit lines of failures and recoveries, an idle worker can go on
   to claim what waits, without a restart, exactly if that is none.
   */
  lemma StopsExactly(c: Config, j: string, a: Alert, k: string, b: Alert, lost: nat)
    requires j != k
    ensures (forall r | Execution(c, r) && LostLines(r) <= lost :: CanGoOn(c, Final(c, r))) <==> lost == 0
  {
    if lost == 0 {
      forall r | Execution(c, r) && LostLines(r) <= lost ensures CanGoOn(c, Final(c, r)) {
        LoggedGoesOn(c, r);
      }
    } else {
      var r := StopReached(c, j, a, k, b);
    }
  }

  // ---- One case too many.

  function Lost(c: Config, s: State, k: string): State
    requires k in s.rows
  {
    var f := Fp(c, s.rows[k]);
    s.(world := s.world.(opening := s.world.opening + multiset{f}), incidents := s.incidents - {f},
       pc := Failing(k, "IntegrationError"))
  }

  /** A call in which every request is lost but the last, which outlives it. */
  lemma {:induction false} LoseRequests(c: Config, s: State, k: string, posts: nat)
    requires s.pc == Creating(k, posts) && k in s.rows && posts < c.clientAttempts
    requires Unresolved(s, Fp(c, s.rows[k]))
    ensures Leads(c, s, Lost(c, s, k))
    decreases c.clientAttempts - posts
  {
    var last := posts + 1 == c.clientAttempts;
    PlainStep(c, s, s, SendCase(None, last));
    var m := Next(c, s, SendCase(None, last));
    PlainStep(c, s, m, CaseReply(Http.Timeout, Unreadable));
    if !last {
      LoseRequests(c, s.(pc := Creating(k, posts + 1)), k, posts + 1);
    }
  }

  /** The first call has failed, and one of its requests outlives it. */
  lemma LateRequestReached(c: Config, k: string, a: Alert) returns (r: Run)
    ensures Execution(c, r) && AdmissibleRun(c, r) && (forall f :: Late(c, r, f) == 0)
    ensures Alone(Final(c, r), k) && Final(c, r).rows[k].alert == a
    ensures var s, f := Final(c, r), Fingerprint(c.valid, a);
      f !in s.incidents && CasesOf(s, f) == {} && s.world.opening == multiset{f}
  {
    r := Queue(c, k, a);
    var m := Take(c, Final(c, r), k);
    Reserve(c, m, k);
    m := AfterReserve(c, m, k);
    LoseRequests(c, m, k, 0);
    m := RecordFailure(c, Lost(c, m, k));
    r := Follow(c, r, m);
  }

  /** One late request, and one case more than the client makes attempts. */
  lemma LateCaseReached(c: Config, k: string, a: Alert) returns (r: Run)
    ensures Execution(c, r) && AdmissibleRun(c, r)
    ensures var f := Fingerprint(c.valid, a);
      Late(c, r, f) == 1 && |CasesOf(Final(c, r), f)| == c.clientAttempts + 1
  {
    var f := Fingerprint(c.valid, a);
    var q := LateRequestReached(c, k, a);
    var m := Take(c, Final(c, q), k);
    Reserve(c, m, k);
    q := Follow(c, q, AfterReserve(c, m, k));
    InvAlways(c, q);
    CasesBounded(c, q, f);
    assert CasesOf(Final(c, q), f) == {};
    r := Fill(c, q, f);
  }

  /**
   The bound on the cases of a fingerprint by the client's attempts holds in all histories with at
   most so many late requests if and only if that number is zero.
   */
  lemma CaseBoundExactly(c: Config, a: Alert, late: nat)
    ensures var f := Fingerprint(c.valid, a);
      (forall r | Execution(c, r) && Late(c, r, f) <= late ::
        |CasesOf(Final(c, r), f)| <= c.clientAttempts) <==> late == 0
  {
    var f := Fingerprint(c.valid, a);
    if late == 0 {
      forall r | Execution(c, r) && Late(c, r, f) <= late ensures |CasesOf(Final(c, r), f)| <= c.clientAttempts {
        CasesBounded(c, r, f);
      }
    } else {
      var r := LateCaseReached(c, "wazuh-01", a);
    }
  }

  // ---- Two deliveries that share a trace.

  /** The delivery is completed, its report written, and nothing else is left to do. */
  ghost predicate Done(s: State, k: string, id: CaseId, execution: string)
  {
    && s.pc.Idle? && !s.stopped && k in s.rows && s.rows[k].status == Completed && s.rows[k].result.Some?
    && s.rows[k].result.value.incident == Some(id) && s.rows[k].result.value.execution == Some(execution)
  }

  lemma FinishUp(c: Config, s: State, k: string, id: ApprovalId) returns (n: State)
    requires s.pc.Commenting? && s.pc.key == k && k in s.rows && s.pc.incident.Some? && s.pc.execution.Some?
    requires !s.stopped && id !in s.ledger.approvals
    ensures Leads(c, s, n) && Done(n, k, s.pc.incident.value, s.pc.execution.value)
    ensures n.handoffs == s.handoffs && n.incidents == s.incidents && n.world == s.world
    ensures n.rows == s.rows[k := n.rows[k]] && n.rows[k].alert == s.rows[k].alert && n.rows[k].trace == s.rows[k].trace
    ensures n.ledger == if ScenarioFor(s.rows[k].alert).AccountActivity?
                        then CreatedOnce(s.ledger, s.rows[k].trace, id, Proposal(s.pc.incident.value, ACTION, TARGET))
                        else s.ledger
  {
    CommentOn(c, s, true);
    var m := s.(pc := Proposing(k, s.pc.incident, s.pc.disposition, s.pc.execution));
    Conclude(c, m, k, id);
    n := Concluded(c, m, k, id);
    PlainStep(c, s, n, Report(true));
    n := n.(pc := Idle);
  }

  const EXECUTION := "execution"

  lemma FirstDone(c: Config, k: string, a: Alert) returns (r: Run)
    requires ScenarioFor(a) in c.webhooks
    ensures Execution(c, r) && Done(Final(c, r), k, 0, EXECUTION)
    ensures var s, t, f := Final(c, r), TraceOf(k, a.id), Fingerprint(c.valid, a);
      && s.rows.Keys == {k} && s.rows[k].alert == a && s.rows[k].trace == t
      && s.handoffs == map[t := Handoff(true, Some(EXECUTION))]
      && s.incidents == map[f := Some(0)] && s.world.cases == map[0 := f] && s.world.sent == multiset{t}
      && s.ledger == if ScenarioFor(a).AccountActivity?
                     then CreatedOnce(EmptyLedger(), t, 0, Proposal(0, ACTION, TARGET)) else EmptyLedger()
  {
    var q, s := SendReached(c, k, a);
    Acknowledge(c, s, k, Names(EXECUTION), Some(EXECUTION));
    var n := FinishUp(c, Acknowledged(s, k, Some(EXECUTION)), k, 0);
    r := Follow(c, q, n);
  }

  /** The handoff of this delivery is taken to have been made. */
  lemma HandOffAgain(c: Config, s: State, k: string)
    requires s.pc.Handing? && s.pc.key == k && s.pc.incident.Some? && k in s.rows && HasWebhook(c, s.rows[k])
    requires s.rows[k].trace in s.handoffs && s.handoffs[s.rows[k].trace] == Handoff(true, Some(EXECUTION))
    ensures Leads(c, s, s.(pc := Commenting(k, s.pc.incident, s.pc.disposition, Some(EXECUTION))))
  {
    PlainStep(c, s, s, BeginHandoff);
  }

  lemma Intaken(c: Config, r: Run, k: string, a: Alert) returns (q: Run)
    requires Execution(c, r) && Final(c, r).pc.Idle? && !Final(c, r).stopped && k !in Final(c, r).rows
    requires forall j | j in Final(c, r).rows :: Final(c, r).rows[j].status == Completed
    ensures Execution(c, q) && Alone(Final(c, q), k)
    ensures var s := Final(c, r); Final(c, q) == s.(rows := s.rows[k := FreshRow(a, TraceOf(k, a.id), s.now)])
  {
    q := Then(r, Intake(k, a));
    assert Start(q) == Start(r);
  }

  /**
   Why traces have to be distinct: of two deliveries that share one, the second is completed with the
   execution of the first, nothing is sent for it, and the approval of its trace names another case.
   */
  lemma SharedTraceReached(c: Config, k1: string, a1: Alert, k2: string, a2: Alert) returns (r: Run)
    requires k1 != k2 && TraceOf(k1, a1.id) == TraceOf(k2, a2.id)
    requires ScenarioFor(a1) in c.webhooks && ScenarioFor(a2) in c.webhooks
    requires Fingerprint(c.valid, a1) != Fingerprint(c.valid, a2)
    ensures Execution(c, r) && Done(Final(c, r), k1, 0, EXECUTION) && Done(Final(c, r), k2, 1, EXECUTION)
    ensures var s, t := Final(c, r), TraceOf(k1, a1.id);
      && s.world.sent[t] == 1
      && (ScenarioFor(a1).AccountActivity? ==>
            t in s.ledger.sources && s.ledger.approvals.Keys == {s.ledger.sources[t]}
            && s.ledger.approvals[s.ledger.sources[t]].proposal.incident == 0)
  {
    var q := FirstDone(c, k1, a1);
    q := Intaken(c, q, k2, a2);
    var s := Final(c, q);
    var m := Take(c, s, k2);
    Correlate(c, m, k2, 1);
    m := WithCase(c, m, k2, 1);
    HandOffAgain(c, m, k2);
    m := m.(pc := Commenting(k2, m.pc.incident, m.pc.disposition, Some(EXECUTION)));
    var n := FinishUp(c, m, k2, 1);
    r := Follow(c, q, n);
  }

  /** A new handoff, and the end of the delivery. */
  lemma HandedOff(c: Config, s: State, k: string, id: ApprovalId) returns (n: State)
    requires s.pc.Handing? && s.pc.key == k && s.pc.incident.Some? && k in s.rows
    requires HasWebhook(c, s.rows[k]) && s.rows[k].trace !in s.handoffs
    requires !s.stopped && id !in s.ledger.approvals
    ensures Leads(c, s, n) && Done(n, k, s.pc.incident.value, EXECUTION)
    ensures n.incidents == s.incidents && n.world.cases == s.world.cases
    ensures n.rows == s.rows[k := n.rows[k]] && n.rows[k].alert == s.rows[k].alert && n.rows[k].trace == s.rows[k].trace
    ensures n.ledger == if ScenarioFor(s.rows[k].alert).AccountActivity?
                        then CreatedOnce(s.ledger, s.rows[k].trace, id, Proposal(s.pc.incident.value, ACTION, TARGET))
                        else s.ledger
  {
    SendTheTrigger(c, s, k);
    Acknowledge(c, Sending(s, k), k, Names(EXECUTION), Some(EXECUTION));
    n := FinishUp(c, Acknowledged(Sending(s, k), k, Some(EXECUTION)), k, id);
  }

  /** A delivery whose fingerprint has a case reuses it. */
  lemma ReuseCase(c: Config, s: State, k: string)
    requires s.pc == Reserving(k) && k in s.rows
    requires Fp(c, s.rows[k]) in s.incidents && s.incidents[Fp(c, s.rows[k])].Some?
    ensures Leads(c, s, s.(pc := Handing(k, s.incidents[Fp(c, s.rows[k])], Reused)))
  {
    PlainStep(c, s, s, ReserveIncident);
    var m := s.(pc := Auditing(k, s.incidents[Fp(c, s.rows[k])], Reused));
    PlainStep(c, s, m, Note(true));
  }

  /**
   Why fingerprints have to be distinct: of two deliveries that share one, whatever their rules and
   agents are, the second is completed with the case of the first, and its approval names that case.
   */
  lemma SharedIncidentReached(c: Config, k1: string, a1: Alert, k2: string, a2: Alert) returns (r: Run)
    requires k1 != k2 && TraceOf(k1, a1.id) != TraceOf(k2, a2.id)
    requires ScenarioFor(a1) in c.webhooks && ScenarioFor(a2) in c.webhooks
    requires Fingerprint(c.valid, a1) == Fingerprint(c.valid, a2)
    ensures Execution(c, r) && Done(Final(c, r), k1, 0, EXECUTION) && Done(Final(c, r), k2, 0, EXECUTION)
    ensures var s, t := Final(c, r), TraceOf(k2, a2.id);
      && s.rows[k1].alert == a1 && s.rows[k2].alert == a2 && s.world.cases.Keys == {0}
      && (a2.ruleId == "100102" ==>
            t in s.ledger.sources && s.ledger.sources[t] in s.ledger.approvals
            && s.ledger.approvals[s.ledger.sources[t]].proposal.incident == 0)
  {
    var q := FirstDone(c, k1, a1);
    q := Intaken(c, q, k2, a2);
    var s := Final(c, q);
    var m := Take(c, s, k2);
    ReuseCase(c, m, k2);
    var n := HandedOff(c, m.(pc := Handing(k2, Some(0), Reused)), k2, 1);
    r := Follow(c, q, n);
  }
}
