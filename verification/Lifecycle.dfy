/** What may happen to a delivery, an approval and a handoff over whole histories. */
module Lifecycle {
  import opened Basics
  import opened Alerts
  import opened Deliveries
  import opened Approvals
  import opened Protocol
  import opened Invariants

  lemma RowStep(c: Config, s: State, e: Event, k: string)
    requires Enabled(c, s, e) && k in s.rows
    ensures k in Next(c, s, e).rows && Next(c, s, e).rows[k] == RowAfter(c, s, e, k)
  {
    RowsStep(c, s, e);
  }

  /** The intended life of a delivery. */
  predicate Edge(a: Status, b: Status) {
    match a
    case Queued => b == Queued || b == Processing
    case Retrying => b == Retrying || b == Processing
    case Processing => b == Processing || b == Retrying || b == Completed || b == Failed
    case Failed => b == Failed || b == Queued
    case Completed => b == Completed
  }

  /** A row after a while: the same alert, trace and creation time. */
  predicate Later(a: Row, b: Row) {
    b.alert == a.alert && b.trace == a.trace && b.created == a.created
  }

  /** The failure of a report is recorded for a delivery that is completed. */
  predicate Relapses(s: State, e: Event, k: string) {
    e.Settle? && s.pc.Failing? && s.pc.key == k && k in s.rows && s.rows[k].status == Completed
  }

  /**
   One step moves a delivery along an edge at most, never takes it out of the table, and leaves a
   completed one alone: except that the failure of its report is recorded as one of the delivery.
   */
  lemma LifecycleStep(c: Config, s: State, e: Event, k: string)
    requires Exclusive(s) && Enabled(c, s, e) && k in s.rows
    ensures var n := Next(c, s, e);
      && k in n.rows && Later(s.rows[k], n.rows[k])
      && (if Relapses(s, e, k)
          then (n.rows[k].status == Retrying || n.rows[k].status == Failed) && n.rows[k].result == s.rows[k].result
          else Edge(s.rows[k].status, n.rows[k].status) && (s.rows[k].status == Completed ==> n.rows[k] == s.rows[k]))
  {
    RowStep(c, s, e, k);
    RowLater(c, s, e, k);
    RowEdge(c, s, e, k);
  }

  lemma RowLater(c: Config, s: State, e: Event, k: string)
    requires k in s.rows
    ensures Later(s.rows[k], RowAfter(c, s, e, k))
  {
  }

  lemma RowEdge(c: Config, s: State, e: Event, k: string)
    requires Exclusive(s) && Enabled(c, s, e) && k in s.rows
    ensures var a, b := s.rows[k], RowAfter(c, s, e, k);
      if Relapses(s, e, k) then (b.status == Retrying || b.status == Failed) && b.result == a.result
      else Edge(a.status, b.status) && (a.status == Completed ==> b == a)
  {
    EdgeOf(c, s, e, k);
  }

  lemma EdgeOf(c: Config, s: State, e: Event, k: string)
    requires Exclusive(s) && k in s.rows
    requires (e == Claim(k) ==> Waiting(s.rows[k])) && (Requeues(e, k) ==> s.rows[k].status == Failed)
    ensures var a, b := s.rows[k], RowAfter(c, s, e, k);
      if Relapses(s, e, k) then (b.status == Retrying || b.status == Failed) && b.result == a.result
      else Edge(a.status, b.status) && (a.status == Completed ==> b == a)
  {
  }

  /** Over any continuation no row disappears, and alert, trace and creation time stay. */
  lemma {:induction false} RowsAreKept(c: Config, r: Run, k: string)
    requires Valid(c, r) && Exclusive(Start(r)) && k in Start(r).rows
    ensures Exclusive(Final(c, r))
    ensures k in Final(c, r).rows && Later(Start(r).rows[k], Final(c, r).rows[k])
  {
    if r.Then? {
      RowsAreKept(c, r.past, k);
      ExclusiveStep(c, Final(c, r.past), r.event);
      LifecycleStep(c, Final(c, r.past), r.event, k);
    }
  }

  /** The worker is done with this delivery. */
  predicate LetGo(s: State, k: string) {
    s.pc.Idle? || s.pc.key != k
  }

  lemma LetGoStep(c: Config, s: State, e: Event, k: string)
    requires Exclusive(s) && Enabled(c, s, e) && k in s.rows && s.rows[k].status == Completed && LetGo(s, k)
    ensures LetGo(Next(c, s, e), k)
  {
    if e.Claim? {
      assert Next(c, s, e) == QueueingNext(s, e);
    } else {
      Frame(c, s, e);
      LetGoElsewhere(s, Next(c, s, e), e, k);
    }
  }

  lemma LetGoElsewhere(s: State, n: State, e: Event, k: string)
    requires Framed(s, n, e) && LetGo(s, k) && (n.pc == s.pc || n.pc.Idle? || SameKey(s.pc, n.pc))
    ensures LetGo(n, k)
  {
  }

  lemma {:induction false} CompletedStays(c: Config, r: Run, k: string)
    requires Valid(c, r) && Exclusive(Start(r)) && k in Start(r).rows
    requires Start(r).rows[k].status == Completed && LetGo(Start(r), k)
    ensures Exclusive(Final(c, r)) && LetGo(Final(c, r), k)
    ensures k in Final(c, r).rows && Final(c, r).rows[k] == Start(r).rows[k]
  {
    if r.Then? {
      CompletedStays(c, r.past, k);
      ExclusiveStep(c, Final(c, r.past), r.event);
      LifecycleStep(c, Final(c, r.past), r.event, k);
      LetGoStep(c, Final(c, r.past), r.event, k);
    }
  }

  /** A history in which row k is no longer as it was at its start. */
  ghost predicate Changes(c: Config, s: State, r: Run, k: string) {
    && Valid(c, r) && Start(r) == s
    && k in s.rows && !(k in Final(c, r).rows && Final(c, r).rows[k] == s.rows[k])
  }

  /** The report fails, and the failure is recorded. */
  function Relapse(s: State): Run {
    if s.pc.Failing? then Then(From(s), Settle(true)) else Then(Then(From(s), Report(false)), Settle(true))
  }

  lemma RelapseChanges(c: Config, s: State, k: string)
    requires Exclusive(s) && k in s.rows && s.rows[k].status == Completed && !LetGo(s, k)
    ensures Changes(c, s, Relapse(s), k)
  {
    var r := From(s);
    if s.pc.Reporting? {
      Extend(c, r, Report(false));
      r := Then(r, Report(false));
    }
    SettleChanges(c, s, Final(c, r), k);
    Extend(c, r, Settle(true));
  }

  lemma SettleChanges(c: Config, s: State, m: State, k: string)
    requires k in s.rows && s.rows[k].status == Completed && m.rows == s.rows && m.pc.Failing? && m.pc.key == k
    ensures Enabled(c, m, Settle(true)) && k in Next(c, m, Settle(true)).rows
    ensures Next(c, m, Settle(true)).rows[k] != s.rows[k]
  {
  }

  /** A completed delivery is final, result included, if and only if the worker has let go of it. */
  lemma CompletedIsFinal(c: Config, s: State, k: string)
    requires Exclusive(s) && k in s.rows && s.rows[k].status == Completed
    ensures (forall r :: !Changes(c, s, r, k)) <==> LetGo(s, k)
  {
    if LetGo(s, k) {
      forall r ensures !Changes(c, s, r, k) {
        if Valid(c, r) && Start(r) == s {
          CompletedStays(c, r, k);
        }
      }
    } else {
      RelapseChanges(c, s, k);
    }
  }

  // ---- Reports that fail.

  ghost function FailedReports(r: Run): nat {
    if r.From? then 0 else FailedReports(r.past) + if r.event == Report(false) then 1 else 0
  }

  /** Once completed, row k does not change in this history. */
  ghost predicate StaysCompleted(c: Config, r: Run, k: string) {
    r.From? || (
      && StaysCompleted(c, r.past, k)
      && (k in Final(c, r.past).rows && Final(c, r.past).rows[k].status == Completed ==>
            k in Final(c, r).rows && Final(c, r).rows[k] == Final(c, r.past).rows[k]))
  }

  /** The worker fails with a delivery in processing, not with a completed one. */
  predicate FailsInTime(s: State) {
    s.pc.Failing? && s.pc.key in s.rows ==> s.rows[s.pc.key].status != Completed
  }

  lemma FailsInTimeStep(c: Config, s: State, e: Event)
    requires Exclusive(s) && FailsInTime(s) && Enabled(c, s, e) && e != Report(false)
    ensures FailsInTime(Next(c, s, e))
  {
    if PhaseOf(e) == Closing {
      FailsInTimeClosing(c, s, e);
    } else {
      Frame(c, s, e);
      RowsStay(c, s, e);
      FailsInTimeElsewhere(s, Next(c, s, e), e);
    }
  }

  lemma FailsInTimeClosing(c: Config, s: State, e: Event)
    requires Exclusive(s) && FailsInTime(s) && PhaseOf(e) == Closing && !s.pc.Idle? && ClosingEnabled(s, e)
    requires e != Report(false)
    ensures FailsInTime(ClosingNext(c, s, e))
  {
  }

  lemma FailsInTimeElsewhere(s: State, n: State, e: Event)
    requires Exclusive(s) && FailsInTime(s) && PhaseOf(e) != Closing && Framed(s, n, e) && NoneCompletes(s, n)
    ensures FailsInTime(n)
  {
  }

  /** As long as no report fails, completed deliveries are final. */
  lemma {:induction false} ReportedIsFinal(c: Config, r: Run, k: string)
    requires Valid(c, r) && Exclusive(Start(r)) && FailsInTime(Start(r)) && FailedReports(r) == 0
    ensures Exclusive(Final(c, r)) && FailsInTime(Final(c, r)) && StaysCompleted(c, r, k)
  {
    if r.Then? {
      var s := Final(c, r.past);
      ReportedIsFinal(c, r.past, k);
      ExclusiveStep(c, s, r.event);
      FailsInTimeStep(c, s, r.event);
      if k in s.rows {
        LifecycleStep(c, s, r.event, k);
      }
    }
  }

  /** A completed handoff is left as it is. */
  ghost predicate KeepsHandoff(s: State, n: State, t: string)
    requires t in s.handoffs
  {
    t in n.handoffs && n.handoffs[t] == s.handoffs[t]
  }

  lemma CompletedQueueing(s: State, e: Event, t: string)
    requires PhaseOf(e) == Queueing && QueueingEnabled(s, e) && t in s.handoffs && s.handoffs[t].completed
    ensures KeepsHandoff(s, QueueingNext(s, e), t)
  {
  }

  lemma CompletedHandingOff(c: Config, s: State, e: Event, t: string)
    requires Exclusive(s) && HandoffsAgree(c, s) && PhaseOf(e) == HandingOff && !s.pc.Idle? && HandingOffEnabled(s, e)
    requires t in s.handoffs && s.handoffs[t].completed
    ensures KeepsHandoff(s, HandingOffNext(c, s, e), t)
    ensures HandingOffNext(c, s, e).world.sent[t] == s.world.sent[t]
  {
  }

  lemma CompletedHandoffStep(c: Config, s: State, e: Event, t: string)
    requires Inv(c, s) && Enabled(c, s, e) && t in s.handoffs && s.handoffs[t].completed
    ensures KeepsHandoff(s, Next(c, s, e), t)
  {
    match PhaseOf(e)
    case Queueing => CompletedQueueing(s, e, t);
    case HandingOff => CompletedHandingOff(c, s, e, t);
    case _ => Frame(c, s, e);
  }

  /** A completed handoff is never altered or removed, by the worker, a crash or an analyst. */
  lemma {:induction false} CompletedHandoffIsFinal(c: Config, r: Run, t: string)
    requires Valid(c, r) && AdmissibleRun(c, r) && Inv(c, Start(r))
    requires t in Start(r).handoffs && Start(r).handoffs[t].completed
    ensures t in Final(c, r).handoffs && Final(c, r).handoffs[t] == Start(r).handoffs[t]
  {
    if r.Then? {
      CompletedHandoffIsFinal(c, r.past, t);
      InvFrom(c, r.past);
      CompletedHandoffStep(c, Final(c, r.past), r.event, t);
    }
  }

  /** A completed delivery carries exactly what its handoff ended in; pending ones carry nothing. */
  lemma HandoffAgreement(c: Config, r: Run)
    requires Execution(c, r) && AdmissibleRun(c, r)
    ensures var s := Final(c, r);
      && (forall k | k in s.rows && s.rows[k].status == Completed && HasWebhook(c, s.rows[k]) ::
            && s.rows[k].result.Some? && s.rows[k].trace in s.handoffs
            && s.handoffs[s.rows[k].trace] == Handoff(true, s.rows[k].result.value.execution))
      && (forall k | k in s.rows && s.rows[k].status == Completed && !HasWebhook(c, s.rows[k]) ::
            s.rows[k].result.Some? && s.rows[k].result.value.execution == None)
      && (forall t | t in s.handoffs && !s.handoffs[t].completed :: s.handoffs[t].execution == None)
  {
    InvAlways(c, r);
    var s := Final(c, r);
    forall k | k in s.rows && s.rows[k].status == Completed && HasWebhook(c, s.rows[k])
      ensures s.rows[k].result.Some?
      ensures s.rows[k].trace in s.handoffs
      ensures s.handoffs[s.rows[k].trace] == Handoff(true, s.rows[k].result.value.execution)
    {
      assert Agrees(c, s, s.rows[k], s.rows[k].result.value.execution);
    }
    forall k | k in s.rows && s.rows[k].status == Completed && !HasWebhook(c, s.rows[k])
      ensures s.rows[k].result.Some? && s.rows[k].result.value.execution == None
    {
      assert Agrees(c, s, s.rows[k], s.rows[k].result.value.execution);
    }
  }

  /**
   A completed delivery of account activity with a case has exactly one approval for its trace,
   shared with no other trace, and delivery, approval and incident name the same case, which exists.
   */
  lemma CaseAgreement(c: Config, r: Run, k: string)
    requires Execution(c, r) && AdmissibleRun(c, r)
    requires k in Final(c, r).rows && Final(c, r).rows[k].status == Completed
    requires Final(c, r).rows[k].alert.ruleId == "100102"
    requires Final(c, r).rows[k].result.Some? && Final(c, r).rows[k].result.value.incident.Some?
    ensures var s := Final(c, r); var row := s.rows[k]; var id := row.result.value.incident.value;
      && row.trace in s.ledger.sources
      && (forall t | t in s.ledger.sources && s.ledger.sources[t] == s.ledger.sources[row.trace] :: t == row.trace)
      && s.ledger.sources[row.trace] in s.ledger.approvals
      && s.ledger.approvals[s.ledger.sources[row.trace]].proposal ==
           Proposal(id, "disable_synthetic_account", "soc-response-test")
      && Fp(c, row) in s.incidents && s.incidents[Fp(c, row)] == Some(id)
      && id in s.world.cases && s.world.cases[id] == Fp(c, row)
  {
    InvAlways(c, r);
    var s := Final(c, r);
    assert KnownCase(c, s, s.rows[k], s.rows[k].result.value.incident, s.rows[k].result.value.disposition);
    assert ProposalMade(s, s.rows[k], s.rows[k].result.value.scenario, s.rows[k].result.value.incident);
    assert ApprovalFits(c, s, s.rows[k]);
  }

  /** Every approval of a trace is that of a delivery of rule 100102, for the recorded case of its incident. */
  lemma ApprovedForAccounts(c: Config, r: Run, t: string) returns (k: string)
    requires Execution(c, r) && AdmissibleRun(c, r) && t in Final(c, r).ledger.sources
    ensures var s := Final(c, r);
      && k in s.rows && s.rows[k].trace == t && s.rows[k].alert.ruleId == "100102"
      && s.ledger.sources[t] in s.ledger.approvals
      && var p := s.ledger.approvals[s.ledger.sources[t]].proposal;
      && p.action == "disable_synthetic_account" && p.target == "soc-response-test"
      && Fp(c, s.rows[k]) in s.incidents && s.incidents[Fp(c, s.rows[k])] == Some(p.incident)
  {
    InvAlways(c, r);
    assert HasRow(Final(c, r), t);
    k :| k in Final(c, r).rows && Final(c, r).rows[k].trace == t;
    assert ApprovalFits(c, Final(c, r), Final(c, r).rows[k]);
  }
}
