/** Which deliveries can still be completed, and which are held until an analyst decides. */
module Recovery {
  import opened Basics
  import opened Deliveries
  import opened Protocol
  import opened Invariants
  import opened ShuffleBound
  import opened Lifecycle
  import opened Cases
  import opened Attempts
  import opened Progress
  import Http = RetryingClient

  // ---- Deliveries that are held.

  /** The worker, if it holds key k, has not passed the handoff. */
  ghost predicate BeforeHandoff(s: State, k: string) {
    s.pc.Idle? || s.pc.key != k ||
    !(s.pc.HandoffReserved? || s.pc.Triggering? || HandedOff(s.pc) || s.pc.Reporting?)
  }

  /** The handoff of this delivery is reserved, but no execution is known. */
  ghost predicate Blocked(c: Config, s: State, k: string) {
    && k in s.rows && HasWebhook(c, s.rows[k]) && s.rows[k].status != Completed
    && s.rows[k].trace in s.handoffs && s.handoffs[s.rows[k].trace].execution == None
    && BeforeHandoff(s, k)
  }

  /**
   What the answer to a trigger does to the reservation of its trace: an HTTP error takes it away, no
   answer or an unreadable one leaves it as it is, and any other completes it with what it names.
   */
  lemma TriggerAnswered(c: Config, s: State, e: Event)
    requires Exclusive(s) && HandoffsAgree(c, s) && Enabled(c, s, e) && e.TriggerReply?
    ensures var n, t := Next(c, s, e), Held(s).trace;
      && n.rows == s.rows && n.world.sent == s.world.sent && n.world.accepted == s.world.accepted
      && (e.answer.Response? && e.answer.status >= 400 ==>
            n.handoffs == s.handoffs - {t} && n.pc.Failing? && n.world.underway == s.world.underway - multiset{t})
      && (!(e.answer.Response? && e.answer.status >= 400) ==> n.world.underway == s.world.underway)
      && (e.answer.Timeout? || e.answer.Unreachable? || (e.answer.status < 400 && e.executionBody.Unreadable?) ==>
            n.handoffs == s.handoffs && n.pc.Failing?)
      && (e.answer.Response? && e.answer.status < 400 && !e.executionBody.Unreadable? ==>
            var execution := if e.executionBody.Names? && e.executionBody.value != ""
                             then Some(e.executionBody.value) else None;
            && n.handoffs == s.handoffs[t := Handoff(true, execution)]
            && (n.pc.Commenting? || n.pc.Proposing?) && n.pc.execution == execution)
  {
    assert Next(c, s, e) == HandingOffNext(c, s, e);
  }

  /** An unanswered, unreadable or interrupted trigger leaves its delivery blocked. */
  lemma AmbiguityBlocks(c: Config, s: State, e: Event)
    requires Exclusive(s) && HandoffsAgree(c, s) && Enabled(c, s, e)
    requires s.pc.HandoffReserved? || s.pc.Triggering?
    requires || e.Crash?
             || (e.TriggerReply? && (e.answer.Timeout? || e.answer.Unreachable?))
             || (e.TriggerReply? && e.answer.Response? && e.answer.status < 400 && e.executionBody.Unreadable?)
    ensures Blocked(c, Next(c, s, e), s.pc.key)
  {
    if e.Crash? {
      CrashBlocks(c, s, e);
    } else {
      TriggerAnswered(c, s, e);
    }
  }

  lemma CrashBlocks(c: Config, s: State, e: Event)
    requires e.Crash? && QueueingEnabled(s, e)
    requires Exclusive(s) && HandoffsAgree(c, s) && (s.pc.HandoffReserved? || s.pc.Triggering?)
    ensures Blocked(c, QueueingNext(s, e), s.pc.key)
  {
  }

  /** The delivery stays blocked, its handoff stays as it is, and nothing is sent for it. */
  ghost predicate StaysBlocked(c: Config, s: State, n: State, k: string)
    requires Blocked(c, s, k)
  {
    var t := s.rows[k].trace;
    && Blocked(c, n, k) && n.rows[k].trace == t
    && n.handoffs[t] == s.handoffs[t] && n.world.sent[t] == s.world.sent[t]
  }

  lemma BlockedStep(c: Config, s: State, e: Event, k: string)
    requires Inv(c, s) && Enabled(c, s, e) && Blocked(c, s, k) && !(e.Reconcile? && e.key == k)
    ensures StaysBlocked(c, s, Next(c, s, e), k)
  {
    OneRowPerTrace(s, k);
    match PhaseOf(e)
    case Queueing => BlockedQueueing(c, s, e, k);
    case HandingOff => BlockedHandingOff(c, s, e, k);
    case Closing => BlockedClosing(c, s, e, k);
    case _ =>
      Frame(c, s, e);
      BlockedElsewhere(c, s, Next(c, s, e), e, k);
  }

  lemma BlockedElsewhere(c: Config, s: State, n: State, e: Event, k: string)
    requires || PhaseOf(e) == Correlating || PhaseOf(e) == Posting
             || (PhaseOf(e) == Outside && n.world.sent == s.world.sent)
    requires Blocked(c, s, k) && Framed(s, n, e)
    ensures StaysBlocked(c, s, n, k)
  {
  }

  lemma BlockedQueueing(c: Config, s: State, e: Event, k: string)
    requires Exclusive(s) && PhaseOf(e) == Queueing && QueueingEnabled(s, e) && Blocked(c, s, k)
    requires !(e.Reconcile? && e.key == k)
    requires forall j | j in s.rows && s.rows[j].trace == s.rows[k].trace :: j == k
    ensures StaysBlocked(c, s, QueueingNext(s, e), k)
  {
  }

  lemma BlockedClosing(c: Config, s: State, e: Event, k: string)
    requires Exclusive(s) && PhaseOf(e) == Closing && !s.pc.Idle? && ClosingEnabled(s, e) && Blocked(c, s, k)
    ensures StaysBlocked(c, s, ClosingNext(c, s, e), k)
  {
  }

  lemma BlockedHandingOff(c: Config, s: State, e: Event, k: string)
    requires Exclusive(s) && PhaseOf(e) == HandingOff && !s.pc.Idle? && HandingOffEnabled(s, e) && Blocked(c, s, k)
    requires forall j | j in s.rows && s.rows[j].trace == s.rows[k].trace :: j == k
    ensures StaysBlocked(c, s, HandingOffNext(c, s, e), k)
  {
    FramedHandingOff(c, s, e);
    OtherHandoffsStay(c, s, e);
  }

  ghost predicate Unreconciled(r: Run, k: string) {
    r.From? || (Unreconciled(r.past, k) && !(r.event.Reconcile? && r.event.key == k))
  }

  /** Until it is reconciled, a blocked delivery never completes and is never triggered again. */
  lemma {:induction false} BlockedUntilReconciled(c: Config, r: Run, k: string)
    requires Valid(c, r) && AdmissibleRun(c, r) && Inv(c, Start(r)) && Blocked(c, Start(r), k) && Unreconciled(r, k)
    ensures var s, t := Final(c, r), Start(r).rows[k].trace;
      && Inv(c, s) && Blocked(c, s, k) && s.rows[k].trace == t
      && t in Start(r).handoffs && s.handoffs[t] == Start(r).handoffs[t] && s.world.sent[t] == Start(r).world.sent[t]
  {
    if r.Then? {
      BlockedUntilReconciled(c, r.past, k);
      InvFrom(c, r);
      BlockedStep(c, Final(c, r.past), r.event, k);
    }
  }

  ghost function ClaimsOf(r: Run, k: string): nat {
    if r.From? then 0 else ClaimsOf(r.past, k) + Count(r.event == Claim(k))
  }

  ghost predicate LeftAlone(r: Run, k: string) {
    r.From? || (LeftAlone(r.past, k) && !r.event.Crash? && !Requeues(r.event, k))
  }

  lemma BlockedBudgetStep(c: Config, s: State, e: Event, k: string)
    requires Inv(c, s) && Enabled(c, s, e) && Blocked(c, s, k) && !e.Crash? && !Requeues(e, k)
    ensures k in Next(c, s, e).rows
    ensures Weight(c, Next(c, s, e).rows[k]) + Count(e == Claim(k)) == Weight(c, s.rows[k])
  {
    RowStep(c, s, e, k);
    BlockedWeight(c, s, e, k);
  }

  lemma BlockedWeight(c: Config, s: State, e: Event, k: string)
    requires Exclusive(s) && Enabled(c, s, e) && Blocked(c, s, k) && !e.Crash? && !Requeues(e, k)
    ensures Weight(c, RowAfter(c, s, e, k)) + Count(e == Claim(k)) == Weight(c, s.rows[k])
  {
  }

  lemma {:induction false} BlockedClaims(c: Config, r: Run, k: string)
    requires Valid(c, r) && AdmissibleRun(c, r) && Inv(c, Start(r)) && Blocked(c, Start(r), k) && LeftAlone(r, k)
    ensures Inv(c, Final(c, r)) && Blocked(c, Final(c, r), k)
    ensures ClaimsOf(r, k) + Weight(c, Final(c, r).rows[k]) == Weight(c, Start(r).rows[k])
  {
    if r.Then? {
      BlockedClaims(c, r.past, k);
      InvStep(c, Final(c, r.past), r.event);
      BlockedStep(c, Final(c, r.past), r.event, k);
      BlockedBudgetStep(c, Final(c, r.past), r.event, k);
    }
  }

  /**
   Left alone, a blocked delivery uses up exactly its remaining attempts and then has failed.
   */
  lemma BlockedFails(c: Config, r: Run, k: string)
    requires Valid(c, r) && AdmissibleRun(c, r) && Inv(c, Start(r)) && Blocked(c, Start(r), k) && LeftAlone(r, k)
    ensures k in Final(c, r).rows
    ensures ClaimsOf(r, k) + Weight(c, Final(c, r).rows[k]) == Weight(c, Start(r).rows[k])
    ensures ClaimsOf(r, k) == Weight(c, Start(r).rows[k]) && (Final(c, r).pc.Idle? || Final(c, r).pc.key != k) ==>
              Final(c, r).rows[k].status == Failed
  {
    BlockedClaims(c, r, k);
  }

  // ---- Deliveries that can be completed.

  /** A history that goes on from r, with no retry in what it adds. */
  ghost predicate Prolongs(c: Config, r: Run, q: Run) {
    && Valid(c, q) && AdmissibleRun(c, q) && Start(q) == Start(r)
    && (forall t :: Retries(c, q, t) == Retries(c, r, t)) && (forall t :: Careless(c, q, t) == Careless(c, r, t))
  }

  ghost predicate ProlongsTo(c: Config, r: Run, n: State) {
    exists q :: Prolongs(c, r, q) && Final(c, q) == n
  }

  /** Where the worker's own steps lead, a history leads. */
  lemma Prolong(c: Config, r: Run, n: State) returns (q: Run)
    requires Valid(c, r) && AdmissibleRun(c, r) && Works(c, Final(c, r), n)
    ensures Prolongs(c, r, q) && Final(c, q) == n
  {
    var within := iset m | ProlongsTo(c, r, m);
    assert Prolongs(c, r, r);
    forall m, e | m in within && Internal(e) && Enabled(c, m, e) ensures Next(c, m, e) in within {
      var p :| Prolongs(c, r, p) && Final(c, p) == m;
      assert Prolongs(c, r, Then(p, e)) && Final(c, Then(p, e)) == Next(c, m, e);
    }
    assert Closed(c, within);
    q :| Prolongs(c, r, q) && Final(c, q) == n;
  }

  const OK := Http.Response(200, Http.Absent)

  /** The next step of the worker when every external system cooperates. */
  ghost function Cooperate(c: Config, s: State): Event
    requires Exclusive(s) && !s.pc.Idle?
  {
    match s.pc
    case Enriching(_) => Enrich(true)
    case Reserving(_) => ReserveIncident
    case Finding(_) =>
      var f := Fp(c, Held(s));
      if f in s.world.cases.Values then
        var id :| id in s.world.cases && s.world.cases[id] == f;
        FindCase(Found(id))
      else FindCase(NoCase)
    case Creating(_, _) => SendCase(Some(Above(s.world.cases.Keys)), false)
    case AwaitingCase(_, _, created) => CaseReply(OK, if created.Some? then Names(created.value) else NamesNothing)
    case Observing(_, _) => Observe(true)
    case Auditing(_, _, _) => Note(true)
    case Handing(_, _, _) => BeginHandoff
    case HandoffReserved(_, _, _) => SendTrigger
    case Triggering(_, _, _) => TriggerReply(OK, Names("execution"))
    case Commenting(_, _, _, _) => Comment(true)
    case Proposing(_, _, _, _) => ProposeOnce(Above(s.ledger.approvals.Keys))
    case Finishing(_, _, _, _) => Finish
    case Reporting(_) => Report(true)
    case Failing(_, _) => Settle(true)
  }

  function Rank(p: Pc): nat {
    match p
    case Idle => 0
    case Failing(_, _) => 1
    case Reporting(_) => 2
    case Finishing(_, _, _, _) => 3
    case Proposing(_, _, _, _) => 4
    case Commenting(_, _, _, _) => 5
    case Triggering(_, _, _) => 6
    case HandoffReserved(_, _, _) => 7
    case Handing(_, _, _) => 8
    case Auditing(_, _, _) => 9
    case Observing(_, _) => 10
    case AwaitingCase(_, _, _) => 11
    case Creating(_, _) => 12
    case Finding(_) => 13
    case Reserving(_) => 14
    case Enriching(_) => 15
  }

  lemma CooperateEnabled(c: Config, s: State)
    requires Inv(c, s) && !s.pc.Idle?
    ensures Enabled(c, s, Cooperate(c, s)) && Internal(Cooperate(c, s))
  {
    if s.pc.Finding? && Fp(c, Held(s)) in s.world.cases.Values {
      assert exists id :: id in s.world.cases && s.world.cases[id] == Fp(c, Held(s));
    }
  }

  /** The delivery the worker holds can be handed off, or has been. */
  ghost predicate Clear(c: Config, s: State)
    requires Exclusive(s) && !s.pc.Idle?
  {
    && !s.pc.Failing? && (s.pc.AwaitingCase? ==> s.pc.created.Some?)
    && (BeforeHandoff(s, s.pc.key) && HasWebhook(c, Held(s)) && Held(s).trace in s.handoffs ==>
          s.handoffs[Held(s).trace].execution.Some?)
  }

  /** The request this delivery still needs, if any. */
  ghost function ToSend(c: Config, s: State): nat
    requires Exclusive(s)
  {
    if s.pc.Idle? then 0
    else Count(s.pc.HandoffReserved? ||
               (BeforeHandoff(s, s.pc.key) && HasWebhook(c, Held(s)) && Held(s).trace !in s.handoffs))
  }

  /** Only this key and its trace are affected; what is sent is under way. */
  ghost predicate OnlyTouches(s: State, n: State, key: string)
    requires key in s.rows
  {
    && n.now == s.now && n.world.accepted == s.world.accepted
    && (forall t :: n.world.underway[t] + s.world.sent[t] == s.world.underway[t] + n.world.sent[t])
    && (forall k | k in s.rows && k != key :: k in n.rows && n.rows[k] == s.rows[k])
    && (forall t | t != s.rows[key].trace ::
          && (t in n.handoffs <==> t in s.handoffs) && (t in s.handoffs ==> n.handoffs[t] == s.handoffs[t])
          && n.world.sent[t] == s.world.sent[t])
  }

  lemma OnlyTouchesAgain(s: State, m: State, n: State, key: string)
    requires key in s.rows && key in m.rows && m.rows[key].trace == s.rows[key].trace
    requires OnlyTouches(s, m, key) && OnlyTouches(m, n, key)
    ensures OnlyTouches(s, n, key)
  {
  }

  /** One cooperative step: the delivery at hand advances and no other is touched. */
  ghost predicate Advances(c: Config, s: State, n: State)
    requires Exclusive(s) && !s.pc.Idle? && Exclusive(n)
  {
    && Rank(n.pc) < Rank(s.pc) && (n.pc.Idle? || n.pc.key == s.pc.key) && !n.stopped
    && OnlyTouches(s, n, s.pc.key)
    && s.pc.key in n.rows && n.rows[s.pc.key].trace == Held(s).trace
    && (Clear(c, s) ==> StaysClear(c, s, n))
  }

  /** A delivery on its way to completion stays on it, sending what it needs. */
  ghost predicate StaysClear(c: Config, s: State, n: State)
    requires Exclusive(s) && !s.pc.Idle? && Exclusive(n) && s.pc.key in n.rows
  {
    && (if n.pc.Idle? then n.rows[s.pc.key].status == Completed else Clear(c, n))
    && n.world.sent[Held(s).trace] + ToSend(c, n) == s.world.sent[Held(s).trace] + ToSend(c, s)
  }

  lemma AdvancesEarly(c: Config, s: State, n: State)
    requires Exclusive(s) && Exclusive(n) && !s.pc.Idle? && !n.pc.Idle? && n.pc.key == s.pc.key
    requires Follows(c, s, n.pc)
    requires n.rows == s.rows && n.handoffs == s.handoffs && n.now == s.now
    requires n.world == s.world.(cases := n.world.cases, opening := n.world.opening)
    ensures Advances(c, s, n)
  {
  }

  /** The next stage before the handoff, or a failure that was not in the clear. */
  ghost predicate Follows(c: Config, s: State, p: Pc)
    requires Exclusive(s) && !s.pc.Idle?
  {
    && 1 <= Rank(p) < Rank(s.pc)
    && (8 <= Rank(p) || (p.Failing? && !Clear(c, s)))
    && (p.AwaitingCase? ==> p.created.Some?)
  }

  lemma EarlyPosting(c: Config, s: State)
    requires Exclusive(s) && (s.pc.Creating? || s.pc.AwaitingCase?) && PostingEnabled(c, s, Cooperate(c, s))
    ensures Follows(c, s, PostingNext(c, s, Cooperate(c, s)).pc)
  {
    if s.pc.AwaitingCase? {
      EarlyReply(c, s);
    }
  }

  lemma EarlyReply(c: Config, s: State)
    requires Exclusive(s) && s.pc.AwaitingCase? && PostingEnabled(c, s, Cooperate(c, s))
    ensures var p := PostingNext(c, s, Cooperate(c, s)).pc; p.Observing? || (p.Failing? && s.pc.created.None?)
  {
  }

  lemma EarlyCorrelating(c: Config, s: State)
    requires Exclusive(s) && Rank(s.pc) >= 9 && !s.pc.Creating? && !s.pc.AwaitingCase?
    requires CorrelatingEnabled(c, s, Cooperate(c, s))
    ensures Follows(c, s, CorrelatingNext(c, s, Cooperate(c, s)).pc)
  {
  }

  lemma AdvancesHandoff(c: Config, s: State)
    requires Exclusive(s) && HandoffsAgree(c, s) && s.pc.Handing?
    requires Exclusive(HandingOffNext(c, s, BeginHandoff))
    ensures Advances(c, s, HandingOffNext(c, s, BeginHandoff))
  {
    FramedHandingOff(c, s, BeginHandoff);
    if Clear(c, s) {
      ClearHandoff(c, s);
    }
  }

  lemma ClearHandoff(c: Config, s: State)
    requires Exclusive(s) && HandoffsAgree(c, s) && s.pc.Handing? && Clear(c, s)
    requires Exclusive(HandingOffNext(c, s, BeginHandoff)) && s.pc.key in HandingOffNext(c, s, BeginHandoff).rows
    ensures StaysClear(c, s, HandingOffNext(c, s, BeginHandoff))
  {
  }

  lemma AdvancesSending(c: Config, s: State)
    requires Exclusive(s) && s.pc.HandoffReserved? && Exclusive(HandingOffNext(c, s, SendTrigger))
    ensures Advances(c, s, HandingOffNext(c, s, SendTrigger))
  {
  }

  lemma GoodAnswer(c: Config, s: State)
    requires Exclusive(s) && HandoffsAgree(c, s) && s.pc.Triggering?
    ensures HandingOffEnabled(s, TriggerReply(OK, Names("execution")))
    ensures HandingOffNext(c, s, TriggerReply(OK, Names("execution"))) ==
            s.(handoffs := s.handoffs[Held(s).trace := Handoff(true, Some("execution"))],
               pc := AfterHandoff(s.pc.key, s.pc.incident, s.pc.disposition, Some("execution")))
  {
  }

  lemma AdvancesAnswer(c: Config, s: State)
    requires Exclusive(s) && HandoffsAgree(c, s) && s.pc.Triggering?
    requires HandingOffEnabled(s, Cooperate(c, s)) && Exclusive(HandingOffNext(c, s, Cooperate(c, s)))
    ensures Advances(c, s, HandingOffNext(c, s, Cooperate(c, s)))
  {
    GoodAnswer(c, s);
  }

  lemma AdvancesComment(c: Config, s: State)
    requires Exclusive(s) && s.pc.Commenting? && Exclusive(HandingOffNext(c, s, Comment(true)))
    ensures Advances(c, s, HandingOffNext(c, s, Comment(true)))
  {
  }

  lemma AdvancesProposal(c: Config, s: State)
    requires Exclusive(s) && s.pc.Proposing? && ClosingEnabled(s, Cooperate(c, s))
    requires Exclusive(ClosingNext(c, s, Cooperate(c, s)))
    ensures Advances(c, s, ClosingNext(c, s, Cooperate(c, s)))
  {
  }

  lemma AdvancesFinish(c: Config, s: State)
    requires Exclusive(s) && s.pc.Finishing? && Exclusive(ClosingNext(c, s, Finish))
    ensures Advances(c, s, ClosingNext(c, s, Finish))
  {
  }

  lemma AdvancesReport(c: Config, s: State)
    requires Exclusive(s) && s.pc.Reporting? && Exclusive(ClosingNext(c, s, Report(true)))
    ensures Advances(c, s, ClosingNext(c, s, Report(true)))
  {
  }

  lemma AdvancesSettle(c: Config, s: State)
    requires Exclusive(s) && s.pc.Failing? && Exclusive(ClosingNext(c, s, Settle(true)))
    ensures Advances(c, s, ClosingNext(c, s, Settle(true)))
  {
  }

  lemma CooperateAdvances(c: Config, s: State) returns (n: State)
    requires Inv(c, s) && !s.pc.Idle?
    ensures Works(c, s, n) && Inv(c, n) && Advances(c, s, n) && Budget(c, n) <= Budget(c, s)
  {
    var e := Cooperate(c, s);
    CooperateEnabled(c, s);
    InvStep(c, s, e);
    BudgetStep(c, s, e);
    n := Next(c, s, e);
    WorkStep(c, s, s, e);
    CooperationAdvances(c, s);
  }

  lemma CooperationAdvances(c: Config, s: State)
    requires Exclusive(s) && HandoffsAgree(c, s) && !s.pc.Idle?
    requires Enabled(c, s, Cooperate(c, s)) && Exclusive(Next(c, s, Cooperate(c, s)))
    ensures Advances(c, s, Next(c, s, Cooperate(c, s)))
  {
    var e := Cooperate(c, s);
    CooperatesInPhase(c, s);
    Frame(c, s, e);
    match PhaseOf(e)
    case Correlating => AdvancesCorrelating(c, s, e, CorrelatingNext(c, s, e));
    case Posting => AdvancesPosting(c, s, e, PostingNext(c, s, e));
    case HandingOff => AdvancesAtHandoff(c, s, e, HandingOffNext(c, s, e));
    case Closing => AdvancesAtClose(c, s, e, ClosingNext(c, s, e));
  }

  lemma CooperatesInPhase(c: Config, s: State)
    requires Exclusive(s) && !s.pc.Idle?
    ensures PhaseOf(Cooperate(c, s)) ==
            if Rank(s.pc) < 5 then Closing else if Rank(s.pc) < 9 then HandingOff
            else if 11 <= Rank(s.pc) <= 12 then Posting else Correlating
  {
  }

  lemma AdvancesAtHandoff(c: Config, s: State, e: Event, n: State)
    requires Exclusive(s) && HandoffsAgree(c, s) && 5 <= Rank(s.pc) < 9 && e == Cooperate(c, s)
    requires HandingOffEnabled(s, e) && n == HandingOffNext(c, s, e) && Exclusive(n)
    ensures Advances(c, s, n)
  {
    if s.pc.Handing? { AdvancesHandoff(c, s); }
    else if s.pc.HandoffReserved? { AdvancesSending(c, s); }
    else if s.pc.Triggering? { AdvancesAnswer(c, s); }
    else { AdvancesComment(c, s); }
  }

  lemma AdvancesToResult(c: Config, s: State, e: Event, n: State)
    requires Exclusive(s) && 3 <= Rank(s.pc) < 5 && e == Cooperate(c, s)
    requires ClosingEnabled(s, e) && n == ClosingNext(c, s, e) && Exclusive(n)
    ensures Advances(c, s, n)
  {
    if s.pc.Proposing? { AdvancesProposal(c, s); } else { AdvancesFinish(c, s); }
  }

  lemma AdvancesAtClose(c: Config, s: State, e: Event, n: State)
    requires Exclusive(s) && !s.pc.Idle? && Rank(s.pc) < 5 && e == Cooperate(c, s)
    requires ClosingEnabled(s, e) && n == ClosingNext(c, s, e) && Exclusive(n)
    ensures Advances(c, s, n)
  {
    if Rank(s.pc) >= 3 { AdvancesToResult(c, s, e, n); }
    else if s.pc.Reporting? { AdvancesReport(c, s); }
    else { AdvancesSettle(c, s); }
  }

  lemma AdvancesCorrelating(c: Config, s: State, e: Event, n: State)
    requires Exclusive(s) && Rank(s.pc) >= 9 && !s.pc.Creating? && !s.pc.AwaitingCase? && e == Cooperate(c, s)
    requires Exclusive(n) && PhaseOf(e) == Correlating && Framed(s, n, e)
    requires CorrelatingEnabled(c, s, e) && n == CorrelatingNext(c, s, e)
    ensures Advances(c, s, n)
  {
    EarlyCorrelating(c, s);
    AdvancesEarly(c, s, n);
  }

  lemma AdvancesPosting(c: Config, s: State, e: Event, n: State)
    requires Exclusive(s) && (s.pc.Creating? || s.pc.AwaitingCase?) && e == Cooperate(c, s)
    requires Exclusive(n) && PhaseOf(e) == Posting && Framed(s, n, e)
    requires PostingEnabled(c, s, e) && n == PostingNext(c, s, e)
    ensures Advances(c, s, n)
  {
    EarlyPosting(c, s);
    AdvancesEarly(c, s, n);
  }

  /** The delivery at hand has been dealt with, and no other was touched. */
  ghost predicate DealtWith(c: Config, s: State, n: State)
    requires Exclusive(s) && !s.pc.Idle?
  {
    && n.pc.Idle? && !n.stopped && Budget(c, n) <= Budget(c, s)
    && OnlyTouches(s, n, s.pc.key)
    && s.pc.key in n.rows && n.rows[s.pc.key].trace == Held(s).trace
    && (Clear(c, s) ==>
          && n.rows[s.pc.key].status == Completed
          && n.world.sent[Held(s).trace] == s.world.sent[Held(s).trace] + ToSend(c, s))
  }

  /** Under cooperation the worker finishes what it holds: completely, if the handoff is clear. */
  lemma {:induction false} Drive(c: Config, s: State) returns (n: State)
    requires Inv(c, s) && !s.pc.Idle?
    ensures Works(c, s, n) && Inv(c, n) && DealtWith(c, s, n)
    decreases Rank(s.pc)
  {
    n := CooperateAdvances(c, s);
    if !n.pc.Idle? {
      var m := n;
      n := Drive(c, m);
      OnlyTouchesAgain(s, m, n, s.pc.key);
    }
  }

  /** Queued and due, with a handoff that is not in the way. */
  ghost predicate Ready(c: Config, s: State, k: string) {
    && k in s.rows && s.rows[k].status == Queued && Due(s.rows[k], s.now)
    && (HasWebhook(c, s.rows[k]) && s.rows[k].trace in s.handoffs ==> s.handoffs[s.rows[k].trace].execution.Some?)
  }

  /** The requests that completing a ready delivery takes. */
  ghost function Needed(c: Config, s: State, k: string): nat
    requires k in s.rows
  {
    Count(HasWebhook(c, s.rows[k]) && s.rows[k].trace !in s.handoffs)
  }

  /** One turn of the idle worker under cooperation: claim the oldest due delivery and deal with it. */
  lemma Turn(c: Config, s: State, j: string) returns (n: State)
    requires Inv(c, s) && s.pc.Idle? && !s.stopped && OldestDue(s.rows, j, s.now)
    ensures Works(c, s, n) && Inv(c, n) && n.pc.Idle? && !n.stopped && Budget(c, n) < Budget(c, s)
    ensures OnlyTouches(s, n, j)
    ensures Ready(c, s, j) ==>
              && j in n.rows && n.rows[j].status == Completed
              && n.world.sent[s.rows[j].trace] == s.world.sent[s.rows[j].trace] + Needed(c, s, j)
  {
    var claimed := Next(c, s, Claim(j));
    WorkStep(c, s, s, Claim(j));
    InvStep(c, s, Claim(j));
    BudgetStep(c, s, Claim(j));
    ClaimTouches(c, s, j);
    n := Drive(c, claimed);
    OnlyTouchesAgain(s, claimed, n, j);
  }

  lemma ClaimTouches(c: Config, s: State, j: string)
    requires Inv(c, s) && s.pc.Idle? && !s.stopped && OldestDue(s.rows, j, s.now) && Inv(c, Next(c, s, Claim(j)))
    ensures var n := Next(c, s, Claim(j));
      && n.pc == Enriching(j) && OnlyTouches(s, n, j) && j in n.rows && n.rows[j].trace == s.rows[j].trace
      && (Ready(c, s, j) ==> Clear(c, n) && ToSend(c, n) == Needed(c, s, j))
      && n.world == s.world
  {
  }

  /** Delivery k is completed, for which so many requests were sent, all of them still under way. */
  ghost predicate CompletedWith(s: State, n: State, k: string, requests: nat)
    requires k in s.rows
  {
    var t := s.rows[k].trace;
    && k in n.rows && n.rows[k].status == Completed
    && n.world.sent[t] == s.world.sent[t] + requests
    && n.world.underway[t] == s.world.underway[t] + requests
    && n.world.accepted == s.world.accepted
  }

  lemma {:induction false} ReadyInTurn(c: Config, s: State, k: string) returns (n: State)
    requires Inv(c, s) && s.pc.Idle? && !s.stopped && Ready(c, s, k)
    ensures Works(c, s, n) && CompletedWith(s, n, k, Needed(c, s, k))
    decreases Budget(c, s), 0
  {
    SomeOldestDue(s.rows, s.now, k);
    var j :| OldestDue(s.rows, j, s.now);
    n := Turn(c, s, j);
    if j != k {
      var m := n;
      n := ReadyLater(c, s, m, j, k);
    }
  }

  lemma {:induction false} ReadyLater(c: Config, s: State, m: State, j: string, k: string) returns (n: State)
    requires Inv(c, s) && Ready(c, s, k) && j in s.rows && j != k && OnlyTouches(s, m, j)
    requires Inv(c, m) && m.pc.Idle? && !m.stopped && Works(c, s, m)
    ensures Works(c, s, n) && CompletedWith(s, n, k, Needed(c, s, k))
    decreases Budget(c, m), 1
  {
    StillReady(s, m, j, k);
    n := ReadyInTurn(c, m, k);
  }

  /** The worker, which is started again if it has stopped. */
  function Awake(s: State): State {
    s.(stopped := false)
  }

  lemma AwakeByRestart(c: Config, s: State)
    requires Inv(c, s)
    ensures Inv(c, Awake(s)) && Awake(s) == if s.stopped then Next(c, s, Crash(true)) else s
  {
    if s.stopped {
      assert AllRecovered(s.rows, s.now) == s.rows;
      InvStep(c, s, Crash(true));
    }
  }

  /**
   A ready delivery is completed under cooperation, after what the worker holds and whatever is older;
   a worker that has stopped has to be started again for it.
   */
  lemma ReadyCompletes(c: Config, s: State, k: string) returns (n: State)
    requires Inv(c, s) && Ready(c, s, k)
    ensures Works(c, Awake(s), n) && CompletedWith(s, n, k, Needed(c, s, k))
  {
    AwakeByRestart(c, s);
    if s.pc.Idle? {
      n := ReadyInTurn(c, Awake(s), k);
    } else {
      var m := Drive(c, s);
      n := ReadyLater(c, s, m, s.pc.key, k);
    }
  }

  /** A history that goes on from r, by a restart if the worker has stopped, to what the worker then reaches. */
  lemma ProlongAwake(c: Config, r: Run, n: State) returns (q: Run)
    requires Valid(c, r) && AdmissibleRun(c, r) && Inv(c, Final(c, r)) && Works(c, Awake(Final(c, r)), n)
    ensures Prolongs(c, r, q) && Final(c, q) == n
  {
    AwakeByRestart(c, Final(c, r));
    if Final(c, r).stopped {
      var p := Then(r, Crash(true));
      q := Prolong(c, p, n);
    } else {
      q := Prolong(c, r, n);
    }
  }

  /** A turn that deals with an older delivery leaves this one and its trace alone. */
  lemma StillReady(s: State, m: State, j: string, k: string)
    requires Keyed(s) && j in s.rows && k in s.rows && j != k && OnlyTouches(s, m, j)
    ensures var t := s.rows[k].trace;
      && k in m.rows && m.rows[k] == s.rows[k] && m.now == s.now
      && (t in m.handoffs <==> t in s.handoffs) && (t in s.handoffs ==> m.handoffs[t] == s.handoffs[t])
      && m.world.sent[t] == s.world.sent[t] && m.world.underway[t] == s.world.underway[t]
      && m.world.accepted == s.world.accepted
  {
    OneRowPerTrace(s, j);
  }

  /** A handoff that Shuffle acknowledged without naming an execution. */
  ghost predicate DeadEnd(c: Config, s: State, k: string) {
    && k in s.rows && HasWebhook(c, s.rows[k])
    && s.rows[k].trace in s.handoffs && s.handoffs[s.rows[k].trace] == Handoff(true, None)
  }

  /** A history from s after which delivery k is completed. */
  ghost predicate CompletesBy(c: Config, s: State, k: string, r: Run) {
    && Valid(c, r) && AdmissibleRun(c, r) && Start(r) == s
    && k in Final(c, r).rows && Final(c, r).rows[k].status == Completed
  }

  ghost predicate Completable(c: Config, s: State, k: string) {
    exists r :: CompletesBy(c, s, k, r)
  }

  lemma DeadEndStep(c: Config, s: State, e: Event, k: string)
    requires Inv(c, s) && Enabled(c, s, e) && Blocked(c, s, k) && DeadEnd(c, s, k)
    ensures Blocked(c, Next(c, s, e), k) && DeadEnd(c, Next(c, s, e), k)
  {
    BlockedStep(c, s, e, k);
  }

  lemma {:induction false} DeadEndStays(c: Config, r: Run, k: string)
    requires Valid(c, r) && AdmissibleRun(c, r) && Inv(c, Start(r))
    requires Blocked(c, Start(r), k) && DeadEnd(c, Start(r), k)
    ensures Inv(c, Final(c, r)) && Blocked(c, Final(c, r), k) && DeadEnd(c, Final(c, r), k)
  {
    if r.Then? {
      DeadEndStays(c, r.past, k);
      InvFrom(c, r);
      DeadEndStep(c, Final(c, r.past), r.event, k);
    }
  }

  /** The state after an operator has requeued the failed delivery k in this way. */
  lemma RequeuedIsReady(c: Config, s: State, e: Event, k: string)
    requires Inv(c, s) && k in s.rows && s.rows[k].status == Failed
    requires Requeues(e, k) && Enabled(c, s, e)
    requires e.Replay? ==> !Blocked(c, s, k)
    ensures var n := Next(c, s, e); Inv(c, n) && n.pc == s.pc && Ready(c, n, k) && n.world == s.world
  {
    InvStep(c, s, e);
  }

  /** An operator's requeueing step for a failed delivery that is no dead end. */
  function Requeueing(s: State, k: string): Event
    requires k in s.rows
  {
    var t := s.rows[k].trace;
    if t in s.handoffs && !s.handoffs[t].completed then Reconcile(k, Retry) else Replay(k)
  }

  lemma FailedCompletes(c: Config, s: State, k: string)
    requires Inv(c, s) && k in s.rows && s.rows[k].status == Failed && !DeadEnd(c, s, k)
    ensures Completable(c, s, k)
  {
    var e := Requeueing(s, k);
    RequeuedIsReady(c, s, e, k);
    var n := ReadyCompletes(c, Next(c, s, e), k);
    Extend(c, From(s), e);
    var q := ProlongAwake(c, Then(From(s), e), n);
    assert CompletesBy(c, s, k, q);
  }

  lemma DeadEndNeverCompletes(c: Config, s: State, k: string)
    requires Inv(c, s) && DeadEnd(c, s, k) && s.rows[k].status == Failed
    ensures !Completable(c, s, k)
  {
    if r :| CompletesBy(c, s, k, r) {
      DeadEndStays(c, r, k);
    }
  }

  /**
   A failed delivery can be brought to completion, by some operator and a cooperative environment,
   exactly when its handoff was not acknowledged without an execution identifier.
   */
  lemma CompletableExactly(c: Config, s: State, k: string)
    requires Inv(c, s) && k in s.rows && s.rows[k].status == Failed
    ensures Completable(c, s, k) <==> !DeadEnd(c, s, k)
  {
    if DeadEnd(c, s, k) {
      DeadEndNeverCompletes(c, s, k);
    } else {
      FailedCompletes(c, s, k);
    }
  }

  /** The delivery is failed and its handoff awaits an analyst. */
  ghost predicate AwaitsAnalyst(c: Config, s: State, k: string) {
    && Inv(c, s) && k in s.rows && s.rows[k].status == Failed && HasWebhook(c, s.rows[k])
    && s.rows[k].trace in s.handoffs && !s.handoffs[s.rows[k].trace].completed
  }

  /** After `retry` the delivery completes with exactly one more request, after an observed execution with none. */
  lemma ReconciliationCompletes(c: Config, s: State, k: string, finding: Deliveries.Finding)
    requires AwaitsAnalyst(c, s, k) && Enabled(c, s, Reconcile(k, finding))
    ensures exists n :: Works(c, Awake(Next(c, s, Reconcile(k, finding))), n)
              && k in n.rows && n.rows[k].status == Completed
              && n.world.sent[s.rows[k].trace] == s.world.sent[s.rows[k].trace] + Count(finding.Retry?)
  {
    var e := Reconcile(k, finding);
    RequeuedIsReady(c, s, e, k);
    var n := ReadyCompletes(c, Next(c, s, e), k);
  }

  /** Once its handoff is completed, nothing is ever sent for a trace again. */
  lemma {:induction false} CompletedHandoffSendsNothing(c: Config, r: Run, t: string)
    requires Valid(c, r) && AdmissibleRun(c, r) && Inv(c, Start(r))
    requires t in Start(r).handoffs && Start(r).handoffs[t].completed
    ensures Final(c, r).world.sent[t] == Start(r).world.sent[t]
  {
    if r.Then? {
      CompletedHandoffSendsNothing(c, r.past, t);
      CompletedHandoffIsFinal(c, r.past, t);
      InvFrom(c, r.past);
      NothingSent(c, Final(c, r.past), r.event, t);
    }
  }

  lemma NothingSent(c: Config, s: State, e: Event, t: string)
    requires Inv(c, s) && Enabled(c, s, e) && t in s.handoffs && s.handoffs[t].completed
    ensures Next(c, s, e).world.sent[t] == s.world.sent[t]
  {
    match PhaseOf(e)
    case HandingOff => CompletedHandingOff(c, s, e, t);
    case Outside => assert Next(c, s, e) == OutsideNext(s, e);
    case _ => Frame(c, s, e);
  }

  // ---- When allowing a retry is safe.

  /** Whatever happens from here on, only further retries can add to a single acceptance. */
  ghost predicate AcceptsAtMostOnce(c: Config, s: State, t: string) {
    forall r | Valid(c, r) && AdmissibleRun(c, r) && Start(r) == s ::
      Final(c, r).world.accepted[t] <= 1 + Retries(c, r, t)
  }

  lemma {:induction false} OpenFrom(c: Config, r: Run, t: string)
    requires Valid(c, r) && Exclusive(Start(r))
    ensures Exclusive(Final(c, r))
    ensures Open(Final(c, r), t) + Count(t in Start(r).handoffs) <=
            Open(Start(r), t) + Count(t in Final(c, r).handoffs) + Retries(c, r, t)
  {
    if r.Then? {
      OpenFrom(c, r.past, t);
      ExclusiveStep(c, Final(c, r.past), r.event);
      OpenStep(c, Final(c, r.past), r.event, t);
    }
  }

  /** After a retry was allowed, whatever was accepted or under way can still be exceeded by one. */
  lemma RetryAddsOne(c: Config, s: State, k: string) returns (n: State)
    requires AwaitsAnalyst(c, s, k)
    ensures Enabled(c, s, Reconcile(k, Retry)) && Works(c, Awake(Next(c, s, Reconcile(k, Retry))), n)
    ensures var t := s.rows[k].trace;
      && n.world.accepted == s.world.accepted && n.world.underway[t] == s.world.underway[t] + 1
  {
    RequeuedIsReady(c, s, Reconcile(k, Retry), k);
    n := ReadyCompletes(c, Next(c, s, Reconcile(k, Retry)), k);
  }

  function AcceptedOne(n: State, t: string): State {
    n.(world := n.world.(underway := n.world.underway - multiset{t}, accepted := n.world.accepted + multiset{t}))
  }

  lemma AcceptOne(c: Config, s: State, n: State, t: string)
    requires Works(c, s, n) && n.world.underway[t] >= 1
    ensures Works(c, s, AcceptedOne(n, t))
  {
    WorkStep(c, s, n, ShuffleAccepts(t));
  }

  /** A state with two acceptances after a retry that was allowed too early. */
  lemma RetryTooEarly(c: Config, s: State, k: string) returns (n: State)
    requires AwaitsAnalyst(c, s, k)
    requires s.world.accepted[s.rows[k].trace] + s.world.underway[s.rows[k].trace] >= 1
    ensures Enabled(c, s, Reconcile(k, Retry)) && Works(c, Awake(Next(c, s, Reconcile(k, Retry))), n)
    ensures n.world.accepted[s.rows[k].trace] >= 2
  {
    var t, m := s.rows[k].trace, Awake(Next(c, s, Reconcile(k, Retry)));
    n := RetryAddsOne(c, s, k);
    AcceptOne(c, m, n, t);
    n := AcceptedOne(n, t);
    if s.world.accepted[t] == 0 {
      AcceptOne(c, m, n, t);
      n := AcceptedOne(n, t);
    }
  }

  /**
   Allowing a retry keeps a trace at one acceptance exactly if nothing of it had been accepted and
   nothing was under way; having been accepted is not all that an analyst has to rule out.
   */
  lemma RetrySafeExactly(c: Config, s: State, k: string)
    requires AwaitsAnalyst(c, s, k)
    ensures Enabled(c, s, Reconcile(k, Retry))
    ensures AcceptsAtMostOnce(c, Next(c, s, Reconcile(k, Retry)), s.rows[k].trace) <==>
            s.world.accepted[s.rows[k].trace] == 0 && s.world.underway[s.rows[k].trace] == 0
  {
    var t, m := s.rows[k].trace, Next(c, s, Reconcile(k, Retry));
    InvStep(c, s, Reconcile(k, Retry));
    if s.world.accepted[t] == 0 && s.world.underway[t] == 0 {
      OneRowPerTrace(s, k);
      assert !AboutToSend(m, t);
      forall r | Valid(c, r) && AdmissibleRun(c, r) && Start(r) == m
        ensures Final(c, r).world.accepted[t] <= 1 + Retries(c, r, t)
      {
        OpenFrom(c, r, t);
      }
    } else {
      var n := RetryTooEarly(c, s, k);
      var r := ProlongAwake(c, From(m), n);
      assert Retries(c, r, t) == Retries(c, From(m), t) == 0;
    }
  }
}
