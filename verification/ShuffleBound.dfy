/** How often Shuffle can accept the trigger of one trace, over whole histories. */
module ShuffleBound {
  import opened Protocol
  import opened Invariants

  /** The event is an analyst's decision that it is safe to trigger this trace again. */
  ghost predicate IsRetry(s: State, e: Event, t: string) {
    e.Reconcile? && e.finding.Retry? && e.key in s.rows && s.rows[e.key].trace == t
  }

  ghost function Retries(c: Config, r: Run, t: string): nat {
    if r.From? then 0
    else Retries(c, r.past, t) + if IsRetry(Final(c, r.past), r.event, t) then 1 else 0
  }

  /** The worker has reserved the handoff and will send the request next. */
  ghost predicate AboutToSend(s: State, t: string) {
    s.pc.HandoffReserved? && s.pc.key in s.rows && Held(s).trace == t
  }

  /** Requests of this trace that have been or may yet be accepted. */
  ghost function Open(s: State, t: string): nat {
    s.world.accepted[t] + s.world.underway[t] + if AboutToSend(s, t) then 1 else 0
  }

  function Count(b: bool): nat {
    if b then 1 else 0
  }

  ghost predicate OpenStepped(s: State, n: State, e: Event, t: string) {
    Open(n, t) + Count(t in s.handoffs) <= Open(s, t) + Count(t in n.handoffs) + Count(IsRetry(s, e, t))
  }

  lemma OpenOutside(s: State, e: Event, t: string)
    requires PhaseOf(e) == Outside && OutsideEnabled(s, e)
    ensures OpenStepped(s, OutsideNext(s, e), e, t)
  {
  }

  lemma OpenQueueing(s: State, e: Event, t: string)
    requires Exclusive(s) && PhaseOf(e) == Queueing && QueueingEnabled(s, e)
    ensures OpenStepped(s, QueueingNext(s, e), e, t)
  {
    EndureQueueing(s, e);
  }

  lemma OpenHandingOff(c: Config, s: State, e: Event, t: string)
    requires PhaseOf(e) == HandingOff && !s.pc.Idle? && s.pc.key in s.rows && HandingOffEnabled(s, e)
    ensures OpenStepped(s, HandingOffNext(c, s, e), e, t)
  {
    if e.TriggerReply? {
      OpenAnswered(c, s, e, t);
    } else if e.SendTrigger? {
      OpenSent(c, s, e, t);
    }
  }

  lemma OpenAnswered(c: Config, s: State, e: Event, t: string)
    requires e.TriggerReply? && s.pc.Triggering? && s.pc.key in s.rows && HandingOffEnabled(s, e)
    ensures OpenStepped(s, HandingOffNext(c, s, e), e, t)
  {
  }

  lemma OpenSent(c: Config, s: State, e: Event, t: string)
    requires e.SendTrigger? && s.pc.HandoffReserved? && s.pc.key in s.rows && HandingOffEnabled(s, e)
    ensures OpenStepped(s, HandingOffNext(c, s, e), e, t)
  {
  }

  lemma OpenElsewhere(s: State, n: State, e: Event, t: string)
    requires Framed(s, n, e) && (PhaseOf(e) == Correlating || PhaseOf(e) == Posting || PhaseOf(e) == Closing)
    ensures OpenStepped(s, n, e, t)
  {
  }

  lemma OpenStep(c: Config, s: State, e: Event, t: string)
    requires Exclusive(s) && Enabled(c, s, e)
    ensures OpenStepped(s, Next(c, s, e), e, t)
  {
    match PhaseOf(e)
    case Outside => OpenOutside(s, e, t);
    case Queueing => OpenQueueing(s, e, t);
    case HandingOff => OpenHandingOff(c, s, e, t);
    case _ =>
      Frame(c, s, e);
      OpenElsewhere(s, Next(c, s, e), e, t);
  }

  lemma {:induction false} ExclusiveAlways(c: Config, r: Run)
    requires Execution(c, r)
    ensures Exclusive(Final(c, r))
  {
    if r.Then? {
      assert Start(r.past) == Start(r);
      ExclusiveAlways(c, r.past);
      ExclusiveStep(c, Final(c, r.past), r.event);
    }
  }

  lemma {:induction false} OpenBounded(c: Config, r: Run, t: string)
    requires Execution(c, r)
    ensures Open(Final(c, r), t) <= Count(t in Final(c, r).handoffs) + Retries(c, r, t)
  {
    if r.Then? {
      assert Start(r.past) == Start(r);
      OpenBounded(c, r.past, t);
      ExclusiveAlways(c, r.past);
      OpenStep(c, Final(c, r.past), r.event, t);
    }
  }

  /**
   In every history, whatever crashed, timed out or was replayed and whatever the keys are,
   Shuffle accepts at most one trigger of a trace beyond the retries analysts allowed.
   */
  lemma AcceptedBounded(c: Config, r: Run, t: string)
    requires Execution(c, r)
    ensures Final(c, r).world.accepted[t] + Final(c, r).world.underway[t] <= 1 + Retries(c, r, t)
  {
    OpenBounded(c, r, t);
  }

  /** A retry of this trace, allowed while a request of it had been accepted or was under way. */
  ghost predicate IsCareless(s: State, e: Event, t: string) {
    IsRetry(s, e, t) && s.world.accepted[t] + s.world.underway[t] > 0
  }

  ghost function Careless(c: Config, r: Run, t: string): nat {
    if r.From? then 0 else Careless(c, r.past, t) + Count(IsCareless(Final(c, r.past), r.event, t))
  }

  lemma {:induction false} CarelessAreRetries(c: Config, r: Run, t: string)
    ensures Careless(c, r, t) <= Retries(c, r, t)
  {
    if r.Then? {
      CarelessAreRetries(c, r.past, t);
    }
  }

  lemma {:induction false} OpenWithCare(c: Config, r: Run, t: string)
    requires Execution(c, r) && AdmissibleRun(c, r)
    ensures Open(Final(c, r), t) <= Count(t in Final(c, r).handoffs) + Careless(c, r, t)
  {
    if r.Then? {
      var s := Final(c, r.past);
      assert Start(r.past) == Start(r);
      OpenWithCare(c, r.past, t);
      InvAlways(c, r.past);
      OpenStep(c, s, r.event, t);
      if IsRetry(s, r.event, t) && !IsCareless(s, r.event, t) {
        OneRowPerTrace(s, r.event.key);
        assert !AboutToSend(s, t);
        assert Open(s, t) == 0;
      }
    }
  }

  /**
   Retries that were allowed with nothing accepted and nothing under way, the lost requests of
   earlier attempts among it, cost nothing: only careless ones can add an acceptance.
   */
  lemma AcceptedOnce(c: Config, r: Run, t: string)
    requires Execution(c, r) && AdmissibleRun(c, r)
    ensures Final(c, r).world.accepted[t] + Final(c, r).world.underway[t] <= 1 + Careless(c, r, t)
  {
    OpenWithCare(c, r, t);
  }
}
