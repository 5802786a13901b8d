/** Attempt counters, retry budgets and backoff over whole histories. */
module Attempts {
  import opened Basics
  import opened Deliveries
  import opened Protocol
  import opened Invariants
  import opened ShuffleBound
  import opened Lifecycle
  import opened Cases

  /** Claims of key k since it was last requeued, or at all. */
  ghost function EpochClaims(r: Run, k: string): nat {
    if r.From? || Requeues(r.event, k) then 0
    else EpochClaims(r.past, k) + Count(r.event == Claim(k))
  }

  /** Crashes that interrupted key k since it was last requeued, or at all. */
  ghost function EpochRecoveries(c: Config, r: Run, k: string): nat {
    if r.From? || Requeues(r.event, k) then 0
    else
      var s := Final(c, r.past);
      EpochRecoveries(c, r.past, k) + Count(r.event.Crash? && k in s.rows && s.rows[k].status == Processing)
  }

  lemma NewRowsAreFresh(c: Config, s: State, e: Event, k: string)
    requires Exclusive(s) && Enabled(c, s, e) && k !in s.rows
    ensures e != Claim(k) && !Requeues(e, k)
    ensures k in Next(c, s, e).rows ==> Next(c, s, e).rows[k].attempts == 0 && Next(c, s, e).rows[k].status == Queued
  {
    RowsStay(c, s, e);
  }

  lemma {:induction false} UnknownIsUnclaimed(c: Config, r: Run, k: string)
    requires Execution(c, r) && k !in Final(c, r).rows
    ensures EpochClaims(r, k) == 0 && EpochRecoveries(c, r, k) == 0
  {
    if r.Then? {
      assert Start(r.past) == Start(r);
      ExclusiveAlways(c, r.past);
      RowsStay(c, Final(c, r.past), r.event);
      UnknownIsUnclaimed(c, r.past, k);
      NewRowsAreFresh(c, Final(c, r.past), r.event, k);
    }
  }

  /**
   The stored counter is the number of claims since intake or the last requeue, and exceeds the
   configured maximum only by the crashes that interrupted the delivery meanwhile.
   */
  lemma {:induction false} AttemptsCountClaims(c: Config, r: Run, k: string)
    requires Execution(c, r) && k in Final(c, r).rows
    ensures var row := Final(c, r).rows[k];
      && row.attempts == EpochClaims(r, k)
      && row.attempts + Count(Waiting(row)) <= c.maxAttempts + EpochRecoveries(c, r, k)
  {
    if r.Then? {
      var s := Final(c, r.past);
      assert Start(r.past) == Start(r);
      ExclusiveAlways(c, r.past);
      if k in s.rows {
        AttemptsCountClaims(c, r.past, k);
        RowStep(c, s, r.event, k);
        if r.event == Claim(k) {
          assert Waiting(s.rows[k]);
        }
      } else {
        UnknownIsUnclaimed(c, r.past, k);
        NewRowsAreFresh(c, s, r.event, k);
      }
    }
  }

  // ---- The retry budget.

  /** Claims a delivery can still take without a crash or an operator. */
  function Weight(c: Config, r: Row): nat {
    match r.status
    case Queued => Max(1, c.maxAttempts - r.attempts)
    case Retrying => Max(1, c.maxAttempts - r.attempts)
    case Processing => Max(0, c.maxAttempts - r.attempts)
    case Completed => 0
    case Failed => 0
  }

  ghost function Pick(rows: Rows): (k: string)
    requires rows != map[]
    ensures k in rows
  {
    var k :| k in rows; k
  }

  ghost function Total(c: Config, rows: Rows): nat
    decreases |rows|
  {
    if rows == map[] then 0
    else
      var k := Pick(rows);
      assert (rows - {k}).Keys == rows.Keys - {k};
      Weight(c, rows[k]) + Total(c, rows - {k})
  }

  lemma {:induction false} TotalSplit(c: Config, rows: Rows, k: string)
    requires k in rows
    ensures Total(c, rows) == Weight(c, rows[k]) + Total(c, rows - {k})
    decreases |rows|
  {
    var j := Pick(rows);
    if j != k {
      assert (rows - {j}).Keys == rows.Keys - {j} && (rows - {k}).Keys == rows.Keys - {k};
      TotalSplit(c, rows - {j}, k);
      TotalSplit(c, rows - {k}, j);
      assert rows - {j} - {k} == rows - {k} - {j};
    }
  }

  lemma TotalUpdate(c: Config, rows: Rows, k: string, row: Row)
    ensures Total(c, rows[k := row]) ==
            Total(c, rows) + Weight(c, row) - if k in rows then Weight(c, rows[k]) else 0
  {
    TotalSplit(c, rows[k := row], k);
    if k in rows {
      TotalSplit(c, rows, k);
      assert rows[k := row] - {k} == rows - {k};
    } else {
      assert rows[k := row] - {k} == rows;
    }
  }

  /** The weight of the queue, and of a completed delivery that the worker may still record as failed. */
  ghost function Budget(c: Config, s: State): nat {
    Total(c, s.rows) + Resumable(c, s)
  }

  function Resumable(c: Config, s: State): nat {
    if !s.pc.Idle? && s.pc.key in s.rows && s.rows[s.pc.key].status == Completed
    then Max(0, c.maxAttempts - s.rows[s.pc.key].attempts) else 0
  }

  ghost function Claims(r: Run): nat {
    if r.From? then 0 else Claims(r.past) + Count(r.event.Claim?)
  }

  /** What new deliveries and requeues add to the budget: maxAttempts each. */
  ghost function Brought(c: Config, r: Run): nat {
    if r.From? then 0
    else Brought(c, r.past) + if BringsBudget(Final(c, r.past), r.event) then c.maxAttempts else 0
  }

  ghost predicate BringsBudget(s: State, e: Event) {
    e.Replay? || e.Reconcile? || (e.Intake? && e.key !in s.rows)
  }

  /** Crashes that interrupted a delivery. */
  ghost function Interruptions(c: Config, r: Run): nat {
    if r.From? then 0
    else Interruptions(c, r.past) + Count(r.event.Crash? && !Final(c, r.past).pc.Idle?)
  }

  /** The one key whose row a step may change. */
  ghost function Touched(s: State, e: Event): Option<string> {
    if e.Claim? || e.Replay? || e.Reconcile? then Some(e.key)
    else if e.Intake? && e.key !in s.rows then Some(e.key)
    else if !s.pc.Idle? then Some(s.pc.key)
    else None
  }

  lemma OneRowTouched(c: Config, s: State, e: Event)
    requires Exclusive(s) && Enabled(c, s, e)
    ensures var n, t := Next(c, s, e), Touched(s, e);
      if t.None? then n.rows == s.rows else t.value in n.rows && n.rows == s.rows[t.value := n.rows[t.value]]
  {
    RowsStep(c, s, e);
    OthersUntouched(c, s, Next(c, s, e), e);
  }

  lemma OthersUntouched(c: Config, s: State, n: State, e: Event)
    requires Exclusive(s) && Enabled(c, s, e) && RowsStepped(c, s, n, e)
    ensures var t := Touched(s, e);
      if t.None? then n.rows == s.rows else t.value in n.rows && n.rows == s.rows[t.value := n.rows[t.value]]
  {
    TouchedKnown(c, s, e);
    forall k | k in s.rows && Touched(s, e) != Some(k) ensures RowAfter(c, s, e, k) == s.rows[k] {
      RowUntouched(c, s, e, k);
    }
    OneRowDiffers(c, s, n, e, Touched(s, e));
  }

  lemma OneRowDiffers(c: Config, s: State, n: State, e: Event, t: Option<string>)
    requires RowsStepped(c, s, n, e)
    requires forall k | k in s.rows && t != Some(k) :: RowAfter(c, s, e, k) == s.rows[k]
    requires t.Some? ==> t.value in s.rows || (e.Intake? && e.key == t.value)
    requires e.Intake? && e.key !in s.rows ==> t == Some(e.key)
    ensures if t.None? then n.rows == s.rows else t.value in n.rows && n.rows == s.rows[t.value := n.rows[t.value]]
  {
    assert n.rows.Keys == if t.Some? then s.rows.Keys + {t.value} else s.rows.Keys;
  }

  lemma TouchedKnown(c: Config, s: State, e: Event)
    requires Exclusive(s) && Enabled(c, s, e)
    ensures Touched(s, e).Some? ==> Touched(s, e).value in s.rows || (e.Intake? && e.key == Touched(s, e).value)
    ensures e.Intake? && e.key !in s.rows ==> Touched(s, e) == Some(e.key)
  {
  }

  lemma RowUntouched(c: Config, s: State, e: Event, k: string)
    requires Exclusive(s) && Enabled(c, s, e) && k in s.rows && Touched(s, e) != Some(k)
    ensures RowAfter(c, s, e, k) == s.rows[k]
  {
  }

  /** The weight of the row that a step may change, with what the worker may resume. */
  ghost function Weighed(c: Config, s: State, t: Option<string>): nat {
    (if t.Some? && t.value in s.rows then Weight(c, s.rows[t.value]) else 0) + Resumable(c, s)
  }

  lemma WeighedClosing(c: Config, s: State, e: Event)
    requires Exclusive(s) && PhaseOf(e) == Closing && !s.pc.Idle? && ClosingEnabled(s, e)
    ensures Weighed(c, ClosingNext(c, s, e), Some(s.pc.key)) <= Weighed(c, s, Some(s.pc.key))
  {
  }

  lemma WeighedQueueing(c: Config, s: State, e: Event)
    requires Exclusive(s) && PhaseOf(e) == Queueing && QueueingEnabled(s, e)
    ensures Weighed(c, QueueingNext(s, e), Touched(s, e)) + Count(e.Claim?) <=
            Weighed(c, s, Touched(s, e)) + (if BringsBudget(s, e) then c.maxAttempts else 0)
            + Count(e.Crash? && !s.pc.Idle?)
  {
  }

  lemma WeighedElsewhere(c: Config, s: State, n: State, e: Event)
    requires Exclusive(s) && Framed(s, n, e) && PhaseOf(e) != Queueing && PhaseOf(e) != Closing
    ensures Weighed(c, n, Touched(s, e)) == Weighed(c, s, Touched(s, e))
  {
  }

  lemma WeighedStep(c: Config, s: State, e: Event)
    requires Exclusive(s) && Enabled(c, s, e)
    ensures Weighed(c, Next(c, s, e), Touched(s, e)) + Count(e.Claim?) <=
            Weighed(c, s, Touched(s, e)) + (if BringsBudget(s, e) then c.maxAttempts else 0)
            + Count(e.Crash? && !s.pc.Idle?)
  {
    match PhaseOf(e)
    case Queueing => WeighedQueueing(c, s, e);
    case Closing => WeighedClosing(c, s, e);
    case _ =>
      Frame(c, s, e);
      WeighedElsewhere(c, s, Next(c, s, e), e);
  }

  lemma BudgetStep(c: Config, s: State, e: Event)
    requires Exclusive(s) && Enabled(c, s, e)
    ensures Budget(c, Next(c, s, e)) + Count(e.Claim?) <=
            Budget(c, s) + (if BringsBudget(s, e) then c.maxAttempts else 0) + Count(e.Crash? && !s.pc.Idle?)
  {
    OneRowTouched(c, s, e);
    WeighedStep(c, s, e);
    BudgetOfOneRow(c, s, Next(c, s, e), Touched(s, e));
  }

  lemma BudgetOfOneRow(c: Config, s: State, n: State, t: Option<string>)
    requires if t.None? then n.rows == s.rows else t.value in n.rows && n.rows == s.rows[t.value := n.rows[t.value]]
    ensures Budget(c, n) - Weighed(c, n, t) == Budget(c, s) - Weighed(c, s, t)
  {
    if t.Some? {
      TotalUpdate(c, s.rows, t.value, n.rows[t.value]);
    }
  }

  /**
   Claims are paid for: every delivery and every requeue buys maxAttempts of them and every
   interruption one, and what is left over is the remaining weight of the queue.
   */
  lemma {:induction false} ClaimsArePaidFor(c: Config, r: Run)
    requires Valid(c, r) && Exclusive(Start(r))
    ensures Exclusive(Final(c, r))
    ensures Claims(r) + Budget(c, Final(c, r)) <=
            Budget(c, Start(r)) + Brought(c, r) + Interruptions(c, r)
  {
    if r.Then? {
      ClaimsArePaidFor(c, r.past);
      ExclusiveStep(c, Final(c, r.past), r.event);
      BudgetStep(c, Final(c, r.past), r.event);
    }
  }

  /** No crash, replay or reconciliation. */
  ghost predicate Undisturbed(r: Run) {
    r.From? || (Undisturbed(r.past) && !r.event.Crash? && !r.event.Replay? && !r.event.Reconcile?)
  }

  lemma Product(a: nat, b: nat)
    ensures a * (b + 1) == a * b + a
  {
  }

  lemma {:induction false} FreshBudget(c: Config, r: Run)
    requires Execution(c, r) && Undisturbed(r)
    ensures Brought(c, r) == c.maxAttempts * |Final(c, r).rows| && Interruptions(c, r) == 0
  {
    if r.Then? {
      var s, e := Final(c, r.past), r.event;
      assert Start(r.past) == Start(r);
      FreshBudget(c, r.past);
      ExclusiveAlways(c, r.past);
      TableGrows(c, s, e);
      Product(c.maxAttempts, |s.rows|);
    }
  }

  lemma UpdatedSize(rows: Rows, k: string, row: Row)
    ensures |rows[k := row]| == |rows| + Count(k !in rows)
  {
    assert rows[k := row].Keys == rows.Keys + {k};
  }

  lemma TableGrows(c: Config, s: State, e: Event)
    requires Exclusive(s) && Enabled(c, s, e) && !e.Replay? && !e.Reconcile?
    ensures |Next(c, s, e).rows| == |s.rows| + Count(BringsBudget(s, e))
  {
    var n, t := Next(c, s, e), Touched(s, e);
    OneRowTouched(c, s, e);
    if t.Some? {
      UpdatedSize(s.rows, t.value, n.rows[t.value]);
    }
  }

  /** N deliveries, undisturbed, are claimed at most N * maxAttempts times in all. */
  lemma UndisturbedClaims(c: Config, r: Run)
    requires Execution(c, r) && Undisturbed(r)
    ensures Claims(r) + Total(c, Final(c, r).rows) <= c.maxAttempts * |Final(c, r).rows|
  {
    ClaimsArePaidFor(c, r);
    FreshBudget(c, r);
  }

  /** Nothing waits exactly when nothing weighs, once the worker is idle. */
  lemma {:induction false} SettledExactly(c: Config, rows: Rows)
    requires forall k | k in rows :: rows[k].status != Processing
    ensures Total(c, rows) == 0 <==> forall k | k in rows :: rows[k].status == Completed || rows[k].status == Failed
    decreases |rows|
  {
    if rows != map[] {
      var k := Pick(rows);
      assert (rows - {k}).Keys == rows.Keys - {k};
      SettledExactly(c, rows - {k});
      assert forall j | j in rows :: j == k || j in rows - {k};
    }
  }

  lemma {:induction false} SomeOldestDue(rows: Rows, now: int, k: string)
    requires k in rows && Due(rows[k], now)
    ensures exists j :: OldestDue(rows, j, now)
    decreases set j | j in rows && Due(rows[j], now) && rows[j].created < rows[k].created
  {
    if j :| j in rows && Due(rows[j], now) && rows[j].created < rows[k].created {
      var earlier := set i | i in rows && Due(rows[i], now) && rows[i].created < rows[k].created;
      assert j in earlier;
      SomeOldestDue(rows, now, j);
    } else {
      assert OldestDue(rows, k, now);
    }
  }

  /**
   An idle worker either has nothing left to do, or can claim again once enough time has passed,
   exactly unless it has stopped; with ClaimsArePaidFor, undisturbed processing reaches quiescence.
   */
  lemma QuietOrClaims(c: Config, s: State)
    requires Exclusive(s) && s.pc.Idle? && Total(c, s.rows) != 0
    ensures (exists now, k :: now >= s.now && Enabled(c, s.(now := now), Claim(k))) <==> !s.stopped
  {
    if !s.stopped {
      SettledExactly(c, s.rows);
      var k :| k in s.rows && s.rows[k].status != Completed && s.rows[k].status != Failed;
      var now := if s.rows[k].next.Some? then Max(s.now, s.rows[k].next.value) else s.now;
      SomeOldestDue(s.rows, now, k);
      var j :| OldestDue(s.rows, j, now);
      assert Enabled(c, s.(now := now), Claim(j));
    }
  }

  // ---- Audit lines that stop the worker.

  /** The audit line of a recorded failure, or of a recovery, could not be written. */
  predicate LosesLine(e: Event) {
    e == Settle(false) || e == Crash(false)
  }

  ghost function LostLines(r: Run): nat {
    if r.From? then 0 else LostLines(r.past) + Count(LosesLine(r.event))
  }

  lemma StoppedStep(c: Config, s: State, e: Event)
    requires Exclusive(s) && Enabled(c, s, e)
    ensures Next(c, s, e).stopped ==> s.stopped || LosesLine(e)
    ensures s.stopped && !e.Crash? ==> Next(c, s, e).stopped && !e.Claim?
  {
    match PhaseOf(e)
    case Queueing => assert Next(c, s, e) == QueueingNext(s, e);
    case Closing => assert Next(c, s, e) == ClosingNext(c, s, e);
    case _ => Frame(c, s, e);
  }

  /** A worker that has stopped claims nothing until the service is started again. */
  lemma {:induction false} StoppedUntilRestart(c: Config, r: Run)
    requires Valid(c, r) && Exclusive(Start(r)) && Start(r).stopped && CrashFree(r)
    ensures Exclusive(Final(c, r)) && Final(c, r).stopped && Claims(r) == 0
  {
    if r.Then? {
      StoppedUntilRestart(c, r.past);
      ExclusiveStep(c, Final(c, r.past), r.event);
      StoppedStep(c, Final(c, r.past), r.event);
    }
  }

  /** A history from s without a restart, in which a delivery is claimed. */
  ghost predicate ClaimsBy(c: Config, s: State, r: Run) {
    Valid(c, r) && Start(r) == s && CrashFree(r) && Claims(r) > 0
  }

  /** If the worker is idle and deliveries wait, it can still claim one without a restart. */
  ghost predicate CanGoOn(c: Config, s: State) {
    s.pc.Idle? && Total(c, s.rows) != 0 ==> exists r :: ClaimsBy(c, s, r)
  }

  /** Waiting deliveries are claimed again, without a restart, if and only if the worker has not stopped. */
  lemma ClaimableExactly(c: Config, s: State)
    requires Exclusive(s) && s.pc.Idle? && Total(c, s.rows) != 0
    ensures CanGoOn(c, s) <==> !s.stopped
  {
    if s.stopped {
      if r :| ClaimsBy(c, s, r) {
        StoppedUntilRestart(c, r);
      }
    } else {
      QuietOrClaims(c, s);
      var now, k :| now >= s.now && Enabled(c, s.(now := now), Claim(k));
      var p := Then(From(s), Clock(now));
      Extend(c, From(s), Clock(now));
      Extend(c, p, Claim(k));
      assert CrashFree(p);
      assert ClaimsBy(c, s, Then(p, Claim(k)));
    }
  }

  /** As long as those lines are written, the worker goes on. */
  lemma {:induction false} LoggedGoesOn(c: Config, r: Run)
    requires Execution(c, r) && LostLines(r) == 0
    ensures Exclusive(Final(c, r)) && !Final(c, r).stopped && CanGoOn(c, Final(c, r))
  {
    if r.Then? {
      assert Start(r.past) == Start(r);
      LoggedGoesOn(c, r.past);
      ExclusiveStep(c, Final(c, r.past), r.event);
      StoppedStep(c, Final(c, r.past), r.event);
    }
    if Final(c, r).pc.Idle? && Total(c, Final(c, r).rows) != 0 {
      ClaimableExactly(c, Final(c, r));
    }
  }

  // ---- Backoff.

  ghost predicate MonotoneClock(c: Config, r: Run) {
    r.From? || (MonotoneClock(c, r.past) && (r.event.Clock? ==> r.event.now >= Final(c, r.past).now))
  }

  /** When key k was claimed since it was last requeued, or at all. */
  ghost function ClaimTimes(c: Config, r: Run, k: string): seq<int> {
    if r.From? || Requeues(r.event, k) then []
    else ClaimTimes(c, r.past, k) + if r.event == Claim(k) then [Final(c, r.past).now] else []
  }

  /** Each claim comes at least a doubled backoff after the one before. */
  ghost predicate Spaced(c: Config, times: seq<int>) {
    forall i | 0 <= i < |times| - 1 :: times[i + 1] >= times[i] + Doubled(c.backoff, i)
  }

  ghost predicate Scheduled(c: Config, row: Row, now: int, times: seq<int>) {
    && Spaced(c, times)
    && |times| == row.attempts
    && (row.status == Queued <==> times == [])
    && (times != [] ==> times[|times| - 1] <= now)
    && (row.status == Retrying ==>
          row.next.Some? && row.next.value >= times[|times| - 1] + Doubled(c.backoff, |times| - 1))
  }

  lemma ScheduledStep(c: Config, s: State, e: Event, k: string, row: Row, now: int, times: seq<int>)
    requires k in s.rows && Scheduled(c, s.rows[k], s.now, times) && row == RowAfter(c, s, e, k)
    requires now >= s.now && !e.Crash?
    requires e == Claim(k) ==> Due(s.rows[k], s.now)
    requires e.Settle? && s.pc.Failing? && s.pc.key == k ==>
               s.rows[k].status == Processing || s.rows[k].status == Completed
    requires e.Finish? && s.pc.Finishing? && s.pc.key == k ==> s.rows[k].status == Processing
    ensures Scheduled(c, row, now, if Requeues(e, k) then [] else times + if e == Claim(k) then [s.now] else [])
  {
  }

  lemma {:induction false} NoTimesBeforeIntake(c: Config, r: Run, k: string)
    requires Execution(c, r) && k !in Final(c, r).rows
    ensures ClaimTimes(c, r, k) == []
  {
    if r.Then? {
      assert Start(r.past) == Start(r);
      ExclusiveAlways(c, r.past);
      RowsStay(c, Final(c, r.past), r.event);
      NoTimesBeforeIntake(c, r.past, k);
      NewRowsAreFresh(c, Final(c, r.past), r.event, k);
    }
  }

  lemma NowAdvances(c: Config, s: State, e: Event)
    requires Enabled(c, s, e)
    ensures Next(c, s, e).now == if e.Clock? then e.now else s.now
  {
    if PhaseOf(e) == Outside {
      assert Next(c, s, e) == OutsideNext(s, e);
    } else {
      Frame(c, s, e);
    }
  }

  /**
   With a monotone clock and no crash, the claims of an epoch are spaced by the backoff doubled
   after every failure.
   */
  lemma {:induction false} ClaimsAreSpaced(c: Config, r: Run, k: string)
    requires Execution(c, r) && MonotoneClock(c, r) && CrashFree(r) && k in Final(c, r).rows
    ensures Scheduled(c, Final(c, r).rows[k], Final(c, r).now, ClaimTimes(c, r, k))
  {
    if r.Then? {
      var s := Final(c, r.past);
      assert Start(r.past) == Start(r);
      ExclusiveAlways(c, r.past);
      NowAdvances(c, s, r.event);
      if k in s.rows {
        ClaimsAreSpaced(c, r.past, k);
        RowStep(c, s, r.event, k);
        ScheduledStep(c, s, r.event, k, Final(c, r).rows[k], Final(c, r).now, ClaimTimes(c, r.past, k));
      } else {
        NoTimesBeforeIntake(c, r.past, k);
        NewRowsAreFresh(c, s, r.event, k);
      }
    }
  }

  // ---- The sum of the delays.

  ghost predicate SchedulesRetry(c: Config, s: State, e: Event, k: string) {
    e.Settle? && s.pc.Failing? && s.pc.key == k && k in s.rows && s.rows[k].attempts < c.maxAttempts
  }

  /** The delays scheduled for key k since it was last requeued, or at all. */
  ghost function Delays(c: Config, r: Run, k: string): int {
    if r.From? || Requeues(r.event, k) then 0
    else
      var s := Final(c, r.past);
      Delays(c, r.past, k) + if SchedulesRetry(c, s, r.event, k) then RetryDelay(c.backoff, s.rows[k].attempts) else 0
  }

  /** Failures of this row that scheduled a retry. */
  function Retried(row: Row): nat {
    if row.status == Queued || row.status == Retrying || row.attempts == 0 then row.attempts else row.attempts - 1
  }

  /** The first n delays of an epoch. */
  function DelaySum(backoff: nat, n: nat): (sum: int) {
    if n == 0 then 0 else DelaySum(backoff, n - 1) + RetryDelay(backoff, n)
  }

  lemma {:induction false} DelaySumClosed(backoff: nat, n: nat)
    ensures DelaySum(backoff, n) == Doubled(backoff, n) - backoff
  {
    if n > 0 {
      DelaySumClosed(backoff, n - 1);
    }
  }

  lemma {:induction false} DelaySumGrows(backoff: nat, a: nat, b: nat)
    requires a <= b
    ensures DelaySum(backoff, a) <= DelaySum(backoff, b)
  {
    if a < b {
      DelaySumGrows(backoff, a, b - 1);
      DoubledNotNegative(backoff, b - 1);
    }
  }

  lemma {:induction false} NoDelaysBeforeIntake(c: Config, r: Run, k: string)
    requires Execution(c, r) && k !in Final(c, r).rows
    ensures Delays(c, r, k) == 0
  {
    if r.Then? {
      assert Start(r.past) == Start(r);
      ExclusiveAlways(c, r.past);
      RowsStay(c, Final(c, r.past), r.event);
      NoDelaysBeforeIntake(c, r.past, k);
      NewRowsAreFresh(c, Final(c, r.past), r.event, k);
    }
  }

  lemma DelayStep(c: Config, s: State, e: Event, k: string, row: Row)
    requires k in s.rows && row == RowAfter(c, s, e, k) && !e.Crash?
    requires s.rows[k].status == Processing || s.rows[k].status == Completed ==> s.rows[k].attempts >= 1
    requires e == Claim(k) ==> Waiting(s.rows[k])
    requires e.Settle? && s.pc.Failing? && s.pc.key == k ==>
               s.rows[k].status == Processing || s.rows[k].status == Completed
    requires e.Finish? && s.pc.Finishing? && s.pc.key == k ==> s.rows[k].status == Processing
    ensures Retried(row) == if Requeues(e, k) then 0 else Retried(s.rows[k]) + Count(SchedulesRetry(c, s, e, k))
    ensures SchedulesRetry(c, s, e, k) ==> Retried(row) == s.rows[k].attempts >= 1
    ensures row.status == Processing || row.status == Completed ==> row.attempts >= 1
  {
  }

  lemma SumStep(c: Config, s: State, e: Event, k: string, row: Row)
    requires k in s.rows
    requires Retried(row) == if Requeues(e, k) then 0 else Retried(s.rows[k]) + Count(SchedulesRetry(c, s, e, k))
    requires SchedulesRetry(c, s, e, k) ==> Retried(row) == s.rows[k].attempts >= 1
    requires !(Requeues(e, k) && SchedulesRetry(c, s, e, k))
    ensures DelaySum(c.backoff, Retried(row)) ==
            if Requeues(e, k) then 0
            else DelaySum(c.backoff, Retried(s.rows[k])) +
                 if SchedulesRetry(c, s, e, k) then RetryDelay(c.backoff, s.rows[k].attempts) else 0
  {
  }

  ghost predicate AddedUp(c: Config, row: Row, delays: int) {
    && (row.status == Processing || row.status == Completed ==> row.attempts >= 1)
    && delays == DelaySum(c.backoff, Retried(row))
  }

  lemma DelaysAddUpStep(c: Config, r: Run, k: string)
    requires r.Then? && Execution(c, r) && !r.event.Crash? && Exclusive(Final(c, r.past))
    requires k in Final(c, r.past).rows && AddedUp(c, Final(c, r.past).rows[k], Delays(c, r.past, k))
    ensures k in Final(c, r).rows && AddedUp(c, Final(c, r).rows[k], Delays(c, r, k))
  {
    var s, e := Final(c, r.past), r.event;
    RowStep(c, s, e, k);
    DelayStep(c, s, e, k, Final(c, r).rows[k]);
    SumStep(c, s, e, k, Final(c, r).rows[k]);
  }

  /** Without crashes the delays of an epoch double, and add up to less than a fixed bound. */
  lemma {:induction false} DelaysAddUp(c: Config, r: Run, k: string)
    requires Execution(c, r) && CrashFree(r) && k in Final(c, r).rows
    ensures AddedUp(c, Final(c, r).rows[k], Delays(c, r, k))
  {
    if r.Then? {
      assert Start(r.past) == Start(r);
      ExclusiveAlways(c, r.past);
      if k in Final(c, r.past).rows {
        DelaysAddUp(c, r.past, k);
        DelaysAddUpStep(c, r, k);
      } else {
        NoDelaysBeforeIntake(c, r.past, k);
        NewRowsAreFresh(c, Final(c, r.past), r.event, k);
      }
    }
  }

  lemma {:induction false} NoRecoveries(c: Config, r: Run, k: string)
    requires CrashFree(r)
    ensures EpochRecoveries(c, r, k) == 0
  {
    if r.Then? {
      NoRecoveries(c, r.past, k);
    }
  }

  lemma RetriedAtMost(c: Config, row: Row)
    requires row.attempts + Count(Waiting(row)) <= c.maxAttempts
    ensures Retried(row) <= c.maxAttempts - 1
  {
  }

  lemma DelaysWithinSum(c: Config, r: Run, k: string)
    requires Execution(c, r) && CrashFree(r) && k in Final(c, r).rows
    ensures Delays(c, r, k) <= DelaySum(c.backoff, c.maxAttempts - 1)
  {
    var row := Final(c, r).rows[k];
    DelaysAddUp(c, r, k);
    AttemptsCountClaims(c, r, k);
    NoRecoveries(c, r, k);
    RetriedAtMost(c, row);
    DelaySumGrows(c.backoff, Retried(row), c.maxAttempts - 1);
  }

  lemma SumClosed(c: Config, delays: int)
    requires delays <= DelaySum(c.backoff, c.maxAttempts - 1)
    ensures delays <= c.backoff * (Pow2(c.maxAttempts - 1) - 1)
  {
    DelaySumClosed(c.backoff, c.maxAttempts - 1);
    DoubledIsProduct(c.backoff, c.maxAttempts - 1);
  }

  lemma DelaysBounded(c: Config, r: Run, k: string)
    requires Execution(c, r) && CrashFree(r) && k in Final(c, r).rows
    ensures Delays(c, r, k) <= c.backoff * (Pow2(c.maxAttempts - 1) - 1)
  {
    DelaysWithinSum(c, r, k);
    SumClosed(c, Delays(c, r, k));
  }
}
