/**
 The delivery queue and the handoff reservations as tables, and what each transaction of
 src/soc_integration/deliveries.py does to them. Times are microseconds.
 */
module Deliveries {
  import opened Basics
  import opened Alerts

  datatype Status = Queued | Processing | Retrying | Completed | Failed

  datatype Disposition = Created | Reused | Pending

  /** The stored result, as far as the protocol depends on it. */
  datatype Outcome = Outcome(
    incident: Option<CaseId>, disposition: Disposition, scenario: Scenario, execution: Option<string>)

  datatype Row = Row(
    alert: Alert, trace: string, status: Status, attempts: nat, next: Option<int>,
    lastError: Option<string>, result: Option<Outcome>, created: int, updated: int)

  datatype Handoff = Handoff(completed: bool, execution: Option<string>)

  type Rows = map<string, Row>
  type Handoffs = map<string, Handoff>

  datatype EnqueueAnswer = New | Duplicate | Conflict

  function EnqueueAnswerFor(rows: Rows, key: string, alert: Alert): EnqueueAnswer {
    if key !in rows then New else if rows[key].alert == alert then Duplicate else Conflict
  }

  function FreshRow(alert: Alert, trace: string, now: int): Row {
    Row(alert, trace, Queued, 0, Some(now), None, None, now, now)
  }

  function Enqueued(rows: Rows, key: string, alert: Alert, trace: string, now: int): Rows {
    if key in rows then rows else rows[key := FreshRow(alert, trace, now)]
  }

  predicate Waiting(r: Row) {
    r.status == Queued || r.status == Retrying
  }

  predicate Due(r: Row, now: int) {
    Waiting(r) && (r.next.None? || r.next.value <= now)
  }

  /** `key` is a due row, and none due was created earlier. */
  predicate OldestDue(rows: Rows, key: string, now: int) {
    && key in rows && Due(rows[key], now)
    && forall k | k in rows && Due(rows[k], now) :: rows[key].created <= rows[k].created
  }

  function Claimed(r: Row, now: int): Row {
    r.(status := Processing, attempts := r.attempts + 1, updated := now)
  }

  function Finished(r: Row, result: Outcome, now: int): Row {
    r.(status := Completed, result := Some(result), lastError := None, next := None, updated := now)
  }

  function FailedOnce(r: Row, error: string, maxAttempts: int, delay: int, now: int): Row {
    var noted := r.(lastError := Some(if |error| <= 200 then error else error[..200]), updated := now);
    if r.attempts >= maxAttempts then noted.(status := Failed, next := None)
    else noted.(status := Retrying, next := Some(now + delay))
  }

  function Recovered(r: Row, now: int): Row {
    if r.status != Processing then r
    else r.(status := Retrying, next := Some(now), lastError := Some("worker_restart"), updated := now)
  }

  function AllRecovered(rows: Rows, now: int): Rows {
    map k | k in rows :: Recovered(rows[k], now)
  }

  function Requeued(r: Row, now: int): Row {
    r.(status := Queued, attempts := 0, next := Some(now), lastError := None, updated := now)
  }

  /** A number doubled so many times. */
  function Doubled(a: int, times: nat): int {
    if times == 0 then a else 2 * Doubled(a, times - 1)
  }

  lemma {:induction false} DoubledNotNegative(backoff: nat, times: nat)
    ensures Doubled(backoff, times) >= 0
  {
    if times > 0 {
      DoubledNotNegative(backoff, times - 1);
    }
  }

  lemma {:induction false} DoubledIsProduct(a: int, times: nat)
    ensures Doubled(a, times) == a * Pow2(times)
  {
    if times > 0 {
      DoubledIsProduct(a, times - 1);
      var p: int := Pow2(times - 1);
      assert 2 * (a * p) == a * (2 * p);
    }
  }

  /** The pause before the next attempt: the backoff after the first one, and twice the last one after every other. */
  function RetryDelay(backoff: int, attempts: nat): int {
    Doubled(backoff, if attempts <= 1 then 0 else attempts - 1)
  }

  datatype Reservation = Reservation(reserved: bool, prior: Option<string>)

  function ReservationFor(handoffs: Handoffs, trace: string): Reservation {
    if trace !in handoffs then Reservation(true, None)
    else if handoffs[trace].execution == Some("") then Reservation(false, None)
    else Reservation(false, handoffs[trace].execution)
  }

  function Reserved(handoffs: Handoffs, trace: string): Handoffs {
    if trace in handoffs then handoffs else handoffs[trace := Handoff(false, None)]
  }

  function HandoffCompleted(handoffs: Handoffs, trace: string, execution: Option<string>): Handoffs {
    if trace in handoffs then handoffs[trace := Handoff(true, execution)] else handoffs
  }

  function Released(handoffs: Handoffs, trace: string): Handoffs {
    if trace in handoffs && !handoffs[trace].completed then handoffs - {trace} else handoffs
  }

  /** An analyst's finding about an ambiguous handoff. */
  datatype Finding = Retry | Observed(execution: Option<string>)

  datatype ReconcileAnswer = Resolved(handoffs: Handoffs) | Missing | AlreadyCompleted | Invalid

  function Reconciled(handoffs: Handoffs, trace: string, finding: Finding): ReconcileAnswer {
    if trace !in handoffs then Missing
    else if handoffs[trace].completed then
      if finding.Observed? && handoffs[trace].execution == finding.execution then Resolved(handoffs)
      else AlreadyCompleted
    else if finding.Retry? then Resolved(handoffs - {trace})
    else if finding.execution.Some? && finding.execution.value != ""
    then Resolved(handoffs[trace := Handoff(true, finding.execution)])
    else Invalid
  }
}
