/**
 The endpoints that act on deliveries while the worker runs (src/soc_integration/app.py). An
 endpoint that succeeds is one step of the protocol; one that refuses leaves everything alone.
 */
module Gateways {
  import opened Basics
  import opened Alerts
  import opened Deliveries
  import opened Protocol
  import opened Invariants
  import opened Lifecycle
  import opened Timestamps
  import opened DeliveryStores

  /** What the endpoints show of a delivery. */
  datatype DeliveryStatus = DeliveryStatus(
    key: string, alertId: string, trace: string, status: Status, attempts: nat, lastError: Option<string>,
    result: Option<Outcome>)

  function StatusOf(key: string, row: Row): DeliveryStatus {
    DeliveryStatus(key, row.alert.id, row.trace, row.status, row.attempts, row.lastError, row.result)
  }

  /** An HTTP answer: a code, and a body on success. */
  datatype Reply = Reply(code: nat, body: Option<DeliveryStatus>)

  datatype Receipt = Receipt(code: nat, duplicate: bool, trace: string)

  datatype Reported = ReportsRetry | ReportsCompleted

  /** The body of a reconciliation request; the note of at least eight characters is only logged. */
  datatype Reconciliation = Reconciliation(outcome: Reported, execution: Option<string>, note: string)

  /** The validation of that body: lengths, and an execution exactly for a completed handoff. */
  predicate WellFormed(r: Reconciliation) {
    && (r.execution.Some? ==> 1 <= |r.execution.value| <= 128)
    && 8 <= |r.note| <= 1000
    && (r.outcome.ReportsCompleted? <==> r.execution.Some?)
  }

  function FindingOf(r: Reconciliation): Finding {
    if r.outcome.ReportsRetry? then Retry else Observed(r.execution)
  }

  /** What the service shows of a key. */
  function Shown(rows: Rows, key: string): Reply {
    if key in rows then Reply(200, Some(StatusOf(key, rows[key]))) else Reply(404, None)
  }

  /**
   A key that is shown stays known, for the same alert and trace; what is shown of a completed
   delivery is, with a webhook, the execution of the completed handoff, and it is final once the
   worker has let go of the delivery.
   */
  lemma ShownForGood(c: Config, r: Run, later: Run, key: string)
    requires Execution(c, r) && AdmissibleRun(c, r) && Shown(Final(c, r).rows, key).code == 200
    requires Valid(c, later) && Start(later) == Final(c, r)
    ensures var a, b := Shown(Final(c, r).rows, key).body, Shown(Final(c, later).rows, key).body;
      && a.Some? && b.Some? && b.value.alertId == a.value.alertId && b.value.trace == a.value.trace
      && (a.value.status == Completed ==> a.value.result.Some?)
      && (a.value.status == Completed && LetGo(Final(c, r), key) ==> b == a)
      && (a.value.status == Completed && HasWebhook(c, Final(c, r).rows[key]) ==>
            a.value.trace in Final(c, r).handoffs
            && Final(c, r).handoffs[a.value.trace] == Handoff(true, a.value.result.value.execution))
  {
    InvAlways(c, r);
    RowsAreKept(c, later, key);
    if Final(c, r).rows[key].status == Completed && LetGo(Final(c, r), key) {
      CompletedStays(c, later, key);
    }
    HandoffAgreement(c, r);
  }

  class Gateway {
    const c: Config
    const store: DeliveryStore

    constructor (c: Config, store: DeliveryStore)
      ensures this.c == c && this.store == store
    {
      this.c, this.store := c, store;
    }

    /** The state of the protocol, of which the endpoints see only the delivery store. */
    ghost function View(rest: State): State
      reads store
    {
      rest.(rows := store.rows, handoffs := store.handoffs)
    }

    /** Intake: a new key is queued, the same alert again is a duplicate, another one is refused. */
    method ReceiveAlert(key: string, alert: Alert, now: Instant, ghost rest: State) returns (r: Receipt)
      requires store.Valid() && rest.now == now
      modifies store
      ensures store.Valid()
      ensures r.code == 422 <==> !(8 <= |key| <= 128)
      ensures store.handoffs == old(store.handoffs)
      ensures store.rows == if 8 <= |key| <= 128 && key !in old(store.rows)
                            then old(store.rows)[key :=
                              Row(alert, key + ":" + alert.id, Queued, 0, Some(now), None, None, now, now)]
                            else old(store.rows)
      ensures r.code == 409 <==> 8 <= |key| <= 128 && key in old(store.rows) && old(store.rows)[key].alert != alert
      ensures r.code == 422 || r.code == 409 || r.code == 202
      ensures View(rest) == if r.code == 422 then old(View(rest)) else Next(c, old(View(rest)), Intake(key, alert))
      ensures r.code == 202 ==>
                && key in store.rows && store.rows[key].alert == alert
                && (r.duplicate <==> key in old(store.rows))
                && r.trace == key + ":" + alert.id
    {
      if |key| < 8 || |key| > 128 {
        return Receipt(422, false, "");
      }
      var trace := TraceOf(key, alert.id);
      var answer := store.Enqueue(key, alert, trace, now);
      if answer == Conflict {
        return Receipt(409, false, "");
      }
      r := Receipt(202, answer == Duplicate, trace);
    }

    method GetDelivery(key: string) returns (r: Reply)
      ensures r == Shown(store.rows, key)
      ensures r.code == 200 <==> key in store.rows
      ensures r.code == 404 <==> key !in store.rows
      ensures key in store.rows ==>
                && r.body.Some? && var row := store.rows[key];
                && r.body.value.key == key && r.body.value.alertId == row.alert.id && r.body.value.trace == row.trace
                && r.body.value.status == row.status && r.body.value.attempts == row.attempts
                && r.body.value.lastError == row.lastError && r.body.value.result == row.result
    {
      r := if key in store.rows then Reply(200, Some(StatusOf(key, store.rows[key]))) else Reply(404, None);
    }

    /** An operator's replay: of failed deliveries only, unknown keys included in the refusal. */
    method ReplayDelivery(key: string, now: Instant, ghost rest: State) returns (r: Reply)
      requires store.Valid() && rest.now == now
      modifies store
      ensures store.Valid()
      ensures r.code == if key in old(store.rows) && old(store.rows)[key].status == Failed then 200 else 409
      ensures store.handoffs == old(store.handoffs)
      ensures store.rows == if r.code != 200 then old(store.rows) else old(store.rows)[key := old(store.rows)[key].(
                status := Queued, attempts := 0, next := Some(now), lastError := None, updated := now)]
      ensures View(rest) == if r.code == 200 then Next(c, old(View(rest)), Replay(key)) else old(View(rest))
      ensures r.code == 200 ==>
                r.body.Some? && r.body.value.key == key && r.body.value.status == Queued && r.body.value.attempts == 0
    {
      var requeued := store.Requeue(key, now);
      if !requeued {
        return Reply(409, None);
      }
      r := GetDelivery(key);
    }

    /**
     An analyst's finding about an ambiguous handoff. Nothing happens between its two updates, so
     the last check can only succeed and the endpoint is one step.
     */
    method ReconcileHandoff(key: string, body: Reconciliation, now: Instant, ghost rest: State) returns (r: Reply)
      requires store.Valid() && rest.now == now
      modifies store
      ensures store.Valid()
      ensures r.code in {200, 404, 409, 422}
      ensures r.code == 422 <==>
                || !(8 <= |body.note| <= 1000)
                || (body.execution.Some? && !(1 <= |body.execution.value| <= 128))
                || (body.outcome.ReportsCompleted? && body.execution.None?)
                || (body.outcome.ReportsRetry? && body.execution.Some?)
      ensures r.code == 404 ==>
                || key !in old(store.rows)
                || (old(store.rows)[key].status == Failed && old(store.rows)[key].trace !in old(store.handoffs))
      ensures key !in old(store.rows) ==> r.code in {404, 422}
      ensures key in old(store.rows) && old(store.rows)[key].status != Failed ==> r.code in {409, 422}
      ensures key in old(store.rows) && old(store.rows)[key].status == Failed && r.code != 422 ==>
                var t := old(store.rows)[key].trace;
                if t !in old(store.handoffs) then r.code == 404
                else if !old(store.handoffs)[t].completed then r.code == 200
                else r.code == 200 <==>
                     body.outcome.ReportsCompleted? && old(store.handoffs)[t].execution == body.execution
      ensures r.code != 200 ==> store.rows == old(store.rows) && store.handoffs == old(store.handoffs)
      ensures r.code == 200 ==>
                && key in old(store.rows)
                && store.rows == old(store.rows)[key := old(store.rows)[key].(
                     status := Queued, attempts := 0, next := Some(now), lastError := None, updated := now)]
                && var t := old(store.rows)[key].trace;
                && (body.outcome.ReportsRetry? ==> store.handoffs == old(store.handoffs) - {t})
                && (body.outcome.ReportsCompleted? ==>
                      store.handoffs == old(store.handoffs)[t := Handoff(true, body.execution)])
      ensures View(rest) == if r.code == 200 then Next(c, old(View(rest)), Reconcile(key, FindingOf(body)))
                            else old(View(rest))
    {
      if !WellFormed(body) {
        return Reply(422, None);
      }
      if key !in store.rows {
        return Reply(404, None);
      }
      var row := store.rows[key];
      if row.status != Failed {
        return Reply(409, None);
      }
      var answer := store.ReconcileHandoff(row.trace, FindingOf(body));
      if answer.Missing? {
        return Reply(404, None);
      }
      if !answer.Resolved? {
        return Reply(409, None);
      }
      var requeued := store.Requeue(key, now);
      if !requeued {
        assert false;
      }
      r := GetDelivery(key);
    }
  }
}
