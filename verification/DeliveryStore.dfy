/** The delivery store as an object: its two tables, updated in place by one transaction a method. */
module DeliveryStores {
  import opened Basics
  import opened Alerts
  import opened Deliveries
  import opened Timestamps
  import Text

  /** The stored times of this row can be printed. */
  predicate Printable(r: Row) {
    0 <= r.created < END && (r.next.Some? ==> 0 <= r.next.value < END)
  }

  /** The condition of the claiming query: statuses, then texts. */
  predicate DueByText(r: Row, now: Instant)
    requires Printable(r)
  {
    Waiting(r) && (r.next.None? || Text.LessEq(Utc(r.next.value), Utc(now)))
  }

  lemma DueByTextIsDue(r: Row, now: Instant)
    requires Printable(r)
    ensures DueByText(r, now) <==> Due(r, now)
  {
    if r.next.Some? {
      TextOrderIsTimeOrder(now, r.next.value);
    }
  }

  /** The order of the claiming query. */
  predicate CreatedBefore(a: Row, b: Row)
    requires Printable(a) && Printable(b)
    ensures CreatedBefore(a, b) <==> a.created < b.created
  {
    TextOrderIsTimeOrder(a.created, b.created);
    Text.Less(Utc(a.created), Utc(b.created))
  }

  ghost function WithStatus(rows: Rows, status: Status): set<string> {
    set k | k in rows && rows[k].status == status
  }

  ghost predicate Unfinished(r: Row) {
    Waiting(r) || r.status == Processing
  }

  class DeliveryStore {
    var rows: Rows
    var handoffs: Handoffs

    ghost predicate Valid()
      reads this
    {
      forall k | k in rows :: Printable(rows[k])
    }

    constructor ()
      ensures Valid() && rows == map[] && handoffs == map[]
    {
      rows, handoffs := map[], map[];
    }

    method Enqueue(key: string, alert: Alert, trace: string, now: Instant) returns (answer: EnqueueAnswer)
      requires Valid()
      modifies this`rows
      ensures Valid()
      ensures answer == New <==> key !in old(rows)
      ensures answer == Duplicate <==> key in old(rows) && old(rows)[key].alert == alert
      ensures key in old(rows) ==> rows == old(rows)
      ensures key !in old(rows) ==>
                rows == old(rows)[key := Row(alert, trace, Queued, 0, Some(now), None, None, now, now)]
    {
      if key in rows {
        return if rows[key].alert == alert then Duplicate else Conflict;
      }
      rows := rows[key := Row(
        alert := alert, trace := trace, status := Queued, attempts := 0, next := Some(now),
        lastError := None, result := None, created := now, updated := now)];
      answer := New;
    }

    /**
     Claims a due row of least creation time. Rows are selected and ordered by the text of their
     times; that this selects by time is TextOrderIsTimeOrder.
     */
    method ClaimDue(now: Instant) returns (claimed: Option<string>)
      requires Valid()
      modifies this`rows
      ensures Valid()
      ensures claimed.Some? ==>
                && claimed.value in old(rows)
                && var row := old(rows)[claimed.value];
                && (row.status == Queued || row.status == Retrying) && (row.next.None? || row.next.value <= now)
                && rows == old(rows)[claimed.value :=
                     row.(status := Processing, attempts := row.attempts + 1, updated := now)]
      ensures forall k | k in old(rows) && (old(rows)[k].status == Queued || old(rows)[k].status == Retrying)
                && (old(rows)[k].next.None? || old(rows)[k].next.value <= now) ::
                claimed.Some? && old(rows)[claimed.value].created <= old(rows)[k].created
      ensures claimed.None? ==> rows == old(rows)
    {
      var todo := rows.Keys;
      claimed := None;
      while todo != {}
        invariant rows == old(rows) && todo <= rows.Keys
        invariant claimed.Some? ==> claimed.value in rows && Due(rows[claimed.value], now)
        invariant forall k | k in rows && k !in todo && Due(rows[k], now) ::
                    claimed.Some? && rows[claimed.value].created <= rows[k].created
        decreases todo
      {
        var k :| k in todo;
        todo := todo - {k};
        var row := rows[k];
        DueByTextIsDue(row, now);
        if DueByText(row, now) && (claimed.None? || CreatedBefore(row, rows[claimed.value])) {
          claimed := Some(k);
        }
      }
      if claimed.Some? {
        var row := rows[claimed.value];
        rows := rows[claimed.value := row.(status := Processing, attempts := row.attempts + 1, updated := now)];
      }
    }

    /** An update by key, so nothing happens to an unknown one. */
    method Complete(key: string, result: Outcome, now: Instant)
      requires Valid()
      modifies this`rows
      ensures Valid()
      ensures key !in old(rows) ==> rows == old(rows)
      ensures key in old(rows) ==>
                rows == old(rows)[key := old(rows)[key].(
                  status := Completed, result := Some(result), lastError := None, next := None, updated := now)]
    {
      if key in rows {
        rows := rows[key := rows[key].(
          status := Completed, result := Some(result), lastError := None, next := None, updated := now)];
      }
    }

    /** Records a failure; None stands for the KeyError of an unknown key. */
    method Fail(key: string, error: string, maxAttempts: int, delay: int, now: Instant) returns (status: Option<Status>)
      requires Valid() && (key in rows && rows[key].attempts < maxAttempts ==> 0 <= now + delay < END)
      modifies this`rows
      ensures Valid()
      ensures key !in old(rows) ==> status == None && rows == old(rows)
      ensures key in old(rows) ==>
                && var terminal := old(rows)[key].attempts >= maxAttempts;
                && status == Some(if terminal then Failed else Retrying)
                && rows == old(rows)[key := old(rows)[key].(
                     status := status.value, next := if terminal then None else Some(now + delay),
                     lastError := Some(if |error| <= 200 then error else error[..200]), updated := now)]
    {
      if key !in rows {
        return None;
      }
      var row := rows[key];
      var terminal := row.attempts >= maxAttempts;
      status := Some(if terminal then Failed else Retrying);
      rows := rows[key := row.(
        status := status.value, lastError := Some(if |error| > 200 then error[..200] else error),
        next := if terminal then None else Some(now + delay), updated := now)];
    }

    method RecoverProcessing(now: Instant) returns (recovered: nat)
      requires Valid()
      modifies this`rows
      ensures Valid() && rows.Keys == old(rows).Keys
      ensures forall k | k in old(rows) && old(rows)[k].status != Processing :: rows[k] == old(rows)[k]
      ensures forall k | k in old(rows) && old(rows)[k].status == Processing ::
                rows[k] == old(rows)[k].(
                  status := Retrying, next := Some(now), lastError := Some("worker_restart"), updated := now)
      ensures recovered == |WithStatus(old(rows), Processing)| && WithStatus(rows, Processing) == {}
    {
      recovered := |set k | k in rows && rows[k].status == Processing|;
      assert WithStatus(rows, Processing) == set k | k in rows && rows[k].status == Processing;
      rows := map k | k in rows :: if rows[k].status == Processing
        then rows[k].(status := Retrying, next := Some(now), lastError := Some("worker_restart"), updated := now)
        else rows[k];
    }

    method Requeue(key: string, now: Instant) returns (requeued: bool)
      requires Valid()
      modifies this`rows
      ensures Valid()
      ensures requeued <==> key in old(rows) && old(rows)[key].status == Failed
      ensures !requeued ==> rows == old(rows)
      ensures requeued ==>
                rows == old(rows)[key := old(rows)[key].(
                  status := Queued, attempts := 0, next := Some(now), lastError := None, updated := now)]
    {
      requeued := key in rows && rows[key].status == Failed;
      if requeued {
        rows := rows[key := rows[key].(
          status := Queued, attempts := 0, next := Some(now), lastError := None, updated := now)];
      }
    }

    /** How many rows there are of each status; absent means none. */
    method Counts() returns (counts: map<Status, nat>)
      ensures forall st :: (if st in counts then counts[st] else 0) == |WithStatus(rows, st)|
    {
      var todo := rows.Keys;
      counts := map[];
      ghost var seen: set<string> := {};
      assert forall st :: Among(seen, st) == {};
      while todo != {}
        invariant todo <= rows.Keys && seen == rows.Keys - todo
        invariant forall st :: (if st in counts then counts[st] else 0) == |Among(seen, st)|
        decreases todo
      {
        var k :| k in todo;
        var status := rows[k].status;
        assert Among(seen + {k}, status) == Among(seen, status) + {k};
        assert forall st | st != status :: Among(seen + {k}, st) == Among(seen, st);
        todo, seen := todo - {k}, seen + {k};
        counts := counts[status := (if status in counts then counts[status] else 0) + 1];
      }
      assert forall st :: Among(seen, st) == WithStatus(rows, st);
    }

    ghost function Among(keys: set<string>, status: Status): set<string>
      reads this
    {
      set k | k in keys && k in rows && rows[k].status == status
    }

    method ReserveHandoff(trace: string) returns (r: Reservation)
      modifies this`handoffs
      ensures r.reserved <==> trace !in old(handoffs)
      ensures r.reserved ==> r.prior == None && handoffs == old(handoffs)[trace := Handoff(false, None)]
      ensures !r.reserved ==> handoffs == old(handoffs)
      ensures !r.reserved ==>
                r.prior == if old(handoffs)[trace].execution == Some("") then None else old(handoffs)[trace].execution
    {
      if trace in handoffs {
        var prior := handoffs[trace].execution;
        return Reservation(false, if prior == Some("") then None else prior);
      }
      handoffs := handoffs[trace := Handoff(false, None)];
      r := Reservation(true, None);
    }

    method CompleteHandoff(trace: string, execution: Option<string>)
      modifies this`handoffs
      ensures trace in old(handoffs) ==> handoffs == old(handoffs)[trace := Handoff(true, execution)]
      ensures trace !in old(handoffs) ==> handoffs == old(handoffs)
    {
      if trace in handoffs {
        handoffs := handoffs[trace := Handoff(true, execution)];
      }
    }

    method ReleaseHandoff(trace: string)
      modifies this`handoffs
      ensures trace in old(handoffs) && !old(handoffs)[trace].completed ==> handoffs == old(handoffs) - {trace}
      ensures trace !in old(handoffs) || old(handoffs)[trace].completed ==> handoffs == old(handoffs)
    {
      if trace in handoffs && !handoffs[trace].completed {
        handoffs := handoffs - {trace};
      }
    }

    /** Resolves an ambiguous handoff, or answers why not and leaves everything as it was. */
    method ReconcileHandoff(trace: string, finding: Finding) returns (answer: ReconcileAnswer)
      modifies this`handoffs
      ensures answer.Missing? <==> trace !in old(handoffs)
      ensures trace in old(handoffs) && old(handoffs)[trace].completed ==>
                && handoffs == old(handoffs)
                && answer == if finding.Observed? && finding.execution == old(handoffs)[trace].execution
                             then Resolved(handoffs) else AlreadyCompleted
      ensures trace in old(handoffs) && !old(handoffs)[trace].completed ==>
                match finding
                case Retry => handoffs == old(handoffs) - {trace} && answer == Resolved(handoffs)
                case Observed(execution) =>
                  if execution.Some? && execution.value != ""
                  then handoffs == old(handoffs)[trace := Handoff(true, execution)] && answer == Resolved(handoffs)
                  else handoffs == old(handoffs) && answer == Invalid
      ensures trace !in old(handoffs) ==> handoffs == old(handoffs)
    {
      if trace !in handoffs {
        return Missing;
      }
      var row := handoffs[trace];
      if row.completed {
        return if finding.Observed? && row.execution == finding.execution then Resolved(handoffs) else AlreadyCompleted;
      }
      if finding.Retry? {
        handoffs := handoffs - {trace};
      } else if finding.execution.Some? && finding.execution.value != "" {
        handoffs := handoffs[trace := Handoff(true, finding.execution)];
      } else {
        return Invalid;
      }
      answer := Resolved(handoffs);
    }

    /** The age of the oldest unfinished delivery, never negative; zero if there is none. */
    method OldestPendingAge(now: Instant) returns (age: nat)
      requires Valid()
      ensures forall k | k in rows && Unfinished(rows[k]) :: now - rows[k].created <= age
      ensures age == 0 || exists k :: k in rows && Unfinished(rows[k]) && age == now - rows[k].created
    {
      var todo := rows.Keys;
      var oldest: Option<Instant> := None;
      while todo != {}
        invariant todo <= rows.Keys
        invariant oldest.Some? ==> exists k :: k in rows && Unfinished(rows[k]) && rows[k].created == oldest.value
        invariant forall k | k in rows && k !in todo && Unfinished(rows[k]) ::
                    oldest.Some? && oldest.value <= rows[k].created
        decreases todo
      {
        var k :| k in todo;
        todo := todo - {k};
        var row := rows[k];
        if Waiting(row) || row.status == Processing {
          if oldest.Some? {
            TextOrderIsTimeOrder(row.created, oldest.value);
          }
          if oldest.None? || Text.Less(Utc(row.created), Utc(oldest.value)) {
            oldest := Some(row.created);
          }
        }
      }
      age := if oldest.None? || now < oldest.value then 0 else now - oldest.value;
    }
  }

  ghost function WithAny(rows: Rows, statuses: set<Status>): set<string> {
    set k | k in rows && rows[k].status in statuses
  }

  lemma OneMoreStatus(rows: Rows, statuses: set<Status>, st: Status)
    requires st !in statuses
    ensures |WithAny(rows, statuses + {st})| == |WithAny(rows, statuses)| + |WithStatus(rows, st)|
  {
    assert WithAny(rows, statuses + {st}) == WithAny(rows, statuses) + WithStatus(rows, st);
  }

  /** The five counts add up to the number of accepted keys. */
  lemma CountsAddUp(rows: Rows)
    ensures |WithStatus(rows, Queued)| + |WithStatus(rows, Processing)| + |WithStatus(rows, Retrying)|
            + |WithStatus(rows, Completed)| + |WithStatus(rows, Failed)| == |rows|
  {
    assert WithAny(rows, {}) == {};
    OneMoreStatus(rows, {}, Queued);
    OneMoreStatus(rows, {} + {Queued}, Processing);
    OneMoreStatus(rows, {} + {Queued} + {Processing}, Retrying);
    OneMoreStatus(rows, {} + {Queued} + {Processing} + {Retrying}, Completed);
    OneMoreStatus(rows, {} + {Queued} + {Processing} + {Retrying} + {Completed}, Failed);
    assert WithAny(rows, {} + {Queued} + {Processing} + {Retrying} + {Completed} + {Failed}) == rows.Keys;
  }
}
