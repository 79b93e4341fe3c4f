/** internal/model/delivery_log.go: delivery log rows and the table that holds
    them. Times are nanoseconds. */
module DeliveryLogs {
  import opened Wrappers
  import opened Circuit

  type RowId = nat
  type EventId = nat

  datatype Status = PENDING | SUCCESS | FAILED

  datatype ErrorMessage = BuildingRequest | HttpRequest | HttpStatus(code: int)

  datatype DeliveryLog = DeliveryLog(
    id: RowId,
    eventID: EventId,
    endpointID: EndpointId,
    status: Status,
    attemptNumber: int,
    responseStatus: Option<int>,
    errorMessage: Option<ErrorMessage>,
    nextRetryAt: Option<int>)

  /** The WHERE clause of ListPendingRetries. */
  predicate Due(d: DeliveryLog, now: int) {
    d.status == PENDING && d.nextRetryAt.Some? && d.nextRetryAt.value <= now
  }

  /** The delivery_logs table as a map from primary key to row. */
  class DeliveryLogTable {
    var rows: map<RowId, DeliveryLog>

    ghost predicate Valid()
      reads this
    {
      forall id | id in rows :: rows[id].id == id
    }

    constructor ()
      ensures Valid() && rows == map[]
    {
      rows := map[];
    }

    /** `id` is the key the database draws; `fault` is a failed statement. A
        drawn key that is already taken violates the primary key. */
    method CreateDeliveryLog(d: DeliveryLog, id: RowId, fault: bool) returns (created: Option<DeliveryLog>)
      requires Valid()
      modifies this
      ensures Valid()
      ensures created.None? <==> fault || id in old(rows)
      ensures created.None? ==> rows == old(rows)
      ensures created.Some? ==>
                && created.value == d.(id := id)
                && rows == old(rows)[id := d.(id := id, responseStatus := None, errorMessage := None)]
    {
      if fault || id in rows {
        return None;
      }
      rows := rows[id := d.(id := id, responseStatus := None, errorMessage := None)];
      created := Some(d.(id := id));
    }

    /** What the UPDATE makes of a row: its key, event and endpoint stay. */
    static function Overwritten(row: DeliveryLog, d: DeliveryLog): DeliveryLog {
      d.(id := row.id, eventID := row.eventID, endpointID := row.endpointID)
    }

    /** The table after an UPDATE: the row of that key, if any, overwritten. */
    static function Updated(rows: map<RowId, DeliveryLog>, d: DeliveryLog, fault: bool): map<RowId, DeliveryLog> {
      if !fault && d.id in rows then rows[d.id := Overwritten(rows[d.id], d)] else rows
    }

    method UpdateDeliveryLog(d: DeliveryLog, fault: bool) returns (ok: bool)
      requires Valid()
      modifies this
      ensures Valid()
      ensures ok <==> !fault && d.id in old(rows)
      ensures rows == Updated(old(rows), d, fault) && rows.Keys == old(rows).Keys
      ensures forall id | id in rows && !(ok && id == d.id) :: rows[id] == old(rows)[id]
      ensures ok ==>
                var row, was := rows[d.id], old(rows)[d.id];
                && row.id == was.id && row.eventID == was.eventID && row.endpointID == was.endpointID
                && row.status == d.status && row.attemptNumber == d.attemptNumber
                && row.responseStatus == d.responseStatus && row.errorMessage == d.errorMessage
                && row.nextRetryAt == d.nextRetryAt
    {
      if fault || d.id !in rows {
        return false;
      }
      var row := rows[d.id];
      rows := rows[d.id := row.(status := d.status, attemptNumber := d.attemptNumber,
                                responseStatus := d.responseStatus, errorMessage := d.errorMessage,
                                nextRetryAt := d.nextRetryAt)];
      return true;
    }

    /** Exactly the due rows, each once, earliest retry first. */
    method ListPendingRetries(now: int) returns (logs: seq<DeliveryLog>)
      requires Valid()
      ensures forall d :: d in logs <==>
                && d.id in rows && rows[d.id] == d
                && d.status == PENDING && d.nextRetryAt.Some? && d.nextRetryAt.value <= now
      ensures forall i, j | 0 <= i < j < |logs| ::
                logs[i].id != logs[j].id && logs[i].nextRetryAt.value <= logs[j].nextRetryAt.value
    {
      logs := [];
      var pending := set id | id in rows && Due(rows[id], now);
      while pending != {}
        invariant forall id | id in pending :: id in rows && Due(rows[id], now)
        invariant forall id | id in rows && Due(rows[id], now) :: id in pending || rows[id] in logs
        invariant forall i | 0 <= i < |logs| :: logs[i].id in rows && rows[logs[i].id] == logs[i] && Due(logs[i], now)
        invariant forall i | 0 <= i < |logs| :: logs[i].id !in pending
        invariant logs != [] ==> forall id | id in pending :: RetryTime(logs[|logs| - 1]) <= RetryTime(rows[id])
        invariant Ordered(logs)
        decreases pending
      {
        EarliestExists(pending, rows);
        var id :| id in pending && forall k | k in pending :: RetryTime(rows[id]) <= RetryTime(rows[k]);
        OrderedAppend(logs, rows[id]);
        assert forall d | d in logs :: d in logs + [rows[id]];
        logs := logs + [rows[id]];
        pending := pending - {id};
      }
    }
  }

  function RetryTime(d: DeliveryLog): int {
    if d.nextRetryAt.Some? then d.nextRetryAt.value else 0
  }

  /** Distinct rows in order of their next retry. */
  ghost predicate Ordered(logs: seq<DeliveryLog>) {
    forall i, j | 0 <= i < j < |logs| :: logs[i].id != logs[j].id && RetryTime(logs[i]) <= RetryTime(logs[j])
  }

  lemma OrderedAppend(logs: seq<DeliveryLog>, d: DeliveryLog)
    requires Ordered(logs)
    requires forall i | 0 <= i < |logs| :: logs[i].id != d.id
    requires logs != [] ==> RetryTime(logs[|logs| - 1]) <= RetryTime(d)
    ensures Ordered(logs + [d])
  {
    forall i, j | 0 <= i < j < |logs + [d]|
      ensures (logs + [d])[i].id != (logs + [d])[j].id && RetryTime((logs + [d])[i]) <= RetryTime((logs + [d])[j])
    {
      if j == |logs| && i < |logs| - 1 {
        assert RetryTime(logs[i]) <= RetryTime(logs[|logs| - 1]);
      }
    }
  }

  lemma {:induction false} EarliestExists(ids: set<RowId>, rows: map<RowId, DeliveryLog>)
    requires ids != {} && forall id | id in ids :: id in rows
    ensures exists id | id in ids :: forall k | k in ids :: RetryTime(rows[id]) <= RetryTime(rows[k])
    decreases |ids|
  {
    var first :| first in ids;
    var rest := ids - {first};
    if rest == {} {
      assert ids == {first};
    } else {
      assert |rest| < |ids|;
      EarliestExists(rest, rows);
      var best :| best in rest && forall k | k in rest :: RetryTime(rows[best]) <= RetryTime(rows[k]);
      var pick := if RetryTime(rows[best]) <= RetryTime(rows[first]) then best else first;
      assert forall k | k in ids :: k == first || k in rest;
      assert pick in ids && forall k | k in ids :: RetryTime(rows[pick]) <= RetryTime(rows[k]);
    }
  }
}
