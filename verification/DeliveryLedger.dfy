/**
 The delivery ledger: one row per (event, recipient), written by the claim, the
 mark-sent and the mark-failed statements. The row arithmetic is a set of functions
 on values; `DeliveryRepository` is the object whose methods update the rows.
 */
module DeliveryLedger {
  import opened Wrappers

  type Uuid = nat

  datatype Key = Key(event: Uuid, user: Uuid)

  datatype Status = PENDING | SENT | FAILED

  datatype Row = Row(
    peer: int,
    status: Status,
    attempts: nat,
    lastError: Option<string>,
    updatedAt: int,
    sentAt: Option<int>)

  type Ledger = map<Key, Row>

  const SEND_FAILED := "VK_API_SEND_FAILED"
  const LAST_ERROR_WIDTH := 64

  predicate IsSent(l: Ledger, k: Key) {
    k in l && l[k].status == SENT
  }

  /** The upsert: a first attempt inserts the row, a later one counts up and clears the error. */
  function ClaimedRow(existing: Option<Row>, peer: int, now: int): Row {
    match existing
    case None => Row(peer, PENDING, 1, None, now, None)
    case Some(r) => r.(peer := peer, status := PENDING, attempts := r.attempts + 1, lastError := None, updatedAt := now)
  }

  function SentRow(r: Row, now: int): Row {
    r.(status := SENT, lastError := None, sentAt := Some(now), updatedAt := now)
  }

  function FailedRow(r: Row, category: string, now: int): Row {
    var stored := if |category| <= LAST_ERROR_WIDTH then category else category[..LAST_ERROR_WIDTH];
    r.(status := FAILED, lastError := Some(stored), updatedAt := now)
  }

  function Lookup(l: Ledger, k: Key): Option<Row> {
    if k in l then Some(l[k]) else None
  }

  /** A claim of a recipient that is not yet SENT. */
  function Claim(l: Ledger, k: Key, peer: int, now: int): Ledger {
    l[k := ClaimedRow(Lookup(l, k), peer, now)]
  }

  /** The mark that follows a send. */
  function Mark(l: Ledger, k: Key, delivered: bool, now: int): Ledger
    requires k in l
  {
    l[k := if delivered then SentRow(l[k], now) else FailedRow(l[k], SEND_FAILED, now)]
  }

  /** What every row of a ledger between transactions satisfies. */
  ghost predicate Settled(r: Row) {
    && r.status != PENDING
    && (r.sentAt.Some? <==> r.status == SENT)
    && (r.lastError.Some? <==> r.status == FAILED)
    && r.attempts >= 1
  }

  ghost predicate LedgerSettled(l: Ledger) {
    forall k :: k in l ==> Settled(l[k])
  }

  /** The rows as one database session sees them. */
  class DeliveryRepository {
    var rows: Ledger

    constructor (rows: Ledger)
      ensures this.rows == rows
    {
      this.rows := rows;
    }

    /** None when the recipient was already sent to; otherwise the claimed row. */
    method ClaimAttempt(k: Key, peer: int, now: int) returns (claimed: Option<Row>)
      modifies this
      ensures claimed.None? <==> IsSent(old(rows), k)
      ensures claimed.None? ==> rows == old(rows)
      ensures claimed.Some? ==> rows == Claim(old(rows), k, peer, now) && claimed == Some(rows[k])
    {
      var existing := Lookup(rows, k);
      if existing.Some? && existing.value.status == SENT {
        return None;
      }
      var row := ClaimedRow(existing, peer, now);
      rows := rows[k := row];
      return Some(row);
    }

    /** None stands for the missing-row error of the source. */
    method MarkSent(k: Key, now: int) returns (marked: Option<Row>)
      modifies this
      ensures marked.None? <==> k !in old(rows)
      ensures marked.None? ==> rows == old(rows)
      ensures marked.Some? ==> rows == Mark(old(rows), k, true, now) && marked == Some(rows[k])
    {
      if k !in rows {
        return None;
      }
      var row := SentRow(rows[k], now);
      rows := rows[k := row];
      return Some(row);
    }

    method MarkFailed(k: Key, category: string, now: int) returns (marked: Option<Row>)
      modifies this
      ensures marked.None? <==> k !in old(rows)
      ensures marked.None? ==> rows == old(rows)
      ensures marked.Some? ==> rows == old(rows)[k := FailedRow(old(rows)[k], category, now)] && marked == Some(rows[k])
      ensures marked.Some? ==>
                var stored := marked.value.lastError;
                && stored.Some? && stored.value <= category
                && |stored.value| == (if |category| <= 64 then |category| else 64)
    {
      if k !in rows {
        return None;
      }
      var row := FailedRow(rows[k], category, now);
      rows := rows[k := row];
      return Some(row);
    }
  }
}
