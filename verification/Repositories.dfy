/** The statements of one transaction, over the tables as that transaction sees them. A constraint
    that no caller can violate is a precondition, which every caller proves; the CHECKs that can
    trip are answered. */
module Repositories {
  import opened Wrappers
  import opened Tables
  import opened Limits
  import opened Operations
  import opened History

  /** A transaction client: committed rows overlaid with the transaction's own writes. */
  class Transaction {
    var db: Db

    constructor (committed: Db)
      ensures db == committed
    {
      db := committed;
    }
  }

  // ---------- wallets, transfers, ledger ----------

  method FindWalletByUserId(tx: Transaction, user: UserId) returns (id: Option<WalletId>)
    ensures id == if user in tx.db.walletOf then Some(tx.db.walletOf[user]) else None
  {
    id := if user in tx.db.walletOf then Some(tx.db.walletOf[user]) else None;
  }

  /** Lock, then re-read. */
  method LockWalletById(tx: Transaction, id: WalletId) returns (row: Option<Wallet>)
    ensures row == if id in tx.db.wallets then Some(tx.db.wallets[id]) else None
  {
    row := if id in tx.db.wallets then Some(tx.db.wallets[id]) else None;
  }

  /** The distinct-parties CHECK refuses a row whose parties are one user. */
  method InsertPendingTransfer(tx: Transaction, t: Transfer) returns (ok: bool)
    requires t.status == TransferPending && t.amount > 0
    requires forall i :: 0 <= i < |tx.db.transfers| ==> tx.db.transfers[i].id != t.id
    modifies tx
    ensures ok <==> t.sender != t.receiver
    ensures tx.db == if ok then old(tx.db).(transfers := old(tx.db).transfers + [t]) else old(tx.db)
  {
    ok := t.sender != t.receiver;
    if ok {
      tx.db := tx.db.(transfers := tx.db.transfers + [t]);
    }
  }

  method InsertLedgerEntry(tx: Transaction, e: LedgerEntry)
    requires e.amount > 0 && e.signed == if e.direction == Debit then -e.amount else e.amount
    modifies tx
    ensures tx.db == old(tx.db).(ledger := old(tx.db).ledger + [e])
  {
    tx.db := tx.db.(ledger := tx.db.ledger + [e]);
  }

  method ApplyBalanceDelta(tx: Transaction, id: WalletId, delta: int)
    requires id in tx.db.wallets && tx.db.wallets[id].balance + delta >= 0
    modifies tx
    ensures tx.db == old(tx.db).(wallets := old(tx.db).wallets[
              id := old(tx.db).wallets[id].(balance := old(tx.db).wallets[id].balance + delta)])
  {
    var row := tx.db.wallets[id];
    tx.db := tx.db.(wallets := tx.db.wallets[id := row.(balance := row.balance + delta)]);
  }

  /** The row with this id becomes SUCCEEDED, every other row stays. */
  function Succeed(rows: seq<Transfer>, id: Uuid): (r: seq<Transfer>)
    ensures |r| == |rows|
    ensures forall i :: 0 <= i < |rows| ==>
              r[i] == if rows[i].id == id then rows[i].(status := TransferSucceeded) else rows[i]
  {
    if rows == [] then []
    else
      var last := rows[|rows| - 1];
      Succeed(rows[..|rows| - 1], id) + [if last.id == id then last.(status := TransferSucceeded) else last]
  }

  method MarkSucceeded(tx: Transaction, id: Uuid)
    modifies tx
    ensures tx.db == old(tx.db).(transfers := Succeed(old(tx.db).transfers, id))
  {
    tx.db := tx.db.(transfers := Succeed(tx.db.transfers, id));
  }

  method InsertAssessment(tx: Transaction, transfer: Uuid, level: RiskLevel)
    requires transfer !in tx.db.risks
    modifies tx
    ensures tx.db == old(tx.db).(risks := old(tx.db).risks[transfer := level])
  {
    tx.db := tx.db.(risks := tx.db.risks[transfer := level]);
  }

  // ---------- outbox ----------

  method InsertEvent(tx: Transaction, e: Event)
    requires forall i :: 0 <= i < |tx.db.events| ==> tx.db.events[i].id != e.id
    modifies tx
    ensures tx.db == old(tx.db).(events := old(tx.db).events + [e])
  {
    tx.db := tx.db.(events := tx.db.events + [e]);
  }

  // ---------- money requests ----------

  method LockRequestById(tx: Transaction, id: Uuid) returns (row: Option<Request>)
    ensures row == if id in tx.db.requests then Some(tx.db.requests[id]) else None
  {
    row := if id in tx.db.requests then Some(tx.db.requests[id]) else None;
  }

  method InsertRequest(tx: Transaction, id: Uuid, row: Request) returns (ok: bool)
    requires id !in tx.db.requests && row.status == Pending
    modifies tx
    ensures ok <==> row.amount > 0 && row.requester != row.payer
    ensures tx.db == if ok then old(tx.db).(requests := old(tx.db).requests[id := row]) else old(tx.db)
  {
    ok := RequestAdmitted(row);
    if ok {
      tx.db := tx.db.(requests := tx.db.requests[id := row]);
    }
  }

  method MarkAccepted(tx: Transaction, id: Uuid, transfer: Uuid) returns (row: Request)
    requires id in tx.db.requests
    modifies tx
    ensures row == old(tx.db).requests[id].(status := Accepted, acceptedTransfer := Some(transfer))
    ensures tx.db == old(tx.db).(requests := old(tx.db).requests[id := row])
  {
    row := tx.db.requests[id].(status := Accepted, acceptedTransfer := Some(transfer));
    tx.db := tx.db.(requests := tx.db.requests[id := row]);
  }

  method MarkResolved(tx: Transaction, id: Uuid, status: RequestStatus) returns (row: Request)
    requires id in tx.db.requests && (status == Declined || status == Cancelled)
    modifies tx
    ensures row == old(tx.db).requests[id].(status := status)
    ensures tx.db == old(tx.db).(requests := old(tx.db).requests[id := row])
  {
    row := tx.db.requests[id].(status := status);
    tx.db := tx.db.(requests := tx.db.requests[id := row]);
  }

  // ---------- idempotency records ----------

  method PutRecord(tx: Transaction, key: Key, record: Record)
    modifies tx
    ensures tx.db == old(tx.db).(records := old(tx.db).records[key := record])
  {
    tx.db := tx.db.(records := tx.db.records[key := record]);
  }
}
