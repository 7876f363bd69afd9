/** The services as written: one transaction each, statement after statement, with the claim
    loop of the idempotency service and the retry loops around the transactions. */
module Services {
  import opened Wrappers
  import opened Ids
  import opened Tables
  import opened Limits
  import opened Operations
  import opened History
  import opened Repositories

  // ---------- IdempotencyService ----------

  datatype BeginResult = Fresh | Replayed(response: Response)

  const MAX_CLAIMS := 3

  /** Whether `begin` reaches the record at all: the claim can lose to a transaction that then
      rolls back, and gives up when that happens on every pass. */
  predicate Reaches(db: Db, key: Key, lostClaims: nat) {
    key in db.records || lostClaims < MAX_CLAIMS
  }

  /** What `begin` decides about a key it can reach. */
  function BeginAnswer(db: Db, key: Key, hash: Payload): Result<BeginResult, Error> {
    if key !in db.records then Ok(Fresh)
    else if db.records[key].hash != hash then Err(KeyReused)
    else match db.records[key].state
      case Completed(_, response) => Ok(Replayed(response))
      case Processing => Ok(Fresh)
  }

  method Begin(tx: Transaction, key: Key, hash: Payload, lostClaims: nat) returns (r: Result<BeginResult, Error>)
    modifies tx
    ensures r == if Reaches(old(tx.db), key, lostClaims) then BeginAnswer(old(tx.db), key, hash) else Err(StillProcessing)
    ensures r == Ok(Fresh) ==> tx.db == old(tx.db).(records := old(tx.db).records[key := Record(hash, Processing)])
    ensures r != Ok(Fresh) ==> tx.db == old(tx.db)
  {
    var attempt := 0;
    while attempt < MAX_CLAIMS
      invariant 0 <= attempt <= MAX_CLAIMS && tx.db == old(tx.db)
      invariant attempt > 0 ==> key !in tx.db.records && attempt <= lostClaims
    {
      var conflict := key in tx.db.records || attempt < lostClaims;
      if !conflict {
        PutRecord(tx, key, Record(hash, Processing));
        return Ok(Fresh);
      }
      if key !in tx.db.records {
        attempt := attempt + 1;
        continue;
      }
      var existing := tx.db.records[key];
      if existing.hash != hash {
        return Err(KeyReused);
      }
      if existing.state.Completed? {
        return Ok(Replayed(existing.state.response));
      }
      PutRecord(tx, key, Record(hash, Processing));
      return Ok(Fresh);
    }
    return Err(StillProcessing);
  }

  // ---------- TransferService.settle ----------

  /** Fresh generated ids; the foreign keys, the unique index and the balance CHECK on wallets; and
      the CHECKs on requests. */
  predicate Ready(db: Db, env: Env) {
    && WalletsIndexed(db) && Unused(db, env.serial)
    && (forall w :: w in db.wallets ==> db.wallets[w].balance >= 0)
  }

  /** Steps 2 to 5b: every check before the first write. */
  method CheckSettlement(lim: Limits, tx: Transaction, input: SettleInput, env: Env)
    returns (r: Result<(WalletId, Wallet, WalletId, Wallet), Error>)
    requires WalletsIndexed(tx.db)
    ensures r.Err? ==> Settle(lim, tx.db, input, env) == Err(r.error)
    ensures r.Ok? ==>
      var (s, sender, t, receiver) := r.value;
      && Passed(lim, tx.db, input, s, t, env)
      && sender == tx.db.wallets[s] && receiver == tx.db.wallets[t]
  {
    if input.receiverText == UserText(input.sender) { return Err(InvalidTransfer); }
    var senderProbe := FindWalletByUserId(tx, input.sender);
    var receiverProbe := FindWalletByUserId(tx, input.receiver);
    if senderProbe.None? { return Err(InternalError); }
    if receiverProbe.None? { return Err(UserNotFound); }
    var s, t := senderProbe.value, receiverProbe.value;

    // Ascending id order, whoever pays whom.
    var firstId, secondId := if s <= t then s else t, if s <= t then t else s;
    var first := LockWalletById(tx, firstId);
    var second := LockWalletById(tx, secondId);
    if first.None? || second.None? { return Err(InternalError); }
    var sender := if firstId == s then first.value else second.value;
    var receiver := if firstId == t then first.value else second.value;

    if sender.ownerStatus != UserActive { return Err(Forbidden); }
    if receiver.ownerStatus != UserActive { return Err(UserNotFound); }
    if sender.status != WalletActive { return Err(WalletUnavailable); }
    if receiver.status != WalletActive { return Err(WalletUnavailable); }
    if input.amount <= 0 { return Err(InvalidTransfer); }
    if sender.balance < input.amount { return Err(InsufficientBalance); }
    if !WithinLimits(lim, tx.db.transfers, sender.owner, input.amount, env.limitNow) { return Err(LimitExceeded); }
    return Ok((s, sender, t, receiver));
  }

  /** Steps 6 to 8: the transfer row, the ledger pair, the balances, the final status. Nothing is
      written when the table refuses the row, which is when the parties are one user. */
  method WriteMovement(
    tx: Transaction, input: SettleInput, s: WalletId, sender: Wallet, t: WalletId, receiver: Wallet, env: Env)
    returns (r: Result<(), Error>)
    requires Ready(tx.db, env)
    requires s in tx.db.wallets && sender == tx.db.wallets[s] && t in tx.db.wallets && receiver == tx.db.wallets[t]
    requires input.sender != input.receiver ==> s != t
    requires input.amount > 0 && sender.balance >= input.amount && receiver.balance >= 0
    modifies tx
    ensures r == if input.sender == input.receiver then Err(ConstraintViolation) else Ok(())
    ensures r.Ok? ==>
      tx.db == MoveMoney(old(tx.db), input, s, t, env).(risks := old(tx.db).risks, events := old(tx.db).events)
    ensures r.Err? ==> tx.db == old(tx.db)
  {
    var transfer := TransferRow(input, s, t, env, TransferPending);
    var inserted := InsertPendingTransfer(tx, transfer);
    if !inserted { return Err(ConstraintViolation); }
    InsertLedgerEntry(tx, DebitEntry(transfer.id, s, sender.balance, input.amount));
    InsertLedgerEntry(tx, CreditEntry(transfer.id, t, receiver.balance, input.amount));
    ApplyBalanceDelta(tx, s, -input.amount);
    ApplyBalanceDelta(tx, t, input.amount);
    MarkSucceeded(tx, transfer.id);
    assert tx.db.transfers == old(tx.db).transfers + [TransferRow(input, s, t, env, TransferSucceeded)];
    assert tx.db.ledger == old(tx.db).ledger + [DebitEntry(transfer.id, s, sender.balance, input.amount),
                                                CreditEntry(transfer.id, t, receiver.balance, input.amount)];
    return Ok(());
  }

  /** Steps 8b and 9: the score and the events. */
  method WriteFollowUps(tx: Transaction, input: SettleInput, env: Env)
    requires Unused(tx.db.(transfers := []), env.serial)
    modifies tx
    ensures tx.db == old(tx.db).(risks := old(tx.db).risks[TransferId(env) := env.risk],
                                 events := old(tx.db).events + RiskEvents(env) + [DoneEvent(input, env)])
  {
    InsertAssessment(tx, TransferId(env), env.risk);
    if env.risk == High {
      InsertEvent(tx, RiskEvents(env)[0]);
    }
    assert tx.db.events == old(tx.db).events + RiskEvents(env);
    InsertEvent(tx, DoneEvent(input, env));
  }

  /** The statements, run without interference, are the atomic settlement; a refusal writes nothing. */
  method SettleTransfer(lim: Limits, tx: Transaction, input: SettleInput, env: Env) returns (r: Result<Response, Error>)
    requires Ready(tx.db, env)
    modifies tx
    ensures r.Ok? ==> Settle(lim, old(tx.db), input, env) == Ok((tx.db, r.value))
    ensures r.Err? ==> Settle(lim, old(tx.db), input, env) == Err(r.error) && tx.db == old(tx.db)
  {
    var checked := CheckSettlement(lim, tx, input, env);
    if checked.Err? { return Err(checked.error); }
    var (s, sender, t, receiver) := checked.value;
    PassedFacts(lim, tx.db, input, s, t, env);
    var moved := WriteMovement(tx, input, s, sender, t, receiver, env);
    if moved.Err? { return Err(moved.error); }
    WriteFollowUps(tx, input, env);
    return Ok(ReceiptOf(input, sender.balance, env));
  }

  // ---------- the bodies of the transactions ----------

  lemma SettleIgnoresRecords(lim: Limits, db: Db, records: map<Key, Record>, input: SettleInput, env: Env)
    ensures var a, b := Settle(lim, db, input, env), Settle(lim, db.(records := records), input, env);
            if a.Err? then b == a
            else b == Ok((a.value.0.(records := records), a.value.1)) && a.value.0.records == db.records
  {
  }

  /** What a finished transaction body owes the caller: its view is the atomic result; a refusal
      is the atomic refusal, and the transaction is rolled back. */
  predicate Honours(lim: Limits, db: Db, cmd: Command, env: Env, lostClaims: nat, view: Db, r: Answer) {
    if Precheck(cmd, env.startNow).Ok? && !Reaches(db, KeyOf(cmd), lostClaims) then r == Err(StillProcessing)
    else r == Handle(lim, db, cmd, env).1 && (r.Ok? ==> view == Handle(lim, db, cmd, env).0)
  }

  /** The atomic operation, by what `begin` decides. */
  lemma BeginDecides(lim: Limits, db: Db, cmd: Command, env: Env)
    ensures Precheck(cmd, env.startNow).Err? ==> Handle(lim, db, cmd, env) == (db, Err(Precheck(cmd, env.startNow).error))
    ensures Precheck(cmd, env.startNow).Ok? ==>
            match BeginAnswer(db, KeyOf(cmd), PayloadOf(cmd))
            case Err(e) => Handle(lim, db, cmd, env) == (db, Err(e))
            case Ok(Replayed(response)) => Handle(lim, db, cmd, env) == (db, Ok(response))
            case Ok(Fresh) =>
              match Perform(lim, db, cmd, env)
              case Err(e) => Handle(lim, db, cmd, env) == (db, Err(e))
              case Ok((db', response)) => Handle(lim, db, cmd, env) == (WithRecord(db', cmd, response), Ok(response))
  {
  }

  lemma ReadyIds(db: Db, env: Env)
    requires Ready(db, env)
    ensures Unused(db, env.serial)
  {
  }

  lemma ReadyIgnoresRecords(db: Db, records: map<Key, Record>, env: Env)
    requires Ready(db, env)
    ensures Ready(db.(records := records), env)
  {
  }

  /** The request schema, then TransferService.runTransfer. */
  method RunTransfer(lim: Limits, tx: Transaction, cmd: Command, env: Env, lostClaims: nat) returns (r: Answer)
    requires cmd.Direct? && Ready(tx.db, env)
    modifies tx
    ensures Honours(lim, old(tx.db), cmd, env, lostClaims, tx.db, r)
  {
    hide Settle, Handle, Ready;
    BeginDecides(lim, tx.db, cmd, env);
    if !IsUuid(cmd.receiver) { return Err(ValidationError); }
    var begin := Begin(tx, KeyOf(cmd), PayloadOf(cmd), lostClaims);
    if begin.Err? { return Err(begin.error); }
    if begin.value.Replayed? { return Ok(begin.value.response); }
    ReadyIgnoresRecords(old(tx.db), tx.db.records, env);
    SettleIgnoresRecords(lim, old(tx.db), tx.db.records, MovedBy(tx.db, cmd), env);
    var receipt := SettleTransfer(lim, tx, MovedBy(tx.db, cmd), env);
    if receipt.Err? { return Err(receipt.error); }
    PutRecord(tx, KeyOf(cmd), Record(PayloadOf(cmd), Completed(201, receipt.value)));
    return Ok(receipt.value);
  }

  /** lockById, then assertActorRole and the status and deadline checks. */
  method LockAndCheckRequest(tx: Transaction, cmd: Command, env: Env) returns (r: Result<Request, Error>)
    requires cmd.Resolves()
    ensures r == CheckRequest(tx.db, cmd, env.deadlineNow)
  {
    var locked := LockRequestById(tx, cmd.RequestId());
    if locked.None? { return Err(RequestNotFound); }
    var row := locked.value;
    var isPayer, isRequester := row.payer == cmd.actor, row.requester == cmd.actor;
    if !isPayer && !isRequester { return Err(RequestNotFound); }
    if isPayer == cmd.Cancel? { return Err(Forbidden); }
    if row.status != Pending { return Err(RequestAlreadyResolved); }
    if cmd.Accept? && row.expiresAt.Some? && row.expiresAt.value <= env.deadlineNow { return Err(RequestAlreadyResolved); }
    return Ok(row);
  }

  /** MoneyRequestService.runAccept. */
  method RunAccept(lim: Limits, tx: Transaction, cmd: Command, env: Env, lostClaims: nat) returns (r: Answer)
    requires cmd.Accept? && Ready(tx.db, env)
    modifies tx
    ensures Honours(lim, old(tx.db), cmd, env, lostClaims, tx.db, r)
  {
    hide Settle, Handle, CheckRow, Ready;
    ghost var db := tx.db;
    BeginDecides(lim, db, cmd, env);
    ReadyIds(db, env);
    if !IsUuid(cmd.request) { return Err(RequestNotFound); }
    var begin := Begin(tx, KeyOf(cmd), PayloadOf(cmd), lostClaims);
    if begin.Err? { return Err(begin.error); }
    if begin.value.Replayed? { return Ok(begin.value.response); }
    var request := LockAndCheckRequest(tx, cmd, env);
    if request.Err? { return Err(request.error); }
    var row := request.value;
    ReadyIgnoresRecords(db, tx.db.records, env);
    SettleIgnoresRecords(lim, db, tx.db.records, InputFrom(cmd.RequestId(), row), env);
    var transfer := SettleTransfer(lim, tx, InputFrom(cmd.RequestId(), row), env);
    if transfer.Err? { return Err(transfer.error); }
    EventIdIsFresh(lim, db, InputFrom(cmd.RequestId(), row), env);
    var accepted := MarkAccepted(tx, cmd.RequestId(), TransferId(env));
    InsertEvent(tx, ResolvedEvent(cmd, row, env));
    var dto := ToRequestDto(cmd.RequestId(), accepted, env.dtoNow);
    PutRecord(tx, KeyOf(cmd), Record(PayloadOf(cmd), Completed(200, dto)));
    return Ok(dto);
  }

  /** The event of the request has an id of its own, beside the settlement's. */
  lemma EventIdIsFresh(lim: Limits, db: Db, input: SettleInput, env: Env)
    requires Settle(lim, db, input, env).Ok? && Unused(db, env.serial)
    ensures var settled := Settle(lim, db, input, env).value.0;
            && settled.requests == db.requests
            && forall i :: 0 <= i < |settled.events| ==> settled.events[i].id != Uuid(env.serial, RequestEventSlot)
  {
  }

  lemma PerformResolves(lim: Limits, db: Db, cmd: Command, env: Env)
    requires cmd.Decline? || cmd.Cancel?
    ensures var checked := CheckRequest(db, cmd, env.deadlineNow);
            Perform(lim, db, cmd, env)
            == if checked.Err? then Err(checked.error) else Ok(ResolveRequest(db, cmd, checked.value, env))
  {
  }

  /** MoneyRequestService.resolvePending, for decline and cancel. */
  method RunResolve(lim: Limits, tx: Transaction, cmd: Command, env: Env, lostClaims: nat) returns (r: Answer)
    requires (cmd.Decline? || cmd.Cancel?) && Ready(tx.db, env)
    modifies tx
    ensures Honours(lim, old(tx.db), cmd, env, lostClaims, tx.db, r)
  {
    hide Perform, Handle, CheckRow, Ready, RequestIn, IsUuid;
    BeginDecides(lim, tx.db, cmd, env);
    PerformResolves(lim, tx.db, cmd, env);
    ReadyIds(tx.db, env);
    if !IsUuid(cmd.request) { return Err(RequestNotFound); }
    var begin := Begin(tx, KeyOf(cmd), PayloadOf(cmd), lostClaims);
    if begin.Err? { return Err(begin.error); }
    if begin.value.Replayed? { return Ok(begin.value.response); }
    var request := LockAndCheckRequest(tx, cmd, env);
    if request.Err? { return Err(request.error); }
    var resolved := MarkResolved(tx, cmd.RequestId(), if cmd.Decline? then Declined else Cancelled);
    InsertEvent(tx, ResolvedEvent(cmd, request.value, env));
    var dto := ToRequestDto(cmd.RequestId(), resolved, env.dtoNow);
    PutRecord(tx, KeyOf(cmd), Record(PayloadOf(cmd), Completed(200, dto)));
    return Ok(dto);
  }

  /** The request schema, then MoneyRequestService.create. */
  method RunCreate(lim: Limits, tx: Transaction, cmd: Command, env: Env, lostClaims: nat) returns (r: Answer)
    requires cmd.Create? && Ready(tx.db, env)
    modifies tx
    ensures Honours(lim, old(tx.db), cmd, env, lostClaims, tx.db, r)
  {
    hide Settle, Handle, Ready;
    BeginDecides(lim, tx.db, cmd, env);
    ReadyIds(tx.db, env);
    if !IsUuid(cmd.payer) { return Err(ValidationError); }
    if cmd.payer == UserText(cmd.actor) { return Err(ValidationError); }
    if cmd.expiresAt.Some? && cmd.expiresAt.value <= env.startNow { return Err(ValidationError); }
    var begin := Begin(tx, KeyOf(cmd), PayloadOf(cmd), lostClaims);
    if begin.Err? { return Err(begin.error); }
    if begin.value.Replayed? { return Ok(begin.value.response); }
    if !ActiveUser(tx.db, cmd.PayerId()) { return Err(UserNotFound); }
    var inserted := InsertRequest(tx, NewRequestId(env), NewRequest(cmd));
    if !inserted { return Err(ConstraintViolation); }
    InsertEvent(tx, CreatedEvent(cmd, env));
    var dto := ToRequestDto(NewRequestId(env), NewRequest(cmd), env.dtoNow);
    PutRecord(tx, KeyOf(cmd), Record(PayloadOf(cmd), Completed(201, dto)));
    return Ok(dto);
  }

  // ---------- the transactions and their retry loops ----------

  /** The committed tables. */
  class Database {
    var db: Db

    constructor (initial: Db)
      ensures db == initial
    {
      db := initial;
    }
  }

  /** How the database ended an attempt: it committed what the body asked for, chose it as a
      deadlock or serialization victim, or failed otherwise. */
  datatype Fault = NoFault | WriteConflict | Failure

  datatype Attempt = Attempt(env: Env, lostClaims: nat, fault: Fault)

  const MAX_ATTEMPTS := 3

  method RunBody(lim: Limits, tx: Transaction, cmd: Command, a: Attempt) returns (r: Answer)
    requires Ready(tx.db, a.env)
    modifies tx
    ensures Honours(lim, old(tx.db), cmd, a.env, a.lostClaims, tx.db, r)
  {
    match cmd
    case Direct(_, _, _, _, _) => r := RunTransfer(lim, tx, cmd, a.env, a.lostClaims);
    case Create(_, _, _, _, _, _) => r := RunCreate(lim, tx, cmd, a.env, a.lostClaims);
    case Accept(_, _, _) => r := RunAccept(lim, tx, cmd, a.env, a.lostClaims);
    case _ => r := RunResolve(lim, tx, cmd, a.env, a.lostClaims);
  }

  /** The attempt that decides a call: the first that is not a retryable victim, at most the third;
      creating, declining and cancelling are attempted once. */
  function Decisive(cmd: Command, attempts: seq<Attempt>, k: nat): (d: nat)
    requires k < MAX_ATTEMPTS == |attempts|
    ensures k <= d < MAX_ATTEMPTS
    decreases MAX_ATTEMPTS - k
  {
    if cmd.Settles() && k + 1 < MAX_ATTEMPTS && attempts[k].fault == WriteConflict
    then Decisive(cmd, attempts, k + 1) else k
  }

  /** A call behaves as its decisive attempt, run once and atomically on the committed tables:
      no attempt before it leaves a trace, and an aborted call changes nothing. */
  method Call(lim: Limits, store: Database, cmd: Command, attempts: seq<Attempt>) returns (r: Answer)
    requires |attempts| == MAX_ATTEMPTS && forall i :: 0 <= i < MAX_ATTEMPTS ==> Ready(store.db, attempts[i].env)
    modifies store
    ensures var a := attempts[Decisive(cmd, attempts, 0)];
            if a.fault != NoFault then r == Err(Aborted) && store.db == old(store.db)
            else
              && Honours(lim, old(store.db), cmd, a.env, a.lostClaims, store.db, r)
              && (r.Err? ==> store.db == old(store.db))
  {
    var attempt := 0;
    while true
      invariant 0 <= attempt < MAX_ATTEMPTS && store.db == old(store.db)
      invariant Decisive(cmd, attempts, attempt) == Decisive(cmd, attempts, 0)
      decreases MAX_ATTEMPTS - attempt
    {
      var a := attempts[attempt];
      var tx := new Transaction(store.db);
      r := RunBody(lim, tx, cmd, a);
      if a.fault == NoFault {
        if r.Ok? { store.db := tx.db; }
        return r;
      }
      if cmd.Settles() && attempt + 1 < MAX_ATTEMPTS && a.fault == WriteConflict {
        attempt := attempt + 1;
        continue;
      }
      return Err(Aborted);
    }
  }

  // ---------- how often ----------

  /** A transfer or an acceptance goes on past a write conflict, to a third attempt at most; every other
      call is decided by its first. */
  lemma AtMostThreeAttempts(cmd: Command, attempts: seq<Attempt>)
    requires |attempts| == 3
    ensures var d := Decisive(cmd, attempts, 0);
            if cmd.Direct? || cmd.Accept? then
              && (forall i :: 0 <= i < d ==> attempts[i].fault == WriteConflict)
              && d <= 2 && (d == 2 || attempts[d].fault != WriteConflict)
            else d == 0
  {
    assert Decisive(cmd, attempts, 2) == 2;
    assert Decisive(cmd, attempts, 1) == 1 || Decisive(cmd, attempts, 1) == Decisive(cmd, attempts, 2);
  }

  /** `begin` looks three times at most. */
  lemma AtMostThreeClaims(db: Db, key: Key, lostClaims: nat)
    ensures Reaches(db, key, lostClaims) <==> key in db.records || lostClaims <= 2
  {
  }
}
