/** The five endpoints as atomic operations: what each call would do if it ran alone.
    `Handle` is the specification that the interleaved transactions are proved against. */
module Operations {
  import opened Wrappers
  import opened Ids
  import opened Tables
  import opened Limits

  /** The actor comes from the session; the other ids are text as the client typed it. */
  datatype Command =
    | Direct(actor: UserId, receiver: string, amount: int, note: Note, idem: string)
    | Create(actor: UserId, payer: string, amount: int, note: Note, expiresAt: Option<int>, idem: string)
    | Accept(actor: UserId, request: string, idem: string)
    | Decline(actor: UserId, request: string, idem: string)
    | Cancel(actor: UserId, request: string, idem: string)
  {
    predicate Settles() { Direct? || Accept? }
    predicate Resolves() { Accept? || Decline? || Cancel? }

    function ReceiverId(): UserId requires Direct? { UserIn(receiver) }
    function PayerId(): UserId requires Create? { UserIn(payer) }
    function RequestId(): Uuid requires Resolves() { RequestIn(request) }
  }

  /** Everything a call takes from outside the database: the serial of its generated ids, the
      clock readings it makes, in program order, and the level the risk rules answer with. */
  datatype Env = Env(
    serial: nat, startNow: int, deadlineNow: int, limitNow: int, createdAt: int, dtoNow: int, risk: RiskLevel)

  /** The receiver by value and by text: the text decides the self check, the value the rest. */
  datatype SettleInput = SettleInput(
    sender: UserId, receiver: UserId, receiverText: string, amount: int, note: Note, source: Option<Uuid>)

  type Answer = Result<Response, Error>

  // ---------- keys, payloads, statuses ----------

  function KeyOf(cmd: Command): Key {
    Key(cmd.actor,
        match cmd
        case Direct(_, _, _, _, _) => DirectRoute
        case Create(_, _, _, _, _, _) => CreateRoute
        case Accept(_, _, _) => AcceptRoute
        case Decline(_, _, _) => DeclineRoute
        case Cancel(_, _, _) => CancelRoute,
        cmd.idem)
  }

  function PayloadOf(cmd: Command): Payload {
    match cmd
    case Direct(_, receiver, amount, note, _) => TransferPayload(receiver, amount, note)
    case Create(_, payer, amount, note, expiresAt, _) => CreatePayload(payer, amount, note, expiresAt)
    case Accept(_, request, _) => ResolvePayload(request)
    case Decline(_, request, _) => ResolvePayload(request)
    case Cancel(_, request, _) => ResolvePayload(request)
  }

  function HttpStatusOf(cmd: Command): int {
    if cmd.Direct? || cmd.Create? then 201 else 200
  }

  // ---------- settle: steps 2 to 9 of the transfer sequence ----------

  /** Steps 2 and 3: not one's own id as the database prints it, and both users have a wallet. */
  function FindParties(db: Db, input: SettleInput): Result<(WalletId, WalletId), Error> {
    if input.receiverText == UserText(input.sender) then Err(InvalidTransfer)
    else if input.sender !in db.walletOf then Err(InternalError)
    else if input.receiver !in db.walletOf then Err(UserNotFound)
    else Ok((db.walletOf[input.sender], db.walletOf[input.receiver]))
  }

  /** Step 5, on the locked rows: accounts, wallets, amount, balance, in this order. */
  function CheckParties(sender: Wallet, receiver: Wallet, amount: int): Result<(), Error> {
    var _ :- Need(sender.ownerStatus == UserActive, Forbidden);
    var _ :- Need(receiver.ownerStatus == UserActive, UserNotFound);
    var _ :- Need(sender.status == WalletActive, WalletUnavailable);
    var _ :- Need(receiver.status == WalletActive, WalletUnavailable);
    var _ :- Need(amount > 0, InvalidTransfer);
    Need(sender.balance >= amount, InsufficientBalance)
  }

  function TransferId(env: Env): Uuid { Uuid(env.serial, TransferSlot) }

  function TransferRow(input: SettleInput, from: WalletId, to: WalletId, env: Env, status: TransferStatus): Transfer {
    Transfer(TransferId(env), input.sender, input.receiver, from, to, input.amount, input.note, status,
             input.source, env.createdAt)
  }

  function DebitEntry(id: Uuid, from: WalletId, balance: int, amount: int): LedgerEntry {
    LedgerEntry(id, from, Debit, amount, -amount, balance - amount)
  }

  function CreditEntry(id: Uuid, to: WalletId, balance: int, amount: int): LedgerEntry {
    LedgerEntry(id, to, Credit, amount, amount, balance + amount)
  }

  /** Only a HIGH score has an event of its own; every transfer has its transfer.succeeded. */
  function RiskEvents(env: Env): seq<Event> {
    if env.risk == High
    then [Event(Uuid(env.serial, FlagEventSlot), RiskFlagged(TransferId(env), env.risk))]
    else []
  }

  function DoneEvent(input: SettleInput, env: Env): Event {
    Event(Uuid(env.serial, TransferEventSlot),
          TransferDone(TransferId(env), input.sender, input.receiver, input.amount, input.source))
  }

  /** The effect of a settlement, in one stroke. */
  function MoveMoney(db: Db, input: SettleInput, from: WalletId, to: WalletId, env: Env): Db
    requires from in db.wallets && to in db.wallets
  {
    var s, r := db.wallets[from], db.wallets[to];
    var id := TransferId(env);
    db.(wallets := db.wallets[from := s.(balance := s.balance - input.amount)]
                             [to := r.(balance := r.balance + input.amount)],
        transfers := db.transfers + [TransferRow(input, from, to, env, TransferSucceeded)],
        ledger := db.ledger + [DebitEntry(id, from, s.balance, input.amount),
                               CreditEntry(id, to, r.balance, input.amount)],
        risks := db.risks[id := env.risk],
        events := db.events + RiskEvents(env) + [DoneEvent(input, env)])
  }

  function ReceiptOf(input: SettleInput, senderBalance: int, env: Env): Response {
    Receipt(TransferId(env), input.sender, input.receiver, input.amount, input.note,
            senderBalance - input.amount, env.risk)
  }

  /** The atomic money movement. Foreign keys make every indexed wallet exist; a missing row
      is the invariant breach that the code answers with an internal error. One's own id typed
      otherwise gets as far as the insert, where the distinct-parties CHECK stops it. */
  function Settle(lim: Limits, db: Db, input: SettleInput, env: Env): Result<(Db, Response), Error> {
    var (from, to) :- FindParties(db, input);
    var _ :- Need(from in db.wallets && to in db.wallets, InternalError);
    var _ :- CheckParties(db.wallets[from], db.wallets[to], input.amount);
    var _ :- Need(WithinLimits(lim, db.transfers, input.sender, input.amount, env.limitNow), LimitExceeded);
    var _ :- Need(input.sender != input.receiver, ConstraintViolation);
    Ok((MoveMoney(db, input, from, to, env), ReceiptOf(input, db.wallets[from].balance, env)))
  }

  // ---------- money requests ----------

  /** A stranger learns nothing; a participant in the wrong role is refused. */
  function CheckRole(row: Request, actor: UserId, asPayer: bool): Result<(), Error> {
    var isPayer := row.payer == actor;
    var _ :- Need(isPayer || row.requester == actor, RequestNotFound);
    Need(isPayer == asPayer, Forbidden)
  }

  /** Steps 2 to 5 of accept, and the same for decline and cancel, which have no deadline. */
  function CheckRequest(db: Db, cmd: Command, now: int): Result<Request, Error>
    requires cmd.Resolves()
  {
    var _ :- Need(cmd.RequestId() in db.requests, RequestNotFound);
    var row := db.requests[cmd.RequestId()];
    var _ :- CheckRow(row, cmd, now);
    Ok(row)
  }

  function CheckRow(row: Request, cmd: Command, now: int): Result<(), Error>
    requires cmd.Resolves()
  {
    var _ :- CheckRole(row, cmd.actor, !cmd.Cancel?);
    var _ :- Need(row.status == Pending, RequestAlreadyResolved);
    Need(cmd.Accept? ==> !(row.expiresAt.Some? && row.expiresAt.value <= now), RequestAlreadyResolved)
  }

  function InputFrom(id: Uuid, row: Request): SettleInput {
    SettleInput(row.payer, row.requester, UserText(row.requester), row.amount, row.note, Some(id))
  }

  function ResolvedRow(cmd: Command, row: Request, env: Env): Request
    requires cmd.Resolves()
  {
    match cmd
    case Accept(_, _, _) => row.(status := Accepted, acceptedTransfer := Some(TransferId(env)))
    case Decline(_, _, _) => row.(status := Declined)
    case Cancel(_, _, _) => row.(status := Cancelled)
  }

  function ResolvedEvent(cmd: Command, row: Request, env: Env): Event
    requires cmd.Resolves()
  {
    Event(Uuid(env.serial, RequestEventSlot),
          match cmd
          case Accept(_, _, _) =>
            RequestAccepted(cmd.RequestId(), row.payer, row.requester, row.amount, TransferId(env))
          case Decline(_, _, _) => RequestDeclined(cmd.RequestId(), row.payer, row.requester, row.amount)
          case Cancel(_, _, _) => RequestCancelled(cmd.RequestId(), row.payer, row.requester, row.amount))
  }

  /** Flip a locked request to its terminal status and announce it. */
  function ResolveRequest(db: Db, cmd: Command, row: Request, env: Env): (Db, Response)
    requires cmd.Resolves()
  {
    var resolved := ResolvedRow(cmd, row, env);
    (db.(requests := db.requests[cmd.RequestId() := resolved],
         events := db.events + [ResolvedEvent(cmd, row, env)]),
     ToRequestDto(cmd.RequestId(), resolved, env.dtoNow))
  }

  function NewRequestId(env: Env): Uuid { Uuid(env.serial, RequestSlot) }

  function NewRequest(cmd: Command): Request
    requires cmd.Create?
  {
    Request(cmd.actor, cmd.PayerId(), cmd.amount, cmd.note, Pending, None, cmd.expiresAt)
  }

  function CreatedEvent(cmd: Command, env: Env): Event
    requires cmd.Create?
  {
    Event(Uuid(env.serial, RequestEventSlot),
          RequestCreated(NewRequestId(env), cmd.PayerId(), cmd.actor, cmd.amount))
  }

  predicate ActiveUser(db: Db, user: UserId) {
    user in db.walletOf && db.walletOf[user] in db.wallets
    && db.wallets[db.walletOf[user]].ownerStatus == UserActive
  }

  /** The CHECKs of money_requests on a new row. */
  predicate RequestAdmitted(row: Request) { row.amount > 0 && row.requester != row.payer }

  /** The payer must be active; the CHECKs of the table guard the insert. */
  function CreateRequest(db: Db, cmd: Command, env: Env): Result<(Db, Response), Error>
    requires cmd.Create?
  {
    var _ :- Need(ActiveUser(db, cmd.PayerId()), UserNotFound);
    var _ :- Need(RequestAdmitted(NewRequest(cmd)), ConstraintViolation);
    Ok((db.(requests := db.requests[NewRequestId(env) := NewRequest(cmd)],
            events := db.events + [CreatedEvent(cmd, env)]),
        ToRequestDto(NewRequestId(env), NewRequest(cmd), env.dtoNow)))
  }

  // ---------- one whole call ----------

  /** Refused before any transaction is opened: ids that are no UUIDs, one's own id as payer, a
      deadline in the past. */
  function Precheck(cmd: Command, now: int): Result<(), Error> {
    match cmd
    case Direct(_, receiver, _, _, _) => Need(IsUuid(receiver), ValidationError)
    case Create(actor, payer, _, _, expiresAt, _) =>
      var _ :- Need(IsUuid(payer), ValidationError);
      var _ :- Need(payer != UserText(actor), ValidationError);
      Need(!(expiresAt.Some? && expiresAt.value <= now), ValidationError)
    case _ => Need(IsUuid(cmd.request), RequestNotFound)
  }

  /** The business effect of a command whose key has been claimed. */
  function Perform(lim: Limits, db: Db, cmd: Command, env: Env): Result<(Db, Response), Error> {
    match cmd
    case Direct(actor, receiver, amount, note, _) =>
      Settle(lim, db, SettleInput(actor, UserIn(receiver), receiver, amount, note, None), env)
    case Create(_, _, _, _, _, _) => CreateRequest(db, cmd, env)
    case Accept(_, _, _) =>
      var row :- CheckRequest(db, cmd, env.deadlineNow);
      var (moved, _) :- Settle(lim, db, InputFrom(cmd.RequestId(), row), env);
      Ok(ResolveRequest(moved, cmd, row, env))
    case _ =>
      var row :- CheckRequest(db, cmd, env.deadlineNow);
      Ok(ResolveRequest(db, cmd, row, env))
  }

  function WithRecord(db: Db, cmd: Command, response: Response): Db {
    db.(records := db.records[KeyOf(cmd) := Record(PayloadOf(cmd), Completed(HttpStatusOf(cmd), response))])
  }

  /** A whole call: refuse, replay the stored answer, or perform and store the answer. */
  function Handle(lim: Limits, db: Db, cmd: Command, env: Env): (Db, Answer) {
    match Precheck(cmd, env.startNow)
    case Err(e) => (db, Err(e))
    case Ok(_) =>
      var key := KeyOf(cmd);
      if key in db.records && db.records[key].hash != PayloadOf(cmd) then (db, Err(KeyReused))
      else if key in db.records && db.records[key].state.Completed? then (db, Ok(db.records[key].state.response))
      else match Perform(lim, db, cmd, env)
        case Err(e) => (db, Err(e))
        case Ok((db', response)) => (WithRecord(db', cmd, response), Ok(response))
  }

  /** Registration creates the user and the wallet, with its seed balance, in one transaction. */
  function Register(db: Db, user: UserId, id: WalletId, wallet: Wallet): Db {
    db.(walletOf := db.walletOf[user := id], wallets := db.wallets[id := wallet])
  }
}
