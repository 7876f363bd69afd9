/** The running system: any number of calls, each a database transaction advancing one
    statement at a time, interleaved in any order over shared tables under READ COMMITTED.
    A transaction reads committed rows, keeps its own writes private until it commits, and
    holds the row locks it took until then. */
module Protocol {
  import opened Wrappers
  import opened Tables
  import opened Limits
  import opened Operations
  import opened History

  /** Row locks. The key lock is held by whoever inserted the record and has not committed,
      or has selected it FOR UPDATE. */
  datatype Lock = KeyLock(key: Key) | RequestLock(request: Uuid) | WalletLock(wallet: WalletId)

  const MAX_ATTEMPTS := 3   // whole-transaction attempts of a transfer or an acceptance
  const MAX_CLAIMS := 3     // claim attempts inside one `begin`

  /** Program counters: the next statement of a transaction, numbered in program order. */
  type Pc = nat
  // idempotency
  const START: Pc := 0
  const BEGIN: Pc := 1
  const LOCK_EXISTING: Pc := 2
  // the request row, for accept, decline and cancel
  const LOCK_REQUEST: Pc := 3
  const READ_REQUEST: Pc := 4
  // settle: lock and check, for a transfer and an acceptance
  const FIND_WALLETS: Pc := 5
  const LOCK_FIRST: Pc := 6
  const READ_FIRST: Pc := 7
  const LOCK_SECOND: Pc := 8
  const READ_SECOND: Pc := 9
  const CHECK_ROWS: Pc := 10
  const CHECK_LIMITS: Pc := 11
  // settle: write
  const INSERT_TRANSFER: Pc := 12
  const WRITE_DEBIT: Pc := 13
  const WRITE_CREDIT: Pc := 14
  const MOVE_SENDER: Pc := 15
  const MOVE_RECEIVER: Pc := 16
  const MARK_SUCCEEDED: Pc := 17
  const ASSESS_RISK: Pc := 18
  const EMIT_TRANSFER: Pc := 19
  // creating a request
  const FIND_PAYER: Pc := 20
  const INSERT_REQUEST: Pc := 21
  // closing
  const MARK_REQUEST: Pc := 22
  const EMIT_REQUEST: Pc := 23
  const COMPLETE: Pc := 24
  const COMMIT: Pc := 25
  const DONE: Pc := 26

  /** The private row versions of an open transaction. */
  datatype Staged = Staged(
    record: Option<Record>, balances: map<WalletId, int>, transfer: Option<Transfer>,
    ledger: seq<LedgerEntry>, risk: Option<RiskLevel>, request: Option<Request>, events: seq<Event>)

  const NOTHING := Staged(None, map[], None, [], None, None, [])

  /** What the transaction has read: the locked request row, the wallets of the two parties,
      and the wallet rows re-read under their locks. */
  datatype Locals = Locals(
    request: Option<Request>, sender: WalletId, receiver: WalletId, rows: map<WalletId, Wallet>)

  /** One call. `answer` is set when the call has finished. */
  datatype Tx = Tx(
    cmd: Command, attempt: nat, claims: nat, pc: Pc, env: Env, held: set<Lock>, staged: Staged,
    locals: Locals, answer: Option<Answer>)
  {
    predicate Finished() { answer.Some? }
  }

  /** What the outside supplies to one statement: a clock reading and the answer of the risk rules. */
  datatype Choice = Choice(now: int, risk: RiskLevel)

  function NewTx(cmd: Command, attempt: nat, pc: Pc, serial: nat, startNow: int): Tx {
    Tx(cmd, attempt, 0, pc, Env(serial, startNow, 0, 0, 0, 0, Low), {}, NOTHING,
       Locals(None, 0, 0, map[]), None)
  }

  // ---------- values computed from locals ----------

  const NO_REQUEST := Request(0, 0, 0, None, Pending, None, None)
  const NO_WALLET := Wallet(0, 0, WalletClosed, UserClosed)

  function RequestRow(l: Locals): Request {
    if l.request.Some? then l.request.value else NO_REQUEST
  }

  function WalletRow(l: Locals, id: WalletId): Wallet {
    if id in l.rows then l.rows[id] else NO_WALLET
  }

  function InputOf(cmd: Command, l: Locals): SettleInput {
    match cmd
    case Direct(actor, receiver, amount, note, _) => SettleInput(actor, UserIn(receiver), receiver, amount, note, None)
    case Accept(_, _, _) => InputFrom(cmd.RequestId(), RequestRow(l))
    case _ => NO_INPUT
  }

  /** Wallets are locked in ascending id order, whoever pays whom. */
  function First(l: Locals): WalletId { if l.sender <= l.receiver then l.sender else l.receiver }
  function Second(l: Locals): WalletId { if l.sender <= l.receiver then l.receiver else l.sender }

  function RequestIdOf(cmd: Command, env: Env): Uuid {
    if cmd.Resolves() then cmd.RequestId() else NewRequestId(env)
  }

  function RequestWrite(cmd: Command, l: Locals, env: Env): Request {
    if cmd.Create? then NewRequest(cmd)
    else if cmd.Resolves() then ResolvedRow(cmd, RequestRow(l), env)
    else NO_REQUEST
  }

  function RequestEvents(cmd: Command, l: Locals, env: Env): seq<Event> {
    if cmd.Create? then [CreatedEvent(cmd, env)]
    else if cmd.Resolves() then [ResolvedEvent(cmd, RequestRow(l), env)]
    else []
  }

  function ResponseOf(cmd: Command, l: Locals, env: Env): Response {
    if cmd.Direct? then ReceiptOf(InputOf(cmd, l), WalletRow(l, l.sender).balance, env)
    else ToRequestDto(RequestIdOf(cmd, env), RequestWrite(cmd, l, env), env.dtoNow)
  }

  // ---------- what a commit publishes ----------

  function OverlayWallets(wallets: map<WalletId, Wallet>, balances: map<WalletId, int>): map<WalletId, Wallet> {
    map w | w in wallets :: if w in balances then wallets[w].(balance := balances[w]) else wallets[w]
  }

  /** Committed rows, overlaid with a transaction's own writes. */
  function Overlay(db: Db, cmd: Command, env: Env, st: Staged): Db {
    Db(db.walletOf,
       OverlayWallets(db.wallets, st.balances),
       if st.transfer.Some? then db.transfers + [st.transfer.value] else db.transfers,
       db.ledger + st.ledger,
       if st.risk.Some? then db.risks[TransferId(env) := st.risk.value] else db.risks,
       if st.request.Some? then db.requests[RequestIdOf(cmd, env) := st.request.value] else db.requests,
       db.events + st.events,
       if st.record.Some? then db.records[KeyOf(cmd) := st.record.value] else db.records)
  }

  /** The balance an UPDATE of this transaction starts from: its own version, or the committed one. */
  function VisibleBalance(db: Db, st: Staged, id: WalletId): int {
    if id in st.balances then st.balances[id]
    else if id in db.wallets then db.wallets[id].balance
    else 0
  }

  // ---------- one statement ----------

  function Finish(tx: Tx, answer: Answer): Tx {
    tx.(pc := DONE, held := {}, staged := NOTHING, answer := Some(answer))
  }

  function AfterClaim(cmd: Command): Pc {
    if cmd.Direct? then FIND_WALLETS else if cmd.Create? then FIND_PAYER else LOCK_REQUEST
  }

  function Claim(tx: Tx): Tx {
    tx.(pc := AfterClaim(tx.cmd), held := tx.held + {KeyLock(KeyOf(tx.cmd))},
        staged := tx.staged.(record := Some(Record(PayloadOf(tx.cmd), Processing))))
  }

  /** `begin`, second half: the key was taken, so lock and inspect the row that took it. */
  function InspectRecord(db: Db, tx: Tx): Tx {
    var key := KeyOf(tx.cmd);
    if key !in db.records then
      // The holder rolled back between the claim and the lock: try to claim again.
      if tx.claims + 1 < MAX_CLAIMS then tx.(claims := tx.claims + 1, pc := BEGIN)
      else Finish(tx, Err(StillProcessing))
    else if db.records[key].hash != PayloadOf(tx.cmd) then Finish(tx, Err(KeyReused))
    else if db.records[key].state.Completed? then Finish(tx, Ok(db.records[key].state.response))
    else Claim(tx)
  }

  function ReadWallet(db: Db, tx: Tx, id: WalletId, next: Pc): Tx {
    if id in db.wallets
    then tx.(locals := tx.locals.(rows := tx.locals.rows[id := db.wallets[id]]), pc := next)
    else Finish(tx, Err(InternalError))
  }

  function Check(tx: Tx, r: Result<(), Error>, next: Pc): Tx {
    match r case Err(e) => Finish(tx, Err(e)) case Ok(_) => tx.(pc := next)
  }

  /** Refuse early, claim the key or inspect its record, lock and check the request. */
  function ClaimStatement(db: Db, tx: Tx, now: int): Tx {
    var cmd := tx.cmd;
    if tx.pc == START then Check(tx.(env := tx.env.(startNow := now)), Precheck(cmd, now), BEGIN)
    else if tx.pc == BEGIN then
      if KeyOf(cmd) in db.records then tx.(pc := LOCK_EXISTING) else Claim(tx)
    else if tx.pc == LOCK_EXISTING then InspectRecord(db, tx)
    else if !cmd.Resolves() || cmd.RequestId() !in db.requests then Finish(tx, Err(RequestNotFound))
    else if tx.pc == LOCK_REQUEST then tx.(held := tx.held + {RequestLock(cmd.RequestId())}, pc := READ_REQUEST)
    else
      var row := db.requests[cmd.RequestId()];
      Check(tx.(env := tx.env.(deadlineNow := now), locals := tx.locals.(request := Some(row))),
            CheckRow(row, cmd, now), if cmd.Accept? then FIND_WALLETS else MARK_REQUEST)
  }

  /** Find the wallets, lock and re-read them in id order, check everything again. */
  function LockStatement(lim: Limits, db: Db, tx: Tx, now: int): Tx {
    var l, input := tx.locals, InputOf(tx.cmd, tx.locals);
    if tx.pc == FIND_WALLETS then
      match FindParties(db, input)
      case Err(e) => Finish(tx, Err(e))
      case Ok((s, r)) => tx.(locals := l.(sender := s, receiver := r), pc := LOCK_FIRST)
    else if tx.pc == LOCK_FIRST then tx.(held := tx.held + {WalletLock(First(l))}, pc := READ_FIRST)
    else if tx.pc == READ_FIRST then ReadWallet(db, tx, First(l), LOCK_SECOND)
    else if tx.pc == LOCK_SECOND then tx.(held := tx.held + {WalletLock(Second(l))}, pc := READ_SECOND)
    else if tx.pc == READ_SECOND then ReadWallet(db, tx, Second(l), CHECK_ROWS)
    else if tx.pc == CHECK_ROWS then
      Check(tx, CheckParties(WalletRow(l, l.sender), WalletRow(l, l.receiver), input.amount), CHECK_LIMITS)
    else
      Check(tx.(env := tx.env.(limitNow := now)),
            Need(WithinLimits(lim, db.transfers, input.sender, input.amount, now), LimitExceeded),
            INSERT_TRANSFER)
  }

  /** Write the transfer, the ledger pair, the balances, the status, the score and the event. */
  function MoveStatement(db: Db, tx: Tx, ch: Choice): Tx {
    var st, l, input := tx.staged, tx.locals, InputOf(tx.cmd, tx.locals);
    if tx.pc == INSERT_TRANSFER && input.sender == input.receiver then Finish(tx, Err(ConstraintViolation))
    else if tx.pc == INSERT_TRANSFER then
      var env := tx.env.(createdAt := ch.now);
      tx.(env := env, pc := WRITE_DEBIT,
          staged := st.(transfer := Some(TransferRow(input, l.sender, l.receiver, env, TransferPending))))
    else if tx.pc == WRITE_DEBIT then
      var entry := DebitEntry(TransferId(tx.env), l.sender, WalletRow(l, l.sender).balance, input.amount);
      tx.(staged := st.(ledger := st.ledger + [entry]), pc := WRITE_CREDIT)
    else if tx.pc == WRITE_CREDIT then
      var entry := CreditEntry(TransferId(tx.env), l.receiver, WalletRow(l, l.receiver).balance, input.amount);
      tx.(staged := st.(ledger := st.ledger + [entry]), pc := MOVE_SENDER)
    else if tx.pc == MOVE_SENDER then
      var balance := VisibleBalance(db, st, l.sender) - input.amount;
      tx.(staged := st.(balances := st.balances[l.sender := balance]), pc := MOVE_RECEIVER)
    else if tx.pc == MOVE_RECEIVER then
      var balance := VisibleBalance(db, st, l.receiver) + input.amount;
      tx.(staged := st.(balances := st.balances[l.receiver := balance]), pc := MARK_SUCCEEDED)
    else if tx.pc == MARK_SUCCEEDED then
      var transfer := if st.transfer.Some? then Some(st.transfer.value.(status := TransferSucceeded)) else None;
      tx.(staged := st.(transfer := transfer), pc := ASSESS_RISK)
    else if tx.pc == ASSESS_RISK then
      var env := tx.env.(risk := ch.risk);
      tx.(env := env, pc := EMIT_TRANSFER,
          staged := st.(risk := Some(ch.risk), events := st.events + RiskEvents(env)))
    else
      tx.(staged := st.(events := st.events + [DoneEvent(input, tx.env)]),
          pc := if tx.cmd.Direct? then COMPLETE else MARK_REQUEST)
  }

  /** Insert or flip the request row, announce it, store the response, commit. */
  function CloseStatement(db: Db, tx: Tx, now: int): Tx {
    var cmd, st, l := tx.cmd, tx.staged, tx.locals;
    if tx.pc == FIND_PAYER then
      Check(tx, Need(cmd.Create? && ActiveUser(db, cmd.PayerId()), UserNotFound), INSERT_REQUEST)
    else if tx.pc == INSERT_REQUEST && !RequestAdmitted(RequestWrite(cmd, l, tx.env)) then
      Finish(tx, Err(ConstraintViolation))
    else if tx.pc == INSERT_REQUEST || tx.pc == MARK_REQUEST then
      tx.(staged := st.(request := Some(RequestWrite(cmd, l, tx.env))), pc := EMIT_REQUEST)
    else if tx.pc == EMIT_REQUEST then
      tx.(staged := st.(events := st.events + RequestEvents(cmd, l, tx.env)), pc := COMPLETE)
    else if tx.pc == COMPLETE then
      var env := tx.env.(dtoNow := now);
      var record := Record(PayloadOf(cmd), Completed(HttpStatusOf(cmd), ResponseOf(cmd, l, env)));
      tx.(env := env, staged := st.(record := Some(record)), pc := COMMIT)
    else Finish(tx, Ok(ResponseOf(cmd, l, tx.env)))
  }

  /** Execute the statement at the program counter. The locks it asks for are free. */
  function Execute(lim: Limits, db: Db, tx: Tx, ch: Choice): Tx {
    if tx.pc <= READ_REQUEST then ClaimStatement(db, tx, ch.now)
    else if tx.pc <= CHECK_LIMITS then LockStatement(lim, db, tx, ch.now)
    else if tx.pc <= EMIT_TRANSFER then MoveStatement(db, tx, ch)
    else CloseStatement(db, tx, ch.now)
  }

  // ---------- the whole system ----------

  /** `history` logs the answers in the order they were given, with registrations in between. */
  datatype Sys = Sys(lim: Limits, db: Db, calls: map<CallId, Tx>, nextSerial: nat, history: seq<Entry>)

  function Init(lim: Limits): Sys { Sys(lim, EMPTY, map[], 0, []) }

  datatype Action =
    | Submit(call: CallId, cmd: Command)
    | Advance(call: CallId, choice: Choice)
    | LoseReply(call: CallId)                  // the commit took effect, its acknowledgement did not arrive
    | Abort(call: CallId, retryable: bool)     // timeout, crash, deadlock or serialization failure
    | Register(user: UserId, id: WalletId, wallet: Wallet)

  predicate Unfinished(s: Sys, c: CallId) { c in s.calls && !s.calls[c].Finished() }

  /** The lock a statement waits for. An insert waits only while the key is uncommitted, and
      SELECT ... FOR UPDATE of a row that does not exist waits for nothing. */
  function Wanted(db: Db, tx: Tx): Option<Lock> {
    if tx.pc == BEGIN then
      if KeyOf(tx.cmd) in db.records then None else Some(KeyLock(KeyOf(tx.cmd)))
    else if tx.pc == LOCK_EXISTING then Some(KeyLock(KeyOf(tx.cmd)))
    else if tx.pc == LOCK_REQUEST then
      if tx.cmd.Resolves() && tx.cmd.RequestId() in db.requests then Some(RequestLock(tx.cmd.RequestId())) else None
    else if tx.pc == LOCK_FIRST then Some(WalletLock(First(tx.locals)))
    else if tx.pc == LOCK_SECOND then Some(WalletLock(Second(tx.locals)))
    else None
  }

  predicate Free(s: Sys, c: CallId, lock: Option<Lock>) {
    lock.Some? ==> forall d :: d in s.calls && d != c ==> lock.value !in s.calls[d].held
  }

  /** The row's timestamp is read after the clock reading of its own limit check. */
  predicate ClockRuns(tx: Tx, now: int) {
    tx.pc == INSERT_TRANSFER ==> tx.env.limitNow <= now
  }

  predicate Enabled(s: Sys, a: Action) {
    match a
    case Submit(c, _) => c !in s.calls
    case Advance(c, ch) => Unfinished(s, c) && Free(s, c, Wanted(s.db, s.calls[c])) && ClockRuns(s.calls[c], ch.now)
    case LoseReply(c) => Unfinished(s, c) && s.calls[c].pc == COMMIT
    case Abort(c, _) => Unfinished(s, c) && s.calls[c].pc != START
    case Register(user, id, wallet) => CanRegister(s.db, user, id, wallet)
  }

  /** Rolled back whole. Only transfers and acceptances are retried, and at most twice. */
  function AfterAbort(tx: Tx, retryable: bool, serial: nat): Tx {
    if retryable && tx.cmd.Settles() && tx.attempt < MAX_ATTEMPTS
    then NewTx(tx.cmd, tx.attempt + 1, BEGIN, serial, tx.env.startNow)
    else Finish(tx, Err(Aborted))
  }

  /** Publish the staged rows and log the answer. */
  function Committed(s: Sys, c: CallId, tx: Tx, finished: Tx): Sys {
    s.(db := Overlay(s.db, tx.cmd, tx.env, tx.staged),
       calls := s.calls[c := finished],
       history := s.history + [Answered(c, tx.cmd, tx.env, Ok(ResponseOf(tx.cmd, tx.locals, tx.env)))])
  }

  function Next(s: Sys, a: Action): Sys
    requires Enabled(s, a)
  {
    match a
    case Submit(c, cmd) =>
      s.(calls := s.calls[c := NewTx(cmd, 1, START, s.nextSerial, 0)], nextSerial := s.nextSerial + 1)
    case Advance(c, ch) =>
      var tx := s.calls[c];
      var tx' := Execute(s.lim, s.db, tx, ch);
      if tx.pc == COMMIT then Committed(s, c, tx, tx')
      else s.(calls := s.calls[c := tx'],
              history := if tx'.Finished() then s.history + [Answered(c, tx.cmd, tx'.env, tx'.answer.value)]
                         else s.history)
    case LoseReply(c) => Committed(s, c, s.calls[c], Finish(s.calls[c], Err(Aborted)))
    case Abort(c, retryable) =>
      s.(calls := s.calls[c := AfterAbort(s.calls[c], retryable, s.nextSerial)],
         nextSerial := s.nextSerial + 1)
    case Register(user, id, wallet) =>
      s.(db := Operations.Register(s.db, user, id, wallet),
         history := s.history + [Registered(user, id, wallet)])
  }

  predicate ValidRun(s: Sys, run: seq<Action>)
    decreases |run|
  {
    run == [] || (Enabled(s, run[0]) && ValidRun(Next(s, run[0]), run[1..]))
  }

  function Final(s: Sys, run: seq<Action>): Sys
    requires ValidRun(s, run)
    decreases |run|
  {
    if run == [] then s else Final(Next(s, run[0]), run[1..])
  }
}
