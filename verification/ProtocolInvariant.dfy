/** What holds of every open transaction in every reachable state, and why other
    transactions cannot disturb it. */
module ProtocolInvariant {
  import opened Wrappers
  import opened Tables
  import opened Limits
  import opened Operations
  import opened History
  import opened Protocol

  // ---------- the progress of one transaction ----------

  predicate PcFits(cmd: Command, pc: Pc) {
    && pc < DONE
    && (LOCK_REQUEST <= pc <= READ_REQUEST || pc == MARK_REQUEST ==> cmd.Resolves())
    && (FIND_WALLETS <= pc <= EMIT_TRANSFER ==> cmd.Settles())
    && (FIND_PAYER <= pc <= INSERT_REQUEST ==> cmd.Create?)
    && (pc == EMIT_REQUEST ==> !cmd.Direct?)
  }

  predicate SettlesPast(cmd: Command, pc: Pc, at: Pc) { cmd.Settles() && pc > at }

  /** Exactly the locks that the statements executed so far have taken. */
  function HeldAt(cmd: Command, pc: Pc, l: Locals): set<Lock> {
    (if pc > LOCK_EXISTING then {KeyLock(KeyOf(cmd))} else {})
    + (if cmd.Resolves() && pc > LOCK_REQUEST then {RequestLock(cmd.RequestId())} else {})
    + (if SettlesPast(cmd, pc, LOCK_FIRST) then {WalletLock(First(l))} else {})
    + (if SettlesPast(cmd, pc, LOCK_SECOND) then {WalletLock(Second(l))} else {})
  }

  function RecordAt(cmd: Command, pc: Pc, l: Locals, env: Env): Option<Record> {
    if pc <= LOCK_EXISTING then None
    else if pc <= COMPLETE then Some(Record(PayloadOf(cmd), Processing))
    else Some(Record(PayloadOf(cmd), Completed(HttpStatusOf(cmd), ResponseOf(cmd, l, env))))
  }

  function BalancesAt(cmd: Command, pc: Pc, l: Locals): map<WalletId, int> {
    var amount := InputOf(cmd, l).amount;
    if !SettlesPast(cmd, pc, MOVE_SENDER) then map[]
    else if pc <= MOVE_RECEIVER then map[l.sender := WalletRow(l, l.sender).balance - amount]
    else map[l.sender := WalletRow(l, l.sender).balance - amount]
            [l.receiver := WalletRow(l, l.receiver).balance + amount]
  }

  function TransferAt(cmd: Command, pc: Pc, l: Locals, env: Env): Option<Transfer> {
    if !SettlesPast(cmd, pc, INSERT_TRANSFER) then None
    else Some(TransferRow(InputOf(cmd, l), l.sender, l.receiver, env,
                          if pc > MARK_SUCCEEDED then TransferSucceeded else TransferPending))
  }

  function LedgerAt(cmd: Command, pc: Pc, l: Locals, env: Env): seq<LedgerEntry> {
    var amount := InputOf(cmd, l).amount;
    (if SettlesPast(cmd, pc, WRITE_DEBIT)
     then [DebitEntry(TransferId(env), l.sender, WalletRow(l, l.sender).balance, amount)] else [])
    + (if SettlesPast(cmd, pc, WRITE_CREDIT)
       then [CreditEntry(TransferId(env), l.receiver, WalletRow(l, l.receiver).balance, amount)] else [])
  }

  function RequestAt(cmd: Command, pc: Pc, l: Locals, env: Env): Option<Request> {
    if (cmd.Create? && pc > INSERT_REQUEST) || (cmd.Resolves() && pc > MARK_REQUEST)
    then Some(RequestWrite(cmd, l, env)) else None
  }

  function EventsAt(cmd: Command, pc: Pc, l: Locals, env: Env): seq<Event> {
    (if SettlesPast(cmd, pc, ASSESS_RISK) then RiskEvents(env) else [])
    + (if SettlesPast(cmd, pc, EMIT_TRANSFER) then [DoneEvent(InputOf(cmd, l), env)] else [])
    + (if pc > EMIT_REQUEST then RequestEvents(cmd, l, env) else [])
  }

  /** Exactly the writes that the statements executed so far have staged, computed from locals. */
  function StagedAt(cmd: Command, pc: Pc, l: Locals, env: Env): Staged {
    Staged(RecordAt(cmd, pc, l, env), BalancesAt(cmd, pc, l), TransferAt(cmd, pc, l, env),
           LedgerAt(cmd, pc, l, env), if SettlesPast(cmd, pc, ASSESS_RISK) then Some(env.risk) else None,
           RequestAt(cmd, pc, l, env), EventsAt(cmd, pc, l, env))
  }

  // ---------- what a transaction relies on about committed rows ----------

  predicate KeyFacts(db: Db, cmd: Command, pc: Pc) {
    && (pc == LOCK_EXISTING ==> KeyOf(cmd) in db.records)
    && (pc > LOCK_EXISTING ==> KeyOf(cmd) !in db.records)
  }

  predicate RequestFacts(db: Db, cmd: Command, pc: Pc, l: Locals, env: Env) {
    cmd.Resolves() ==>
      && (pc > LOCK_REQUEST ==> cmd.RequestId() in db.requests)
      && (pc > READ_REQUEST ==> db.requests[cmd.RequestId()] == RequestRow(l)
                                && CheckRow(RequestRow(l), cmd, env.deadlineNow).Ok?)
  }

  predicate WalletFacts(db: Db, cmd: Command, pc: Pc, l: Locals) {
    cmd.Settles() ==>
      && (pc > FIND_WALLETS ==> FindParties(db, InputOf(cmd, l)) == Ok((l.sender, l.receiver)))
      && l.rows.Keys == (if pc > READ_FIRST then {First(l)} else {}) + (if pc > READ_SECOND then {Second(l)} else {})
      && (forall w :: w in l.rows ==> w in db.wallets && db.wallets[w] == l.rows[w])
  }

  predicate CheckFacts(lim: Limits, db: Db, cmd: Command, pc: Pc, l: Locals, env: Env) {
    && (cmd.Settles() ==>
          && (pc > CHECK_ROWS ==>
                CheckParties(WalletRow(l, l.sender), WalletRow(l, l.receiver), InputOf(cmd, l).amount).Ok?)
          && (pc > CHECK_LIMITS ==>
                WithinLimits(lim, db.transfers, InputOf(cmd, l).sender, InputOf(cmd, l).amount, env.limitNow))
          && (pc > INSERT_TRANSFER ==>
                env.limitNow <= env.createdAt && InputOf(cmd, l).sender != InputOf(cmd, l).receiver))
    && (cmd.Create? ==>
          && (pc > FIND_PAYER ==> ActiveUser(db, cmd.PayerId()))
          && (pc > INSERT_REQUEST ==> RequestAdmitted(NewRequest(cmd))))
  }

  /** A finished call holds nothing, and a successful answer is the stored one. */
  predicate FinishedOk(db: Db, tx: Tx)
    requires tx.Finished()
  {
    && tx.held == {}
    && (tx.answer.value.Ok? ==>
          && KeyOf(tx.cmd) in db.records
          && db.records[KeyOf(tx.cmd)].hash == PayloadOf(tx.cmd)
          && db.records[KeyOf(tx.cmd)].state.Completed?
          && db.records[KeyOf(tx.cmd)].state.response == tx.answer.value.value)
  }

  predicate OpenOk(lim: Limits, db: Db, tx: Tx) {
    && 1 <= tx.attempt <= MAX_ATTEMPTS && tx.claims == 0
    && PcFits(tx.cmd, tx.pc)
    && (tx.pc != START ==> Precheck(tx.cmd, tx.env.startNow).Ok?)
    && tx.held == HeldAt(tx.cmd, tx.pc, tx.locals)
    && tx.staged == StagedAt(tx.cmd, tx.pc, tx.locals, tx.env)
    && Unused(db, tx.env.serial)
    && KeyFacts(db, tx.cmd, tx.pc)
    && RequestFacts(db, tx.cmd, tx.pc, tx.locals, tx.env)
    && WalletFacts(db, tx.cmd, tx.pc, tx.locals)
    && CheckFacts(lim, db, tx.cmd, tx.pc, tx.locals, tx.env)
  }

  predicate LocalOk(lim: Limits, db: Db, tx: Tx) {
    if tx.Finished() then FinishedOk(db, tx) else OpenOk(lim, db, tx)
  }

  // ---------- frames ----------

  predicate FrameWallets(db: Db, db': Db, locks: set<Lock>) {
    && (forall u :: u in db.walletOf ==> u in db'.walletOf && db'.walletOf[u] == db.walletOf[u])
    && (forall w :: w in db.wallets ==>
          && w in db'.wallets
          && (WalletLock(w) !in locks ==> db'.wallets[w] == db.wallets[w])
          && db'.wallets[w].ownerStatus == db.wallets[w].ownerStatus)
  }

  predicate FrameTransfers(db: Db, db': Db, locks: set<Lock>) {
    && db.transfers <= db'.transfers && |db'.transfers| <= |db.transfers| + 1
    && (forall i :: |db.transfers| <= i < |db'.transfers| ==>
          && db'.transfers[i].sender in db.walletOf
          && WalletLock(db.walletOf[db'.transfers[i].sender]) in locks)
  }

  predicate FrameRequests(db: Db, db': Db, locks: set<Lock>) {
    forall r :: r in db.requests ==>
      r in db'.requests && (RequestLock(r) !in locks ==> db'.requests[r] == db.requests[r])
  }

  predicate FrameRecords(db: Db, db': Db, locks: set<Lock>) {
    && (forall k :: k in db.records ==> k in db'.records && db'.records[k] == db.records[k])
    && (forall k :: k in db'.records && k !in db.records ==> KeyLock(k) in locks)
  }

  /** New ids all carry `serial`. */
  ghost predicate FrameIds(db: Db, db': Db, serial: nat) {
    forall mine: nat :: mine != serial && Unused(db, mine) ==> Unused(db', mine)
  }

  /** `db'` differs from `db` only in rows covered by `locks`, in rows whose ids carry `serial`,
      and in newly registered wallets. */
  ghost predicate Frame(db: Db, db': Db, locks: set<Lock>, serial: nat) {
    && FrameWallets(db, db', locks) && FrameTransfers(db, db', locks) && FrameRequests(db, db', locks)
    && FrameRecords(db, db', locks) && FrameIds(db, db', serial)
  }

  /** Wallet rows change only under their own lock, and every row read is locked. */
  lemma FrameKeepsWallets(db: Db, db': Db, locks: set<Lock>, cmd: Command, pc: Pc, l: Locals)
    requires FrameWallets(db, db', locks) && HeldAt(cmd, pc, l) !! locks
    requires WalletFacts(db, cmd, pc, l)
    ensures WalletFacts(db', cmd, pc, l)
  {
    if cmd.Settles() {
      forall w | w in l.rows ensures WalletLock(w) in HeldAt(cmd, pc, l) {}
    }
  }

  /** The sender's transfers grow only under the lock on the sender's wallet. */
  lemma FrameKeepsLimits(lim: Limits, db: Db, db': Db, locks: set<Lock>, sender: UserId, amount: int, now: int)
    requires FrameTransfers(db, db', locks)
    requires sender in db.walletOf && WalletLock(db.walletOf[sender]) !in locks
    requires WithinLimits(lim, db.transfers, sender, amount, now)
    ensures WithinLimits(lim, db'.transfers, sender, amount, now)
  {
    if db'.transfers != db.transfers {
      var t := db'.transfers[|db.transfers|];
      assert db'.transfers == db.transfers + [t];
      OtherSendersDoNotCount(db.transfers, t, sender, WindowsSince(now));
    }
  }

  lemma FrameKeepsChecks(
    lim: Limits, db: Db, db': Db, locks: set<Lock>, cmd: Command, pc: Pc, l: Locals, env: Env)
    requires FrameTransfers(db, db', locks) && FrameWallets(db, db', locks) && HeldAt(cmd, pc, l) !! locks
    requires WalletFacts(db, cmd, pc, l) && CheckFacts(lim, db, cmd, pc, l, env)
    ensures CheckFacts(lim, db', cmd, pc, l, env)
  {
    if SettlesPast(cmd, pc, CHECK_LIMITS) {
      assert WalletLock(l.sender) in HeldAt(cmd, pc, l);
      FrameKeepsLimits(lim, db, db', locks, InputOf(cmd, l).sender, InputOf(cmd, l).amount, env.limitNow);
    }
  }

  lemma FrameKeepsRequests(db: Db, db': Db, locks: set<Lock>, cmd: Command, pc: Pc, l: Locals, env: Env)
    requires FrameRequests(db, db', locks) && HeldAt(cmd, pc, l) !! locks
    requires RequestFacts(db, cmd, pc, l, env)
    ensures RequestFacts(db', cmd, pc, l, env)
  {
    if cmd.Resolves() && pc > LOCK_REQUEST { assert RequestLock(cmd.RequestId()) in HeldAt(cmd, pc, l); }
  }

  lemma FrameKeepsKeys(db: Db, db': Db, locks: set<Lock>, cmd: Command, pc: Pc, l: Locals)
    requires FrameRecords(db, db', locks) && HeldAt(cmd, pc, l) !! locks
    requires KeyFacts(db, cmd, pc)
    ensures KeyFacts(db', cmd, pc)
  {
    if pc > LOCK_EXISTING { assert KeyLock(KeyOf(cmd)) in HeldAt(cmd, pc, l); }
  }

  /** Whatever another transaction commits, this one's view of the world survives. */
  lemma FrameKeepsLocal(lim: Limits, db: Db, db': Db, locks: set<Lock>, serial: nat, tx: Tx)
    requires Frame(db, db', locks, serial) && tx.held !! locks && serial != tx.env.serial
    requires LocalOk(lim, db, tx)
    ensures LocalOk(lim, db', tx)
  {
    if !tx.Finished() {
      FrameKeepsWallets(db, db', locks, tx.cmd, tx.pc, tx.locals);
      FrameKeepsChecks(lim, db, db', locks, tx.cmd, tx.pc, tx.locals, tx.env);
      FrameKeepsRequests(db, db', locks, tx.cmd, tx.pc, tx.locals, tx.env);
      FrameKeepsKeys(db, db', locks, tx.cmd, tx.pc, tx.locals);
    }
  }
}
