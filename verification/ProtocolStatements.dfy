/** Each statement of a transaction keeps the transaction consistent, and the statement
    that answers gives exactly the answer of the atomic operation. */
module ProtocolStatements {
  import opened Wrappers
  import opened Tables
  import opened Limits
  import opened Operations
  import opened History
  import opened Protocol
  import opened ProtocolInvariant

  /** The next statement of an open transaction lies in this part of the program. */
  predicate Between(tx: Tx, first: Pc, last: Pc) { first <= tx.pc <= last && PcFits(tx.cmd, tx.pc) && !tx.Finished() }

  // Each part of the program keeps, one by one: the locks and what is known of the key; what is
  // known of the request; of the wallets; the checks passed; and the staged writes.

  lemma ClaimKeepsPlace(db: Db, tx: Tx, now: int)
    requires Between(tx, START, READ_REQUEST) && !ClaimStatement(db, tx, now).Finished() && RecordsCompleted(db)
    requires tx.claims == 0 && KeyFacts(db, tx.cmd, tx.pc)
    requires tx.held == HeldAt(tx.cmd, tx.pc, tx.locals)
    ensures var t := ClaimStatement(db, tx, now);
            PcFits(t.cmd, t.pc) && t.held == HeldAt(t.cmd, t.pc, t.locals) && KeyFacts(db, t.cmd, t.pc)
  {
  }

  lemma ClaimKeepsRequest(db: Db, tx: Tx, now: int)
    requires Between(tx, START, READ_REQUEST) && !ClaimStatement(db, tx, now).Finished() && RecordsCompleted(db)
    requires tx.claims == 0 && KeyFacts(db, tx.cmd, tx.pc)
    requires RequestFacts(db, tx.cmd, tx.pc, tx.locals, tx.env)
    ensures var t := ClaimStatement(db, tx, now);
            RequestFacts(db, t.cmd, t.pc, t.locals, t.env)
  {
  }

  lemma ClaimKeepsWallets(db: Db, tx: Tx, now: int)
    requires Between(tx, START, READ_REQUEST) && !ClaimStatement(db, tx, now).Finished() && RecordsCompleted(db)
    requires tx.claims == 0 && KeyFacts(db, tx.cmd, tx.pc)
    requires WalletFacts(db, tx.cmd, tx.pc, tx.locals)
    ensures var t := ClaimStatement(db, tx, now);
            WalletFacts(db, t.cmd, t.pc, t.locals)
  {
  }

  lemma ClaimKeepsChecks(lim: Limits, db: Db, tx: Tx, now: int)
    requires Between(tx, START, READ_REQUEST) && !ClaimStatement(db, tx, now).Finished() && RecordsCompleted(db)
    requires tx.claims == 0 && KeyFacts(db, tx.cmd, tx.pc)
    requires WalletFacts(db, tx.cmd, tx.pc, tx.locals) && CheckFacts(lim, db, tx.cmd, tx.pc, tx.locals, tx.env)
    ensures var t := ClaimStatement(db, tx, now);
            CheckFacts(lim, db, t.cmd, t.pc, t.locals, t.env)
  {
  }

  lemma ClaimKeepsStaged(db: Db, tx: Tx, now: int)
    requires Between(tx, START, READ_REQUEST) && !ClaimStatement(db, tx, now).Finished() && RecordsCompleted(db)
    requires tx.claims == 0 && KeyFacts(db, tx.cmd, tx.pc)
    requires tx.staged == StagedAt(tx.cmd, tx.pc, tx.locals, tx.env)
    ensures var t := ClaimStatement(db, tx, now);
            t.staged == StagedAt(t.cmd, t.pc, t.locals, t.env)
  {
  }

  lemma LockKeepsPlace(lim: Limits, db: Db, tx: Tx, now: int)
    requires Between(tx, FIND_WALLETS, CHECK_LIMITS) && !LockStatement(lim, db, tx, now).Finished()
    requires KeyFacts(db, tx.cmd, tx.pc)
    requires tx.held == HeldAt(tx.cmd, tx.pc, tx.locals)
    ensures var t := LockStatement(lim, db, tx, now);
            PcFits(t.cmd, t.pc) && t.held == HeldAt(t.cmd, t.pc, t.locals) && KeyFacts(db, t.cmd, t.pc)
  {
  }

  lemma LockKeepsRequest(lim: Limits, db: Db, tx: Tx, now: int)
    requires Between(tx, FIND_WALLETS, CHECK_LIMITS) && !LockStatement(lim, db, tx, now).Finished()
    requires KeyFacts(db, tx.cmd, tx.pc)
    requires RequestFacts(db, tx.cmd, tx.pc, tx.locals, tx.env)
    ensures var t := LockStatement(lim, db, tx, now);
            RequestFacts(db, t.cmd, t.pc, t.locals, t.env)
  {
  }

  lemma LockKeepsWallets(lim: Limits, db: Db, tx: Tx, now: int)
    requires Between(tx, FIND_WALLETS, CHECK_LIMITS) && !LockStatement(lim, db, tx, now).Finished()
    requires KeyFacts(db, tx.cmd, tx.pc)
    requires WalletFacts(db, tx.cmd, tx.pc, tx.locals)
    ensures var t := LockStatement(lim, db, tx, now);
            WalletFacts(db, t.cmd, t.pc, t.locals)
  {
  }

  lemma LockKeepsChecks(lim: Limits, db: Db, tx: Tx, now: int)
    requires Between(tx, FIND_WALLETS, CHECK_LIMITS) && !LockStatement(lim, db, tx, now).Finished()
    requires KeyFacts(db, tx.cmd, tx.pc)
    requires WalletFacts(db, tx.cmd, tx.pc, tx.locals) && CheckFacts(lim, db, tx.cmd, tx.pc, tx.locals, tx.env)
    ensures var t := LockStatement(lim, db, tx, now);
            CheckFacts(lim, db, t.cmd, t.pc, t.locals, t.env)
  {
  }

  lemma LockKeepsStaged(lim: Limits, db: Db, tx: Tx, now: int)
    requires Between(tx, FIND_WALLETS, CHECK_LIMITS) && !LockStatement(lim, db, tx, now).Finished()
    requires KeyFacts(db, tx.cmd, tx.pc)
    requires tx.staged == StagedAt(tx.cmd, tx.pc, tx.locals, tx.env)
    ensures var t := LockStatement(lim, db, tx, now);
            t.staged == StagedAt(t.cmd, t.pc, t.locals, t.env)
  {
  }

  lemma MoveKeepsPlace(db: Db, tx: Tx, ch: Choice)
    requires Between(tx, INSERT_TRANSFER, EMIT_TRANSFER) && !MoveStatement(db, tx, ch).Finished()
    requires KeyFacts(db, tx.cmd, tx.pc)
    requires tx.held == HeldAt(tx.cmd, tx.pc, tx.locals)
    ensures var t := MoveStatement(db, tx, ch);
            PcFits(t.cmd, t.pc) && t.held == HeldAt(t.cmd, t.pc, t.locals) && KeyFacts(db, t.cmd, t.pc)
  {
  }

  lemma MoveKeepsRequest(db: Db, tx: Tx, ch: Choice)
    requires Between(tx, INSERT_TRANSFER, EMIT_TRANSFER) && !MoveStatement(db, tx, ch).Finished()
    requires KeyFacts(db, tx.cmd, tx.pc)
    requires RequestFacts(db, tx.cmd, tx.pc, tx.locals, tx.env)
    ensures var t := MoveStatement(db, tx, ch);
            RequestFacts(db, t.cmd, t.pc, t.locals, t.env)
  {
  }

  lemma MoveKeepsWallets(db: Db, tx: Tx, ch: Choice)
    requires Between(tx, INSERT_TRANSFER, EMIT_TRANSFER) && !MoveStatement(db, tx, ch).Finished()
    requires KeyFacts(db, tx.cmd, tx.pc)
    requires WalletFacts(db, tx.cmd, tx.pc, tx.locals)
    ensures var t := MoveStatement(db, tx, ch);
            WalletFacts(db, t.cmd, t.pc, t.locals)
  {
  }

  lemma MoveKeepsChecks(lim: Limits, db: Db, tx: Tx, ch: Choice)
    requires Between(tx, INSERT_TRANSFER, EMIT_TRANSFER) && !MoveStatement(db, tx, ch).Finished()
    requires KeyFacts(db, tx.cmd, tx.pc)
    requires WalletFacts(db, tx.cmd, tx.pc, tx.locals) && CheckFacts(lim, db, tx.cmd, tx.pc, tx.locals, tx.env)
    requires ClockRuns(tx, ch.now)
    ensures var t := MoveStatement(db, tx, ch);
            CheckFacts(lim, db, t.cmd, t.pc, t.locals, t.env)
  {
  }

  /** The two updates start from the committed balances, which are the locked rows. */
  lemma UpdatesStartFromLockedRows(db: Db, cmd: Command, pc: Pc, l: Locals, st: Staged)
    requires cmd.Settles() && pc > READ_SECOND && WalletsIndexed(db) && WalletFacts(db, cmd, pc, l)
    requires st.balances == BalancesAt(cmd, pc, l) && InputOf(cmd, l).sender != InputOf(cmd, l).receiver
    ensures l.sender != l.receiver
    ensures pc == MOVE_SENDER ==> VisibleBalance(db, st, l.sender) == WalletRow(l, l.sender).balance
    ensures pc == MOVE_RECEIVER ==> VisibleBalance(db, st, l.receiver) == WalletRow(l, l.receiver).balance
  {
    assert l.rows.Keys == {First(l), Second(l)};
    assert l.sender in l.rows && l.receiver in l.rows;
  }

  lemma MoveKeepsStaged(lim: Limits, db: Db, tx: Tx, ch: Choice)
    requires Between(tx, INSERT_TRANSFER, EMIT_TRANSFER) && !MoveStatement(db, tx, ch).Finished()
    requires KeyFacts(db, tx.cmd, tx.pc)
    requires WalletsIndexed(db) && WalletFacts(db, tx.cmd, tx.pc, tx.locals)
    requires CheckFacts(lim, db, tx.cmd, tx.pc, tx.locals, tx.env)
    requires tx.staged == StagedAt(tx.cmd, tx.pc, tx.locals, tx.env)
    ensures var t := MoveStatement(db, tx, ch);
            t.staged == StagedAt(t.cmd, t.pc, t.locals, t.env)
  {
    hide WithinLimits, CheckParties, WalletFacts, WalletsIndexed, VisibleBalance, InputOf, WalletRow, KeyFacts;
    UpdatesStartFromLockedRows(db, tx.cmd, tx.pc, tx.locals, tx.staged);
  }

  lemma CloseKeepsPlace(db: Db, tx: Tx, now: int)
    requires Between(tx, FIND_PAYER, COMMIT) && !CloseStatement(db, tx, now).Finished() && KeyFacts(db, tx.cmd, tx.pc)
    requires tx.held == HeldAt(tx.cmd, tx.pc, tx.locals)
    ensures var t := CloseStatement(db, tx, now);
            PcFits(t.cmd, t.pc) && t.held == HeldAt(t.cmd, t.pc, t.locals) && KeyFacts(db, t.cmd, t.pc)
  {
  }

  lemma CloseKeepsRequest(db: Db, tx: Tx, now: int)
    requires Between(tx, FIND_PAYER, COMMIT) && !CloseStatement(db, tx, now).Finished() && KeyFacts(db, tx.cmd, tx.pc)
    requires RequestFacts(db, tx.cmd, tx.pc, tx.locals, tx.env)
    ensures var t := CloseStatement(db, tx, now);
            RequestFacts(db, t.cmd, t.pc, t.locals, t.env)
  {
  }

  lemma CloseKeepsWallets(db: Db, tx: Tx, now: int)
    requires Between(tx, FIND_PAYER, COMMIT) && !CloseStatement(db, tx, now).Finished() && KeyFacts(db, tx.cmd, tx.pc)
    requires WalletFacts(db, tx.cmd, tx.pc, tx.locals)
    ensures var t := CloseStatement(db, tx, now);
            WalletFacts(db, t.cmd, t.pc, t.locals)
  {
  }

  lemma CloseKeepsChecks(lim: Limits, db: Db, tx: Tx, now: int)
    requires Between(tx, FIND_PAYER, COMMIT) && !CloseStatement(db, tx, now).Finished() && KeyFacts(db, tx.cmd, tx.pc)
    requires WalletFacts(db, tx.cmd, tx.pc, tx.locals) && CheckFacts(lim, db, tx.cmd, tx.pc, tx.locals, tx.env)
    ensures var t := CloseStatement(db, tx, now);
            CheckFacts(lim, db, t.cmd, t.pc, t.locals, t.env)
  {
  }

  lemma CloseKeepsStaged(db: Db, tx: Tx, now: int)
    requires Between(tx, FIND_PAYER, COMMIT) && !CloseStatement(db, tx, now).Finished() && KeyFacts(db, tx.cmd, tx.pc)
    requires tx.staged == StagedAt(tx.cmd, tx.pc, tx.locals, tx.env)
    ensures var t := CloseStatement(db, tx, now);
            t.staged == StagedAt(t.cmd, t.pc, t.locals, t.env)
  {
    hide InputOf, WalletRow, ReceiptOf, ToRequestDto, DebitEntry, CreditEntry, KeyOf, PayloadOf, ActiveUser, KeyFacts;
  }

  // ---------- answers ----------

  /** The key is unclaimed and the early checks passed, so the atomic operation performs. */
  predicate AtPerform(db: Db, cmd: Command, env: Env) {
    Precheck(cmd, env.startNow).Ok? && KeyOf(cmd) !in db.records
  }

  lemma ClaimAnswers(lim: Limits, db: Db, tx: Tx, now: int)
    requires tx.pc <= READ_REQUEST && PcFits(tx.cmd, tx.pc) && !tx.Finished() && tx.claims == 0
    requires tx.pc != START ==> Precheck(tx.cmd, tx.env.startNow).Ok?
    requires RecordsCompleted(db) && KeyFacts(db, tx.cmd, tx.pc)
    requires RequestFacts(db, tx.cmd, tx.pc, tx.locals, tx.env)
    requires ClaimStatement(db, tx, now).Finished()
    ensures var t := ClaimStatement(db, tx, now); Handle(lim, db, tx.cmd, t.env) == (db, t.answer.value)
  {
  }

  /** The settlement that a direct transfer or an acceptance performs is the one in progress. */
  lemma PerformSettles(lim: Limits, db: Db, cmd: Command, pc: Pc, l: Locals, env: Env)
    requires cmd.Settles() && FIND_WALLETS <= pc && RequestFacts(db, cmd, pc, l, env)
    ensures Settle(lim, db, InputOf(cmd, l), env).Err?
            ==> Perform(lim, db, cmd, env) == Err(Settle(lim, db, InputOf(cmd, l), env).error)
    ensures Settle(lim, db, InputOf(cmd, l), env).Ok?
            ==> Perform(lim, db, cmd, env)
                == Ok(var (moved, receipt) := Settle(lim, db, InputOf(cmd, l), env).value;
                      if cmd.Direct? then (moved, receipt) else ResolveRequest(moved, cmd, RequestRow(l), env))
  {
  }

  lemma LockAnswers(lim: Limits, db: Db, tx: Tx, now: int)
    requires FIND_WALLETS <= tx.pc <= CHECK_LIMITS && PcFits(tx.cmd, tx.pc) && !tx.Finished()
    requires WalletsIndexed(db) && WalletFacts(db, tx.cmd, tx.pc, tx.locals)
    requires CheckFacts(lim, db, tx.cmd, tx.pc, tx.locals, tx.env)
    requires LockStatement(lim, db, tx, now).Finished()
    ensures var t := LockStatement(lim, db, tx, now);
            Settle(lim, db, InputOf(tx.cmd, tx.locals), t.env) == Err(t.answer.value.error) && t.answer.value.Err?
  {
  }

  /** The insert is refused exactly where the atomic settlement is. */
  lemma MoveAnswers(lim: Limits, db: Db, tx: Tx, ch: Choice)
    requires Between(tx, INSERT_TRANSFER, EMIT_TRANSFER)
    requires WalletsIndexed(db) && WalletFacts(db, tx.cmd, tx.pc, tx.locals)
    requires CheckFacts(lim, db, tx.cmd, tx.pc, tx.locals, tx.env)
    requires MoveStatement(db, tx, ch).Finished()
    ensures var t := MoveStatement(db, tx, ch);
            t.answer == Some(Err(ConstraintViolation)) && t.env == tx.env
            && Settle(lim, db, InputOf(tx.cmd, tx.locals), tx.env) == Err(ConstraintViolation)
  {
    hide WithinLimits, CheckParties;
    var l := tx.locals;
    assert l.rows.Keys == {First(l), Second(l)};
    assert l.sender in l.rows && l.receiver in l.rows;
  }

  lemma CloseAnswers(lim: Limits, db: Db, tx: Tx, now: int)
    requires FIND_PAYER <= tx.pc < COMMIT && PcFits(tx.cmd, tx.pc) && !tx.Finished()
    requires AtPerform(db, tx.cmd, tx.env) && CheckFacts(lim, db, tx.cmd, tx.pc, tx.locals, tx.env)
    requires CloseStatement(db, tx, now).Finished()
    ensures var t := CloseStatement(db, tx, now); Handle(lim, db, tx.cmd, t.env) == (db, t.answer.value)
  {
  }

  /** A statement that refuses gives the refusal of the atomic operation on the same tables. */
  lemma RefusalIsHandle(lim: Limits, db: Db, tx: Tx, ch: Choice)
    requires OpenOk(lim, db, tx) && !tx.Finished() && tx.pc != COMMIT
    requires WalletsIndexed(db) && RecordsCompleted(db)
    requires Execute(lim, db, tx, ch).Finished()
    ensures var t := Execute(lim, db, tx, ch); Handle(lim, db, tx.cmd, t.env) == (db, t.answer.value)
  {
    hide Settle, Perform, StagedAt, HeldAt, Unused;
    if tx.pc <= READ_REQUEST {
      ClaimAnswers(lim, db, tx, ch.now);
    } else if tx.pc <= CHECK_LIMITS {
      var t := Execute(lim, db, tx, ch);
      LockAnswers(lim, db, tx, ch.now);
      PerformSettles(lim, db, tx.cmd, tx.pc, tx.locals, t.env);
    } else if tx.pc <= EMIT_TRANSFER {
      MoveAnswers(lim, db, tx, ch);
      PerformSettles(lim, db, tx.cmd, tx.pc, tx.locals, tx.env);
    } else {
      CloseAnswers(lim, db, tx, ch.now);
    }
  }

  /** The staged rows of a finished settlement, overlaid, are the atomic settlement. */
  lemma OverlayIsSettle(lim: Limits, db: Db, cmd: Command, l: Locals, env: Env)
    requires cmd.Settles() && WalletsIndexed(db)
    requires WalletFacts(db, cmd, COMMIT, l) && CheckFacts(lim, db, cmd, COMMIT, l, env)
    ensures Settle(lim, db, InputOf(cmd, l), env)
            == Ok((MoveMoney(db, InputOf(cmd, l), l.sender, l.receiver, env),
                   ReceiptOf(InputOf(cmd, l), WalletRow(l, l.sender).balance, env)))
    ensures l.sender in db.wallets && WalletRow(l, l.sender) == db.wallets[l.sender]
    ensures l.receiver in db.wallets && WalletRow(l, l.receiver) == db.wallets[l.receiver]
    ensures OverlayWallets(db.wallets, BalancesAt(cmd, COMMIT, l))
            == MoveMoney(db, InputOf(cmd, l), l.sender, l.receiver, env).wallets
  {
    hide WithinLimits, CheckParties, UserText, UserIn;
    assert {l.sender, l.receiver} == {First(l), Second(l)};
    assert l.sender in l.rows && l.receiver in l.rows;
  }

  /** The tables after a settlement and, for an acceptance, the flip of its request. */
  function Settled(db: Db, cmd: Command, l: Locals, env: Env): Db
    requires cmd.Settles() && l.sender in db.wallets && l.receiver in db.wallets
  {
    var moved := MoveMoney(db, InputOf(cmd, l), l.sender, l.receiver, env);
    if cmd.Direct? then moved else ResolveRequest(moved, cmd, RequestRow(l), env).0
  }

  lemma OverlayIsSettled(db: Db, cmd: Command, l: Locals, env: Env)
    requires cmd.Settles()
    requires l.sender in db.wallets && WalletRow(l, l.sender) == db.wallets[l.sender]
    requires l.receiver in db.wallets && WalletRow(l, l.receiver) == db.wallets[l.receiver]
    requires OverlayWallets(db.wallets, BalancesAt(cmd, COMMIT, l))
             == MoveMoney(db, InputOf(cmd, l), l.sender, l.receiver, env).wallets
    ensures Overlay(db, cmd, env, StagedAt(cmd, COMMIT, l, env))
            == WithRecord(Settled(db, cmd, l, env), cmd, ResponseOf(cmd, l, env))
  {
    var moved := MoveMoney(db, InputOf(cmd, l), l.sender, l.receiver, env);
    assert db.events + EventsAt(cmd, COMMIT, l, env) == moved.events + RequestEvents(cmd, l, env);
    assert db.ledger + LedgerAt(cmd, COMMIT, l, env) == moved.ledger;
  }

  lemma TransferCommit(lim: Limits, db: Db, tx: Tx)
    requires OpenOk(lim, db, tx) && tx.pc == COMMIT && WalletsIndexed(db) && tx.cmd.Settles()
    ensures Handle(lim, db, tx.cmd, tx.env)
            == (Overlay(db, tx.cmd, tx.env, tx.staged), Ok(ResponseOf(tx.cmd, tx.locals, tx.env)))
  {
    OverlayIsSettle(lim, db, tx.cmd, tx.locals, tx.env);
    PerformSettles(lim, db, tx.cmd, COMMIT, tx.locals, tx.env);
    OverlayIsSettled(db, tx.cmd, tx.locals, tx.env);
  }

  lemma RequestCommit(lim: Limits, db: Db, tx: Tx)
    requires OpenOk(lim, db, tx) && tx.pc == COMMIT && !tx.cmd.Settles()
    ensures Handle(lim, db, tx.cmd, tx.env)
            == (Overlay(db, tx.cmd, tx.env, tx.staged), Ok(ResponseOf(tx.cmd, tx.locals, tx.env)))
  {
    assert OverlayWallets(db.wallets, map[]) == db.wallets;
    assert db.ledger + [] == db.ledger;
    assert [] + [] + RequestEvents(tx.cmd, tx.locals, tx.env) == RequestEvents(tx.cmd, tx.locals, tx.env);
  }

  /** The commit publishes exactly what the atomic operation does to the tables as they are now. */
  lemma CommitIsHandle(lim: Limits, db: Db, tx: Tx)
    requires OpenOk(lim, db, tx) && tx.pc == COMMIT && WalletsIndexed(db)
    ensures Handle(lim, db, tx.cmd, tx.env)
            == (Overlay(db, tx.cmd, tx.env, tx.staged), Ok(ResponseOf(tx.cmd, tx.locals, tx.env)))
  {
    if tx.cmd.Settles() { TransferCommit(lim, db, tx); } else { RequestCommit(lim, db, tx); }
  }
}
