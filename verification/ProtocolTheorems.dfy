/** Over every run of the interleaved system: the committed tables and every answer are those
    of the atomic operations, run one at a time in the order of the answers. */
module ProtocolTheorems {
  import opened Wrappers
  import opened Tables
  import opened Limits
  import opened Operations
  import opened History
  import opened Protocol
  import opened ProtocolInvariant
  import opened ProtocolStatements

  // ---------- what a commit touches ----------

  lemma CommitFramesWallets(lim: Limits, db: Db, tx: Tx)
    requires OpenOk(lim, db, tx) && tx.pc == COMMIT
    ensures FrameWallets(db, Overlay(db, tx.cmd, tx.env, tx.staged), tx.held)
  {
    var b := BalancesAt(tx.cmd, COMMIT, tx.locals);
    forall w | w in b ensures WalletLock(w) in HeldAt(tx.cmd, COMMIT, tx.locals) {}
  }

  lemma CommitFramesTransfers(lim: Limits, db: Db, tx: Tx)
    requires OpenOk(lim, db, tx) && tx.pc == COMMIT
    ensures FrameTransfers(db, Overlay(db, tx.cmd, tx.env, tx.staged), tx.held)
  {
    if tx.cmd.Settles() {
      assert WalletLock(tx.locals.sender) in HeldAt(tx.cmd, COMMIT, tx.locals);
    }
  }

  lemma CommitFramesRest(lim: Limits, db: Db, tx: Tx)
    requires OpenOk(lim, db, tx) && tx.pc == COMMIT
    ensures FrameRequests(db, Overlay(db, tx.cmd, tx.env, tx.staged), tx.held)
    ensures FrameRecords(db, Overlay(db, tx.cmd, tx.env, tx.staged), tx.held)
  {
    assert KeyLock(KeyOf(tx.cmd)) in HeldAt(tx.cmd, COMMIT, tx.locals);
  }

  lemma CommitFramesIds(lim: Limits, db: Db, tx: Tx)
    requires OpenOk(lim, db, tx) && tx.pc == COMMIT
    ensures FrameIds(db, Overlay(db, tx.cmd, tx.env, tx.staged), tx.env.serial)
  {
    hide WalletFacts, CheckFacts, KeyFacts, HeldAt, BalancesAt, OverlayWallets, LedgerAt, RecordAt, PcFits, Precheck;
    var ev := EventsAt(tx.cmd, COMMIT, tx.locals, tx.env);
    assert forall i :: 0 <= i < |ev| ==> ev[i].id.serial == tx.env.serial;
    hide EventsAt;
  }

  /** A commit changes only rows that the transaction has locked or generated. */
  lemma CommitFrames(lim: Limits, db: Db, tx: Tx)
    requires OpenOk(lim, db, tx) && tx.pc == COMMIT
    ensures Frame(db, Overlay(db, tx.cmd, tx.env, tx.staged), tx.held, tx.env.serial)
  {
    CommitFramesWallets(lim, db, tx);
    CommitFramesTransfers(lim, db, tx);
    CommitFramesRest(lim, db, tx);
    CommitFramesIds(lim, db, tx);
  }

  lemma CommitKeepsTables(lim: Limits, db: Db, tx: Tx)
    requires OpenOk(lim, db, tx) && tx.pc == COMMIT
    requires WalletsIndexed(db) && RecordsCompleted(db)
    ensures WalletsIndexed(Overlay(db, tx.cmd, tx.env, tx.staged))
    ensures RecordsCompleted(Overlay(db, tx.cmd, tx.env, tx.staged))
  {
  }

  // ---------- the system invariant ----------

  predicate TablesOk(s: Sys) { WalletsIndexed(s.db) && RecordsCompleted(s.db) }

  predicate LocalsOk(s: Sys) {
    forall c :: c in s.calls ==> LocalOk(s.lim, s.db, s.calls[c])
  }

  /** No lock has two holders. */
  predicate LocksExclusive(s: Sys) {
    forall c, d :: c in s.calls && d in s.calls && c != d ==> s.calls[c].held !! s.calls[d].held
  }

  ghost predicate SerialsFresh(s: Sys) {
    && (forall c :: c in s.calls ==> s.calls[c].env.serial < s.nextSerial)
    && (forall c, d :: c in s.calls && d in s.calls && c != d ==> s.calls[c].env.serial != s.calls[d].env.serial)
    && (forall n: nat :: n >= s.nextSerial ==> Unused(s.db, n))
  }

  predicate Linear(s: Sys) {
    s.db == Replay(s.lim, s.history) && Consistent(s.lim, s.history)
  }

  ghost predicate Inv(s: Sys) {
    TablesOk(s) && LocalsOk(s) && LocksExclusive(s) && SerialsFresh(s) && Linear(s)
  }

  lemma ClaimKeepsOpen(lim: Limits, db: Db, tx: Tx, ch: Choice)
    requires OpenOk(lim, db, tx) && !tx.Finished() && WalletsIndexed(db) && RecordsCompleted(db)
    requires Between(tx, START, READ_REQUEST) && ClockRuns(tx, ch.now) && !ClaimStatement(db, tx, ch.now).Finished()
    ensures OpenOk(lim, db, ClaimStatement(db, tx, ch.now))
  {
    hide PcFits, HeldAt, StagedAt, RequestFacts, WalletFacts, CheckFacts, Unused, Precheck;
    ClaimKeepsPlace(db, tx, ch.now);
    ClaimKeepsRequest(db, tx, ch.now);
    ClaimKeepsWallets(db, tx, ch.now);
    ClaimKeepsChecks(lim, db, tx, ch.now);
    ClaimKeepsStaged(db, tx, ch.now);
  }

  lemma LockKeepsOpen(lim: Limits, db: Db, tx: Tx, ch: Choice)
    requires OpenOk(lim, db, tx) && !tx.Finished() && WalletsIndexed(db) && RecordsCompleted(db)
    requires Between(tx, FIND_WALLETS, CHECK_LIMITS) && ClockRuns(tx, ch.now)
    requires !LockStatement(lim, db, tx, ch.now).Finished()
    ensures OpenOk(lim, db, LockStatement(lim, db, tx, ch.now))
  {
    hide PcFits, HeldAt, StagedAt, KeyFacts, RequestFacts, WalletFacts, CheckFacts, Unused, Precheck,
      RecordsCompleted, WalletsIndexed;
    LockKeepsPlace(lim, db, tx, ch.now);
    LockKeepsRequest(lim, db, tx, ch.now);
    LockKeepsWallets(lim, db, tx, ch.now);
    LockKeepsChecks(lim, db, tx, ch.now);
    LockKeepsStaged(lim, db, tx, ch.now);
  }

  lemma MoveKeepsOpen(lim: Limits, db: Db, tx: Tx, ch: Choice)
    requires OpenOk(lim, db, tx) && !tx.Finished() && WalletsIndexed(db) && RecordsCompleted(db)
    requires Between(tx, INSERT_TRANSFER, EMIT_TRANSFER) && ClockRuns(tx, ch.now)
    requires !MoveStatement(db, tx, ch).Finished()
    ensures OpenOk(lim, db, MoveStatement(db, tx, ch))
  {
    hide PcFits, HeldAt, StagedAt, KeyFacts, RequestFacts, WalletFacts, CheckFacts, Unused, Precheck,
      RecordsCompleted, WalletsIndexed;
    MoveKeepsPlace(db, tx, ch);
    MoveKeepsRequest(db, tx, ch);
    MoveKeepsWallets(db, tx, ch);
    MoveKeepsChecks(lim, db, tx, ch);
    MoveKeepsStaged(lim, db, tx, ch);
  }

  lemma CloseKeepsOpen(lim: Limits, db: Db, tx: Tx, ch: Choice)
    requires OpenOk(lim, db, tx) && !tx.Finished() && WalletsIndexed(db) && RecordsCompleted(db)
    requires Between(tx, FIND_PAYER, COMMIT) && ClockRuns(tx, ch.now) && !CloseStatement(db, tx, ch.now).Finished()
    ensures OpenOk(lim, db, CloseStatement(db, tx, ch.now))
  {
    hide PcFits, HeldAt, StagedAt, KeyFacts, RequestFacts, WalletFacts, CheckFacts, Unused, Precheck,
      RecordsCompleted, WalletsIndexed;
    CloseKeepsPlace(db, tx, ch.now);
    CloseKeepsRequest(db, tx, ch.now);
    CloseKeepsWallets(db, tx, ch.now);
    CloseKeepsChecks(lim, db, tx, ch.now);
    CloseKeepsStaged(db, tx, ch.now);
  }

  /** A statement that neither commits nor refuses keeps the transaction consistent. */
  lemma StatementKeepsOpen(lim: Limits, db: Db, tx: Tx, ch: Choice)
    requires OpenOk(lim, db, tx) && !tx.Finished() && WalletsIndexed(db) && RecordsCompleted(db)
    requires ClockRuns(tx, ch.now) && !Execute(lim, db, tx, ch).Finished()
    ensures OpenOk(lim, db, Execute(lim, db, tx, ch))
  {
    if tx.pc <= READ_REQUEST { ClaimKeepsOpen(lim, db, tx, ch); }
    else if tx.pc <= CHECK_LIMITS { LockKeepsOpen(lim, db, tx, ch); }
    else if tx.pc <= EMIT_TRANSFER { MoveKeepsOpen(lim, db, tx, ch); }
    else { CloseKeepsOpen(lim, db, tx, ch); }
  }

  /** What one statement may do to its transaction's locks: take the one it waited for, or
      let all go. */
  lemma StatementLocks(lim: Limits, db: Db, tx: Tx, ch: Choice)
    requires OpenOk(lim, db, tx) && !tx.Finished() && RecordsCompleted(db)
    ensures var t := Execute(lim, db, tx, ch);
            && t.env.serial == tx.env.serial && t.cmd == tx.cmd
            && forall k :: k in t.held ==> k in tx.held || Wanted(db, tx) == Some(k)
  {
    hide StagedAt, WalletFacts, CheckFacts, HeldAt, Unused, InputOf, CheckParties, WithinLimits, FindParties,
      CheckRow, Precheck, MoveStatement, PcFits;
    if INSERT_TRANSFER <= tx.pc <= EMIT_TRANSFER { MoveTakesNoLock(db, tx, ch); }
  }

  lemma MoveTakesNoLock(db: Db, tx: Tx, ch: Choice)
    requires !tx.Finished()
    ensures var t := MoveStatement(db, tx, ch);
            && t.env.serial == tx.env.serial && t.cmd == tx.cmd
            && (if t.Finished() then t.held == {} && t.answer == Some(Err(ConstraintViolation))
                else t.held == tx.held)
  {
  }

  /** A call that answers without committing: a replay hands out the stored response. */
  lemma RefusalFinishes(lim: Limits, db: Db, tx: Tx, ch: Choice)
    requires OpenOk(lim, db, tx) && !tx.Finished() && tx.pc != COMMIT && RecordsCompleted(db)
    requires Execute(lim, db, tx, ch).Finished()
    ensures FinishedOk(db, Execute(lim, db, tx, ch))
  {
    hide StagedAt, WalletFacts, CheckFacts, HeldAt, Unused, InputOf, CheckParties, WithinLimits, FindParties,
      CheckRow, Precheck, MoveStatement;
    if INSERT_TRANSFER <= tx.pc <= EMIT_TRANSFER { MoveTakesNoLock(db, tx, ch); }
  }

  lemma CommitFinishes(lim: Limits, db: Db, tx: Tx)
    requires OpenOk(lim, db, tx) && tx.pc == COMMIT
    ensures FinishedOk(Overlay(db, tx.cmd, tx.env, tx.staged),
                       Finish(tx, Ok(ResponseOf(tx.cmd, tx.locals, tx.env))))
  {
  }

  // ---------- every action keeps the invariant ----------

  lemma LocalOkCases(lim: Limits, db: Db, tx: Tx)
    ensures tx.Finished() && FinishedOk(db, tx) ==> LocalOk(lim, db, tx)
    ensures !tx.Finished() ==> (LocalOk(lim, db, tx) <==> OpenOk(lim, db, tx))
    ensures !tx.Finished() && LocalOk(lim, db, tx) ==> Unused(db, tx.env.serial)
  {
  }

  /** Replacing one call by its successor, over tables that changed within `frame`. */
  lemma ReplaceCall(s: Sys, db': Db, c: CallId, t: Tx, frame: set<Lock>, serial: nat)
    requires LocalsOk(s) && LocksExclusive(s) && LocalOk(s.lim, db', t)
    requires db' == s.db || Frame(s.db, db', frame, serial)
    requires forall d :: d in s.calls && d != c ==>
      s.calls[d].held !! frame && s.calls[d].env.serial != serial && s.calls[d].held !! t.held
    ensures var s' := s.(db := db', calls := s.calls[c := t]); LocalsOk(s') && LocksExclusive(s')
  {
    hide LocalOk, Frame;
    var s' := s.(db := db', calls := s.calls[c := t]);
    forall d | d in s'.calls ensures LocalOk(s.lim, db', s'.calls[d]) {
      if d != c && db' != s.db { FrameKeepsLocal(s.lim, s.db, db', frame, serial, s.calls[d]); }
    }
  }

  lemma AdvanceKeepsInv(s: Sys, c: CallId, ch: Choice)
    requires Inv(s) && Enabled(s, Advance(c, ch)) && s.calls[c].pc != COMMIT
    ensures Inv(Next(s, Advance(c, ch)))
  {
    hide LocalOk, OpenOk, FinishedOk, Execute, WalletsIndexed, RecordsCompleted, Unused, Consistent, Replay, Handle;
    var tx, t := s.calls[c], Execute(s.lim, s.db, s.calls[c], ch);
    LocalOkCases(s.lim, s.db, tx);
    LocalOkCases(s.lim, s.db, t);
    StatementLocks(s.lim, s.db, tx, ch);
    if t.Finished() {
      RefusalIsHandle(s.lim, s.db, tx, ch);
      RefusalFinishes(s.lim, s.db, tx, ch);
      ReplayAppends(s.lim, s.history, Answered(c, tx.cmd, t.env, t.answer.value));
    } else {
      StatementKeepsOpen(s.lim, s.db, tx, ch);
    }
    ReplaceCall(s, s.db, c, t, {}, s.nextSerial);
  }

  /** Publishing disturbs no other call, and is the atomic operation of this one. */
  lemma CommittedKeepsInv(s: Sys, c: CallId, finished: Tx)
    requires Inv(s) && Unfinished(s, c) && s.calls[c].pc == COMMIT
    requires finished == Finish(s.calls[c], Ok(ResponseOf(s.calls[c].cmd, s.calls[c].locals, s.calls[c].env)))
             || finished == Finish(s.calls[c], Err(Aborted))
    ensures Inv(Committed(s, c, s.calls[c], finished))
  {
    hide LocalOk, OpenOk, WalletsIndexed, RecordsCompleted, Unused, Consistent, Replay, Handle;
    var tx := s.calls[c];
    var s' := Committed(s, c, tx, finished);
    LocalOkCases(s.lim, s.db, tx);
    LocalOkCases(s.lim, s'.db, finished);
    CommitKeepsTables(s.lim, s.db, tx);
    CommitFrames(s.lim, s.db, tx);
    CommitFinishes(s.lim, s.db, tx);
    CommitIsHandle(s.lim, s.db, tx);
    CommitClock(s.lim, s.db, tx);
    ReplayAppends(s.lim, s.history, s'.history[|s.history|]);
    ReplaceCall(s, s'.db, c, finished, tx.held, tx.env.serial);
  }

  lemma CommitClock(lim: Limits, db: Db, tx: Tx)
    requires OpenOk(lim, db, tx) && tx.pc == COMMIT
    ensures tx.cmd.Settles() ==> tx.env.limitNow <= tx.env.createdAt
  {
  }

  lemma RegisterFrames(db: Db, user: UserId, id: WalletId, wallet: Wallet, serial: nat)
    requires CanRegister(db, user, id, wallet) && WalletsIndexed(db) && RecordsCompleted(db)
    ensures var db' := Operations.Register(db, user, id, wallet);
            Frame(db, db', {}, serial) && WalletsIndexed(db') && RecordsCompleted(db')
            && (forall n: nat :: Unused(db, n) ==> Unused(db', n))
  {
  }

  lemma RegisterKeepsInv(s: Sys, user: UserId, id: WalletId, wallet: Wallet)
    requires Inv(s) && Enabled(s, Action.Register(user, id, wallet))
    ensures Inv(Next(s, Action.Register(user, id, wallet)))
  {
    hide LocalOk, Consistent, Replay, Frame, WalletsIndexed, RecordsCompleted, Unused, Operations.Register;
    var s' := Next(s, Action.Register(user, id, wallet));
    RegisterFrames(s.db, user, id, wallet, s.nextSerial);
    ReplayAppends(s.lim, s.history, Registered(user, id, wallet));
    forall d | d in s'.calls ensures LocalOk(s.lim, s'.db, s'.calls[d]) {
      FrameKeepsLocal(s.lim, s.db, s'.db, {}, s.nextSerial, s.calls[d]);
    }
  }

  /** A new attempt starts with nothing read, staged or locked. */
  lemma FreshTxIsOk(lim: Limits, db: Db, cmd: Command, attempt: nat, pc: Pc, serial: nat, startNow: int)
    requires 1 <= attempt <= MAX_ATTEMPTS && Unused(db, serial)
    requires pc == START || (pc == BEGIN && Precheck(cmd, startNow).Ok?)
    ensures LocalOk(lim, db, NewTx(cmd, attempt, pc, serial, startNow))
  {
  }

  lemma RestartKeepsInv(s: Sys, c: CallId, t: Tx)
    requires Inv(s) && LocalOk(s.lim, s.db, t) && t.held == {}
    requires t.env.serial == s.nextSerial || (c in s.calls && t.env.serial == s.calls[c].env.serial)
    ensures Inv(s.(calls := s.calls[c := t], nextSerial := s.nextSerial + 1))
  {
    hide LocalOk, Consistent, Replay, WalletsIndexed, RecordsCompleted, Unused;
    ReplaceCall(s, s.db, c, t, {}, s.nextSerial);
  }

  lemma NextKeepsInv(s: Sys, a: Action)
    requires Inv(s) && Enabled(s, a)
    ensures Inv(Next(s, a))
  {
    hide LocalOk, OpenOk, Unused, Consistent, Replay, WalletsIndexed, RecordsCompleted, Execute, Overlay;
    match a
    case Submit(c, cmd) =>
      FreshTxIsOk(s.lim, s.db, cmd, 1, START, s.nextSerial, 0);
      RestartKeepsInv(s, c, NewTx(cmd, 1, START, s.nextSerial, 0));
    case Advance(c, ch) =>
      if s.calls[c].pc == COMMIT {
        CommitAnswers(s.lim, s.db, s.calls[c], ch);
        CommittedKeepsInv(s, c, Execute(s.lim, s.db, s.calls[c], ch));
      } else {
        AdvanceKeepsInv(s, c, ch);
      }
    case LoseReply(c) => CommittedKeepsInv(s, c, Finish(s.calls[c], Err(Aborted)));
    case Abort(c, retryable) =>
      var tx := s.calls[c];
      LocalOkCases(s.lim, s.db, tx);
      AbortIsOk(s.lim, s.db, tx, retryable, s.nextSerial);
      RestartKeepsInv(s, c, AfterAbort(tx, retryable, s.nextSerial));
    case Register(user, id, wallet) => RegisterKeepsInv(s, user, id, wallet);
  }

  lemma CommitAnswers(lim: Limits, db: Db, tx: Tx, ch: Choice)
    requires tx.pc == COMMIT
    ensures Execute(lim, db, tx, ch) == Finish(tx, Ok(ResponseOf(tx.cmd, tx.locals, tx.env)))
  {
  }

  lemma AbortIsOk(lim: Limits, db: Db, tx: Tx, retryable: bool, serial: nat)
    requires OpenOk(lim, db, tx) && tx.pc != START && Unused(db, serial)
    ensures LocalOk(lim, db, AfterAbort(tx, retryable, serial))
  {
    if AfterAbort(tx, retryable, serial).pc == BEGIN {
      FreshTxIsOk(lim, db, tx.cmd, tx.attempt + 1, BEGIN, serial, tx.env.startNow);
    }
  }

  /** Every reachable state satisfies the invariant. */
  lemma {:induction false} RunKeepsInv(s: Sys, run: seq<Action>)
    requires Inv(s) && ValidRun(s, run)
    ensures Inv(Final(s, run)) && Final(s, run).lim == s.lim
    decreases |run|
  {
    if run != [] {
      NextKeepsInv(s, run[0]);
      RunKeepsInv(Next(s, run[0]), run[1..]);
    }
  }
}
