/** No deadlock, no endless run, no unreachable branch taken. */
module ProtocolProgress {
  import opened Wrappers
  import opened Tables
  import opened Limits
  import opened Operations
  import opened History
  import opened Protocol
  import opened ProtocolInvariant
  import opened ProtocolStatements
  import opened ProtocolTheorems
  import opened MapSum

  // ---------- locks are taken in rank order ----------

  /** One idempotency key, then at most one request row, then wallets by ascending id. */
  function LockRank(k: Lock): nat {
    match k case KeyLock(_) => 0 case RequestLock(_) => 1 case WalletLock(w) => 2 + w
  }

  /** A wanted lock ranks above every lock held; only a transfer to oneself wants again, as its
      second wallet, the one it holds as its first. */
  lemma WantsHigherRank(lim: Limits, db: Db, tx: Tx, k: Lock)
    requires OpenOk(lim, db, tx) && WalletsIndexed(db) && k in tx.held && Wanted(db, tx).Some?
    ensures || LockRank(k) < LockRank(Wanted(db, tx).value)
            || (k == Wanted(db, tx).value && tx.pc == LOCK_SECOND
                && InputOf(tx.cmd, tx.locals).sender == InputOf(tx.cmd, tx.locals).receiver)
  {
    hide StagedAt, CheckFacts, RequestFacts, Unused, Precheck;
  }

  function WantedRank(s: Sys, c: CallId): int
    requires c in s.calls
  {
    var w := Wanted(s.db, s.calls[c]);
    if w.Some? then LockRank(w.value) else -1
  }

  function CallsAbove(s: Sys, r: int): set<CallId> {
    set e | e in s.calls && WantedRank(s, e) > r
  }

  /** Following the holder of the wanted lock climbs in rank, so it reaches a call that can step. */
  lemma {:induction false} FindRunner(s: Sys, c: CallId) returns (d: CallId)
    requires Inv(s) && Unfinished(s, c)
    ensures Unfinished(s, d) && Free(s, d, Wanted(s.db, s.calls[d]))
    decreases CallsAbove(s, WantedRank(s, c))
  {
    hide OpenOk, Wanted, WalletsIndexed, RecordsCompleted, Linear, SerialsFresh, Unused;
    if Free(s, c, Wanted(s.db, s.calls[c])) {
      d := c;
    } else {
      var h :| h in s.calls && h != c && Wanted(s.db, s.calls[c]).value in s.calls[h].held;
      if Wanted(s.db, s.calls[h]) == Wanted(s.db, s.calls[c]) {
        d := h;
      } else if Wanted(s.db, s.calls[h]).Some? {
        WantsHigherRank(s.lim, s.db, s.calls[h], Wanted(s.db, s.calls[c]).value);
        assert h in CallsAbove(s, WantedRank(s, c)) && h !in CallsAbove(s, WantedRank(s, h));
        d := FindRunner(s, h);
      } else {
        d := h;
      }
    }
  }

  /** Deadlock freedom: while any call is unfinished, some call's next statement can run. */
  lemma NoDeadlock(s: Sys, c: CallId) returns (d: CallId, ch: Choice)
    requires Inv(s) && Unfinished(s, c)
    ensures Enabled(s, Advance(d, ch))
  {
    d := FindRunner(s, c);
    ch := Choice(s.calls[d].env.limitNow, Low);
  }

  // ---------- every run ends ----------

  const PER_ATTEMPT := 40
  const PER_CALL := MAX_ATTEMPTS * PER_ATTEMPT

  /** Statements, claims and attempts that a call can still spend. */
  function Measure(tx: Tx): nat {
    if tx.Finished() || tx.attempt > MAX_ATTEMPTS || tx.claims > MAX_CLAIMS || tx.pc > DONE then 0
    else (MAX_ATTEMPTS - tx.attempt) * PER_ATTEMPT + (MAX_CLAIMS - tx.claims) * 3 + (DONE - tx.pc) + 1
  }

  lemma StatementDecreases(lim: Limits, db: Db, tx: Tx, ch: Choice)
    requires 1 <= tx.attempt <= MAX_ATTEMPTS && tx.claims < MAX_CLAIMS && tx.pc < DONE && !tx.Finished()
    ensures Measure(Execute(lim, db, tx, ch)) < Measure(tx)
  {
    hide CheckParties, CheckRow, FindParties, WithinLimits, ResponseOf, InputOf, Precheck, ActiveUser;
  }

  function Measures(calls: map<CallId, Tx>): map<nat, int> {
    map c | c in calls :: Measure(calls[c])
  }

  ghost function Budget(s: Sys): int { Total(Measures(s.calls)) }

  lemma MeasuresUpdate(calls: map<CallId, Tx>, c: CallId, t: Tx)
    ensures Measures(calls[c := t]) == Measures(calls)[c := Measure(t)]
  {
  }

  /** Every action of an existing call spends budget. */
  lemma ActionSpends(s: Sys, a: Action)
    requires Inv(s) && Enabled(s, a)
    ensures a.Submit? ==> Budget(Next(s, a)) <= Budget(s) + PER_CALL
    ensures a.Register? ==> Budget(Next(s, a)) == Budget(s)
    ensures !a.Submit? && !a.Register? ==> Budget(Next(s, a)) < Budget(s)
  {
    hide OpenOk, WalletsIndexed, RecordsCompleted, Linear, SerialsFresh, Unused, Execute, Overlay, Total,
      Operations.Register, LocksExclusive;
    if !a.Register? {
      var c := a.call;
      var t := Next(s, a).calls[c];
      TotalUpdates(Measures(s.calls), c, Measure(t));
      MeasuresUpdate(s.calls, c, t);
      if !a.Submit? {
        OpenOkBounds(s.lim, s.db, s.calls[c]);
        if a.Advance? { StatementDecreases(s.lim, s.db, s.calls[c], a.choice); }
      }
    }
  }

  lemma OpenOkBounds(lim: Limits, db: Db, tx: Tx)
    requires OpenOk(lim, db, tx)
    ensures 1 <= tx.attempt <= MAX_ATTEMPTS && tx.claims == 0 && tx.pc < DONE
  {
  }

  function Submissions(run: seq<Action>): nat {
    if run == [] then 0 else (if run[0].Submit? then 1 else 0) + Submissions(run[1..])
  }

  function Registrations(run: seq<Action>): nat {
    if run == [] then 0 else (if run[0].Register? then 1 else 0) + Registrations(run[1..])
  }

  /** Termination: a run of finitely many calls is finite, whatever the interleaving, the aborts
      and the retries. */
  lemma {:induction false} RunsEnd(s: Sys, run: seq<Action>)
    requires Inv(s) && ValidRun(s, run)
    ensures 0 <= Budget(s)
    ensures |run| <= Budget(s) + (PER_CALL + 1) * Submissions(run) + Registrations(run)
    decreases |run|
  {
    hide Inv, Enabled, Next;
    TotalIsNatural(Measures(s.calls));
    if run != [] {
      NextKeepsInv(s, run[0]);
      ActionSpends(s, run[0]);
      RunsEnd(Next(s, run[0]), run[1..]);
    }
  }

  // ---------- idempotency claims ----------

  /** A call that found its key taken never retries the claim and never takes a record over: the
      row it locks is committed and COMPLETED, so `begin` answers in its first pass. */
  lemma TakeOverIsUnreachable(s: Sys, c: CallId, ch: Choice)
    requires Inv(s) && Unfinished(s, c) && s.calls[c].pc == LOCK_EXISTING
    ensures var t := Execute(s.lim, s.db, s.calls[c], ch);
            && t.Finished() && s.calls[c].claims == 0
            && (t.answer.value.Ok? || t.answer.value == Err(KeyReused))
  {
    assert OpenOk(s.lim, s.db, s.calls[c]);
  }

  // ---------- restarts ----------

  /** An aborted transfer or acceptance starts over, whole, after a write conflict in its first or second
      attempt; every other aborted call is over. */
  lemma AbortsRestartTwiceAtMost(tx: Tx, retryable: bool, serial: nat)
    ensures var t := AfterAbort(tx, retryable, serial);
            if retryable && (tx.cmd.Direct? || tx.cmd.Accept?) && tx.attempt < 3 then
              && !t.Finished() && t.cmd == tx.cmd && t.attempt == tx.attempt + 1 && t.pc == BEGIN
              && t.held == {} && t.staged == NOTHING && t.env.serial == serial
            else t.Finished() && t.answer == Some(Err(Aborted)) && t.held == {} && t.staged == NOTHING
  {
  }
}
