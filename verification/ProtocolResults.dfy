/** The results over whole runs of the interleaved system, from an empty database. */
module ProtocolResults {
  import opened Wrappers
  import opened Tables
  import opened Limits
  import opened Operations
  import opened History
  import opened MapSum
  import opened Accounts
  import opened Settlements
  import opened Answers
  import opened Protocol
  import opened ProtocolInvariant
  import opened ProtocolStatements
  import opened ProtocolTheorems
  import opened ProtocolProgress

  // ---------- the log is the answers ----------

  predicate Logged(s: Sys, i: nat, c: CallId)
    requires i < |s.history|
  {
    s.history[i].Answered? && s.history[i].call == c
  }

  /** The call of a log entry has finished with the logged answer, or lost the reply to its commit. */
  predicate EntryAnswered(s: Sys, e: Entry) {
    e.Answered? ==>
      && e.call in s.calls && s.calls[e.call].Finished() && s.calls[e.call].cmd == e.cmd
      && (s.calls[e.call].answer == Some(e.answer)
          || (s.calls[e.call].answer == Some(Err(Aborted)) && e.answer.Ok?))
  }

  /** Each call is answered at most once, and every call that finished without an abort is logged. */
  ghost predicate LogOk(s: Sys) {
    && (forall i :: 0 <= i < |s.history| ==> EntryAnswered(s, s.history[i]))
    && (forall i, j, c :: 0 <= i < j < |s.history| && Logged(s, i, c) ==> !Logged(s, j, c))
    && (forall c :: c in s.calls && s.calls[c].Finished() && s.calls[c].answer != Some(Err(Aborted)) ==>
          exists i :: 0 <= i < |s.history| && Logged(s, i, c))
  }

  /** A finished call never changes; the log only grows, by entries of the acting call. */
  lemma NextKeepsLog(s: Sys, a: Action)
    requires LogOk(s) && Enabled(s, a)
    ensures LogOk(Next(s, a)) && s.history <= Next(s, a).history
  {
    hide Execute, Overlay, Operations.Register, CanRegister, Free, ClockRuns, Wanted, ResponseOf;
    var s', n := Next(s, a), |s.history|;
    assert forall i, c :: 0 <= i < n ==> (Logged(s', i, c) <==> Logged(s, i, c));
    if |s'.history| > n && a.Advance? { ExecuteKeepsCommand(s, a); }
    if !a.Register? { ExecuteKeepsCommand(s, a); }
    forall i | 0 <= i < |s'.history| ensures EntryAnswered(s', s'.history[i]) {
      if i < n { assert EntryAnswered(s, s.history[i]); }
    }
    forall i, j, c | 0 <= i < j < |s'.history| && Logged(s', i, c) ensures !Logged(s', j, c) {
      if j == n { assert EntryAnswered(s, s.history[i]); }
    }
    forall c | c in s'.calls && s'.calls[c].Finished() && s'.calls[c].answer != Some(Err(Aborted))
      ensures exists i :: 0 <= i < |s'.history| && Logged(s', i, c)
    {
      if a.Register? || c != a.call {
        var i :| 0 <= i < n && Logged(s, i, c);
        assert Logged(s', i, c);
      } else {
        assert Logged(s', n, c);
      }
    }
  }

  lemma ExecuteKeepsCommand(s: Sys, a: Action)
    requires Enabled(s, a) && !a.Register?
    ensures a.call in s.calls ==> Next(s, a).calls[a.call].cmd == s.calls[a.call].cmd
    ensures a.Advance? && s.calls[a.call].pc == COMMIT ==>
      Next(s, a).calls[a.call].answer
      == Some(Ok(ResponseOf(s.calls[a.call].cmd, s.calls[a.call].locals, s.calls[a.call].env)))
  {
    hide CheckParties, CheckRow, FindParties, WithinLimits, InputOf, Precheck, ActiveUser, ResponseOf, Overlay;
  }

  lemma {:induction false} RunKeepsLog(s: Sys, run: seq<Action>)
    requires LogOk(s) && ValidRun(s, run)
    ensures LogOk(Final(s, run)) && s.history <= Final(s, run).history
    decreases |run|
  {
    hide LogOk, Enabled, Next;
    if run != [] {
      NextKeepsLog(s, run[0]);
      RunKeepsLog(Next(s, run[0]), run[1..]);
    }
  }

  /** Refinement. After any interleaving of any number of calls, the committed tables are those
      of handling the logged calls one at a time, atomically, in the order they were answered, and
      every call has exactly the answer that the atomic operation gives at its place in the log. */
  lemma Linearizable(lim: Limits, run: seq<Action>)
    requires ValidRun(Init(lim), run)
    ensures var s := Final(Init(lim), run);
            && s.db == Replay(lim, s.history) && Consistent(lim, s.history)
            && LogOk(s)
  {
    InitIsOk(lim);
    RunKeepsInv(Init(lim), run);
    RunKeepsLog(Init(lim), run);
  }

  lemma InitIsOk(lim: Limits)
    ensures Inv(Init(lim)) && LogOk(Init(lim))
  {
  }

  // ---------- what every committed state satisfies ----------

  /** Balances are never negative and are explained by the ledger; the total of all balances is
      the total of the registration seeds; nothing is half done. */
  lemma CommittedStatesAreSound(lim: Limits, run: seq<Action>)
    requires ValidRun(Init(lim), run)
    ensures var s := Final(Init(lim), run);
            && Explained(s.db, Seeds(s.history))
            && Total(Balances(s.db.wallets)) == Total(Seeds(s.history))
            && Whole(lim, s.db) && RecordsCompleted(s.db) && RecordsExplained(s.db.records, s.history)
  {
    hide Whole, Explained, RecordsExplained, ValidRun, Final;
    Linearizable(lim, run);
    var h := Final(Init(lim), run).history;
    LedgerAgreesWithBalances(lim, h);
    MoneyIsConserved(lim, h);
    NothingIsHalfDone(lim, h);
    TablesAreSane(lim, h);
    RecordsAreAnswers(lim, h);
  }

  /** In every reachable state, every sender is within every limit in every window. */
  lemma LimitsHoldOverRuns(lim: Limits, run: seq<Action>, sender: UserId, p: Period, t: int)
    requires ValidRun(Init(lim), run)
    ensures SumBetween(Final(Init(lim), run).db.transfers, sender, t - Span(p), t) <= Ceiling(lim, p)
  {
    hide ValidRun, Final;
    Linearizable(lim, run);
    LimitsHoldInEveryWindow(lim, Final(Init(lim), run).history, sender, p, t);
  }

  /** All successful calls with one key are one and the same request, and return one response. */
  lemma SameKeySameResponse(lim: Limits, run: seq<Action>, c: CallId, d: CallId)
    requires ValidRun(Init(lim), run)
    requires var calls := Final(Init(lim), run).calls;
             && c in calls && d in calls && KeyOf(calls[c].cmd) == KeyOf(calls[d].cmd)
             && calls[c].Finished() && calls[c].answer.value.Ok?
             && calls[d].Finished() && calls[d].answer.value.Ok?
    ensures var calls := Final(Init(lim), run).calls;
            calls[c].answer == calls[d].answer && calls[c].cmd == calls[d].cmd
  {
    hide OpenOk, ValidRun, Final;
    InitIsOk(lim);
    RunKeepsInv(Init(lim), run);
    var s := Final(Init(lim), run);
    assert FinishedOk(s.db, s.calls[c]) && FinishedOk(s.db, s.calls[d]);
    PayloadIsTheWholeRequest(s.calls[c].cmd, s.calls[d].cmd);
  }

  /** A call that finds its key taken is answered by its first look at the record: it never claims
      again and never takes a record over. */
  lemma NoTakeOver(lim: Limits, run: seq<Action>, c: CallId, ch: Choice)
    requires ValidRun(Init(lim), run)
    requires Unfinished(Final(Init(lim), run), c) && Final(Init(lim), run).calls[c].pc == LOCK_EXISTING
    ensures var s := Final(Init(lim), run); var t := Execute(s.lim, s.db, s.calls[c], ch);
            && t.Finished() && s.calls[c].claims == 0
            && (t.answer.value.Ok? || t.answer.value == Err(KeyReused))
  {
    hide ValidRun, Final, Execute, Inv;
    InitIsOk(lim);
    RunKeepsInv(Init(lim), run);
    TakeOverIsUnreachable(Final(Init(lim), run), c, ch);
  }

  // ---------- progress ----------

  /** No run gets stuck: while any call is unfinished, some call's next statement can execute. */
  lemma NeverStuck(lim: Limits, run: seq<Action>, c: CallId) returns (d: CallId, ch: Choice)
    requires ValidRun(Init(lim), run) && Unfinished(Final(Init(lim), run), c)
    ensures Enabled(Final(Init(lim), run), Advance(d, ch))
  {
    hide ValidRun, Final, Inv, Enabled;
    InitIsOk(lim);
    RunKeepsInv(Init(lim), run);
    d, ch := NoDeadlock(Final(Init(lim), run), c);
  }

  /** Every run ends: with n calls and r registrations it has at most 121 n + r steps, whatever the
      interleaving, the aborts and the retries. */
  lemma EveryRunEnds(lim: Limits, run: seq<Action>)
    requires ValidRun(Init(lim), run)
    ensures |run| <= 121 * Submissions(run) + Registrations(run)
  {
    hide ValidRun, Inv;
    InitIsOk(lim);
    RunsEnd(Init(lim), run);
    assert Measures(Init(lim).calls) == map[];
  }

  // ---------- requests ----------

  /** A resolved request was pending until one call resolved it: the payer accepted it before its
      deadline, the payer declined it, or its requester cancelled it. No other call changed it. */
  lemma ResolvedByOneCall(lim: Limits, run: seq<Action>, id: Uuid) returns (i: nat)
    requires ValidRun(Init(lim), run)
    requires var db := Final(Init(lim), run).db; id in db.requests && db.requests[id].status != Pending
    ensures var s := Final(Init(lim), run);
            && i < |s.history| && id in Replay(lim, s.history[..i]).requests
            && Transition(s.history[i], id, Replay(lim, s.history[..i]).requests[id], s.db.requests[id])
            && (forall j :: 0 <= j <= i && id in Replay(lim, s.history[..j]).requests ==>
                  Replay(lim, s.history[..j]).requests[id].status == Pending)
            && (forall j :: i < j <= |s.history| ==>
                  && id in Replay(lim, s.history[..j]).requests
                  && Replay(lim, s.history[..j]).requests[id] == s.db.requests[id])
  {
    hide ValidRun, Final, LogOk, Transition, Consistent, Replay;
    Linearizable(lim, run);
    i := LifeOfARequest(lim, Final(Init(lim), run).history, id);
  }

  /** No request pays twice: two settlements of one request are one transfer. */
  lemma NoRequestPaysTwice(lim: Limits, run: seq<Action>, i: nat, j: nat)
    requires ValidRun(Init(lim), run)
    requires var ts := Final(Init(lim), run).db.transfers;
             i < |ts| && j < |ts| && ts[i].source.Some? && ts[i].source == ts[j].source
    ensures i == j
  {
    hide ValidRun, Final, Complete, Bijection, Explained, RecordsExplained;
    CommittedStatesAreSound(lim, run);
    SettledOnce(Final(Init(lim), run).db, i, j);
  }

  /** Racing accepts, declines and cancels: once a committed request is resolved, every later
      state of every continuation stores the same row. */
  lemma ResolvedOnceForAll(lim: Limits, run: seq<Action>, more: seq<Action>, id: Uuid)
    requires ValidRun(Init(lim), run) && ValidRun(Final(Init(lim), run), more)
    requires id in Final(Init(lim), run).db.requests
             && Final(Init(lim), run).db.requests[id].status != Pending
    ensures var s := Final(Init(lim), run);
            && id in Final(s, more).db.requests
            && Final(s, more).db.requests[id] == s.db.requests[id]
  {
    hide Inv, LogOk, Handle;
    var s := Final(Init(lim), run);
    Linearizable(lim, run);
    InitIsOk(lim);
    RunKeepsInv(Init(lim), run);
    RunKeepsInv(s, more);
    RunKeepsLog(s, more);
    var s' := Final(s, more);
    InvIsLinear(s');
    assert s'.history[..|s.history|] == s.history;
    TerminalIsForever(lim, s'.history, |s.history|, id);
  }

  lemma InvIsLinear(s: Sys)
    requires Inv(s)
    ensures s.db == Replay(s.lim, s.history) && Consistent(s.lim, s.history)
  {
  }
}
