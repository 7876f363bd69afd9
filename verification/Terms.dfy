/** What was asked for is what is stored and answered, and a request keeps its terms for life. */
module Terms {
  import opened Wrappers
  import opened Ids
  import opened Tables
  import opened Limits
  import opened Operations
  import opened History
  import opened Answers
  import P = Protocol
  import PR = ProtocolResults

  // ---------- one call ----------

  /** A new transfer has the parties, the amount and the note of the call, and so has its receipt; a
      settlement has those of its request. */
  lemma TransferIsAsAsked(lim: Limits, db: Db, cmd: Command, env: Env)
    requires WalletsIndexed(db) && Effective(lim, db, cmd, env) && cmd.Settles()
    ensures var (db', answer) := Handle(lim, db, cmd, env);
            && |db'.transfers| == |db.transfers| + 1
            && var t := db'.transfers[|db.transfers|];
               && t.createdAt == env.createdAt && t.status == TransferSucceeded
               && (cmd.Direct? ==>
                     && t.sender == cmd.actor && t.receiver == UserIn(cmd.receiver)
                     && t.amount == cmd.amount && t.note == cmd.note && t.source == None
                     && answer.Ok? && answer.value.Receipt?
                     && answer.value.sender == cmd.actor && answer.value.receiver == UserIn(cmd.receiver)
                     && answer.value.amount == cmd.amount && answer.value.note == cmd.note
                     && answer.value.risk == env.risk && answer.value.transfer == t.id)
               && (cmd.Accept? ==>
                     && cmd.RequestId() in db.requests
                     && var row := db.requests[cmd.RequestId()];
                        && t.sender == row.payer && t.receiver == row.requester
                        && t.amount == row.amount && t.note == row.note && t.source == Some(cmd.RequestId())
                        && answer.Ok? && answer.value.RequestDto? && answer.value.request == cmd.RequestId()
                        && answer.value.status == Accepted && answer.value.acceptedTransfer == Some(t.id))
  {
    hide Cleared, CheckRow, WithinLimits, UserIn, UserText, RequestIn, Precheck, CheckParties;
    HandleShape(lim, db, cmd, env);
    assert Cleared(lim, db, MovedBy(db, cmd), From(db, cmd), To(db, cmd), env);
    ClearedFacts(lim, db, MovedBy(db, cmd), From(db, cmd), To(db, cmd), env);
  }

  /** The terms of a request are those of the call that created it. */
  predicate AsAsked(row: Request, cmd: Command)
    requires cmd.Create?
  {
    && row.requester == cmd.actor && row.payer == UserIn(cmd.payer)
    && row.amount == cmd.amount && row.note == cmd.note && row.expiresAt == cmd.expiresAt
  }

  /** A successful creation stores a pending request with the terms of the call, and answers them. */
  lemma RequestIsAsAsked(lim: Limits, db: Db, cmd: Command, env: Env)
    requires Effective(lim, db, cmd, env) && cmd.Create?
    ensures var (db', answer) := Handle(lim, db, cmd, env);
            && answer.Ok? && answer.value.RequestDto? && answer.value.request in db'.requests
            && var row := db'.requests[answer.value.request];
               && row.status == Pending && row.acceptedTransfer == None && AsAsked(row, cmd)
               && answer.value.requester == cmd.actor && answer.value.payer == UserIn(cmd.payer)
               && answer.value.amount == cmd.amount && answer.value.note == cmd.note
               && answer.value.expiresAt == cmd.expiresAt && answer.value.acceptedTransfer == None
  {
    hide UserIn, ActiveUser, Precheck;
  }

  // ---------- for life ----------

  predicate SameTerms(a: Request, b: Request) {
    a.requester == b.requester && a.payer == b.payer && a.amount == b.amount && a.note == b.note
    && a.expiresAt == b.expiresAt
  }

  lemma TransitionsKeepTerms(e: Entry, id: Uuid, before: Request, after: Request)
    requires before == after || Transition(e, id, before, after)
    ensures SameTerms(before, after)
  {
  }

  /** No call ever changes the terms of a stored request. */
  lemma {:induction false} TermsAreForLife(lim: Limits, h: seq<Entry>, n: nat, id: Uuid)
    requires Consistent(lim, h) && n <= |h|
    ensures id in Replay(lim, h[..n]).requests ==>
              id in Replay(lim, h).requests && SameTerms(Replay(lim, h[..n]).requests[id], Replay(lim, h).requests[id])
  {
    hide Apply, EntryOk, Transition;
    if n == |h| {
      assert h[..n] == h;
    } else {
      var before := h[..|h| - 1];
      assert before[..n] == h[..n];
      TermsAreForLife(lim, before, n, id);
      TablesAreSane(lim, before);
      RequestsStep(lim, Replay(lim, before), h[|h| - 1]);
      var old_, new_ := Replay(lim, before).requests, Replay(lim, h).requests;
      if id in old_ { TransitionsKeepTerms(h[|h| - 1], id, old_[id], new_[id]); }
    }
  }

  /** A creation that was answered with a request id. */
  predicate CreatedBy(e: Entry, id: Uuid) {
    e.Answered? && e.cmd.Create? && e.answer.Ok? && e.answer.value.RequestDto? && e.answer.value.request == id
  }

  lemma EffectiveOrReplayed(lim: Limits, db: Db, e: Entry)
    requires e.Answered? && e.answer.Ok? && RecordsCompleted(db)
    ensures EntryOk(lim, db, e) && KeyOf(e.cmd) !in db.records ==> Effective(lim, db, e.cmd, e.env)
    ensures EntryOk(lim, db, e) && KeyOf(e.cmd) in db.records ==> Apply(lim, db, e) == db
  {
    hide Perform, Precheck;
  }

  /** Every answered creation, replays included, names a stored request with the terms of the call. */
  lemma {:induction false} EveryRequestIsAsAsked(lim: Limits, h: seq<Entry>, i: nat, id: Uuid)
    requires Consistent(lim, h) && i < |h| && CreatedBy(h[i], id)
    ensures id in Replay(lim, h[..i + 1]).requests && AsAsked(Replay(lim, h[..i + 1]).requests[id], h[i].cmd)
    decreases i
  {
    hide Apply, EntryOk, Consistent, Effective, UserIn;
    var db := Replay(lim, h[..i]);
    ConsistentPrefix(lim, h, i);
    TablesAreSane(lim, h[..i]);
    EffectiveOrReplayed(lim, db, h[i]);
    ApplyIsHandle(lim, db, h[i]);
    if KeyOf(h[i].cmd) in db.records {
      RecordsAreAnswers(lim, h[..i]);
      var k :| 0 <= k < |h[..i]| && Succeeded(h[..i][k], KeyOf(h[i].cmd));
      assert h[..i][k] == h[k];
      OneEffectPerKey(lim, h, k, i);
      PayloadIsTheWholeRequest(h[k].cmd, h[i].cmd);
      EveryRequestIsAsAsked(lim, h, k, id);
      assert h[..i][..k + 1] == h[..k + 1];
      TermsAreForLife(lim, h[..i], k + 1, id);
    } else {
      RequestIsAsAsked(lim, db, h[i].cmd, h[i].env);
    }
  }

  lemma ApplyIsHandle(lim: Limits, db: Db, e: Entry)
    requires e.Answered? && EntryOk(lim, db, e)
    ensures Handle(lim, db, e.cmd, e.env) == (Apply(lim, db, e), e.answer)
  {
  }

  /** An acceptance that paid came before the deadline that the creation asked for. */
  lemma LateAcceptanceNeverPays(lim: Limits, h: seq<Entry>, i: nat, j: nat, id: Uuid)
    requires Consistent(lim, h) && i < |h| && j < |h| && CreatedBy(h[i], id)
    requires id in Replay(lim, h[..j]).requests && id in Replay(lim, h[..j + 1]).requests
    requires Replay(lim, h[..j]).requests[id].status == Pending && Replay(lim, h[..j + 1]).requests[id].status == Accepted
    ensures h[j].Answered? && h[j].cmd.Accept? && h[j].cmd.RequestId() == id
    ensures h[j].cmd.actor == UserIn(h[i].cmd.payer)
    ensures h[i].cmd.expiresAt.Some? ==> h[j].env.deadlineNow < h[i].cmd.expiresAt.value
  {
    hide Apply, EntryOk, Consistent, UserIn, RequestIn;
    EveryRequestIsAsAsked(lim, h, i, id);
    ConsistentPrefix(lim, h, j);
    TablesAreSane(lim, h[..j]);
    RequestsStep(lim, Replay(lim, h[..j]), h[j]);
    TermsAreForLife(lim, h, i + 1, id);
    TermsAreForLife(lim, h, j, id);
    assert Transition(h[j], id, Replay(lim, h[..j]).requests[id], Replay(lim, h[..j + 1]).requests[id]);
  }

  /** Over every run of the interleaved system, for every creation that was answered: the stored request
      has its terms, and if an acceptance has paid, that was by the payer and before the deadline. */
  lemma RequestsAreKeptAsAsked(lim: Limits, run: seq<P.Action>, i: nat, id: Uuid)
    requires P.ValidRun(P.Init(lim), run)
    requires var s := P.Final(P.Init(lim), run); i < |s.history| && CreatedBy(s.history[i], id)
    ensures var s := P.Final(P.Init(lim), run); var cmd := s.history[i].cmd;
            && id in s.db.requests && AsAsked(s.db.requests[id], cmd)
            && (s.db.requests[id].status == Accepted ==>
                  exists j :: 0 <= j < |s.history| && s.history[j].Answered? && s.history[j].cmd.Accept?
                              && s.history[j].cmd.RequestId() == id && s.history[j].cmd.actor == UserIn(cmd.payer)
                              && (cmd.expiresAt.Some? ==> s.history[j].env.deadlineNow < cmd.expiresAt.value))
  {
    hide P.ValidRun, P.Final, Consistent, Replay, Transition, UserIn, RequestIn;
    PR.Linearizable(lim, run);
    var s := P.Final(P.Init(lim), run);
    var h := s.history;
    EveryRequestIsAsAsked(lim, h, i, id);
    TermsAreForLife(lim, h, i + 1, id);
    if s.db.requests[id].status == Accepted {
      var j := LifeOfARequest(lim, h, id);
      assert Replay(lim, h[..j + 1]).requests[id].status == Accepted;
      LateAcceptanceNeverPays(lim, h, i, j, id);
    }
  }

  // ---------- the stored status of the response ----------

  /** Creations are recorded as 201, everything else as 200. */
  predicate StatusesFit(records: map<Key, Record>) {
    forall k :: k in records && records[k].state.Completed? ==>
      records[k].state.httpStatus == (if k.route == DirectRoute || k.route == CreateRoute then 201 else 200)
  }

  lemma {:induction false} StoredStatuses(lim: Limits, h: seq<Entry>)
    requires Consistent(lim, h)
    ensures StatusesFit(Replay(lim, h).records)
  {
    hide Handle, WalletsIndexed, RecordsCompleted;
    if h != [] {
      var before, e := h[..|h| - 1], h[|h| - 1];
      StoredStatuses(lim, before);
      TablesAreSane(lim, before);
      if e.Answered? { HandleRecords(lim, Replay(lim, before), e.cmd, e.env); }
    }
  }

  // ---------- risk ----------

  /** Every settlement records the level that the rules gave; a HIGH one has one event of its own, and no
      other level has any. */
  lemma RiskIsRecordedAndFlagged(lim: Limits, db: Db, cmd: Command, env: Env)
    requires WalletsIndexed(db) && Effective(lim, db, cmd, env) && cmd.Settles()
    ensures var db' := Handle(lim, db, cmd, env).0; var n, flag := |db.events|, RiskFlagged(TransferId(env), High);
            && db'.risks == db.risks[TransferId(env) := env.risk]
            && db.events <= db'.events
            && (forall i :: n <= i < |db'.events| && db'.events[i].body.RiskFlagged? ==> i == n && db'.events[n].body == flag)
            && (env.risk == High <==> n < |db'.events| && db'.events[n].body == flag)
  {
    hide Handle, Effective, Cleared, CheckRow, MovedBy, From, To, UserIn, UserText, RequestIn;
    HandleShape(lim, db, cmd, env);
    EffectKeepsWalletsIndexed(lim, db, cmd, env);
  }
}
