/** One effect per key, one answer per key; and the life of a request over whole histories. */
module Answers {
  import opened Wrappers
  import opened Ids
  import opened Tables
  import opened Limits
  import opened Operations
  import opened History

  // ---------- idempotency keys ----------

  predicate Succeeded(e: Entry, k: Key) {
    e.Answered? && e.answer.Ok? && KeyOf(e.cmd) == k
  }

  /** A record exists exactly for the keys with a successful answer, and stores that answer. */
  ghost predicate RecordsExplained(records: map<Key, Record>, h: seq<Entry>) {
    && (forall k :: k in records ==> exists i :: 0 <= i < |h| && Succeeded(h[i], k))
    && (forall i :: 0 <= i < |h| && h[i].Answered? && h[i].answer.Ok? ==>
          && KeyOf(h[i].cmd) in records
          && records[KeyOf(h[i].cmd)].hash == PayloadOf(h[i].cmd)
          && records[KeyOf(h[i].cmd)].state.Completed?
          && records[KeyOf(h[i].cmd)].state.response == h[i].answer.value)
  }

  /** What one call does to the records: nothing, or one new completed record under its key. */
  lemma HandleRecords(lim: Limits, db: Db, cmd: Command, env: Env)
    requires WalletsIndexed(db) && RecordsCompleted(db)
    ensures var (db', answer) := Handle(lim, db, cmd, env); var k := KeyOf(cmd);
            && (answer.Err? ==> db' == db)
            && (answer.Ok? && k in db.records ==>
                  db' == db && db.records[k].hash == PayloadOf(cmd) && db.records[k].state.response == answer.value)
            && (answer.Ok? && k !in db.records ==>
                  db'.records == db.records[k := Record(PayloadOf(cmd), Completed(HttpStatusOf(cmd), answer.value))])
  {
    hide Effect, Cleared, CheckRow;
    HandleShape(lim, db, cmd, env);
    if Effective(lim, db, cmd, env) { EffectKeepsWalletsIndexed(lim, db, cmd, env); }
  }

  lemma RecordsStep(records: map<Key, Record>, h: seq<Entry>, e: Entry, records': map<Key, Record>)
    requires RecordsExplained(records, h)
    requires e.Registered? || e.answer.Err? ==> records' == records
    requires e.Answered? && e.answer.Ok? && KeyOf(e.cmd) in records ==>
      && records' == records && records[KeyOf(e.cmd)].hash == PayloadOf(e.cmd)
      && records[KeyOf(e.cmd)].state.Completed? && records[KeyOf(e.cmd)].state.response == e.answer.value
    requires e.Answered? && e.answer.Ok? && KeyOf(e.cmd) !in records ==>
      records' == records[KeyOf(e.cmd) := Record(PayloadOf(e.cmd), Completed(HttpStatusOf(e.cmd), e.answer.value))]
    ensures RecordsExplained(records', h + [e])
  {
    hide KeyOf, PayloadOf, HttpStatusOf;
    forall k | k in records' ensures exists i :: 0 <= i < |h + [e]| && Succeeded((h + [e])[i], k) {
      if k in records {
        var i :| 0 <= i < |h| && Succeeded(h[i], k);
        assert Succeeded((h + [e])[i], k);
      } else {
        assert Succeeded((h + [e])[|h|], k);
      }
    }
  }

  lemma {:induction false} RecordsAreAnswers(lim: Limits, h: seq<Entry>)
    requires Consistent(lim, h)
    ensures RecordsExplained(Replay(lim, h).records, h)
  {
    hide Handle, WalletsIndexed, RecordsExplained, CanRegister;
    if h == [] {
      NoRecords();
    } else {
      var before, e := h[..|h| - 1], h[|h| - 1];
      var db := Replay(lim, before);
      RecordsAreAnswers(lim, before);
      TablesAreSane(lim, before);
      if e.Answered? { HandleRecords(lim, db, e.cmd, e.env); }
      RecordsStep(db.records, before, e, Replay(lim, h).records);
      assert before + [e] == h;
    }
  }

  lemma NoRecords()
    ensures RecordsExplained(EMPTY.records, [])
  {
  }

  lemma {:induction false} ConsistentPrefix(lim: Limits, h: seq<Entry>, n: nat)
    requires Consistent(lim, h) && n <= |h|
    ensures Consistent(lim, h[..n])
    ensures n < |h| ==> EntryOk(lim, Replay(lim, h[..n]), h[n])
    ensures n < |h| ==> Replay(lim, h[..n + 1]) == Apply(lim, Replay(lim, h[..n]), h[n])
  {
    if n == |h| {
      assert h[..n] == h;
    } else {
      assert h[..n + 1][..n] == h[..n];
      if n + 1 == |h| {
        assert h[..n + 1] == h;
      } else {
        ConsistentPrefix(lim, h[..|h| - 1], n);
        assert h[..|h| - 1][..n] == h[..n] && h[..|h| - 1][..n + 1] == h[..n + 1];
      }
    }
  }

  /** The hashed payload misses nothing: under one key, equal payloads are equal requests. */
  lemma PayloadIsTheWholeRequest(a: Command, b: Command)
    requires KeyOf(a) == KeyOf(b)
    ensures PayloadOf(a) == PayloadOf(b) <==> a == b
  {
  }

  /** The other side of it: after a success, a retry that spells the same id otherwise is refused. */
  lemma RespelledRetryIsRefused(lim: Limits, h: seq<Entry>, i: nat, j: nat, respelled: string)
    requires Consistent(lim, h) && i < j < |h|
    requires h[i].Answered? && h[i].cmd.Direct? && h[i].answer.Ok? && h[j].Answered?
    requires h[j].cmd == h[i].cmd.(receiver := respelled) && respelled != h[i].cmd.receiver && IsUuid(respelled)
    ensures h[j].answer == Err(KeyReused)
  {
    hide Consistent;
    OneEffectPerKey(lim, h, i, j);
  }

  /** The answer of an effective call describes the rows it wrote. */
  predicate Describes(r: Response, db: Db, now: int) {
    match r
    case Receipt(id, sender, receiver, amount, note, balance, risk) =>
      && db.transfers != []
      && var t := db.transfers[|db.transfers| - 1];
         && t.id == id && t.sender == sender && t.receiver == receiver && t.amount == amount && t.note == note
         && t.status == TransferSucceeded && t.source == None
         && t.senderWallet in db.wallets && db.wallets[t.senderWallet].owner == sender
         && db.wallets[t.senderWallet].balance == balance
         && id in db.risks && db.risks[id] == risk
    case RequestDto(id, status, requester, payer, amount, note, accepted, expiresAt) =>
      && id in db.requests
      && var row := db.requests[id];
         && row.requester == requester && row.payer == payer && row.amount == amount && row.note == note
         && row.acceptedTransfer == accepted && row.expiresAt == expiresAt
         && status == EffectiveStatus(row.status, row.expiresAt, now)
  }

  lemma AnswerDescribesTheRows(lim: Limits, db: Db, cmd: Command, env: Env)
    requires WalletsIndexed(db) && Effective(lim, db, cmd, env)
    ensures Describes(Handle(lim, db, cmd, env).1.value, Handle(lim, db, cmd, env).0, env.dtoNow)
  {
    hide Cleared, CheckRow, WithinLimits, UserIn, UserText, RequestIn, Precheck;
    HandleShape(lim, db, cmd, env);
    if cmd.Settles() {
      assert Cleared(lim, db, MovedBy(db, cmd), From(db, cmd), To(db, cmd), env);
      ClearedFacts(lim, db, MovedBy(db, cmd), From(db, cmd), To(db, cmd), env);
    }
  }

  /** Exactly one effect per (actor, route, key): a later success with the key has the same
      payload and the same response, and changes nothing at all. */
  lemma OneEffectPerKey(lim: Limits, h: seq<Entry>, i: nat, j: nat)
    requires Consistent(lim, h) && i < j < |h|
    requires h[i].Answered? && h[i].answer.Ok? && h[j].Answered? && KeyOf(h[j].cmd) == KeyOf(h[i].cmd)
    ensures Replay(lim, h[..j + 1]) == Replay(lim, h[..j])
    ensures h[j].answer.Ok? ==> h[j].answer == h[i].answer && PayloadOf(h[j].cmd) == PayloadOf(h[i].cmd)
    ensures PayloadOf(h[j].cmd) != PayloadOf(h[i].cmd) && Precheck(h[j].cmd, h[j].env.startNow).Ok?
            ==> h[j].answer == Err(KeyReused)
    ensures PayloadOf(h[j].cmd) == PayloadOf(h[i].cmd) && Precheck(h[j].cmd, h[j].env.startNow).Ok?
            ==> h[j].answer == h[i].answer
  {
    hide WalletsIndexed, RecordsCompleted, Perform;
    ConsistentPrefix(lim, h, j);
    RecordsAreAnswers(lim, h[..j]);
    assert h[..j][i] == h[i];
  }

  /** A refused call leaves no trace, in particular no record of its key. */
  lemma RefusalLeavesNoTrace(lim: Limits, h: seq<Entry>, i: nat)
    requires Consistent(lim, h) && i < |h| && h[i].Answered? && h[i].answer.Err?
    ensures Replay(lim, h[..i + 1]) == Replay(lim, h[..i])
  {
    hide Handle;
    ConsistentPrefix(lim, h, i);
    TablesAreSane(lim, h[..i]);
    HandleRecords(lim, Replay(lim, h[..i]), h[i].cmd, h[i].env);
  }

  // ---------- the life of a request ----------

  /** The only ways a stored request changes: the payer accepts it before its deadline, the payer
      declines it, or its requester cancels it. */
  predicate Transition(e: Entry, id: Uuid, before: Request, after: Request) {
    && before.status == Pending
    && e.Answered? && e.answer.Ok? && e.cmd.Resolves() && e.cmd.RequestId() == id
    && match e.cmd
       case Accept(actor, _, _) =>
         && actor == before.payer
         && (before.expiresAt.Some? ==> e.env.deadlineNow < before.expiresAt.value)
         && after == before.(status := Accepted, acceptedTransfer := Some(TransferId(e.env)))
       case Decline(actor, _, _) => actor == before.payer && after == before.(status := Declined)
       case Cancel(actor, _, _) =>
         actor == before.requester && actor != before.payer && after == before.(status := Cancelled)
       case _ => false
  }

  predicate RequestStep(e: Entry, a: map<Uuid, Request>, b: map<Uuid, Request>) {
    && (forall id :: id in a ==> id in b && (b[id] == a[id] || Transition(e, id, a[id], b[id])))
    && (forall id :: id in b && id !in a ==> b[id].status == Pending && b[id].acceptedTransfer == None)
  }

  /** Who may resolve a request, and when. Only accepting looks at the deadline: a request that
      already reads as EXPIRED can still be declined or cancelled, so EXPIRED is not terminal. */
  lemma WhoMayResolve(row: Request, cmd: Command, now: int)
    requires cmd.Resolves()
    ensures CheckRow(row, cmd, now).Ok? <==>
            match cmd
            case Accept(actor, _, _) => actor == row.payer && EffectiveStatus(row.status, row.expiresAt, now) == Pending
            case Decline(actor, _, _) => actor == row.payer && row.status == Pending
            case Cancel(actor, _, _) => actor == row.requester && actor != row.payer && row.status == Pending
            case _ => false
  {
  }

  lemma EffectOnRequests(db: Db, cmd: Command, env: Env)
    requires cmd.Settles() ==> From(db, cmd) in db.wallets && To(db, cmd) in db.wallets
    requires cmd.Resolves() ==> cmd.RequestId() in db.requests
    ensures Effect(db, cmd, env).requests
            == if cmd.Create? then db.requests[NewRequestId(env) := NewRequest(cmd)]
               else if cmd.Resolves() then db.requests[cmd.RequestId() := ResolvedRow(cmd, db.requests[cmd.RequestId()], env)]
               else db.requests
  {
  }

  lemma RequestsStep(lim: Limits, db: Db, e: Entry)
    requires EntryOk(lim, db, e) && RecordsCompleted(db)
    ensures RequestStep(e, db.requests, Apply(lim, db, e).requests)
  {
    hide Handle, Effective, Effect, FindParties, CheckParties, WithinLimits;
    if e.Answered? {
      HandleShape(lim, db, e.cmd, e.env);
      if Effective(lim, db, e.cmd, e.env) {
        FreshEffect(lim, db, e);
        EffectOnRequests(db, e.cmd, e.env);
      }
    }
  }

  /** An effective call draws fresh ids, so a created request never replaces another. */
  lemma FreshEffect(lim: Limits, db: Db, e: Entry)
    requires e.Answered? && EntryOk(lim, db, e) && RecordsCompleted(db) && Effective(lim, db, e.cmd, e.env)
    ensures Unused(db, e.env.serial)
  {
    hide Perform;
    assert KeyOf(e.cmd) !in db.records;
    assert KeyOf(e.cmd) in Handle(lim, db, e.cmd, e.env).0.records;
  }

  /** A request never leaves a terminal status, whatever calls follow. */
  lemma {:induction false} TerminalIsForever(lim: Limits, h: seq<Entry>, n: nat, id: Uuid)
    requires Consistent(lim, h) && n <= |h|
    ensures id in Replay(lim, h[..n]).requests ==>
              && id in Replay(lim, h).requests
              && (Replay(lim, h[..n]).requests[id].status != Pending ==>
                    Replay(lim, h).requests[id] == Replay(lim, h[..n]).requests[id])
  {
    hide Apply, EntryOk;
    if n == |h| {
      assert h[..n] == h;
    } else {
      var before := h[..|h| - 1];
      assert before[..n] == h[..n];
      TerminalIsForever(lim, before, n, id);
      TablesAreSane(lim, before);
      RequestsStep(lim, Replay(lim, before), h[|h| - 1]);
    }
  }

  /** The life of a request: while it is pending nothing has changed it; it becomes terminal in one
      entry, by a permitted transition; and from then on its row is what it is now. */
  lemma {:induction false} LifeOfARequest(lim: Limits, h: seq<Entry>, id: Uuid) returns (i: nat)
    requires Consistent(lim, h) && id in Replay(lim, h).requests && Replay(lim, h).requests[id].status != Pending
    ensures i < |h| && id in Replay(lim, h[..i]).requests
    ensures Transition(h[i], id, Replay(lim, h[..i]).requests[id], Replay(lim, h).requests[id])
    ensures forall j :: 0 <= j <= i && id in Replay(lim, h[..j]).requests ==>
              Replay(lim, h[..j]).requests[id].status == Pending
    ensures forall j :: i < j <= |h| ==>
              id in Replay(lim, h[..j]).requests && Replay(lim, h[..j]).requests[id] == Replay(lim, h).requests[id]
  {
    hide Apply, EntryOk, Transition;
    assert h != [];
    var n := |h| - 1;
    var before := h[..n];
    assert forall j :: 0 <= j <= n ==> before[..j] == h[..j];
    assert h[..|h|] == h;
    TablesAreSane(lim, before);
    RequestsStep(lim, Replay(lim, before), h[n]);
    if id in Replay(lim, before).requests && Replay(lim, before).requests[id].status != Pending {
      i := LifeOfARequest(lim, before, id);
      PendingBefore(h[n], id, Replay(lim, before).requests[id], Replay(lim, h).requests[id]);
    } else {
      i := n;
      forall j | 0 <= j <= n && id in Replay(lim, h[..j]).requests
        ensures Replay(lim, h[..j]).requests[id].status == Pending
      {
        assert before[..j] == h[..j];
        TerminalIsForever(lim, before, j, id);
      }
    }
  }

  lemma PendingBefore(e: Entry, id: Uuid, before: Request, after: Request)
    ensures Transition(e, id, before, after) ==> before.status == Pending
  {
  }
}
