/** Nothing half done is ever committed: what every transfer, request and event of a committed
    state comes with. */
module Settlements {
  import opened Wrappers
  import opened Tables
  import opened Limits
  import opened Operations
  import opened History

  // ---------- each transfer is complete ----------

  predicate DebitOf(e: LedgerEntry, t: Transfer) {
    e.transfer == t.id && e.wallet == t.senderWallet && e.direction == Debit && e.amount == t.amount
    && e.signed == -t.amount
  }

  predicate CreditOf(e: LedgerEntry, t: Transfer) {
    e.transfer == t.id && e.wallet == t.receiverWallet && e.direction == Credit && e.amount == t.amount
    && e.signed == t.amount
  }

  /** The CHECK constraints of the transfers table, its foreign keys, and its terminal status. */
  predicate RowComplete(db: Db, t: Transfer) {
    && t.status == TransferSucceeded && t.amount > 0 && t.sender != t.receiver
    && t.sender in db.walletOf && db.walletOf[t.sender] == t.senderWallet
    && t.receiver in db.walletOf && db.walletOf[t.receiver] == t.receiverWallet
  }

  /** The ledger is the list of the transfers, two entries each: one DEBIT, then one CREDIT. */
  predicate LedgerPairs(transfers: seq<Transfer>, ledger: seq<LedgerEntry>) {
    && |ledger| == 2 * |transfers|
    && (forall i :: 0 <= i < |transfers| ==>
          DebitOf(ledger[2 * i], transfers[i]) && CreditOf(ledger[2 * i + 1], transfers[i]))
  }

  predicate UniqueTransferIds(transfers: seq<Transfer>) {
    forall i, j :: 0 <= i < j < |transfers| ==> transfers[i].id != transfers[j].id
  }

  predicate UniqueEventIds(events: seq<Event>) {
    forall i, j :: 0 <= i < j < |events| ==> events[i].id != events[j].id
  }

  function IdsOf(transfers: seq<Transfer>): set<Uuid> {
    set i | 0 <= i < |transfers| :: transfers[i].id
  }

  /** transfer.succeeded events, in order. */
  function DoneEvents(events: seq<Event>): seq<EventBody> {
    if events == [] then []
    else
      var body := events[|events| - 1].body;
      DoneEvents(events[..|events| - 1]) + if body.TransferDone? then [body] else []
  }

  function DoneBody(t: Transfer): EventBody {
    TransferDone(t.id, t.sender, t.receiver, t.amount, t.source)
  }

  predicate DoneEventsMatch(transfers: seq<Transfer>, done: seq<EventBody>) {
    |done| == |transfers| && forall i :: 0 <= i < |transfers| ==> done[i] == DoneBody(transfers[i])
  }

  predicate Complete(db: Db) {
    && (forall i :: 0 <= i < |db.transfers| ==> RowComplete(db, db.transfers[i]))
    && LedgerPairs(db.transfers, db.ledger)
    && UniqueTransferIds(db.transfers) && UniqueEventIds(db.events)
    && db.risks.Keys == IdsOf(db.transfers)
    && DoneEventsMatch(db.transfers, DoneEvents(db.events))
  }

  // ---------- the events that report money arriving ----------

  datatype Arrival = Arrival(transfer: Uuid, receiver: UserId, amount: int, source: Option<Uuid>)

  /** The transfer whose arrival an event reports to its receiver: a direct transfer reports
      itself, a settlement is reported by the acceptance of its request. */
  function ArrivalOf(body: EventBody): Option<Arrival> {
    match body
    case TransferDone(id, _, receiver, amount, None) => Some(Arrival(id, receiver, amount, None))
    case RequestAccepted(request, _, requester, amount, id) => Some(Arrival(id, requester, amount, Some(request)))
    case _ => None
  }

  function Arrivals(events: seq<Event>): seq<Arrival> {
    if events == [] then []
    else
      var a := ArrivalOf(events[|events| - 1].body);
      Arrivals(events[..|events| - 1]) + if a.Some? then [a.value] else []
  }

  /** One arrival event per transfer, in commit order, naming its receiver, amount and request. */
  predicate ArrivalsMatch(transfers: seq<Transfer>, arrivals: seq<Arrival>) {
    && |arrivals| == |transfers|
    && (forall i :: 0 <= i < |transfers| ==>
          arrivals[i] == Arrival(transfers[i].id, transfers[i].receiver, transfers[i].amount, transfers[i].source))
  }

  lemma {:induction false} EventsAppend(a: seq<Event>, b: seq<Event>)
    ensures DoneEvents(a + b) == DoneEvents(a) + DoneEvents(b)
    ensures Arrivals(a + b) == Arrivals(a) + Arrivals(b)
  {
    if b == [] {
      assert a + b == a;
    } else {
      EventsAppend(a, b[..|b| - 1]);
      assert (a + b)[..|a + b| - 1] == a + b[..|b| - 1];
    }
  }

  // ---------- requests and the transfers that settle them ----------

  predicate SettledBy(r: Request, t: Transfer) {
    r.status == Accepted && r.acceptedTransfer == Some(t.id) && r.payer == t.sender && r.requester == t.receiver
    && r.amount == t.amount
  }

  /** The CHECK constraints of money_requests; no row ever stores EXPIRED. */
  predicate RequestSound(r: Request) {
    r.amount > 0 && r.payer != r.requester && r.status != Expired && (r.acceptedTransfer.Some? <==> r.status == Accepted)
  }

  ghost predicate Bijection(transfers: seq<Transfer>, requests: map<Uuid, Request>) {
    && (forall r :: r in requests ==> RequestSound(requests[r]))
    && (forall i :: 0 <= i < |transfers| && transfers[i].source.Some? ==>
          transfers[i].source.value in requests && SettledBy(requests[transfers[i].source.value], transfers[i]))
    && (forall r :: r in requests && requests[r].status == Accepted ==>
          exists i :: 0 <= i < |transfers| && transfers[i].source == Some(r))
  }

  // ---------- preservation ----------

  /** The events of one settlement, in the order they are emitted. */
  function SettlementEvents(db: Db, cmd: Command, env: Env): seq<Event>
    requires cmd.Settles() && (cmd.Resolves() ==> cmd.RequestId() in db.requests)
  {
    RiskEvents(env) + [DoneEvent(MovedBy(db, cmd), env)]
    + if cmd.Accept? then [ResolvedEvent(cmd, db.requests[cmd.RequestId()], env)] else []
  }

  /** The row that a settlement inserts. */
  function SettlementRow(db: Db, cmd: Command, env: Env): Transfer {
    TransferRow(MovedBy(db, cmd), From(db, cmd), To(db, cmd), env, TransferSucceeded)
  }

  /** What a settlement appends. */
  lemma SettlementTables(db: Db, cmd: Command, env: Env)
    requires cmd.Settles() && From(db, cmd) in db.wallets && To(db, cmd) in db.wallets
    requires cmd.Resolves() ==> cmd.RequestId() in db.requests
    ensures var db' := Effect(db, cmd, env);
            var t := SettlementRow(db, cmd, env);
            && db'.transfers == db.transfers + [t]
            && (exists s, r :: db'.ledger == db.ledger + [DebitEntry(t.id, t.senderWallet, s, t.amount),
                                                          CreditEntry(t.id, t.receiverWallet, r, t.amount)])
            && db'.risks.Keys == db.risks.Keys + {t.id}
            && db'.events == db.events + SettlementEvents(db, cmd, env)
            && db'.walletOf == db.walletOf
            && db'.requests
               == (if cmd.Accept? then db.requests[cmd.RequestId() := ResolvedRow(cmd, db.requests[cmd.RequestId()], env)]
                   else db.requests)
  {
    var db' := Effect(db, cmd, env);
    var id := TransferId(env);
    var input := MovedBy(db, cmd);
    assert db'.ledger == db.ledger + [DebitEntry(id, From(db, cmd), db.wallets[From(db, cmd)].balance, input.amount),
                                      CreditEntry(id, To(db, cmd), db.wallets[To(db, cmd)].balance, input.amount)];
  }

  lemma OneEvent(e: Event)
    ensures DoneEvents([e]) == (if e.body.TransferDone? then [e.body] else [])
    ensures Arrivals([e]) == (if ArrivalOf(e.body).Some? then [ArrivalOf(e.body).value] else [])
  {
    assert [e][..0] == [];
  }

  lemma SettlementEventsReport(db: Db, cmd: Command, env: Env)
    requires cmd.Settles() && (cmd.Resolves() ==> cmd.RequestId() in db.requests)
    ensures var ev, input := SettlementEvents(db, cmd, env), MovedBy(db, cmd);
            && DoneEvents(ev) == [DoneEvent(input, env).body]
            && Arrivals(ev) == [Arrival(TransferId(env), input.receiver, input.amount, input.source)]
  {
    hide DoneEvents, Arrivals;
    var done := DoneEvent(MovedBy(db, cmd), env);
    var accepted := if cmd.Accept? then [ResolvedEvent(cmd, db.requests[cmd.RequestId()], env)] else [];
    EventsAppend(RiskEvents(env), [done]);
    EventsAppend(RiskEvents(env) + [done], accepted);
    OneEvent(done);
    NoEvents();
    if accepted != [] { OneEvent(accepted[0]); }
    if env.risk == High { OneEvent(RiskEvents(env)[0]); }
  }

  lemma NoEvents()
    ensures DoneEvents([]) == [] && Arrivals([]) == []
  {
  }

  lemma SettlementEventIds(db: Db, cmd: Command, env: Env)
    requires cmd.Settles() && (cmd.Resolves() ==> cmd.RequestId() in db.requests)
    ensures var ev := SettlementEvents(db, cmd, env);
            UniqueEventIds(ev) && forall i :: 0 <= i < |ev| ==> ev[i].id.serial == env.serial
  {
  }

  lemma PairAppends(transfers: seq<Transfer>, ledger: seq<LedgerEntry>, t: Transfer, d: LedgerEntry, c: LedgerEntry)
    requires LedgerPairs(transfers, ledger) && DebitOf(d, t) && CreditOf(c, t)
    ensures LedgerPairs(transfers + [t], ledger + [d, c])
  {
  }

  lemma RowAppends(db: Db, db': Db, t: Transfer, serial: nat)
    requires db'.transfers == db.transfers + [t] && db'.walletOf == db.walletOf && RowComplete(db, t)
    requires forall i :: 0 <= i < |db.transfers| ==> RowComplete(db, db.transfers[i])
    requires UniqueTransferIds(db.transfers) && Unused(db, serial) && t.id.serial == serial
    ensures forall i :: 0 <= i < |db'.transfers| ==> RowComplete(db', db'.transfers[i])
    ensures UniqueTransferIds(db'.transfers) && IdsOf(db'.transfers) == IdsOf(db.transfers) + {t.id}
  {
    forall i | 0 <= i < |db'.transfers| ensures RowComplete(db', db'.transfers[i]) {
      if i < |db.transfers| { assert RowComplete(db, db.transfers[i]); }
    }
    assert db'.transfers[|db.transfers|] == t;
    assert forall i :: 0 <= i < |db.transfers| ==> db'.transfers[i] == db.transfers[i];
  }

  lemma IdsAppend(db: Db, added: seq<Event>, serial: nat)
    requires UniqueEventIds(db.events) && UniqueEventIds(added) && Unused(db, serial)
    requires forall i :: 0 <= i < |added| ==> added[i].id.serial == serial
    ensures UniqueEventIds(db.events + added)
  {
  }

  lemma SettlementKeepsComplete(db: Db, cmd: Command, env: Env)
    requires cmd.Settles() && From(db, cmd) in db.wallets && To(db, cmd) in db.wallets
    requires cmd.Resolves() ==> cmd.RequestId() in db.requests
    requires Complete(db) && Unused(db, env.serial) && RowComplete(db, SettlementRow(db, cmd, env))
    ensures Complete(Effect(db, cmd, env))
  {
    hide Effect, MovedBy, From, To, SettlementEvents, RowComplete, LedgerPairs, UniqueTransferIds, UniqueEventIds, IdsOf, Unused,
      DoneEvents, Arrivals;
    var db', t := Effect(db, cmd, env), SettlementRow(db, cmd, env);
    SettlementTables(db, cmd, env);
    RowAppends(db, db', t, env.serial);
    var s, r :| db'.ledger == db.ledger + [DebitEntry(t.id, t.senderWallet, s, t.amount),
                                           CreditEntry(t.id, t.receiverWallet, r, t.amount)];
    PairAppends(db.transfers, db.ledger, t, DebitEntry(t.id, t.senderWallet, s, t.amount),
                CreditEntry(t.id, t.receiverWallet, r, t.amount));
    SettlementEventsReport(db, cmd, env);
    SettlementEventIds(db, cmd, env);
    EventsAppend(db.events, SettlementEvents(db, cmd, env));
    IdsAppend(db, SettlementEvents(db, cmd, env), env.serial);
  }

  lemma SettlementKeepsBijection(db: Db, cmd: Command, env: Env)
    requires cmd.Settles() && From(db, cmd) in db.wallets && To(db, cmd) in db.wallets
    requires cmd.Resolves() ==> cmd.RequestId() in db.requests && db.requests[cmd.RequestId()].status == Pending
    requires Bijection(db.transfers, db.requests) && Unused(db, env.serial)
    ensures Bijection(Effect(db, cmd, env).transfers, Effect(db, cmd, env).requests)
  {
    hide Effect;
    var db' := Effect(db, cmd, env);
    SettlementTables(db, cmd, env);
    var n := |db.transfers|;
    forall r | r in db'.requests && db'.requests[r].status == Accepted
      ensures exists i :: 0 <= i < |db'.transfers| && db'.transfers[i].source == Some(r)
    {
      if cmd.Accept? && r == cmd.RequestId() {
        assert db'.transfers[n].source == Some(r);
      } else {
        var i :| 0 <= i < n && db.transfers[i].source == Some(r);
        assert db'.transfers[i].source == Some(r);
      }
    }
  }

  /** Creating, declining or cancelling a request. */
  lemma RequestKeepsComplete(db: Db, cmd: Command, env: Env)
    requires !cmd.Settles() && (cmd.Resolves() ==> cmd.RequestId() in db.requests)
    requires Complete(db) && Unused(db, env.serial)
    ensures Complete(Effect(db, cmd, env))
  {
    var db' := Effect(db, cmd, env);
    var e := db'.events[|db.events|];
    EventsAppend(db.events, [e]);
    assert [e][..0] == [];
    assert db'.events == db.events + [e] && DoneEvents([e]) == [];
  }

  lemma RequestKeepsBijection(db: Db, cmd: Command, env: Env)
    requires !cmd.Settles()
    requires cmd.Resolves() ==> cmd.RequestId() in db.requests && db.requests[cmd.RequestId()].status == Pending
    requires cmd.Create? ==> cmd.amount > 0 && cmd.PayerId() != cmd.actor
    requires Bijection(db.transfers, db.requests) && Unused(db, env.serial)
    ensures Bijection(Effect(db, cmd, env).transfers, Effect(db, cmd, env).requests)
  {
    var db' := Effect(db, cmd, env);
    forall r | r in db'.requests && db'.requests[r].status == Accepted
      ensures exists i :: 0 <= i < |db'.transfers| && db'.transfers[i].source == Some(r)
    {
      assert r in db.requests && db.requests[r].status == Accepted;
    }
  }

  lemma SettlementKeepsArrivals(db: Db, cmd: Command, env: Env)
    requires cmd.Settles() && From(db, cmd) in db.wallets && To(db, cmd) in db.wallets
    requires cmd.Resolves() ==> cmd.RequestId() in db.requests
    requires ArrivalsMatch(db.transfers, Arrivals(db.events))
    ensures ArrivalsMatch(Effect(db, cmd, env).transfers, Arrivals(Effect(db, cmd, env).events))
  {
    hide Effect, MovedBy, From, To, SettlementEvents, DoneEvents, Arrivals, UniqueEventIds;
    SettlementTables(db, cmd, env);
    SettlementEventsReport(db, cmd, env);
    EventsAppend(db.events, SettlementEvents(db, cmd, env));
  }

  /** Requests that are created, declined or cancelled report no arrival. */
  lemma RequestKeepsArrivals(db: Db, cmd: Command, env: Env)
    requires !cmd.Settles() && (cmd.Resolves() ==> cmd.RequestId() in db.requests)
    requires ArrivalsMatch(db.transfers, Arrivals(db.events))
    ensures ArrivalsMatch(Effect(db, cmd, env).transfers, Arrivals(Effect(db, cmd, env).events))
  {
    var e := Effect(db, cmd, env).events[|db.events|];
    EventsAppend(db.events, [e]);
    assert [e][..0] == [];
    assert Effect(db, cmd, env).events == db.events + [e];
  }

  /** Every effect keeps every row checked against the limits. */
  lemma EffectKeepsChecked(lim: Limits, db: Db, cmd: Command, env: Env)
    requires cmd.Settles() ==> From(db, cmd) in db.wallets && To(db, cmd) in db.wallets
    requires cmd.Resolves() ==> cmd.RequestId() in db.requests
    requires cmd.Settles() ==>
      && env.limitNow <= env.createdAt
      && WithinLimits(lim, db.transfers, MovedBy(db, cmd).sender, MovedBy(db, cmd).amount, env.limitNow)
    requires PositiveAmounts(db.transfers) && EachRowChecked(lim, db.transfers)
    ensures EachRowChecked(lim, Effect(db, cmd, env).transfers)
  {
    hide WithinLimits, EachRowChecked;
    if cmd.Settles() {
      var t := TransferRow(MovedBy(db, cmd), From(db, cmd), To(db, cmd), env, TransferSucceeded);
      LaterCheckAlsoPasses(lim, db.transfers, t.sender, t.amount, env.limitNow, env.createdAt);
      CheckedRowAppends(lim, db.transfers, t);
      hide Effect;
      SettlementTables(db, cmd, env);
    }
  }

  ghost predicate Whole(lim: Limits, db: Db) {
    && Complete(db) && ArrivalsMatch(db.transfers, Arrivals(db.events))
    && Bijection(db.transfers, db.requests) && EachRowChecked(lim, db.transfers)
  }

  lemma EffectiveChanges(lim: Limits, db: Db, cmd: Command, env: Env)
    requires RecordsCompleted(db)
    ensures Effective(lim, db, cmd, env) ==> Handle(lim, db, cmd, env).0 != db
  {
    hide Perform, Effect, Cleared, CheckRow;
    HandleShape(lim, db, cmd, env);
    if Effective(lim, db, cmd, env) {
      assert KeyOf(cmd) in Handle(lim, db, cmd, env).0.records;
    }
  }

  lemma HandleKeepsWhole(lim: Limits, db: Db, e: Entry)
    requires e.Answered? && EntryOk(lim, db, e)
    requires WalletsIndexed(db) && RecordsCompleted(db) && Whole(lim, db)
    ensures Whole(lim, Handle(lim, db, e.cmd, e.env).0)
  {
    hide Handle, Perform, Complete, ArrivalsMatch, Arrivals, Bijection, EachRowChecked, WithinLimits, Effect;
    var cmd, env := e.cmd, e.env;
    HandleShape(lim, db, cmd, env);
    if Effective(lim, db, cmd, env) {
      EffectiveChanges(lim, db, cmd, env);
      if cmd.Settles() { ClearedFacts(lim, db, MovedBy(db, cmd), From(db, cmd), To(db, cmd), env); }
      CompleteAmounts(db);
      EffectKeepsChecked(lim, db, cmd, env);
      if cmd.Settles() {
        SettlementKeepsArrivals(db, cmd, env);
        SettlementKeepsComplete(db, cmd, env);
        SettlementKeepsBijection(db, cmd, env);
      } else {
        RequestKeepsArrivals(db, cmd, env);
        RequestKeepsComplete(db, cmd, env);
        RequestKeepsBijection(db, cmd, env);
      }
      RecordsDoNotMatter(lim, Effect(db, cmd, env), cmd, Handle(lim, db, cmd, env).1.value);
    }
  }

  lemma CompleteAmounts(db: Db)
    requires Complete(db)
    ensures PositiveAmounts(db.transfers)
  {
    forall i | 0 <= i < |db.transfers| ensures db.transfers[i].amount > 0 {
      assert RowComplete(db, db.transfers[i]);
    }
  }

  lemma RecordsDoNotMatter(lim: Limits, db: Db, cmd: Command, response: Response)
    requires Whole(lim, db)
    ensures Whole(lim, WithRecord(db, cmd, response))
  {
    var db' := WithRecord(db, cmd, response);
    assert forall i :: 0 <= i < |db.transfers| ==> RowComplete(db, db.transfers[i]) && RowComplete(db', db.transfers[i]);
  }

  lemma RegisterKeepsWhole(lim: Limits, db: Db, user: UserId, id: WalletId, wallet: Wallet)
    requires CanRegister(db, user, id, wallet) && Whole(lim, db)
    ensures Whole(lim, Register(db, user, id, wallet))
  {
    var db' := Register(db, user, id, wallet);
    assert forall i :: 0 <= i < |db.transfers| ==> RowComplete(db, db.transfers[i]) && RowComplete(db', db.transfers[i]);
  }

  /** In every state of every history nothing is half done: each transfer has its pair, its score,
      its events; requests and settlements correspond one to one; each row passed its limits. */
  lemma {:induction false} NothingIsHalfDone(lim: Limits, h: seq<Entry>)
    requires Consistent(lim, h)
    ensures Whole(lim, Replay(lim, h))
  {
    hide Handle, WalletsIndexed, RecordsCompleted, CanRegister, Register;
    if h == [] {
      assert Whole(lim, EMPTY);
    } else {
      var before, e := h[..|h| - 1], h[|h| - 1];
      var db := Replay(lim, before);
      hide Whole;
      NothingIsHalfDone(lim, before);
      TablesAreSane(lim, before);
      match e
      case Answered(_, _, _, _) => HandleKeepsWhole(lim, db, e);
      case Registered(user, id, wallet) => RegisterKeepsWhole(lim, db, user, id, wallet);
    }
  }

  /** Every sender, every instant, every window: the limit holds. */
  lemma LimitsHoldInEveryWindow(lim: Limits, h: seq<Entry>, sender: UserId, p: Period, t: int)
    requires Consistent(lim, h)
    ensures SumBetween(Replay(lim, h).transfers, sender, t - Span(p), t) <= Ceiling(lim, p)
  {
    hide Handle, EachRowChecked, Complete;
    NothingIsHalfDone(lim, h);
    CompleteAmounts(Replay(lim, h));
    EveryWindowObeysItsLimit(lim, Replay(lim, h).transfers, sender, p, t);
  }

  /** No request is settled twice, and no transfer settles two requests. */
  lemma SettledOnce(db: Db, i: nat, j: nat)
    requires Complete(db) && Bijection(db.transfers, db.requests)
    requires i < |db.transfers| && j < |db.transfers|
    requires db.transfers[i].source.Some? && db.transfers[i].source == db.transfers[j].source
    ensures i == j
  {
    assert SettledBy(db.requests[db.transfers[i].source.value], db.transfers[i]);
    assert SettledBy(db.requests[db.transfers[i].source.value], db.transfers[j]);
  }
}
