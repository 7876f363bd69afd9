/** What each call answers, in terms of the rows alone: exactly when it succeeds, and exactly when it
    is refused with which error. */
module Decisions {
  import opened Wrappers
  import opened Ids
  import opened Tables
  import opened Limits
  import opened Operations
  import opened History
  import opened Settlements
  import opened SelfTransfers
  import P = Protocol
  import PR = ProtocolResults

  // ---------- who may send what ----------

  predicate HasWallet(db: Db, user: UserId) { user in db.walletOf && db.walletOf[user] in db.wallets }

  function WalletOf(db: Db, user: UserId): Wallet
    requires HasWallet(db, user)
  {
    db.wallets[db.walletOf[user]]
  }

  predicate UserIsActive(db: Db, user: UserId) { HasWallet(db, user) && WalletOf(db, user).ownerStatus == UserActive }
  predicate WalletIsActive(db: Db, user: UserId) { HasWallet(db, user) && WalletOf(db, user).status == WalletActive }

  /** One day, seven days and thirty days, in milliseconds. */
  predicate WindowsAdmit(lim: Limits, rows: seq<Transfer>, sender: UserId, amount: int, now: int) {
    && SumSince(rows, sender, now - 86_400_000) + amount <= lim.daily
    && SumSince(rows, sender, now - 604_800_000) + amount <= lim.weekly
    && SumSince(rows, sender, now - 2_592_000_000) + amount <= lim.monthly
  }

  predicate MaySend(lim: Limits, db: Db, sender: UserId, receiver: UserId, amount: int, now: int) {
    && UserIsActive(db, sender) && UserIsActive(db, receiver)
    && WalletIsActive(db, sender) && WalletIsActive(db, receiver)
    && 0 < amount <= WalletOf(db, sender).balance
    && WindowsAdmit(lim, db.transfers, sender, amount, now)
  }

  /** Why not: each error has its own condition, and each condition presumes those checked before it. */
  predicate MayNotSend(lim: Limits, db: Db, sender: UserId, receiver: UserId, amount: int, now: int, e: Error) {
    match e
    case InternalError => !HasWallet(db, sender)
    case Forbidden => HasWallet(db, sender) && HasWallet(db, receiver) && !UserIsActive(db, sender)
    case UserNotFound => HasWallet(db, sender) && !UserIsActive(db, receiver)
                         && (HasWallet(db, receiver) ==> UserIsActive(db, sender))
    case WalletUnavailable => UserIsActive(db, sender) && UserIsActive(db, receiver)
                              && !(WalletIsActive(db, sender) && WalletIsActive(db, receiver))
    case InvalidTransfer => Operable(db, sender, receiver) && amount <= 0
    case InsufficientBalance => Operable(db, sender, receiver) && 0 < amount && WalletOf(db, sender).balance < amount
    case LimitExceeded => Operable(db, sender, receiver) && 0 < amount <= WalletOf(db, sender).balance
                          && !WindowsAdmit(lim, db.transfers, sender, amount, now)
    case _ => false
  }

  predicate Operable(db: Db, sender: UserId, receiver: UserId) {
    && UserIsActive(db, sender) && UserIsActive(db, receiver)
    && WalletIsActive(db, sender) && WalletIsActive(db, receiver)
  }

  lemma WindowsAreDays(lim: Limits, rows: seq<Transfer>, sender: UserId, amount: int, now: int)
    ensures WithinLimits(lim, rows, sender, amount, now) <==> WindowsAdmit(lim, rows, sender, amount, now)
  {
    OneScanIsThreeSums(rows, sender, now);
  }

  lemma SettleDecides(lim: Limits, db: Db, input: SettleInput, env: Env, e: Error)
    requires WalletsIndexed(db) && input.sender != input.receiver && input.receiverText != UserText(input.sender)
    ensures Settle(lim, db, input, env).Ok? <==> MaySend(lim, db, input.sender, input.receiver, input.amount, env.limitNow)
    ensures Settle(lim, db, input, env) == Err(e)
            <==> MayNotSend(lim, db, input.sender, input.receiver, input.amount, env.limitNow, e)
  {
    hide WithinLimits, WindowsAdmit, UserText;
    WindowsAreDays(lim, db.transfers, input.sender, input.amount, env.limitNow);
  }

  // ---------- the five calls ----------

  lemma FreshIsPerformed(lim: Limits, db: Db, cmd: Command, env: Env)
    requires Fresh(db, cmd, env)
    ensures match Perform(lim, db, cmd, env)
            case Err(e) => Handle(lim, db, cmd, env).1 == Err(e)
            case Ok(effect) => Handle(lim, db, cmd, env).1 == Ok(effect.1)
  {
    hide Perform, Precheck, KeyOf, PayloadOf;
  }

  /** Before any transaction: ids that are no UUIDs, oneself as payer, a deadline that has passed. */
  lemma PrecheckDecides(cmd: Command, now: int, e: Error)
    ensures Precheck(cmd, now) == Err(e)
            <==> match cmd
                 case Direct(_, receiver, _, _, _) => e == ValidationError && !IsUuid(receiver)
                 case Create(actor, payer, _, _, expiresAt, _) =>
                   e == ValidationError
                   && (!IsUuid(payer) || payer == UserText(actor) || (expiresAt.Some? && expiresAt.value <= now))
                 case Accept(_, request, _) => e == RequestNotFound && !IsUuid(request)
                 case Decline(_, request, _) => e == RequestNotFound && !IsUuid(request)
                 case Cancel(_, request, _) => e == RequestNotFound && !IsUuid(request)
  {
    hide IsUuid, UuidText;
  }

  /** A transfer between two users succeeds exactly when the sender may send, and is refused with each
      error exactly when that is the reason. */
  lemma TransferDecides(lim: Limits, db: Db, cmd: Command, env: Env, e: Error)
    requires WalletsIndexed(db) && cmd.Direct? && Fresh(db, cmd, env)
    requires cmd.actor < Room(36) && cmd.ReceiverId() != cmd.actor
    ensures Handle(lim, db, cmd, env).1.Ok?
            <==> MaySend(lim, db, cmd.actor, cmd.ReceiverId(), cmd.amount, env.limitNow)
    ensures Handle(lim, db, cmd, env).1 == Err(e)
            <==> MayNotSend(lim, db, cmd.actor, cmd.ReceiverId(), cmd.amount, env.limitNow, e)
  {
    hide Handle, Settle, MaySend, MayNotSend, UuidText, DigitsOf, IsUuid, Room;
    FreshIsPerformed(lim, db, cmd, env);
    UuidRoundTrip(cmd.actor);
    SettleDecides(lim, db, SettleInput(cmd.actor, cmd.ReceiverId(), cmd.receiver, cmd.amount, cmd.note, None), env, e);
  }

  /** The deadline of a request has not come. */
  predicate InTime(row: Request, now: int) { row.expiresAt.None? || now < row.expiresAt.value }

  /** The request that a resolving call names is there, the actor is the right party, and it is open. */
  predicate MayResolve(db: Db, cmd: Command, now: int)
    requires cmd.Resolves()
  {
    && cmd.RequestId() in db.requests
    && var row := db.requests[cmd.RequestId()];
       && row.status == Pending
       && (if cmd.Cancel? then cmd.actor == row.requester && cmd.actor != row.payer else cmd.actor == row.payer)
       && (cmd.Accept? ==> InTime(row, now))
  }

  predicate MayNotResolve(db: Db, cmd: Command, now: int, e: Error)
    requires cmd.Resolves()
  {
    var known := cmd.RequestId() in db.requests;
    match e
    case RequestNotFound =>
      known ==> cmd.actor != db.requests[cmd.RequestId()].payer && cmd.actor != db.requests[cmd.RequestId()].requester
    case Forbidden =>
      known && var row := db.requests[cmd.RequestId()];
      if cmd.Cancel? then cmd.actor == row.payer else cmd.actor == row.requester && cmd.actor != row.payer
    case RequestAlreadyResolved =>
      known && var row := db.requests[cmd.RequestId()];
      && (if cmd.Cancel? then cmd.actor == row.requester && cmd.actor != row.payer else cmd.actor == row.payer)
      && (row.status != Pending || (cmd.Accept? && !InTime(row, now)))
    case _ => false
  }

  lemma CheckRequestDecides(db: Db, cmd: Command, now: int, e: Error)
    requires cmd.Resolves()
    ensures CheckRequest(db, cmd, now).Ok? <==> MayResolve(db, cmd, now)
    ensures MayResolve(db, cmd, now) ==>
              cmd.RequestId() in db.requests && CheckRequest(db, cmd, now) == Ok(db.requests[cmd.RequestId()])
    ensures CheckRequest(db, cmd, now) == Err(e) <==> MayNotResolve(db, cmd, now, e)
  {
    hide RequestIn;
  }

  /** Accepting succeeds exactly when the payer accepts an open request in time and may send its amount
      to the requester. */
  lemma AcceptDecides(lim: Limits, db: Db, cmd: Command, env: Env, e: Error)
    requires WalletsIndexed(db) && cmd.Accept? && Fresh(db, cmd, env)
    requires cmd.RequestId() in db.requests ==>
               var row := db.requests[cmd.RequestId()];
               row.payer != row.requester && row.payer < Room(36) && row.requester < Room(36)
    ensures Handle(lim, db, cmd, env).1.Ok?
            <==> MayResolve(db, cmd, env.deadlineNow)
                 && var row := db.requests[cmd.RequestId()];
                    MaySend(lim, db, row.payer, row.requester, row.amount, env.limitNow)
    ensures Handle(lim, db, cmd, env).1 == Err(e)
            <==> MayNotResolve(db, cmd, env.deadlineNow, e)
                 || (MayResolve(db, cmd, env.deadlineNow)
                     && var row := db.requests[cmd.RequestId()];
                        MayNotSend(lim, db, row.payer, row.requester, row.amount, env.limitNow, e))
  {
    hide Handle, Settle, CheckRequest, MayResolve, MayNotResolve, MaySend, MayNotSend, UuidText, DigitsOf, RequestIn, Room;
    FreshIsPerformed(lim, db, cmd, env);
    CheckRequestDecides(db, cmd, env.deadlineNow, e);
    if cmd.RequestId() in db.requests {
      var row := db.requests[cmd.RequestId()];
      UuidRoundTrip(row.payer);
      UuidRoundTrip(row.requester);
      SettleDecides(lim, db, InputFrom(cmd.RequestId(), row), env, e);
    }
  }

  /** Declining and cancelling depend on the request and the actor alone. */
  lemma ResolveDecides(lim: Limits, db: Db, cmd: Command, env: Env, e: Error)
    requires (cmd.Decline? || cmd.Cancel?) && Fresh(db, cmd, env)
    ensures Handle(lim, db, cmd, env).1.Ok? <==> MayResolve(db, cmd, env.deadlineNow)
    ensures Handle(lim, db, cmd, env).1 == Err(e) <==> MayNotResolve(db, cmd, env.deadlineNow, e)
  {
    hide Handle, CheckRequest, MayResolve, MayNotResolve, RequestIn;
    FreshIsPerformed(lim, db, cmd, env);
    CheckRequestDecides(db, cmd, env.deadlineNow, e);
  }

  /** Creating depends on the payer's account and on the CHECKs of the table. */
  lemma CreateDecides(lim: Limits, db: Db, cmd: Command, env: Env, e: Error)
    requires cmd.Create? && Fresh(db, cmd, env)
    ensures Handle(lim, db, cmd, env).1.Ok?
            <==> UserIsActive(db, cmd.PayerId()) && cmd.amount > 0 && cmd.PayerId() != cmd.actor
    ensures Handle(lim, db, cmd, env).1 == Err(e)
            <==> if UserIsActive(db, cmd.PayerId())
                 then e == ConstraintViolation && (cmd.amount <= 0 || cmd.PayerId() == cmd.actor)
                 else e == UserNotFound
  {
    hide Handle, UserIn;
    FreshIsPerformed(lim, db, cmd, env);
  }

  // ---------- over histories and runs ----------

  predicate ActiveWallet(db: Db, w: WalletId) {
    w in db.wallets && db.wallets[w].status == WalletActive && db.wallets[w].ownerStatus == UserActive
  }

  predicate PartiesActive(db: Db) {
    forall i :: 0 <= i < |db.transfers| ==>
      ActiveWallet(db, db.transfers[i].senderWallet) && ActiveWallet(db, db.transfers[i].receiverWallet)
  }

  lemma MovementKeepsPartiesActive(lim: Limits, db: Db, input: SettleInput, from: WalletId, to: WalletId, env: Env)
    requires PartiesActive(db) && from in db.wallets && to in db.wallets
    requires ActiveWallet(db, from) && ActiveWallet(db, to)
    ensures PartiesActive(MoveMoney(db, input, from, to, env))
  {
    var db' := MoveMoney(db, input, from, to, env);
    assert forall w :: ActiveWallet(db, w) ==> ActiveWallet(db', w);
  }

  lemma ClearedIsActive(lim: Limits, db: Db, input: SettleInput, from: WalletId, to: WalletId, env: Env)
    requires Cleared(lim, db, input, from, to, env)
    ensures from in db.wallets && to in db.wallets && ActiveWallet(db, from) && ActiveWallet(db, to)
  {
  }

  lemma {:induction false} HistoryMovesBetweenActive(lim: Limits, h: seq<Entry>)
    requires Consistent(lim, h)
    ensures PartiesActive(Replay(lim, h))
  {
    hide Handle, Effective, Cleared, CheckRow, MovedBy, From, To, UserIn, RequestIn, Unused;
    if h != [] {
      var before, e := h[..|h| - 1], h[|h| - 1];
      var db := Replay(lim, before);
      HistoryMovesBetweenActive(lim, before);
      TablesAreSane(lim, before);
      if e.Answered? {
        HandleShape(lim, db, e.cmd, e.env);
        if Effective(lim, db, e.cmd, e.env) && e.cmd.Settles() {
          ClearedIsActive(lim, db, MovedBy(db, e.cmd), From(db, e.cmd), To(db, e.cmd), e.env);
          MovementKeepsPartiesActive(lim, db, MovedBy(db, e.cmd), From(db, e.cmd), To(db, e.cmd), e.env);
        }
      }
    }
  }

  /** Over every run of the interleaved system: both wallets of every committed transfer are active, and
      so are both of their owners. */
  lemma OnlyActivePartiesMoveMoney(lim: Limits, run: seq<P.Action>)
    requires P.ValidRun(P.Init(lim), run)
    ensures var db := P.Final(P.Init(lim), run).db;
            forall i :: 0 <= i < |db.transfers| ==>
              var t := db.transfers[i];
              && UserIsActive(db, t.sender) && WalletIsActive(db, t.sender)
              && UserIsActive(db, t.receiver) && WalletIsActive(db, t.receiver)
  {
    hide P.ValidRun, P.Final, Bijection, ArrivalsMatch, EachRowChecked, LedgerPairs, DoneEventsMatch;
    PR.Linearizable(lim, run);
    var s := P.Final(P.Init(lim), run);
    HistoryMovesBetweenActive(lim, s.history);
    NothingIsHalfDone(lim, s.history);
    TablesAreSane(lim, s.history);
    forall i | 0 <= i < |s.db.transfers|
      ensures var t := s.db.transfers[i];
              && UserIsActive(s.db, t.sender) && WalletIsActive(s.db, t.sender)
              && UserIsActive(s.db, t.receiver) && WalletIsActive(s.db, t.receiver)
    {
      assert RowComplete(s.db, s.db.transfers[i]);
    }
  }
}
