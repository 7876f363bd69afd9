/** Sequential histories: registrations and answered calls, one at a time, each call handled
    atomically on the tables that the ones before it left. */
module History {
  import opened Wrappers
  import opened Tables
  import opened Limits
  import opened Operations

  type CallId = nat

  datatype Entry =
    | Answered(call: CallId, cmd: Command, env: Env, answer: Answer)
    | Registered(user: UserId, id: WalletId, wallet: Wallet)

  function Apply(lim: Limits, db: Db, e: Entry): Db {
    match e
    case Answered(_, cmd, env, _) => Handle(lim, db, cmd, env).0
    case Registered(user, id, wallet) => Register(db, user, id, wallet)
  }

  /** The tables after running the history from an empty database. */
  function Replay(lim: Limits, h: seq<Entry>): Db {
    if h == [] then EMPTY else Apply(lim, Replay(lim, h[..|h| - 1]), h[|h| - 1])
  }

  /** No committed row carries an id of this serial. */
  predicate Unused(db: Db, serial: nat) {
    && (forall i :: 0 <= i < |db.transfers| ==> db.transfers[i].id.serial != serial)
    && (forall i :: 0 <= i < |db.events| ==> db.events[i].id.serial != serial)
    && (forall r :: r in db.requests ==> r.serial != serial)
    && (forall r :: r in db.risks ==> r.serial != serial)
  }

  predicate CanRegister(db: Db, user: UserId, id: WalletId, wallet: Wallet) {
    user !in db.walletOf && id !in db.wallets && wallet.owner == user && wallet.balance >= 0
  }

  /** The logged answer is the one given by the atomic operation. An entry that changes the
      tables generates fresh ids, and stamps its transfer after checking the limits. */
  predicate EntryOk(lim: Limits, db: Db, e: Entry) {
    match e
    case Answered(_, cmd, env, answer) =>
      && Handle(lim, db, cmd, env).1 == answer
      && (Handle(lim, db, cmd, env).0 != db ==>
            Unused(db, env.serial) && (cmd.Settles() ==> env.limitNow <= env.createdAt))
    case Registered(user, id, wallet) => CanRegister(db, user, id, wallet)
  }

  predicate Consistent(lim: Limits, h: seq<Entry>) {
    h == [] ||
    (Consistent(lim, h[..|h| - 1]) && EntryOk(lim, Replay(lim, h[..|h| - 1]), h[|h| - 1]))
  }

  lemma ReplayAppends(lim: Limits, h: seq<Entry>, e: Entry)
    ensures Replay(lim, h + [e]) == Apply(lim, Replay(lim, h), e)
    ensures Consistent(lim, h + [e]) <==> Consistent(lim, h) && EntryOk(lim, Replay(lim, h), e)
  {
    assert (h + [e])[..|h|] == h;
  }

  // ---------- what every committed state satisfies ----------

  /** The unique index on wallets.user_id agrees with the rows. */
  predicate WalletsIndexed(db: Db) {
    && (forall u :: u in db.walletOf ==> db.walletOf[u] in db.wallets && db.wallets[db.walletOf[u]].owner == u)
    && (forall w :: w in db.wallets ==> db.wallets[w].owner in db.walletOf && db.walletOf[db.wallets[w].owner] == w)
  }

  predicate RecordsCompleted(db: Db) {
    forall k :: k in db.records ==> db.records[k].state.Completed?
  }

  // ---------- the shape of an effective call ----------

  /** The call is neither refused nor replayed. */
  predicate Effective(lim: Limits, db: Db, cmd: Command, env: Env) {
    && Precheck(cmd, env.startNow).Ok?
    && (KeyOf(cmd) in db.records ==>
          db.records[KeyOf(cmd)].hash == PayloadOf(cmd) && !db.records[KeyOf(cmd)].state.Completed?)
    && Perform(lim, db, cmd, env).Ok?
  }

  const NO_INPUT := SettleInput(0, 0, "", 0, None, None)

  /** What a transfer moves, or what accepting a request moves. */
  function MovedBy(db: Db, cmd: Command): SettleInput {
    match cmd
    case Direct(actor, receiver, amount, note, _) => SettleInput(actor, UserIn(receiver), receiver, amount, note, None)
    case Accept(_, _, _) =>
      if cmd.RequestId() in db.requests then InputFrom(cmd.RequestId(), db.requests[cmd.RequestId()]) else NO_INPUT
    case _ => NO_INPUT
  }

  /** Every check that a settlement passes before it writes. */
  predicate Passed(lim: Limits, db: Db, input: SettleInput, from: WalletId, to: WalletId, env: Env) {
    && FindParties(db, input) == Ok((from, to))
    && from in db.wallets && to in db.wallets
    && CheckParties(db.wallets[from], db.wallets[to], input.amount).Ok?
    && WithinLimits(lim, db.transfers, input.sender, input.amount, env.limitNow)
  }

  /** Those checks, and the distinct-parties CHECK of the transfers table. */
  predicate Cleared(lim: Limits, db: Db, input: SettleInput, from: WalletId, to: WalletId, env: Env) {
    Passed(lim, db, input, from, to, env) && input.sender != input.receiver
  }

  function From(db: Db, cmd: Command): WalletId {
    if MovedBy(db, cmd).sender in db.walletOf then db.walletOf[MovedBy(db, cmd).sender] else 0
  }

  function To(db: Db, cmd: Command): WalletId {
    if MovedBy(db, cmd).receiver in db.walletOf then db.walletOf[MovedBy(db, cmd).receiver] else 0
  }

  /** The tables after the business effect of an effective call, before its record is stored. */
  function Effect(db: Db, cmd: Command, env: Env): Db
    requires cmd.Settles() ==> From(db, cmd) in db.wallets && To(db, cmd) in db.wallets
    requires cmd.Resolves() ==> cmd.RequestId() in db.requests
  {
    match cmd
    case Direct(_, _, _, _, _) => MoveMoney(db, MovedBy(db, cmd), From(db, cmd), To(db, cmd), env)
    case Create(_, _, _, _, _, _) =>
      db.(requests := db.requests[NewRequestId(env) := NewRequest(cmd)],
          events := db.events + [CreatedEvent(cmd, env)])
    case Accept(_, _, _) =>
      var moved := MoveMoney(db, MovedBy(db, cmd), From(db, cmd), To(db, cmd), env);
      ResolveRequest(moved, cmd, db.requests[cmd.RequestId()], env).0
    case _ => ResolveRequest(db, cmd, db.requests[cmd.RequestId()], env).0
  }

  /** A call either leaves the tables alone, or has passed every check and has its whole effect. */
  lemma HandleShape(lim: Limits, db: Db, cmd: Command, env: Env)
    ensures !Effective(lim, db, cmd, env) ==> Handle(lim, db, cmd, env).0 == db
    ensures Effective(lim, db, cmd, env) ==>
      && Handle(lim, db, cmd, env).1.Ok?
      && (cmd.Settles() ==> Cleared(lim, db, MovedBy(db, cmd), From(db, cmd), To(db, cmd), env))
      && (cmd.Resolves() ==>
            && cmd.RequestId() in db.requests
            && CheckRow(db.requests[cmd.RequestId()], cmd, env.deadlineNow).Ok?)
      && (cmd.Create? ==> cmd.amount > 0 && cmd.PayerId() != cmd.actor)
      && Handle(lim, db, cmd, env).0
         == WithRecord(Effect(db, cmd, env), cmd, Handle(lim, db, cmd, env).1.value)
  {
  }

  /** What the checks say in plain terms: two different wallets, a positive amount, enough money. */
  lemma ClearedFacts(lim: Limits, db: Db, input: SettleInput, from: WalletId, to: WalletId, env: Env)
    requires WalletsIndexed(db) && Cleared(lim, db, input, from, to, env)
    ensures input.sender != input.receiver && from != to && from in db.wallets && to in db.wallets
    ensures input.amount > 0 && db.wallets[from].balance >= input.amount
    ensures db.wallets[from].owner == input.sender && db.wallets[to].owner == input.receiver
    ensures input.sender in db.walletOf && input.receiver in db.walletOf
  {
  }

  lemma PassedFacts(lim: Limits, db: Db, input: SettleInput, from: WalletId, to: WalletId, env: Env)
    requires WalletsIndexed(db) && Passed(lim, db, input, from, to, env)
    ensures from in db.wallets && to in db.wallets && (from == to <==> input.sender == input.receiver)
    ensures input.amount > 0 && db.wallets[from].balance >= input.amount
  {
  }

  lemma EffectKeepsWalletsIndexed(lim: Limits, db: Db, cmd: Command, env: Env)
    requires WalletsIndexed(db) && Effective(lim, db, cmd, env)
    ensures cmd.Settles() ==> From(db, cmd) in db.wallets && To(db, cmd) in db.wallets
    ensures cmd.Resolves() ==> cmd.RequestId() in db.requests
    ensures WalletsIndexed(Effect(db, cmd, env)) && Effect(db, cmd, env).records == db.records
  {
    hide Perform, CheckRow, Handle, WithinLimits, CheckParties, UserIn, UserText, RequestIn, Effective;
    HandleShape(lim, db, cmd, env);
  }

  lemma {:induction false} TablesAreSane(lim: Limits, h: seq<Entry>)
    requires Consistent(lim, h)
    ensures WalletsIndexed(Replay(lim, h)) && RecordsCompleted(Replay(lim, h))
  {
    hide Handle, Effective, Cleared, Effect, CheckRow;
    if h != [] {
      var before, e := h[..|h| - 1], h[|h| - 1];
      TablesAreSane(lim, before);
      var db := Replay(lim, before);
      if e.Answered? {
        HandleShape(lim, db, e.cmd, e.env);
        if Effective(lim, db, e.cmd, e.env) { EffectKeepsWalletsIndexed(lim, db, e.cmd, e.env); }
      }
    }
  }
}
