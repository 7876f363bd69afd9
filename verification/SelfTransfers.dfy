/** One's own id, typed otherwise than the database prints it. The self checks compare texts, the
    database compares values: such a call passes them and reaches a distinct-parties CHECK. */
module SelfTransfers {
  import opened Wrappers
  import opened Ids
  import opened Tables
  import opened Limits
  import opened Operations
  import opened History
  import opened Settlements

  /** Every check of a transfer to oneself other than the comparison of texts. */
  predicate Spendable(lim: Limits, db: Db, user: UserId, amount: int, now: int) {
    && user in db.walletOf && db.walletOf[user] in db.wallets
    && var w := db.wallets[db.walletOf[user]];
       w.ownerStatus == UserActive && w.status == WalletActive && 0 < amount <= w.balance
       && WithinLimits(lim, db.transfers, user, amount, now)
  }

  /** The CHECK on transfers trips exactly when both parties are one user, the text is not that
      user's printed id, and every other check passes. */
  lemma SettleTripsExactly(lim: Limits, db: Db, input: SettleInput, env: Env)
    requires WalletsIndexed(db)
    ensures Settle(lim, db, input, env) == Err(ConstraintViolation)
            <==> input.receiver == input.sender && input.receiverText != UserText(input.sender)
                 && Spendable(lim, db, input.sender, input.amount, env.limitNow)
  {
    hide WithinLimits, UserText;
  }

  /** The call is not answered from a stored record or refused before its transaction. */
  predicate Fresh(db: Db, cmd: Command, env: Env) {
    Precheck(cmd, env.startNow).Ok? && KeyOf(cmd) !in db.records
  }

  lemma HandlePerforms(lim: Limits, db: Db, cmd: Command, env: Env)
    requires RecordsCompleted(db)
    ensures Handle(lim, db, cmd, env).1 == Err(ConstraintViolation)
            <==> Fresh(db, cmd, env) && Perform(lim, db, cmd, env) == Err(ConstraintViolation)
  {
    hide Perform, Precheck, KeyOf, PayloadOf;
    PrecheckNeverTrips(cmd, env.startNow);
  }

  lemma PrecheckNeverTrips(cmd: Command, now: int)
    ensures Precheck(cmd, now) != Err(ConstraintViolation)
  {
  }

  /** A transfer trips the CHECK exactly when its receiver is the actor's own id up to the case of
      letters but not as printed, and every other check passes. */
  lemma TransferTripsExactly(lim: Limits, db: Db, cmd: Command, env: Env)
    requires WalletsIndexed(db) && RecordsCompleted(db) && cmd.Direct? && cmd.actor < Room(36)
    ensures Handle(lim, db, cmd, env).1 == Err(ConstraintViolation)
            <==> Fresh(db, cmd, env) && Lower(cmd.receiver) == UserText(cmd.actor) != cmd.receiver
                 && Spendable(lim, db, cmd.actor, cmd.amount, env.limitNow)
  {
    hide Handle, Settle, WithinLimits, Spendable, Lower, IsUuid, DigitsOf, UuidText, Room;
    HandlePerforms(lim, db, cmd, env);
    SettleTripsExactly(lim, db, SettleInput(cmd.actor, UserIn(cmd.receiver), cmd.receiver, cmd.amount, cmd.note, None), env);
    if Fresh(db, cmd, env) { OwnIdUpToCase(cmd.receiver, cmd.actor); }
  }

  lemma OwnIdUpToCase(text: string, user: UserId)
    requires IsUuid(text) && user < Room(36)
    ensures UserIn(text) == user <==> Lower(text) == UserText(user)
  {
    hide Room, UuidHead, DigitsOf, IsUuid, LowerChar;
    UuidRoundTrip(user);
    SpellingsOfOneId(text, UserText(user));
    PrintedInLowerCase(user, 36);
    assert Lower(UserText(user)) == UserText(user);
  }

  /** As printed, one's own id is refused by the self check before anything is locked. */
  lemma PrintedOwnIdIsRefused(lim: Limits, db: Db, cmd: Command, env: Env)
    requires RecordsCompleted(db) && cmd.Direct? && Fresh(db, cmd, env) && cmd.receiver == UserText(cmd.actor)
    ensures Handle(lim, db, cmd, env) == (db, Err(InvalidTransfer))
  {
    hide UuidText, IsUuid, DigitsOf;
  }

  /** Creating a request trips the CHECKs on money_requests exactly when the active payer is the actor
      up to the case of letters, or the amount is not positive. */
  lemma CreateTripsExactly(lim: Limits, db: Db, cmd: Command, env: Env)
    requires RecordsCompleted(db) && cmd.Create? && cmd.actor < Room(36)
    ensures Handle(lim, db, cmd, env).1 == Err(ConstraintViolation)
            <==> Fresh(db, cmd, env) && ActiveUser(db, cmd.PayerId())
                 && (Lower(cmd.payer) == UserText(cmd.actor) || cmd.amount <= 0)
  {
    hide Handle, ActiveUser, Lower, IsUuid, DigitsOf, UuidText, Room;
    HandlePerforms(lim, db, cmd, env);
    if Fresh(db, cmd, env) { OwnIdUpToCase(cmd.payer, cmd.actor); }
  }

  /** Accepting, declining and cancelling never trip a CHECK, in any history: ids come from rows whose
      parties are distinct. */
  lemma ResolvingNeverTrips(lim: Limits, h: seq<Entry>, cmd: Command, env: Env)
    requires Consistent(lim, h) && cmd.Resolves()
    ensures Handle(lim, Replay(lim, h), cmd, env).1 != Err(ConstraintViolation)
  {
    hide Consistent, Replay, Handle, Settle, CheckRow, Complete, ArrivalsMatch, EachRowChecked, RequestIn, UserText;
    var db := Replay(lim, h);
    TablesAreSane(lim, h);
    NothingIsHalfDone(lim, h);
    HandlePerforms(lim, db, cmd, env);
    if cmd.RequestId() in db.requests {
      RowChecksNeverTrip(db.requests[cmd.RequestId()], cmd, env.deadlineNow);
      if cmd.Accept? { SettleTripsExactly(lim, db, InputFrom(cmd.RequestId(), db.requests[cmd.RequestId()]), env); }
    }
  }

  lemma RowChecksNeverTrip(row: Request, cmd: Command, now: int)
    requires cmd.Resolves()
    ensures CheckRow(row, cmd, now) != Err(ConstraintViolation)
  {
  }

  /** Anyone who can spend, and whose id has a letter, trips it by typing that id in upper case. */
  lemma OwnIdInUpperCaseTrips(lim: Limits, db: Db, user: UserId, amount: int, note: Note, idem: string, env: Env)
    requires WalletsIndexed(db) && RecordsCompleted(db) && user < Room(36) && HasLetter(UserText(user))
    requires Spendable(lim, db, user, amount, env.limitNow) && Key(user, DirectRoute, idem) !in db.records
    ensures Handle(lim, db, Direct(user, Upper(UserText(user)), amount, note, idem), env) == (db, Err(ConstraintViolation))
  {
    hide Settle, WithinLimits, Spendable, Lower, Upper, HasLetter, IsUuid, DigitsOf, UuidText, Room;
    var cmd := Direct(user, Upper(UserText(user)), amount, note, idem);
    UpperCaseIsTheSameId(user);
    OwnIdUpToCase(cmd.receiver, user);
    TransferTripsExactly(lim, db, cmd, env);
  }

  /** A concrete reachable case: one registered user, number ten, whose printed id ends in `a`. */
  lemma SomeTransferTrips() returns (lim: Limits, h: seq<Entry>, cmd: Command, env: Env)
    ensures Consistent(lim, h) && cmd.Direct? && cmd.receiver != UserText(cmd.actor) && cmd.ReceiverId() == cmd.actor
    ensures Handle(lim, Replay(lim, h), cmd, env).1 == Err(ConstraintViolation)
  {
    hide UuidText, DigitsOf, IsUuid, Upper, HasLetter, Handle, Room;
    lim := Limits(100, 100, 100);
    var wallet := Wallet(10, 100, WalletActive, UserActive);
    h := [Registered(10, 1, wallet)];
    env := Env(0, 0, 0, 0, 0, 0, Low);
    cmd := Direct(10, Upper(UserText(10)), 5, None, "");
    assert h[..0] == [];
    assert Replay(lim, h) == Register(EMPTY, 10, 1, wallet);
    NumberTenHasALetter();
    UpperCaseIsTheSameId(10);
    OwnIdInUpperCaseTrips(lim, Replay(lim, h), 10, 5, None, "", env);
  }

  lemma NumberTenHasALetter()
    ensures 10 < Room(36) && HasLetter(UuidText(10))
  {
    hide Room, UuidText;
    RoomForEveryUuid();
    LastDigitIsPrinted(10);
  }
}
