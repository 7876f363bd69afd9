/** The rows of the database, as far as money movement, money requests,
    idempotency and the outbox are concerned. Amounts are integers in minor units;
    instants are integers in milliseconds. */
module Tables {
  import opened Wrappers
  import opened Ids

  type UserId = nat
  type WalletId = nat
  type Note = Option<string>

  /** A generated UUID. Every attempt at a transaction draws from its own serial number,
      so two attempts never generate the same id; the slot says which insert used it. */
  datatype Uuid = Uuid(serial: nat, slot: Slot)
  datatype Slot = TransferSlot | RequestSlot | FlagEventSlot | TransferEventSlot | RequestEventSlot

  // Clients send ids as text. The database reads the value of the text, and prints ids its own way.

  function UserIn(text: string): UserId { DigitsOf(text) }
  function UserText(user: UserId): string { UuidText(user) }

  function SlotNumber(s: Slot): nat {
    match s
    case TransferSlot => 0
    case RequestSlot => 1
    case FlagEventSlot => 2
    case TransferEventSlot => 3
    case RequestEventSlot => 4
  }

  function SlotNumbered(n: nat): Slot {
    if n == 0 then TransferSlot else if n == 1 then RequestSlot else if n == 2 then FlagEventSlot
    else if n == 3 then TransferEventSlot else RequestEventSlot
  }

  /** The number that a generated id stands for. */
  function NumberOf(id: Uuid): nat { id.serial * 5 + SlotNumber(id.slot) }
  function UuidNumbered(n: nat): Uuid { Uuid(n / 5, SlotNumbered(n % 5)) }

  function RequestIn(text: string): Uuid { UuidNumbered(DigitsOf(text)) }

  /** Every request can be named: its id as the database prints it stands for it. */
  lemma RequestsCanBeNamed(id: Uuid)
    requires NumberOf(id) < Room(36)
    ensures IsUuid(UuidText(NumberOf(id))) && RequestIn(UuidText(NumberOf(id))) == id
  {
    hide Room, UuidText, DigitsOf, IsUuid;
    UuidRoundTrip(NumberOf(id));
    assert NumberOf(id) / 5 == id.serial && NumberOf(id) % 5 == SlotNumber(id.slot);
  }

  datatype UserStatus = UserActive | UserSuspended | UserClosed
  datatype WalletStatus = WalletActive | WalletFrozen | WalletClosed
  datatype TransferStatus = TransferPending | TransferSucceeded
  datatype RequestStatus = Pending | Accepted | Declined | Cancelled | Expired
  datatype Direction = Debit | Credit
  datatype RiskLevel = Low | Medium | High

  /** A wallet joined with the status of its owner. The statuses never change here. */
  datatype Wallet = Wallet(owner: UserId, balance: int, status: WalletStatus, ownerStatus: UserStatus)

  datatype Transfer = Transfer(
    id: Uuid, sender: UserId, receiver: UserId, senderWallet: WalletId, receiverWallet: WalletId,
    amount: int, note: Note, status: TransferStatus, source: Option<Uuid>, createdAt: int)

  datatype LedgerEntry = LedgerEntry(
    transfer: Uuid, wallet: WalletId, direction: Direction, amount: int, signed: int, balanceAfter: int)

  datatype Request = Request(
    requester: UserId, payer: UserId, amount: int, note: Note, status: RequestStatus,
    acceptedTransfer: Option<Uuid>, expiresAt: Option<int>)

  datatype EventBody =
    | TransferDone(transfer: Uuid, sender: UserId, receiver: UserId, amount: int, source: Option<Uuid>)
    | RiskFlagged(transfer: Uuid, level: RiskLevel)
    | RequestCreated(request: Uuid, payer: UserId, requester: UserId, amount: int)
    | RequestAccepted(request: Uuid, payer: UserId, requester: UserId, amount: int, acceptedTransfer: Uuid)
    | RequestDeclined(request: Uuid, payer: UserId, requester: UserId, amount: int)
    | RequestCancelled(request: Uuid, payer: UserId, requester: UserId, amount: int)

  datatype Event = Event(id: Uuid, body: EventBody)

  datatype Route = DirectRoute | CreateRoute | AcceptRoute | DeclineRoute | CancelRoute
  datatype Key = Key(actor: UserId, route: Route, idem: string)

  /** What the request hash is taken of: the ids as the client typed them. The hash is modelled by
      the payload itself; the canonical text is injective (module Canonical) and SHA-256 is taken
      to be. */
  datatype Payload =
    | TransferPayload(receiver: string, amount: int, note: Note)
    | CreatePayload(payer: string, amount: int, note: Note, expiresAt: Option<int>)
    | ResolvePayload(request: string)

  datatype Response =
    | Receipt(transfer: Uuid, sender: UserId, receiver: UserId, amount: int, note: Note,
              senderBalanceAfter: int, risk: RiskLevel)
    | RequestDto(request: Uuid, status: RequestStatus, requester: UserId, payer: UserId, amount: int,
                 note: Note, acceptedTransfer: Option<Uuid>, expiresAt: Option<int>)

  datatype RecordState = Processing | Completed(httpStatus: int, response: Response)
  datatype Record = Record(hash: Payload, state: RecordState)

  /** All tables. `walletOf` is the unique index on wallets.user_id. Tables whose rows are
      only ever appended are sequences in commit order. */
  datatype Db = Db(
    walletOf: map<UserId, WalletId>,
    wallets: map<WalletId, Wallet>,
    transfers: seq<Transfer>,
    ledger: seq<LedgerEntry>,
    risks: map<Uuid, RiskLevel>,
    requests: map<Uuid, Request>,
    events: seq<Event>,
    records: map<Key, Record>)

  const EMPTY := Db(map[], map[], [], [], map[], map[], [], map[])

  datatype Error =
    | ValidationError
    | InvalidTransfer
    | InternalError
    | ConstraintViolation   // the database refused a row; the API answers with an internal error
    | UserNotFound
    | Forbidden
    | WalletUnavailable
    | InsufficientBalance
    | LimitExceeded
    | RequestNotFound
    | RequestAlreadyResolved
    | KeyReused
    | StillProcessing
    | Aborted

  /** Deadlines are derived when a row is read; nothing ever stores Expired. */
  function EffectiveStatus(status: RequestStatus, expiresAt: Option<int>, now: int): (r: RequestStatus)
    ensures r != status ==> r == Expired && status == Pending
    ensures status == Pending ==> (r == Expired <==> expiresAt.Some? && expiresAt.value <= now)
  {
    if status == Pending && expiresAt.Some? && expiresAt.value <= now then Expired else status
  }

  function ToRequestDto(id: Uuid, row: Request, now: int): (r: Response)
    ensures r.RequestDto? && r.request == id
  {
    RequestDto(id, EffectiveStatus(row.status, row.expiresAt, now), row.requester, row.payer,
               row.amount, row.note, row.acceptedTransfer, row.expiresAt)
  }
}
