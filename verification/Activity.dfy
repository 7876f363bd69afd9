/** The activity feed and the money-request lists: which rows a user sees, and what a client that
    follows the cursors gets to see of them. */
module Activity {
  import opened Wrappers
  import opened Ids
  import opened Tables
  import opened Keyset
  import opened Cursor

  // ---------- one request with a cursor text, and a client that follows the texts ----------

  datatype ApiPage<T> = ApiPage(items: seq<Row<T>>, nextCursor: Option<string>)

  ghost predicate Encodable<T>(rows: seq<Row<T>>) {
    forall i :: 0 <= i < |rows| ==> rows[i].key.id < Room(36) && IsDate(rows[i].key.createdAt)
  }

  ghost predicate Listable<T>(rows: seq<Row<T>>) { UniqueKeys(rows) && Encodable(rows) }

  ghost function Encoded(next: Option<Anchor>, d: Dates): Option<string>
    requires Faithful(d) && (next.Some? ==> next.value.id < Room(36) && IsDate(next.value.createdAt))
  {
    match next
    case None => None
    case Some(anchor) => CursorRoundTrip(anchor, d); Some(EncodeCursor(anchor, d))
  }

  lemma NextCanBeEncoded<T>(rows: seq<Row<T>>, cursor: Option<Anchor>, limit: nat)
    requires Listable(rows) && limit >= 1
    ensures var page := PageOf(rows, cursor, limit);
            page.next.Some? ==> page.next.value.id < Room(36) && IsDate(page.next.value.createdAt)
  {
    hide PageOf, Rest, UniqueKeys, Room;
    var page, rest := PageOf(rows, cursor, limit), Rest(rows, cursor);
    PageCutsTheRest(rows, cursor, limit);
    if page.next.Some? {
      RestMembers(rows, cursor, rest[limit - 1]);
    }
  }

  /** Decode, query one row more than asked for, cut, encode. */
  ghost function List<T>(rows: seq<Row<T>>, raw: Option<string>, limit: nat, d: Dates): Result<ApiPage<T>, Error>
    requires Faithful(d) && Listable(rows) && limit >= 1
  {
    var cursor := if raw.Some? then DecodeCursor(raw.value, d) else None;
    if raw.Some? && cursor.None? then Err(ValidationError)
    else
      NextCanBeEncoded(rows, cursor, limit);
      var page := PageOf(rows, cursor, limit);
      Ok(ApiPage(page.items, Encoded(page.next, d)))
  }

  /** A cursor that does not decode is refused, and nothing else is. */
  lemma OnlyBadCursorsAreRefused<T>(rows: seq<Row<T>>, raw: Option<string>, limit: nat, d: Dates)
    requires Faithful(d) && Listable(rows) && limit >= 1
    ensures List(rows, raw, limit, d).Err? <==> raw.Some? && DecodeCursor(raw.value, d).None?
    ensures List(rows, raw, limit, d).Err? ==> List(rows, raw, limit, d).error == ValidationError
  {
  }

  /** The answers to a client that sends back each nextCursor; `tables[i]` is what the i-th
      request finds. */
  ghost function Browse<T>(tables: seq<seq<Row<T>>>, raw: Option<string>, limit: nat, d: Dates)
    : seq<Result<ApiPage<T>, Error>>
    requires Faithful(d) && limit >= 1 && forall i :: 0 <= i < |tables| ==> Listable(tables[i])
    decreases |tables|
  {
    if tables == [] then []
    else
      var answer := List(tables[0], raw, limit, d);
      [answer] + if answer.Err? || answer.value.nextCursor.None? then []
                 else Browse(tables[1..], answer.value.nextCursor, limit, d)
  }

  /** The client never gets an error, and sees page for page what the walk over the anchors gives. */
  lemma {:induction false} BrowseIsTheWalk<T>(
    tables: seq<seq<Row<T>>>, raw: Option<string>, limit: nat, d: Dates, cursor: Option<Anchor>)
    requires Faithful(d) && limit >= 1 && forall i :: 0 <= i < |tables| ==> Listable(tables[i])
    requires if raw.None? then cursor.None? else DecodeCursor(raw.value, d) == cursor && cursor.Some?
    ensures var answers, pages := Browse(tables, raw, limit, d), Walk(tables, cursor, limit);
            && |answers| == |pages|
            && forall i :: 0 <= i < |pages| ==>
                 && answers[i].Ok? && answers[i].value.items == pages[i].items
                 && (answers[i].value.nextCursor.None? <==> pages[i].next.None?)
    decreases |tables|
  {
    hide PageOf, Listable, Faithful, DecodeCursor, EncodeCursor;
    if tables != [] {
      var page := PageOf(tables[0], cursor, limit);
      NextCanBeEncoded(tables[0], cursor, limit);
      var next := Encoded(page.next, d);
      assert List(tables[0], raw, limit, d) == Ok(ApiPage(page.items, next));
      if page.next.Some? {
        CursorRoundTrip(page.next.value, d);
        BrowseIsTheWalk(tables[1..], next, limit, d, page.next);
      }
    }
  }

  // ---------- the rows of the feed ----------

  datatype TransferRow = TransferRow(
    id: nat, createdAt: int, sender: UserId, receiver: UserId, amount: int, status: TransferStatus, source: Option<nat>)

  datatype RequestRow = RequestRow(
    id: nat, createdAt: int, requester: UserId, payer: UserId, amount: int, status: RequestStatus,
    expiresAt: Option<int>, acceptedTransfer: Option<nat>)

  datatype Snapshot = Snapshot(transfers: seq<TransferRow>, requests: seq<RequestRow>)

  datatype Flow = Incoming | Outgoing | Asking

  datatype Item =
    | TransferItem(direction: Flow, amount: int, counterparty: UserId, sent: TransferStatus, relatedRequest: Option<nat>)
    | RequestItem(direction: Flow, amount: int, counterparty: UserId, status: RequestStatus, expiresAt: Option<int>,
                  relatedRequest: Option<nat>, relatedTransfer: Option<nat>)

  function TransferToItem(t: TransferRow, user: UserId): Row<Item> {
    Row(Anchor(t.createdAt, t.id),
        TransferItem(if t.sender == user then Outgoing else Incoming, t.amount,
                     if t.sender == user then t.receiver else t.sender, t.status, t.source))
  }

  function RequestToItem(r: RequestRow, user: UserId): Row<Item> {
    Row(Anchor(r.createdAt, r.id),
        RequestItem(Asking, r.amount, if r.requester == user then r.payer else r.requester,
                    r.status, r.expiresAt, Some(r.id), r.acceptedTransfer))
  }

  predicate TakesPart(t: TransferRow, user: UserId) { t.sender == user || t.receiver == user }
  predicate Involves(r: RequestRow, user: UserId) { r.requester == user || r.payer == user }

  function TransferItems(ts: seq<TransferRow>, user: UserId): seq<Row<Item>> {
    if ts == [] then []
    else if TakesPart(ts[0], user) then [TransferToItem(ts[0], user)] + TransferItems(ts[1..], user)
    else TransferItems(ts[1..], user)
  }

  function RequestItems(rs: seq<RequestRow>, user: UserId): seq<Row<Item>> {
    if rs == [] then []
    else if Involves(rs[0], user) then [RequestToItem(rs[0], user)] + RequestItems(rs[1..], user)
    else RequestItems(rs[1..], user)
  }

  datatype Kind = TransferKind | RequestKind

  /** The UNION ALL over both tables, with the optional kind filter. */
  function Feed(s: Snapshot, user: UserId, kind: Option<Kind>): seq<Row<Item>> {
    (if kind == Some(RequestKind) then [] else TransferItems(s.transfers, user))
    + (if kind == Some(TransferKind) then [] else RequestItems(s.requests, user))
  }

  datatype Role = Payer | Requester

  /** The money-request list of one participant in one role, with the optional filter on the
      stored status. */
  function RequestList(rs: seq<RequestRow>, role: Role, user: UserId, status: Option<RequestStatus>): seq<Row<RequestRow>> {
    if rs == [] then []
    else if user == (if role.Payer? then rs[0].payer else rs[0].requester) && (status.Some? ==> rs[0].status == status.value)
    then [Row(Anchor(rs[0].createdAt, rs[0].id), rs[0])] + RequestList(rs[1..], role, user, status)
    else RequestList(rs[1..], role, user, status)
  }

  /** Ids are unique across both tables; ids are UUIDs and timestamps are dates. */
  ghost predicate GoodIds(s: Snapshot) {
    && (forall i, j :: 0 <= i < j < |s.transfers| ==> s.transfers[i].id != s.transfers[j].id)
    && (forall i, j :: 0 <= i < j < |s.requests| ==> s.requests[i].id != s.requests[j].id)
    && (forall i, j :: 0 <= i < |s.transfers| && 0 <= j < |s.requests| ==> s.transfers[i].id != s.requests[j].id)
    && (forall i :: 0 <= i < |s.transfers| ==> s.transfers[i].id < Room(36) && IsDate(s.transfers[i].createdAt))
    && (forall j :: 0 <= j < |s.requests| ==> s.requests[j].id < Room(36) && IsDate(s.requests[j].createdAt))
  }

  lemma {:induction false} TransferItemsMembers(ts: seq<TransferRow>, user: UserId, r: Row<Item>)
    ensures r in TransferItems(ts, user) <==>
            exists t :: t in ts && TakesPart(t, user) && r == TransferToItem(t, user)
  {
    if ts != [] {
      TransferItemsMembers(ts[1..], user, r);
      assert ts == [ts[0]] + ts[1..];
    }
  }

  lemma {:induction false} RequestItemsMembers(rs: seq<RequestRow>, user: UserId, r: Row<Item>)
    ensures r in RequestItems(rs, user) <==>
            exists q :: q in rs && Involves(q, user) && r == RequestToItem(q, user)
  {
    if rs != [] {
      RequestItemsMembers(rs[1..], user, r);
      assert rs == [rs[0]] + rs[1..];
    }
  }

  /** A user's feed holds exactly the rows the user takes part in. */
  lemma FeedIsExactlyMine(s: Snapshot, user: UserId, kind: Option<Kind>, r: Row<Item>)
    ensures r in Feed(s, user, kind) <==>
            || (kind != Some(RequestKind)
                && exists t :: t in s.transfers && (t.sender == user || t.receiver == user) && r == TransferToItem(t, user))
            || (kind != Some(TransferKind)
                && exists q :: q in s.requests && (q.requester == user || q.payer == user) && r == RequestToItem(q, user))
  {
    TransferItemsMembers(s.transfers, user, r);
    RequestItemsMembers(s.requests, user, r);
  }

  /** The two parties of a transfer see the same row from both sides. */
  lemma BothSidesAgree(t: TransferRow)
    requires t.sender != t.receiver
    ensures var mine, theirs := TransferToItem(t, t.sender), TransferToItem(t, t.receiver);
            && mine.key == theirs.key == Anchor(t.createdAt, t.id)
            && mine.data.TransferItem? && theirs.data.TransferItem?
            && mine.data.amount == theirs.data.amount == t.amount && mine.data.sent == theirs.data.sent == t.status
            && mine.data.relatedRequest == theirs.data.relatedRequest == t.source
            && mine.data.direction == Outgoing && theirs.data.direction == Incoming
            && mine.data.counterparty == t.receiver && theirs.data.counterparty == t.sender
  {
  }

  lemma BothSidesAgreeOnRequests(r: RequestRow)
    requires r.requester != r.payer
    ensures var asked, asking := RequestToItem(r, r.payer), RequestToItem(r, r.requester);
            && asked.key == asking.key == Anchor(r.createdAt, r.id)
            && asked.data.counterparty == r.requester && asking.data.counterparty == r.payer
            && asked.data.RequestItem? && asking.data.RequestItem?
            && asked.data.direction == asking.data.direction == Asking
            && asked.data.expiresAt == asking.data.expiresAt == r.expiresAt
            && asked.data.amount == asking.data.amount == r.amount && asked.data.status == asking.data.status == r.status
            && asking.data.relatedRequest == Some(r.id) && asking.data.relatedTransfer == r.acceptedTransfer
  {
  }

  lemma MineIsInTheFeed(s: Snapshot, user: UserId, kind: Option<Kind>)
    ensures forall t :: t in s.transfers && TakesPart(t, user) && kind != Some(RequestKind) ==>
              TransferToItem(t, user) in Feed(s, user, kind)
    ensures forall q :: q in s.requests && Involves(q, user) && kind != Some(TransferKind) ==>
              RequestToItem(q, user) in Feed(s, user, kind)
  {
    forall t | t in s.transfers && TakesPart(t, user) && kind != Some(RequestKind)
      ensures TransferToItem(t, user) in Feed(s, user, kind)
    {
      FeedIsExactlyMine(s, user, kind, TransferToItem(t, user));
    }
    forall q | q in s.requests && Involves(q, user) && kind != Some(TransferKind)
      ensures RequestToItem(q, user) in Feed(s, user, kind)
    {
      FeedIsExactlyMine(s, user, kind, RequestToItem(q, user));
    }
  }

  lemma {:induction false} TransferItemsUnique(ts: seq<TransferRow>, user: UserId)
    requires forall i, j :: 0 <= i < j < |ts| ==> ts[i].id != ts[j].id
    ensures UniqueKeys(TransferItems(ts, user))
  {
    if ts != [] {
      TransferItemsUnique(ts[1..], user);
      var rest := TransferItems(ts[1..], user);
      forall j | 0 <= j < |rest| ensures rest[j].key.id != ts[0].id {
        TransferItemsMembers(ts[1..], user, rest[j]);
      }
    }
  }

  lemma {:induction false} RequestItemsUnique(rs: seq<RequestRow>, user: UserId)
    requires forall i, j :: 0 <= i < j < |rs| ==> rs[i].id != rs[j].id
    ensures UniqueKeys(RequestItems(rs, user))
  {
    if rs != [] {
      RequestItemsUnique(rs[1..], user);
      var rest := RequestItems(rs[1..], user);
      forall j | 0 <= j < |rest| ensures rest[j].key.id != rs[0].id {
        RequestItemsMembers(rs[1..], user, rest[j]);
      }
    }
  }

  lemma FeedIsListable(s: Snapshot, user: UserId, kind: Option<Kind>)
    requires GoodIds(s)
    ensures Listable(Feed(s, user, kind))
  {
    hide Room;
    TransferItemsUnique(s.transfers, user);
    RequestItemsUnique(s.requests, user);
    var ts, rs := TransferItems(s.transfers, user), RequestItems(s.requests, user);
    forall i | 0 <= i < |ts| ensures exists t :: t in s.transfers && ts[i].key == Anchor(t.createdAt, t.id) {
      TransferItemsMembers(s.transfers, user, ts[i]);
    }
    forall j | 0 <= j < |rs| ensures exists q :: q in s.requests && rs[j].key == Anchor(q.createdAt, q.id) {
      RequestItemsMembers(s.requests, user, rs[j]);
    }
  }

  // ---------- the feed as a client sees it ----------

  function Feeds(snapshots: seq<Snapshot>, user: UserId, kind: Option<Kind>): seq<seq<Row<Item>>> {
    seq(|snapshots|, i requires 0 <= i < |snapshots| => Feed(snapshots[i], user, kind))
  }

  function AllItems<T>(answers: seq<Result<ApiPage<T>, Error>>): seq<Row<T>> {
    if answers == [] then []
    else (if answers[0].Ok? then answers[0].value.items else []) + AllItems(answers[1..])
  }

  /** No item of an answer is older than an item of a later answer. */
  predicate LaterAnswersAreOlder<T>(answers: seq<Result<ApiPage<T>, Error>>) {
    forall a, b :: 0 <= a < b < |answers| && answers[a].Ok? && answers[b].Ok? ==>
      PagesDescend(answers[a].value.items, answers[b].value.items)
  }

  predicate GotAll<T>(answers: seq<Result<ApiPage<T>, Error>>) {
    answers != [] && answers[|answers| - 1].Ok? && answers[|answers| - 1].value.nextCursor.None?
  }

  lemma {:induction false} AllItemsAreThePages<T>(answers: seq<Result<ApiPage<T>, Error>>, pages: seq<Page<T>>)
    requires |answers| == |pages|
    requires forall i :: 0 <= i < |pages| ==> answers[i].Ok? && answers[i].value.items == pages[i].items
    ensures AllItems(answers) == Items(pages)
  {
    if pages != [] { AllItemsAreThePages(answers[1..], pages[1..]); }
  }

  lemma BrowseSeesTheWalk<T>(tables: seq<seq<Row<T>>>, limit: nat, d: Dates)
    requires Faithful(d) && limit >= 1 && forall i :: 0 <= i < |tables| ==> Listable(tables[i])
    ensures var answers, pages := Browse(tables, None, limit, d), Walk(tables, None, limit);
            && AllItems(answers) == Items(pages) && (GotAll(answers) <==> Ended(pages))
            && |answers| == |pages|
            && forall i :: 0 <= i < |pages| ==> answers[i].Ok? && answers[i].value.items == pages[i].items
  {
    hide Faithful, Listable, Browse, Walk;
    BrowseIsTheWalk(tables, None, limit, d, None);
    AllItemsAreThePages(Browse(tables, None, limit, d), Walk(tables, None, limit));
  }

  /** While the tables stay as they are: n requests get the whole feed exactly when n pages can
      hold it, and then the pages join to the user's rows, newest first. */
  lemma BrowsingGetsTheWholeFeed(s: Snapshot, user: UserId, kind: Option<Kind>, limit: nat, d: Dates, n: nat)
    requires Faithful(d) && GoodIds(s) && limit >= 1
    ensures Listable(Feed(s, user, kind))
    ensures var feed, answers := Feed(s, user, kind), Browse(Repeat(Feed(s, user, kind), n), None, limit, d);
            && (GotAll(answers) <==> n >= 1 && |feed| <= n * limit)
            && (GotAll(answers) ==> AllItems(answers) == NewestFirst(feed) && ByTimeThenId(AllItems(answers)))
  {
    hide Faithful, GoodIds, Encodable, Browse, Feed, Walk, NewestFirst, ByTimeThenId;
    FeedIsListable(s, user, kind);
    var feed := Feed(s, user, kind);
    BrowseSeesTheWalk(Repeat(feed, n), limit, d);
    FixedWalkIsTheList(feed, n, None, limit);
    WhereAll(feed, None);
    NewestFirstPermutes(feed);
    NewestComesFirst(feed);
    assert |NewestFirst(feed)| == |multiset(NewestFirst(feed))| == |multiset(feed)| == |feed|;
  }

  predicate SameTransfer(a: TransferRow, b: TransferRow) {
    a.id == b.id && a.createdAt == b.createdAt && a.sender == b.sender && a.receiver == b.receiver
  }

  predicate SameRequest(a: RequestRow, b: RequestRow) {
    a.id == b.id && a.createdAt == b.createdAt && a.requester == b.requester && a.payer == b.payer
  }

  /** Nothing is deleted and nobody's part in a row changes; statuses may. */
  ghost predicate Keeps(s: Snapshot, t: Snapshot) {
    && (forall a :: a in s.transfers ==> exists b :: b in t.transfers && SameTransfer(a, b))
    && (forall a :: a in s.requests ==> exists b :: b in t.requests && SameRequest(a, b))
  }

  lemma KeepsKeys(s: Snapshot, t: Snapshot, user: UserId, kind: Option<Kind>, key: Anchor)
    requires Keeps(s, t) && HasKey(Feed(s, user, kind), key)
    ensures HasKey(Feed(t, user, kind), key)
  {
    hide Feed;
    var feed := Feed(s, user, kind);
    var k :| 0 <= k < |feed| && feed[k].key == key;
    FeedIsExactlyMine(s, user, kind, feed[k]);
    var r: Row<Item>;
    if a :| kind != Some(RequestKind) && a in s.transfers && TakesPart(a, user) && feed[k] == TransferToItem(a, user) {
      var b :| b in t.transfers && SameTransfer(a, b);
      assert TakesPart(b, user);
      r := TransferToItem(b, user);
    } else {
      var a :| kind != Some(TransferKind) && a in s.requests && (a.requester == user || a.payer == user)
               && feed[k] == RequestToItem(a, user);
      var b :| b in t.requests && SameRequest(a, b);
      assert Involves(b, user);
      r := RequestToItem(b, user);
    }
    MineIsInTheFeed(t, user, kind);
    var m :| 0 <= m < |Feed(t, user, kind)| && Feed(t, user, kind)[m] == r;
  }

  /** While other calls insert rows and change statuses between the requests: no row comes twice,
      and once the client gets a null cursor, every row that was there at the first request has
      come. */
  lemma BrowsingUnderInserts(snapshots: seq<Snapshot>, user: UserId, kind: Option<Kind>, limit: nat, d: Dates, key: Anchor)
    requires Faithful(d) && limit >= 1 && snapshots != [] && forall i :: 0 <= i < |snapshots| ==> GoodIds(snapshots[i])
    requires forall i :: 0 < i < |snapshots| ==> Keeps(snapshots[0], snapshots[i])
    ensures forall i :: 0 <= i < |snapshots| ==> Listable(Feeds(snapshots, user, kind)[i])
    ensures var answers := Browse(Feeds(snapshots, user, kind), None, limit, d);
            && ByTimeThenId(AllItems(answers)) && LaterAnswersAreOlder(answers)
            && (GotAll(answers) && HasKey(Feed(snapshots[0], user, kind), key) ==> HasKey(AllItems(answers), key))
  {
    hide Faithful, GoodIds, Encodable, Browse, Feed, Walk, Keeps, UniqueKeys, HasKey, ByTimeThenId, Items, AllItems, Ended,
      PagesDescend;
    var feeds := Feeds(snapshots, user, kind);
    forall i | 0 <= i < |snapshots| ensures Listable(feeds[i]) { FeedIsListable(snapshots[i], user, kind); }
    BrowseSeesTheWalk(feeds, limit, d);
    WalkIsNewestFirst(feeds, None, limit);
    if GotAll(Browse(feeds, None, limit, d)) && HasKey(feeds[0], key) {
      forall i | 0 <= i < |feeds| ensures HasKey(feeds[i], key) {
        if i > 0 { KeepsKeys(snapshots[0], snapshots[i], user, kind, key); }
      }
      WalkMissesNothing(feeds, None, limit, key);
    }
  }

  // ---------- the money-request lists ----------

  lemma {:induction false} RequestListMembers(
    rs: seq<RequestRow>, role: Role, user: UserId, status: Option<RequestStatus>, r: Row<RequestRow>)
    ensures r in RequestList(rs, role, user, status) <==>
            && r.data in rs && r.key == Anchor(r.data.createdAt, r.data.id)
            && user == (if role.Payer? then r.data.payer else r.data.requester)
            && (status.Some? ==> r.data.status == status.value)
  {
    if rs != [] {
      RequestListMembers(rs[1..], role, user, status, r);
      assert rs == [rs[0]] + rs[1..];
    }
  }

  lemma {:induction false} RequestListIsListable(
    rs: seq<RequestRow>, role: Role, user: UserId, status: Option<RequestStatus>)
    requires forall i, j :: 0 <= i < j < |rs| ==> rs[i].id != rs[j].id
    requires forall j :: 0 <= j < |rs| ==> rs[j].id < Room(36) && IsDate(rs[j].createdAt)
    ensures Listable(RequestList(rs, role, user, status))
  {
    hide Room;
    if rs != [] {
      RequestListIsListable(rs[1..], role, user, status);
      var rest := RequestList(rs[1..], role, user, status);
      forall j | 0 <= j < |rest| ensures rest[j].key.id != rs[0].id {
        RequestListMembers(rs[1..], role, user, status, rest[j]);
        assert rest[j] in rest;
      }
    }
  }

  /** Browsing a money-request list gets all of it, newest first. */
  lemma BrowsingGetsTheWholeList(
    rs: seq<RequestRow>, role: Role, user: UserId, status: Option<RequestStatus>, limit: nat, d: Dates, n: nat)
    requires Faithful(d) && limit >= 1
    requires forall i, j :: 0 <= i < j < |rs| ==> rs[i].id != rs[j].id
    requires forall j :: 0 <= j < |rs| ==> rs[j].id < Room(36) && IsDate(rs[j].createdAt)
    ensures Listable(RequestList(rs, role, user, status))
    ensures var list := RequestList(rs, role, user, status);
            var answers := Browse(Repeat(list, n), None, limit, d);
            && (GotAll(answers) <==> n >= 1 && |list| <= n * limit)
            && (GotAll(answers) ==> AllItems(answers) == NewestFirst(list) && ByTimeThenId(AllItems(answers)))
  {
    hide Faithful, Encodable, Browse, RequestList, Walk, NewestFirst, Room, ByTimeThenId;
    RequestListIsListable(rs, role, user, status);
    var list := RequestList(rs, role, user, status);
    BrowseSeesTheWalk(Repeat(list, n), limit, d);
    FixedWalkIsTheList(list, n, None, limit);
    WhereAll(list, None);
    NewestFirstPermutes(list);
    NewestComesFirst(list);
    assert |NewestFirst(list)| == |multiset(NewestFirst(list))| == |multiset(list)| == |list|;
  }
}
