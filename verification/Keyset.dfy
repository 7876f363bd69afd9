/** Keyset pagination: one query shape, one page step and the walk that follows the cursors. The
    activity feed, the money-request lists and the notification list all page this way. */
module Keyset {
  import opened Wrappers

  /** What a cursor holds and what lists are ordered by: `id` breaks ties of `createdAt`. */
  datatype Anchor = Anchor(createdAt: int, id: nat)

  datatype Row<T> = Row(key: Anchor, data: T)

  datatype Page<T> = Page(items: seq<Row<T>>, next: Option<Anchor>)

  /** The row-value comparison (created_at, id) < (created_at, id). */
  predicate Older(a: Anchor, b: Anchor) {
    a.createdAt < b.createdAt || (a.createdAt == b.createdAt && a.id < b.id)
  }

  predicate Beyond(cursor: Option<Anchor>, key: Anchor) {
    cursor.None? || Older(key, cursor.value)
  }

  // ---------- the query: WHERE, ORDER BY (created_at, id) DESC, LIMIT ----------

  function Where<T>(rows: seq<Row<T>>, cursor: Option<Anchor>): seq<Row<T>> {
    if rows == [] then []
    else if Beyond(cursor, rows[0].key) then [rows[0]] + Where(rows[1..], cursor)
    else Where(rows[1..], cursor)
  }

  function Insert<T>(s: seq<Row<T>>, r: Row<T>): seq<Row<T>> {
    if s == [] then [r]
    else if Older(s[0].key, r.key) then [r] + s
    else [s[0]] + Insert(s[1..], r)
  }

  function NewestFirst<T>(rows: seq<Row<T>>): seq<Row<T>> {
    if rows == [] then [] else Insert(NewestFirst(rows[1..]), rows[0])
  }

  function Limit<T>(s: seq<Row<T>>, take: nat): seq<Row<T>> {
    if |s| <= take then s else s[..take]
  }

  function Query<T>(rows: seq<Row<T>>, cursor: Option<Anchor>, take: nat): seq<Row<T>> {
    Limit(NewestFirst(Where(rows, cursor)), take)
  }

  /** One extra row is fetched to learn whether another page follows. */
  function PageOf<T>(rows: seq<Row<T>>, cursor: Option<Anchor>, limit: nat): Page<T> {
    var fetched := Query(rows, cursor, limit + 1);
    var hasMore := |fetched| > limit;
    var page := if hasMore then fetched[..limit] else fetched;
    Page(page, if hasMore && page != [] then Some(page[|page| - 1].key) else None)
  }

  /** The pages a client sees that follows nextCursor; `tables[i]` is what the i-th request finds. */
  function Walk<T>(tables: seq<seq<Row<T>>>, cursor: Option<Anchor>, limit: nat): seq<Page<T>>
    decreases |tables|
  {
    if tables == [] then []
    else
      var page := PageOf(tables[0], cursor, limit);
      [page] + if page.next.None? then [] else Walk(tables[1..], page.next, limit)
  }

  function Items<T>(pages: seq<Page<T>>): seq<Row<T>> {
    if pages == [] then [] else pages[0].items + Items(pages[1..])
  }

  predicate Ended<T>(pages: seq<Page<T>>) { pages != [] && pages[|pages| - 1].next.None? }

  // ---------- what sorted means ----------

  predicate UniqueKeys<T>(rows: seq<Row<T>>) {
    forall i, j :: 0 <= i < j < |rows| ==> rows[i].key != rows[j].key
  }

  predicate Descending<T>(s: seq<Row<T>>) {
    forall i, j :: 0 <= i < j < |s| ==> Older(s[j].key, s[i].key)
  }

  predicate HasKey<T>(rows: seq<Row<T>>, key: Anchor) { exists i :: 0 <= i < |rows| && rows[i].key == key }

  lemma HeadAndTail<T>(s: seq<Row<T>>)
    requires s != []
    ensures multiset(s) == multiset{s[0]} + multiset(s[1..])
  {
    assert s == [s[0]] + s[1..];
  }

  lemma SameKeys<T>(a: seq<Row<T>>, b: seq<Row<T>>, key: Anchor)
    requires multiset(a) == multiset(b) && HasKey(a, key)
    ensures HasKey(b, key)
  {
    var i :| 0 <= i < |a| && a[i].key == key;
    assert a[i] in multiset(b);
  }

  lemma {:induction false} Inserted<T>(s: seq<Row<T>>, r: Row<T>)
    ensures multiset(Insert(s, r)) == multiset(s) + multiset{r}
  {
    if s != [] && !Older(s[0].key, r.key) {
      HeadAndTail(s);
      Inserted(s[1..], r);
      assert Insert(s, r)[1..] == Insert(s[1..], r);
      HeadAndTail(Insert(s, r));
    }
  }

  lemma {:induction false} InsertedInOrder<T>(s: seq<Row<T>>, r: Row<T>)
    requires Descending(s) && !HasKey(s, r.key)
    ensures Descending(Insert(s, r))
  {
    if s != [] && !Older(s[0].key, r.key) {
      var rest := Insert(s[1..], r);
      InsertedInOrder(s[1..], r);
      Inserted(s[1..], r);
      forall j | 0 <= j < |rest| ensures Older(rest[j].key, s[0].key) {
        assert rest[j] in multiset(s[1..]) + multiset{r};
        assert rest[j] == r || rest[j] in s[1..];
      }
    }
  }

  /** The query's order is a permutation of the rows. */
  lemma {:induction false} NewestFirstPermutes<T>(rows: seq<Row<T>>)
    ensures multiset(NewestFirst(rows)) == multiset(rows)
  {
    if rows != [] {
      HeadAndTail(rows);
      NewestFirstPermutes(rows[1..]);
      Inserted(NewestFirst(rows[1..]), rows[0]);
    }
  }

  /** Each row in it is older than the one before. */
  lemma {:induction false} NewestFirstSorts<T>(rows: seq<Row<T>>)
    requires UniqueKeys(rows)
    ensures Descending(NewestFirst(rows))
  {
    hide Insert;
    if rows != [] {
      var rest := NewestFirst(rows[1..]);
      NewestFirstSorts(rows[1..]);
      NewestFirstPermutes(rows[1..]);
      if HasKey(rest, rows[0].key) {
        SameKeys(rest, rows[1..], rows[0].key);
        assert false;
      }
      InsertedInOrder(rest, rows[0]);
    }
  }

  lemma {:induction false} WhereMembers<T>(rows: seq<Row<T>>, cursor: Option<Anchor>, r: Row<T>)
    ensures r in Where(rows, cursor) <==> r in rows && Beyond(cursor, r.key)
  {
    if rows != [] { WhereMembers(rows[1..], cursor, r); }
  }

  lemma {:induction false} WhereKeepsUnique<T>(rows: seq<Row<T>>, cursor: Option<Anchor>)
    requires UniqueKeys(rows)
    ensures UniqueKeys(Where(rows, cursor))
  {
    if rows != [] {
      WhereKeepsUnique(rows[1..], cursor);
      var rest := Where(rows[1..], cursor);
      forall j | 0 <= j < |rest| ensures rest[j].key != rows[0].key {
        WhereMembers(rows[1..], cursor, rest[j]);
      }
    }
  }

  lemma {:induction false} WhereAll<T>(rows: seq<Row<T>>, cursor: Option<Anchor>)
    requires forall r :: r in rows ==> Beyond(cursor, r.key)
    ensures Where(rows, cursor) == rows
  {
    if rows != [] { WhereAll(rows[1..], cursor); }
  }

  /** Sorting what lies beyond a cursor is cutting the sorted rows at that cursor. */
  lemma {:induction false} InsertWhere<T>(s: seq<Row<T>>, r: Row<T>, cursor: Option<Anchor>)
    requires Descending(s)
    ensures Where(Insert(s, r), cursor) ==
            if Beyond(cursor, r.key) then Insert(Where(s, cursor), r) else Where(s, cursor)
  {
    if s == [] {
    } else if Older(s[0].key, r.key) {
      assert Insert(s, r)[1..] == s;
      if Beyond(cursor, r.key) {
        WhereAll(s, cursor);
      }
    } else {
      assert Insert(s, r)[1..] == Insert(s[1..], r);
      InsertWhere(s[1..], r, cursor);
      if Beyond(cursor, s[0].key) {
        assert Where(s, cursor)[1..] == Where(s[1..], cursor);
      } else if Beyond(cursor, r.key) {
        assert Where(s, cursor) == Where(s[1..], cursor);
      }
    }
  }

  lemma {:induction false} SortWhere<T>(rows: seq<Row<T>>, cursor: Option<Anchor>)
    requires UniqueKeys(rows)
    ensures NewestFirst(Where(rows, cursor)) == Where(NewestFirst(rows), cursor)
  {
    hide Insert, Beyond;
    if rows != [] {
      NewestFirstSorts(rows[1..]);
      SortWhere(rows[1..], cursor);
      InsertWhere(NewestFirst(rows[1..]), rows[0], cursor);
      if Beyond(cursor, rows[0].key) {
        assert Where(rows, cursor)[1..] == Where(rows[1..], cursor);
      }
    }
  }

  lemma {:induction false} WhereTwice<T>(rows: seq<Row<T>>, cursor: Option<Anchor>, next: Anchor)
    requires Beyond(cursor, next)
    ensures Where(Where(rows, cursor), Some(next)) == Where(rows, Some(next))
  {
    if rows != [] {
      WhereTwice(rows[1..], cursor, next);
      if Beyond(cursor, rows[0].key) {
        assert Where(rows, cursor)[1..] == Where(rows[1..], cursor);
      }
    }
  }

  lemma {:induction false} CutAt<T>(s: seq<Row<T>>, k: nat)
    requires Descending(s) && k < |s|
    ensures Where(s, Some(s[k].key)) == s[k + 1..]
  {
    if k == 0 {
      WhereAll(s[1..], Some(s[0].key));
    } else {
      CutAt(s[1..], k - 1);
      assert s[1..][k..] == s[k + 1..];
    }
  }

  /** All that lies beyond the cursor, sorted. */
  function Rest<T>(rows: seq<Row<T>>, cursor: Option<Anchor>): seq<Row<T>> {
    NewestFirst(Where(rows, cursor))
  }

  lemma RestSorted<T>(rows: seq<Row<T>>, cursor: Option<Anchor>)
    requires UniqueKeys(rows)
    ensures Descending(Rest(rows, cursor))
  {
    WhereKeepsUnique(rows, cursor);
    NewestFirstSorts(Where(rows, cursor));
  }

  lemma RestMembers<T>(rows: seq<Row<T>>, cursor: Option<Anchor>, r: Row<T>)
    ensures r in Rest(rows, cursor) <==> r in rows && Beyond(cursor, r.key)
  {
    WhereMembers(rows, cursor, r);
    NewestFirstPermutes(Where(rows, cursor));
    assert r in Rest(rows, cursor) <==> r in multiset(Rest(rows, cursor));
  }

  /** A page is the head of the rest; its cursor stands for the tail, and is null exactly when
      nothing remains. */
  lemma PageCutsTheRest<T>(rows: seq<Row<T>>, cursor: Option<Anchor>, limit: nat)
    requires UniqueKeys(rows) && limit >= 1
    ensures var page, rest := PageOf(rows, cursor, limit), Rest(rows, cursor);
            && page.items == Limit(rest, limit)
            && (page.next.None? <==> |rest| <= limit)
            && (page.next.Some? ==> page.next.value == rest[limit - 1].key && Rest(rows, page.next) == rest[limit..])
  {
    hide Where, NewestFirst, UniqueKeys;
    var page, rest := PageOf(rows, cursor, limit), Rest(rows, cursor);
    if page.next.Some? {
      var next := page.next.value;
      assert next == rest[limit - 1].key;
      RestMembers(rows, cursor, rest[limit - 1]);
      WhereTwice(rows, cursor, next);
      WhereKeepsUnique(rows, cursor);
      SortWhere(Where(rows, cursor), Some(next));
      RestSorted(rows, cursor);
      CutAt(rest, limit - 1);
    }
  }

  // ---------- walks ----------

  function Repeat<T>(rows: seq<Row<T>>, n: nat): seq<seq<Row<T>>> { seq(n, _ => rows) }

  lemma ItemsOf<T>(page: Page<T>, tail: seq<Page<T>>)
    ensures Items([page] + tail) == page.items + Items(tail)
    ensures Ended([page] + tail) <==> if tail == [] then page.next.None? else Ended(tail)
  {
    assert ([page] + tail)[1..] == tail;
  }

  /** Over a table that stays as it is, a walk ends within n pages exactly when n pages can hold
      the rest, and then its items are exactly the rest in order. */
  lemma {:induction false} FixedWalkIsTheList<T>(rows: seq<Row<T>>, n: nat, cursor: Option<Anchor>, limit: nat)
    requires UniqueKeys(rows) && limit >= 1
    ensures var pages := Walk(Repeat(rows, n), cursor, limit);
            && (Ended(pages) <==> n >= 1 && |Rest(rows, cursor)| <= n * limit)
            && (Ended(pages) ==> Items(pages) == Rest(rows, cursor))
    decreases n
  {
    hide PageOf, Rest, UniqueKeys, Items, Ended;
    if n == 0 {
      NoPages<T>();
    } else {
      var page, rest := PageOf(rows, cursor, limit), Rest(rows, cursor);
      PageCutsTheRest(rows, cursor, limit);
      assert n * limit == (n - 1) * limit + limit && (n - 1) * limit >= 0;
      assert Repeat(rows, n)[1..] == Repeat(rows, n - 1);
      var tail := if page.next.None? then [] else Walk(Repeat(rows, n - 1), page.next, limit);
      assert Walk(Repeat(rows, n), cursor, limit) == [page] + tail;
      ItemsOf(page, tail);
      NoPages<T>();
      if page.next.Some? {
        FixedWalkIsTheList(rows, n - 1, page.next, limit);
      }
    }
  }

  lemma NoPages<T>()
    ensures Items<T>([]) == [] && !Ended<T>([])
  {
  }

  lemma NothingDescends<T>()
    ensures Descending<T>([])
  {
  }

  lemma Joined<T>(a: seq<Row<T>>, cut: Anchor, b: seq<Row<T>>)
    requires Descending(a) && Descending(b)
    requires forall i :: 0 <= i < |a| ==> a[i].key == cut || Older(cut, a[i].key)
    requires forall j :: 0 <= j < |b| ==> Older(b[j].key, cut)
    ensures Descending(a + b)
  {
  }

  /** The page's items lie beyond its cursor, in order, and none lies beyond the next cursor. */
  lemma PageFacts<T>(rows: seq<Row<T>>, cursor: Option<Anchor>, limit: nat)
    requires UniqueKeys(rows) && limit >= 1
    ensures var page := PageOf(rows, cursor, limit);
            && Descending(page.items)
            && (forall i :: 0 <= i < |page.items| ==> page.items[i] in rows && Beyond(cursor, page.items[i].key))
            && (page.next.Some? ==> Beyond(cursor, page.next.value) && forall i :: 0 <= i < |page.items| ==>
                  page.items[i].key == page.next.value || Older(page.next.value, page.items[i].key))
  {
    hide PageOf, Rest, UniqueKeys;
    var page, rest := PageOf(rows, cursor, limit), Rest(rows, cursor);
    PageCutsTheRest(rows, cursor, limit);
    RestSorted(rows, cursor);
    forall i | 0 <= i < |page.items| ensures page.items[i] in rows && Beyond(cursor, page.items[i].key) {
      RestMembers(rows, cursor, rest[i]);
    }
  }

  /** Whatever is inserted or changed between the requests: no row comes twice, and the items come
      newest first across all pages. */
  lemma {:induction false} WalkNeverRepeats<T>(tables: seq<seq<Row<T>>>, cursor: Option<Anchor>, limit: nat)
    requires limit >= 1 && forall i :: 0 <= i < |tables| ==> UniqueKeys(tables[i])
    ensures var items := Items(Walk(tables, cursor, limit));
            Descending(items) && forall i :: 0 <= i < |items| ==> Beyond(cursor, items[i].key)
    decreases |tables|
  {
    hide PageOf, UniqueKeys, Descending, Ended;
    if tables == [] {
      NothingDescends<T>();
    } else {
      var page := PageOf(tables[0], cursor, limit);
      PageFacts(tables[0], cursor, limit);
      var tail := if page.next.None? then [] else Walk(tables[1..], page.next, limit);
      ItemsOf(page, tail);
      if page.next.None? {
        assert page.items + [] == page.items;
      } else {
        WalkNeverRepeats(tables[1..], page.next, limit);
        Joined(page.items, page.next.value, Items(tail));
      }
    }
  }

  /** When the walk ends, every row that was there at each request is among the items. */
  lemma {:induction false} WalkMissesNothing<T>(tables: seq<seq<Row<T>>>, cursor: Option<Anchor>, limit: nat, key: Anchor)
    requires limit >= 1 && forall i :: 0 <= i < |tables| ==> UniqueKeys(tables[i]) && HasKey(tables[i], key)
    requires Beyond(cursor, key) && Ended(Walk(tables, cursor, limit))
    ensures HasKey(Items(Walk(tables, cursor, limit)), key)
    decreases |tables|
  {
    hide PageOf, Rest, UniqueKeys, Items, Ended;
    if tables == [] {
      NoPages<T>();
    } else {
      var page := PageOf(tables[0], cursor, limit);
      var tail := if page.next.None? then [] else Walk(tables[1..], page.next, limit);
      ItemsOf(page, tail);
      PageOrBeyond(tables[0], cursor, limit, key);
      if HasKey(page.items, key) {
        KeyOfConcat(page.items, Items(tail), key);
      } else {
        NoPages<T>();
        WalkMissesNothing(tables[1..], page.next, limit, key);
        KeyOfConcat(page.items, Items(tail), key);
      }
    }
  }

  lemma KeyOfConcat<T>(a: seq<Row<T>>, b: seq<Row<T>>, key: Anchor)
    requires HasKey(a, key) || HasKey(b, key)
    ensures HasKey(a + b, key)
  {
    if HasKey(a, key) {
      var i :| 0 <= i < |a| && a[i].key == key;
      assert (a + b)[i].key == key;
    } else {
      var i :| 0 <= i < |b| && b[i].key == key;
      assert (a + b)[|a| + i].key == key;
    }
  }

  /** A row beyond the cursor is on the page or beyond the next cursor. */
  lemma PageOrBeyond<T>(rows: seq<Row<T>>, cursor: Option<Anchor>, limit: nat, key: Anchor)
    requires UniqueKeys(rows) && limit >= 1 && HasKey(rows, key) && Beyond(cursor, key)
    ensures var page := PageOf(rows, cursor, limit);
            HasKey(page.items, key) || (page.next.Some? && Beyond(page.next, key))
  {
    hide PageOf, Rest, UniqueKeys;
    PageCutsTheRest(rows, cursor, limit);
    RestSorted(rows, cursor);
    var rest := Rest(rows, cursor);
    var i :| 0 <= i < |rows| && rows[i].key == key;
    RestMembers(rows, cursor, rows[i]);
    var k :| 0 <= k < |rest| && rest[k] == rows[i];
    if k < limit { assert PageOf(rows, cursor, limit).items[k].key == key; }
  }

  // ---------- newest first, in plain terms ----------

  /** Each row was created later than the next, or at the same instant with a greater id. */
  predicate ByTimeThenId<T>(s: seq<Row<T>>) {
    forall i, j :: 0 <= i < j < |s| ==>
      s[i].key.createdAt > s[j].key.createdAt
      || (s[i].key.createdAt == s[j].key.createdAt && s[i].key.id > s[j].key.id)
  }

  /** The list order is newest first. */
  lemma NewestComesFirst<T>(rows: seq<Row<T>>)
    requires UniqueKeys(rows)
    ensures ByTimeThenId(NewestFirst(rows))
  {
    NewestFirstSorts(rows);
  }

  /** No row of page `a` is older than a row of a later page `b`. */
  predicate PagesDescend<T>(a: seq<Row<T>>, b: seq<Row<T>>) {
    forall i, j :: 0 <= i < |a| && 0 <= j < |b| ==> a[i].key.createdAt >= b[j].key.createdAt
  }

  lemma {:induction false} PageIsAmongItems<T>(pages: seq<Page<T>>, b: nat, r: Row<T>)
    requires b < |pages| && r in pages[b].items
    ensures r in Items(pages)
  {
    if b > 0 { PageIsAmongItems(pages[1..], b - 1, r); }
  }

  /** What a client reads comes newest first, within a page and from page to page, whatever changes
      between the requests. */
  lemma {:induction false} WalkIsNewestFirst<T>(tables: seq<seq<Row<T>>>, cursor: Option<Anchor>, limit: nat)
    requires limit >= 1 && forall i :: 0 <= i < |tables| ==> UniqueKeys(tables[i])
    ensures var pages := Walk(tables, cursor, limit);
            && ByTimeThenId(Items(pages))
            && forall a, b :: 0 <= a < b < |pages| ==> PagesDescend(pages[a].items, pages[b].items)
    decreases |tables|
  {
    hide PageOf, UniqueKeys, Items, PagesDescend;
    WalkNeverRepeats(tables, cursor, limit);
    if tables != [] {
      var pages, page := Walk(tables, cursor, limit), PageOf(tables[0], cursor, limit);
      PageFacts(tables[0], cursor, limit);
      if page.next.Some? {
        var tail := Walk(tables[1..], page.next, limit);
        WalkIsNewestFirst(tables[1..], page.next, limit);
        WalkNeverRepeats(tables[1..], page.next, limit);
        forall b | 0 < b < |pages| ensures PagesDescend(page.items, pages[b].items) {
          assert pages[b] == tail[b - 1];
          LaterPage(page, tail, b - 1);
        }
        forall a, b | 0 < a < b < |pages| ensures PagesDescend(pages[a].items, pages[b].items) {
          assert pages[a] == tail[a - 1] && pages[b] == tail[b - 1];
        }
      }
    }
  }

  lemma LaterPage<T>(page: Page<T>, tail: seq<Page<T>>, b: nat)
    requires b < |tail| && page.next.Some?
    requires forall i :: 0 <= i < |page.items| ==>
               page.items[i].key == page.next.value || Older(page.next.value, page.items[i].key)
    requires forall j :: 0 <= j < |Items(tail)| ==> Beyond(page.next, Items(tail)[j].key)
    ensures PagesDescend(page.items, tail[b].items)
  {
    forall j | 0 <= j < |tail[b].items| ensures Beyond(page.next, tail[b].items[j].key) {
      PageIsAmongItems(tail, b, tail[b].items[j]);
    }
  }
}
