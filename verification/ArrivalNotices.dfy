/** From committed settlements to committed notifications: no credit is ever announced twice, and
    once the outbox is drained every credit has been announced to its receiver. */
module ArrivalNotices {
  import opened Wrappers
  import opened Tables
  import opened Limits
  import opened Operations
  import opened History
  import opened Settlements
  import opened Notifications
  import Money
  import opened OutboxWorkers

  /** The outbox rows are the committed events. */
  ghost predicate Published(events: seq<Event>, s: State) {
    && (forall i :: 0 <= i < |events| ==> events[i].id in s.rows && s.rows[events[i].id].event == events[i])
    && (forall id :: id in s.rows ==> exists i :: 0 <= i < |events| && events[i].id == id)
  }

  predicate AllProcessed(s: State) {
    forall id :: id in s.rows ==> s.rows[id].processed
  }

  /** The two ways to announce a credit: money_received for the transfer itself, or
      money_request_accepted for the request that it settled. */
  predicate Announces(n: Notification, t: Transfer) {
    n.user == t.receiver
    && ((n.kind == MoneyReceived && n.resource == t.id) || (n.kind == RequestPaid && t.source == Some(n.resource)))
  }

  /** How many arrivals the events before position `i` report. */
  function ArrivalsBefore(events: seq<Event>, i: nat): nat
    requires i <= |events|
  {
    |Arrivals(events[..i])|
  }

  lemma {:induction false} ArrivalAt(events: seq<Event>, i: nat)
    requires i < |events| && ArrivalOf(events[i].body).Some?
    ensures ArrivalsBefore(events, i) < |Arrivals(events)|
    ensures Arrivals(events)[ArrivalsBefore(events, i)] == ArrivalOf(events[i].body).value
    ensures forall j :: i < j < |events| ==> ArrivalsBefore(events, i) < ArrivalsBefore(events, j)
  {
    var k := ArrivalsBefore(events, i);
    assert events[..i + 1][..i] == events[..i];
    assert events[..i + 1] + events[i + 1..] == events;
    EventsAppend(events[..i + 1], events[i + 1..]);
    forall j | i < j < |events| ensures k < ArrivalsBefore(events, j) {
      assert events[..i + 1] + events[i + 1..j] == events[..j];
      EventsAppend(events[..i + 1], events[i + 1..j]);
    }
  }

  lemma {:induction false} ArrivalEvent(events: seq<Event>, k: nat) returns (i: nat)
    requires k < |Arrivals(events)|
    ensures i < |events| && ArrivalOf(events[i].body) == Some(Arrivals(events)[k])
  {
    var n := |events| - 1;
    if k < |Arrivals(events[..n])| {
      i := ArrivalEvent(events[..n], k);
    } else {
      i := n;
    }
  }

  /** A notification that announces a transfer was planned for that transfer's arrival event. */
  lemma AnnouncedByItsEvent(db: Db, s: State, i: nat, j: nat) returns (p: nat)
    requires Complete(db) && Bijection(db.transfers, db.requests) && ArrivalsMatch(db.transfers, Arrivals(db.events))
    requires Published(db.events, s) && Exact(s)
    requires i < |db.transfers| && j < |s.notes| && Announces(s.notes[j], db.transfers[i])
    ensures p < |db.events| && db.events[p].id == s.notes[j].source && s.notes[j] in Plan(db.events[p])
    ensures ArrivalOf(db.events[p].body).Some? && ArrivalsBefore(db.events, p) == i
  {
    hide Complete, Bijection, LedgerPairs, DoneEventsMatch, AmountText, ArrivalsBefore;
    var n := s.notes[j];
    assert n in Plan(s.rows[n.source].event);
    p :| 0 <= p < |db.events| && db.events[p].id == n.source;
    ArrivalAt(db.events, p);
    var q := ArrivalsBefore(db.events, p);
    SameTransfer(db, i, q);
  }

  lemma SameTransfer(db: Db, i: nat, q: nat)
    requires Complete(db) && Bijection(db.transfers, db.requests)
    requires i < |db.transfers| && q < |db.transfers|
    ensures db.transfers[i].id == db.transfers[q].id ==> i == q
    ensures db.transfers[i].source.Some? && db.transfers[i].source == db.transfers[q].source ==> i == q
  {
    if db.transfers[i].source.Some? && db.transfers[i].source == db.transfers[q].source {
      SettledOnce(db, i, q);
    }
  }

  /** Never two arrival notices for one credit. */
  lemma AtMostOneArrivalNotice(lim: Limits, h: seq<Entry>, s: State, i: nat, j: nat, k: nat)
    requires Consistent(lim, h) && Published(Replay(lim, h).events, s) && Exact(s)
    requires i < |Replay(lim, h).transfers| && j < |s.notes| && k < |s.notes|
    ensures Announces(s.notes[j], Replay(lim, h).transfers[i]) && Announces(s.notes[k], Replay(lim, h).transfers[i])
            ==> j == k
  {
    hide Consistent, Replay, Complete, Bijection, EachRowChecked, AmountText, ArrivalsBefore, Announces, Published;
    var db := Replay(lim, h);
    NothingIsHalfDone(lim, h);
    if Announces(s.notes[j], db.transfers[i]) && Announces(s.notes[k], db.transfers[i]) {
      var pj := AnnouncedByItsEvent(db, s, i, j);
      var pk := AnnouncedByItsEvent(db, s, i, k);
      ArrivalAt(db.events, pj);
      ArrivalAt(db.events, pk);
      assert pk == pj;
      SameReceiver(s.notes[k], s.notes[j], db.transfers[i]);
    }
  }

  /** The notice of a credit names the very amount that was credited. */
  lemma ArrivalNoticeNamesTheAmount(lim: Limits, h: seq<Entry>, s: State, i: nat, j: nat)
    requires Consistent(lim, h) && Published(Replay(lim, h).events, s) && Exact(s)
    requires i < |Replay(lim, h).transfers| && j < |s.notes|
    ensures var t := Replay(lim, h).transfers[i];
            Announces(s.notes[j], t) ==>
              && t.amount > 0
              && s.notes[j].body == if t.source.None? then "You received " + Money.FormatBdt(t.amount) + "."
                                    else "Your request for " + Money.FormatBdt(t.amount) + " was accepted and paid."
  {
    hide Consistent, Replay, Bijection, EachRowChecked, AmountText, ArrivalsBefore, Money.FormatBdt, Plan, LedgerPairs,
      DoneEventsMatch;
    var db := Replay(lim, h);
    NothingIsHalfDone(lim, h);
    if Announces(s.notes[j], db.transfers[i]) {
      var p := AnnouncedByItsEvent(db, s, i, j);
      ArrivalAt(db.events, p);
      assert s.notes[j] in Plan(db.events[p]);
      PlansSayTheirEvents(db.events[p], s.notes[j]);
      assert RowComplete(db, db.transfers[i]);
    }
  }

  /** Once everything published has been processed there is one: money_received for a direct transfer,
      money_request_accepted for the settlement of a request, for the receiver. */
  lemma SomeArrivalNotice(lim: Limits, h: seq<Entry>, s: State, i: nat) returns (j: nat)
    requires Consistent(lim, h) && Published(Replay(lim, h).events, s) && Exact(s) && AllProcessed(s)
    requires i < |Replay(lim, h).transfers|
    ensures var t := Replay(lim, h).transfers[i];
            && j < |s.notes| && Announces(s.notes[j], t)
            && s.notes[j].kind == (if t.source.None? then MoneyReceived else RequestPaid)
  {
    hide Consistent, Replay, Complete, Bijection, EachRowChecked, AmountText, ArrivalsBefore, Announces;
    var db := Replay(lim, h);
    NothingIsHalfDone(lim, h);
    var p := ArrivalEvent(db.events, i);
    var note := Plan(db.events[p])[0];
    assert note in s.notes;
    j :| 0 <= j < |s.notes| && s.notes[j] == note;
    AnnouncesArrival(note, db.transfers[i], db.events[p]);
  }

  lemma SameReceiver(a: Notification, b: Notification, t: Transfer)
    requires Announces(a, t) && Announces(b, t)
    ensures a.user == b.user
  {
  }

  lemma AnnouncesArrival(n: Notification, t: Transfer, e: Event)
    requires ArrivalOf(e.body) == Some(Arrival(t.id, t.receiver, t.amount, t.source)) && n in Plan(e)
    ensures Announces(n, t) && n.kind == (if t.source.None? then MoneyReceived else RequestPaid)
  {
  }
}
