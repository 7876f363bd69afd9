/** What the worker's consumer produces from a domain event, and how it is inserted once. */
module Notifications {
  import opened Wrappers
  import opened Tables
  import Money

  datatype NotificationKind = MoneyReceived | RequestReceived | RequestPaid | RequestWasDeclined | RequestWasCancelled

  datatype Notification = Notification(
    source: Uuid, user: UserId, kind: NotificationKind, title: string, body: string, resource: Uuid)

  function AmountText(amount: int): string { Money.FormatMinorUnits(amount, "BDT") }

  /** The consumer's plan for an event: at most one notification. A request-sourced transfer is
      silent, because its acceptance already notifies; unknown events plan nothing. */
  function Plan(e: Event): (notes: seq<Notification>)
    ensures |notes| <= 1 && forall n :: n in notes ==> n.source == e.id
  {
    match e.body
    case TransferDone(id, _, receiver, amount, source) =>
      if source.Some? then []
      else [Notification(e.id, receiver, MoneyReceived, "Money received",
                         "You received " + AmountText(amount) + ".", id)]
    case RequestCreated(id, payer, _, amount) =>
      [Notification(e.id, payer, RequestReceived, "Money requested",
                    "Someone requested " + AmountText(amount) + " from you.", id)]
    case RequestAccepted(id, _, requester, amount, _) =>
      [Notification(e.id, requester, RequestPaid, "Request accepted",
            "Your request for " + AmountText(amount) + " was accepted and paid.", id)]
    case RequestDeclined(id, _, requester, amount) =>
      [Notification(e.id, requester, RequestWasDeclined, "Request declined",
            "Your request for " + AmountText(amount) + " was declined.", id)]
    case RequestCancelled(id, payer, _, amount) =>
      [Notification(e.id, payer, RequestWasCancelled, "Request cancelled",
            "A request for " + AmountText(amount) + " was cancelled.", id)]
    case RiskFlagged(_, _) => []
  }

  /** The UNIQUE index (source_event_id, user_id) already has this pair. */
  predicate Present(notes: seq<Notification>, n: Notification) {
    exists i :: 0 <= i < |notes| && notes[i].source == n.source && notes[i].user == n.user
  }

  predicate UniqueNotes(notes: seq<Notification>) {
    forall i, j :: 0 <= i < j < |notes| ==> !(notes[i].source == notes[j].source && notes[i].user == notes[j].user)
  }

  /** INSERT ... ON CONFLICT DO NOTHING, for each planned notification in turn. */
  function Deliver(notes: seq<Notification>, planned: seq<Notification>): seq<Notification>
    decreases |planned|
  {
    if planned == [] then notes
    else Deliver(if Present(notes, planned[0]) then notes else notes + [planned[0]], planned[1..])
  }

  class NotificationTable {
    var rows: seq<Notification>

    constructor ()
      ensures rows == []
    {
      rows := [];
    }

    method InsertIfAbsent(n: Notification) returns (inserted: bool)
      requires UniqueNotes(rows)
      modifies this
      ensures inserted <==> forall i :: 0 <= i < |old(rows)| ==>
                !(old(rows)[i].source == n.source && old(rows)[i].user == n.user)
      ensures rows == if inserted then old(rows) + [n] else old(rows)
      ensures UniqueNotes(rows) && Present(rows, n)
    {
      inserted := !Present(rows, n);
      if inserted {
        rows := rows + [n];
        assert rows[|rows| - 1] == n;
      }
    }

    /** The consumer's loop over its plan. */
    method Handle(e: Event)
      requires UniqueNotes(rows)
      modifies this
      ensures rows == Deliver(old(rows), Plan(e)) && UniqueNotes(rows)
      ensures (forall i :: 0 <= i < |old(rows)| ==> old(rows)[i].source != e.id) ==>
                if Silent(e) then rows == old(rows)
                else |rows| == |old(rows)| + 1 && rows[..|old(rows)|] == old(rows) && Says(rows[|old(rows)|], e)
    {
      hide Says, Silent;
      if forall i :: 0 <= i < |rows| ==> rows[i].source != e.id { FreshEventIsSaid(rows, e); }
      var planned := Plan(e);
      var i := 0;
      while i < |planned|
        invariant 0 <= i <= |planned| && UniqueNotes(rows)
        invariant Deliver(rows, planned[i..]) == Deliver(old(rows), planned)
      {
        var _ := InsertIfAbsent(planned[i]);
        assert planned[i..][1..] == planned[i + 1..];
        i := i + 1;
      }
    }
  }

  lemma DeliverOne(notes: seq<Notification>, n: Notification)
    ensures Deliver(notes, [n]) == if Present(notes, n) then notes else notes + [n]
  {
    assert [n][1..] == [];
  }

  /** At-least-once delivery is harmless: handling an event again inserts nothing. */
  lemma HandledTwiceIsHandledOnce(notes: seq<Notification>, e: Event)
    ensures Deliver(Deliver(notes, Plan(e)), Plan(e)) == Deliver(notes, Plan(e))
  {
    if Plan(e) != [] {
      var n := Plan(e)[0];
      assert Plan(e) == [n];
      DeliverOne(notes, n);
      var once := Deliver(notes, [n]);
      DeliverOne(once, n);
      assert Present(once, n) by {
        if !Present(notes, n) { assert once[|notes|] == n; }
      }
    }
  }

  /** A fresh source gets exactly its plan. */
  lemma FreshSourceGetsItsPlan(notes: seq<Notification>, e: Event)
    requires forall i :: 0 <= i < |notes| ==> notes[i].source != e.id
    ensures Deliver(notes, Plan(e)) == notes + Plan(e)
  {
    if Plan(e) != [] {
      assert Plan(e) == [Plan(e)[0]];
      DeliverOne(notes, Plan(e)[0]);
    }
  }

  // ---------- what the notices say ----------

  /** Whom an event tells what: the user, the kind, the title and the sentence, with the amount as the web
      page prints it. */
  predicate Says(n: Notification, e: Event) {
    n.source == e.id
    && match e.body
       case TransferDone(id, _, receiver, amount, source) =>
         source.None? && n.user == receiver && n.kind == MoneyReceived && n.resource == id
         && n.title == "Money received" && n.body == "You received " + Money.FormatBdt(amount) + "."
       case RequestCreated(id, payer, _, amount) =>
         n.user == payer && n.kind == RequestReceived && n.resource == id
         && n.title == "Money requested"
         && n.body == "Someone requested " + Money.FormatBdt(amount) + " from you."
       case RequestAccepted(id, _, requester, amount, _) =>
         n.user == requester && n.kind == RequestPaid && n.resource == id
         && n.title == "Request accepted"
         && n.body == "Your request for " + Money.FormatBdt(amount) + " was accepted and paid."
       case RequestDeclined(id, _, requester, amount) =>
         n.user == requester && n.kind == RequestWasDeclined && n.resource == id
         && n.title == "Request declined"
         && n.body == "Your request for " + Money.FormatBdt(amount) + " was declined."
       case RequestCancelled(id, payer, _, amount) =>
         n.user == payer && n.kind == RequestWasCancelled && n.resource == id
         && n.title == "Request cancelled"
         && n.body == "A request for " + Money.FormatBdt(amount) + " was cancelled."
       case RiskFlagged(_, _) => false
  }

  /** The events that say nothing: a transfer that settled a request, and a flagged risk. */
  predicate Silent(e: Event) { e.body.RiskFlagged? || (e.body.TransferDone? && e.body.source.Some?) }

  /** An event plans exactly the one notice that says it, or none if it is silent. */
  lemma PlansSayTheirEvents(e: Event, n: Notification)
    ensures n in Plan(e) <==> Says(n, e)
    ensures Plan(e) == [] <==> Silent(e)
  {
    hide Money.FormatBdt, Money.FormatMinorUnits;
    match e.body
    case TransferDone(_, _, _, amount, _) => Money.PrintersAgree(amount);
    case RequestCreated(_, _, _, amount) => Money.PrintersAgree(amount);
    case RequestAccepted(_, _, _, amount, _) => Money.PrintersAgree(amount);
    case RequestDeclined(_, _, _, amount) => Money.PrintersAgree(amount);
    case RequestCancelled(_, _, _, amount) => Money.PrintersAgree(amount);
    case RiskFlagged(_, _) =>
  }

  /** A fresh event delivers exactly the one notice that says it, behind what was there. */
  lemma FreshEventIsSaid(notes: seq<Notification>, e: Event)
    requires forall i :: 0 <= i < |notes| ==> notes[i].source != e.id
    ensures var after := Deliver(notes, Plan(e));
            if Silent(e) then after == notes
            else |after| == |notes| + 1 && after[..|notes|] == notes && Says(after[|notes|], e)
  {
    hide Plan, Says;
    FreshSourceGetsItsPlan(notes, e);
    PlansSayTheirEvents(e, if Plan(e) == [] then Notification(e.id, 0, MoneyReceived, "", "", e.id) else Plan(e)[0]);
    assert Plan(e) != [] ==> Plan(e) == [Plan(e)[0]];
  }
}
