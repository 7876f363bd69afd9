/** The API and the worker together: every commit publishes its events to the outbox, and any number
    of workers drain it at the same time. */
module EndToEnd {
  import opened Wrappers
  import opened Tables
  import opened Limits
  import opened Operations
  import opened History
  import opened Settlements
  import opened Notifications
  import Money
  import opened ArrivalNotices
  import opened RequestNotices
  import P = Protocol
  import PI = ProtocolInvariant
  import PT = ProtocolTheorems
  import PR = ProtocolResults
  import W = OutboxWorkers

  datatype World = World(api: P.Sys, box: W.State)

  function Init(lim: Limits, workers: nat): World { World(P.Init(lim), W.Init(workers)) }

  /** A step of the API, stamping the events that it commits; or a step of a worker. */
  datatype Step = Api(action: P.Action, occurredAt: int) | Work(work: W.Action)

  function Publish(box: W.State, e: Event, occurredAt: int): W.State {
    box.(rows := box.rows[e.id := W.Row(e, occurredAt, false, 0, box.clock, None)])
  }

  function PublishAll(box: W.State, events: seq<Event>, occurredAt: int): W.State {
    if events == [] then box
    else Publish(PublishAll(box, events[..|events| - 1], occurredAt), events[|events| - 1], occurredAt)
  }

  predicate Enabled(w: World, s: Step) {
    match s
    case Api(a, _) => P.Enabled(w.api, a)
    case Work(a) => !a.Publish? && W.Enabled(w.box, a)
  }

  function NewEvents(before: Db, after: Db): seq<Event> {
    if |before.events| <= |after.events| then after.events[|before.events|..] else []
  }

  function Next(w: World, s: Step): World
    requires Enabled(w, s)
  {
    match s
    case Api(a, occurredAt) =>
      var api := P.Next(w.api, a);
      World(api, PublishAll(w.box, NewEvents(w.api.db, api.db), occurredAt))
    case Work(a) => World(w.api, W.Next(w.box, a))
  }

  predicate ValidRun(w: World, run: seq<Step>)
    decreases |run|
  {
    run == [] || (Enabled(w, run[0]) && ValidRun(Next(w, run[0]), run[1..]))
  }

  function Final(w: World, run: seq<Step>): World
    requires ValidRun(w, run)
    decreases |run|
  {
    if run == [] then w else Final(Next(w, run[0]), run[1..])
  }

  // ---------- the outbox holds exactly the committed events ----------

  ghost predicate Inv(w: World) {
    PT.Inv(w.api) && W.Sound(w.box) && Published(w.api.db.events, w.box)
  }

  lemma EventsOnlyGrow(s: P.Sys, a: P.Action)
    requires P.Enabled(s, a)
    ensures s.db.events <= P.Next(s, a).db.events
  {
    hide P.Execute, P.AfterAbort, P.ResponseOf, P.OverlayWallets;
  }

  lemma PublishKeeps(events: seq<Event>, box: W.State, e: Event, occurredAt: int)
    requires W.Sound(box) && Published(events, box) && UniqueEventIds(events + [e])
    ensures W.Sound(Publish(box, e, occurredAt)) && Published(events + [e], Publish(box, e, occurredAt))
  {
    var all := events + [e];
    assert forall i :: 0 <= i < |events| ==> all[i] == events[i] && all[i].id != all[|events|].id;
    assert e.id !in box.rows;
    assert W.Enabled(box, W.Publish(e, occurredAt));
    W.NextKeepsSound(box, W.Publish(e, occurredAt));
    hide W.Sound;
    var next := Publish(box, e, occurredAt);
    forall id | id in next.rows ensures exists i :: 0 <= i < |all| && all[i].id == id {
      if id == e.id {
        assert all[|events|].id == id;
      } else {
        var i :| 0 <= i < |events| && events[i].id == id;
        assert all[i].id == id;
      }
    }
  }

  lemma {:induction false} PublishAllKeeps(events: seq<Event>, box: W.State, added: seq<Event>, occurredAt: int)
    requires W.Sound(box) && Published(events, box) && UniqueEventIds(events + added)
    ensures W.Sound(PublishAll(box, added, occurredAt)) && Published(events + added, PublishAll(box, added, occurredAt))
  {
    hide W.Sound, Published, Publish;
    if added == [] {
      assert events + added == events;
    } else {
      var n := |added| - 1;
      assert events + added == (events + added[..n]) + [added[n]];
      FewerIdsStayUnique(events + added[..n], added[n]);
      PublishAllKeeps(events, box, added[..n], occurredAt);
      PublishKeeps(events + added[..n], PublishAll(box, added[..n], occurredAt), added[n], occurredAt);
    }
  }

  lemma FewerIdsStayUnique(events: seq<Event>, e: Event)
    requires UniqueEventIds(events + [e])
    ensures UniqueEventIds(events)
  {
    assert forall i :: 0 <= i < |events| ==> (events + [e])[i] == events[i];
  }

  lemma WorkKeepsPublished(events: seq<Event>, box: W.State, a: W.Action)
    requires Published(events, box) && W.Sound(box) && W.Enabled(box, a) && !a.Publish?
    ensures Published(events, W.Next(box, a))
  {
    hide W.Exact, W.Exclusive, Deliver, Plan;
    assert W.Next(box, a).rows.Keys == box.rows.Keys;
    assert forall id :: id in box.rows ==> W.Next(box, a).rows[id].event == box.rows[id].event;
  }

  lemma CommittedIdsAreUnique(s: P.Sys)
    requires PT.Inv(s)
    ensures s.db == Replay(s.lim, s.history) && Consistent(s.lim, s.history) && UniqueEventIds(s.db.events)
  {
    hide Consistent, Replay;
    NothingIsHalfDone(s.lim, s.history);
  }

  lemma NextKeepsInv(w: World, s: Step)
    requires Inv(w) && Enabled(w, s)
    ensures Inv(Next(w, s)) && Next(w, s).api.lim == w.api.lim
  {
    hide PT.Inv, W.Sound, Published, P.Enabled, P.Next, W.Next, W.Enabled;
    match s
    case Api(a, occurredAt) =>
      var api := P.Next(w.api, a);
      PT.NextKeepsInv(w.api, a);
      LimitsStay(w.api, a);
      EventsOnlyGrow(w.api, a);
      CommittedIdsAreUnique(api);
      var added := NewEvents(w.api.db, api.db);
      assert w.api.db.events + added == api.db.events;
      PublishAllKeeps(w.api.db.events, w.box, added, occurredAt);
    case Work(a) =>
      W.NextKeepsSound(w.box, a);
      WorkKeepsPublished(w.api.db.events, w.box, a);
  }

  lemma LimitsStay(s: P.Sys, a: P.Action)
    requires P.Enabled(s, a)
    ensures P.Next(s, a).lim == s.lim
  {
  }

  lemma {:induction false} RunKeepsInv(w: World, run: seq<Step>)
    requires Inv(w) && ValidRun(w, run)
    ensures Inv(Final(w, run)) && Final(w, run).api.lim == w.api.lim
    decreases |run|
  {
    hide Inv, Enabled, Next;
    if run != [] {
      NextKeepsInv(w, run[0]);
      RunKeepsInv(Next(w, run[0]), run[1..]);
    }
  }

  /** In every reachable state of the API and its workers: the tables are those of a consistent history,
      the outbox holds exactly the committed events, and the notifications are exactly the plans of the
      processed ones. */
  lemma WorldIsSound(lim: Limits, workers: nat, run: seq<Step>)
    requires ValidRun(Init(lim, workers), run)
    ensures var w := Final(Init(lim, workers), run);
            && w.api.db == Replay(lim, w.api.history) && Consistent(lim, w.api.history)
            && Published(w.api.db.events, w.box) && W.Exact(w.box)
  {
    hide ValidRun, Final, PT.Inv;
    PR.InitIsOk(lim);
    assert Inv(Init(lim, workers));
    RunKeepsInv(Init(lim, workers), run);
    var w := Final(Init(lim, workers), run);
    CommittedIdsAreUnique(w.api);
  }

  // ---------- notifications, over every run ----------

  /** No transfer is ever announced to its receiver twice; once the outbox is drained each has been, by
      money_received if it is direct and by money_request_accepted if it settled a request. */
  lemma EveryCreditIsAnnouncedOnce(lim: Limits, workers: nat, run: seq<Step>, i: nat)
    requires ValidRun(Init(lim, workers), run) && i < |Final(Init(lim, workers), run).api.db.transfers|
    ensures var w := Final(Init(lim, workers), run); var t, notes := w.api.db.transfers[i], w.box.notes;
            && (forall j, k :: 0 <= j < |notes| && 0 <= k < |notes| && Announces(notes[j], t) && Announces(notes[k], t) ==> j == k)
            && (AllProcessed(w.box) ==>
                  exists j :: 0 <= j < |notes| && Announces(notes[j], t)
                              && notes[j].kind == if t.source.None? then MoneyReceived else RequestPaid)
  {
    hide ValidRun, Final, Consistent, Replay, Published, W.Exact, Announces;
    WorldIsSound(lim, workers, run);
    var w := Final(Init(lim, workers), run);
    var h, notes, t := w.api.history, w.box.notes, w.api.db.transfers[i];
    forall j, k | 0 <= j < |notes| && 0 <= k < |notes| && Announces(notes[j], t) && Announces(notes[k], t) ensures j == k {
      AtMostOneArrivalNotice(lim, h, w.box, i, j, k);
    }
    if AllProcessed(w.box) { var j := SomeArrivalNotice(lim, h, w.box, i); }
  }

  /** No request is ever announced twice; once the outbox is drained each has been, to its payer. */
  lemma EveryRequestIsAnnouncedOnce(lim: Limits, workers: nat, run: seq<Step>, id: Uuid)
    requires ValidRun(Init(lim, workers), run) && id in Final(Init(lim, workers), run).api.db.requests
    ensures var w := Final(Init(lim, workers), run); var row, notes := w.api.db.requests[id], w.box.notes;
            && (forall j, k :: 0 <= j < |notes| && 0 <= k < |notes| && TellsCreation(notes[j], id) && TellsCreation(notes[k], id)
                  ==> j == k)
            && (AllProcessed(w.box) ==> exists j :: 0 <= j < |notes| && AnnouncesCreation(notes[j], id, row))
  {
    hide ValidRun, Final, Consistent, Replay, Published, W.Exact;
    WorldIsSound(lim, workers, run);
    var w := Final(Init(lim, workers), run);
    var h, notes := w.api.history, w.box.notes;
    forall j, k | 0 <= j < |notes| && 0 <= k < |notes| && TellsCreation(notes[j], id) && TellsCreation(notes[k], id)
      ensures j == k
    {
      AtMostOneCreationNotice(lim, h, w.box, id, j, k);
    }
    if AllProcessed(w.box) { var j := SomeCreationNotice(lim, h, w.box, id); }
  }

  /** No resolution is ever reported twice; once the outbox is drained each has been, to the party that
      did not resolve the request, as what it is. */
  lemma EveryResolutionIsReportedOnce(lim: Limits, workers: nat, run: seq<Step>, id: Uuid)
    requires ValidRun(Init(lim, workers), run) && id in Final(Init(lim, workers), run).api.db.requests
    ensures var w := Final(Init(lim, workers), run); var row, notes := w.api.db.requests[id], w.box.notes;
            && (forall j, k :: 0 <= j < |notes| && 0 <= k < |notes| && TellsResolution(notes[j], id) && TellsResolution(notes[k], id)
                  ==> j == k)
            && (AllProcessed(w.box) && row.status != Pending ==>
                  exists j :: 0 <= j < |notes| && AnnouncesResolution(notes[j], id, row))
  {
    hide ValidRun, Final, Consistent, Replay, Published, W.Exact;
    WorldIsSound(lim, workers, run);
    var w := Final(Init(lim, workers), run);
    var h, notes := w.api.history, w.box.notes;
    forall j, k | 0 <= j < |notes| && 0 <= k < |notes| && TellsResolution(notes[j], id) && TellsResolution(notes[k], id)
      ensures j == k
    {
      AtMostOneResolutionNotice(lim, h, w.box, id, j, k);
    }
    if AllProcessed(w.box) && w.api.db.requests[id].status != Pending {
      var j := SomeResolutionNotice(lim, h, w.box, id);
    }
  }

  predicate Spoken(box: W.State, e: Event) { e.id in box.rows && box.rows[e.id].processed && !Silent(e) }

  /** Every notice says a committed, processed event, and every processed event that is not silent has a
      notice that says it. */
  lemma NoticesSayTheirEvents(lim: Limits, workers: nat, run: seq<Step>)
    requires ValidRun(Init(lim, workers), run)
    ensures var w := Final(Init(lim, workers), run); var events, notes := w.api.db.events, w.box.notes;
            && (forall k :: 0 <= k < |notes| ==> exists i :: 0 <= i < |events| && Says(notes[k], events[i]))
            && (forall i :: 0 <= i < |events| && Spoken(w.box, events[i]) ==>
                  exists k :: 0 <= k < |notes| && Says(notes[k], events[i]))
  {
    hide ValidRun, Final, Consistent, Replay, Says, Silent, Plan;
    WorldIsSound(lim, workers, run);
    var w := Final(Init(lim, workers), run);
    var events, notes := w.api.db.events, w.box.notes;
    forall k | 0 <= k < |notes| ensures exists i :: 0 <= i < |events| && Says(notes[k], events[i]) {
      var i := SourceOf(events, w.box, k);
      PlansSayTheirEvents(events[i], notes[k]);
    }
    forall i | 0 <= i < |events| && Spoken(w.box, events[i])
      ensures exists k :: 0 <= k < |notes| && Says(notes[k], events[i])
    {
      PlansSayTheirEvents(events[i], Notification(events[i].id, 0, MoneyReceived, "", "", events[i].id));
      var n := Plan(events[i])[0];
      PlansSayTheirEvents(events[i], n);
      assert n in notes;
      var k :| 0 <= k < |notes| && notes[k] == n;
    }
  }

  /** The notice of a credit carries its amount: what stands behind the taka sign is read back by the web
      page's parser as the amount of the transfer, for every amount the API accepts. */
  lemma CreditNoticesNameTheAmount(lim: Limits, workers: nat, run: seq<Step>, i: nat, j: nat, rd: nat -> nat)
    requires ValidRun(Init(lim, workers), run) && Money.DoubleRounding(rd)
    requires var w := Final(Init(lim, workers), run); i < |w.api.db.transfers| && j < |w.box.notes|
    ensures var w := Final(Init(lim, workers), run); var t, n := w.api.db.transfers[i], w.box.notes[j];
            Announces(n, t) ==>
              var text := Money.FormatMinorAmount(t.amount);
              && n.body == (if t.source.None? then "You received \U{09F3}" + text + "."
                            else "Your request for \U{09F3}" + text + " was accepted and paid.")
              && (t.amount <= 1_000_000_000_000 ==> Money.ParseBdtToMinor(rd, text) == Ok(t.amount))
  {
    hide ValidRun, Final, Consistent, Replay, Published, W.Exact, Announces, Money.FormatMinorAmount, Money.ParseBdtToMinor,
      Money.DoubleRounding;
    WorldIsSound(lim, workers, run);
    var w := Final(Init(lim, workers), run);
    var t, n := w.api.db.transfers[i], w.box.notes[j];
    ArrivalNoticeNamesTheAmount(lim, w.api.history, w.box, i, j);
    if Announces(n, t) {
      var text := Money.FormatMinorAmount(t.amount);
      assert "You received " + ("\U{09F3}" + text) + "." == "You received \U{09F3}" + text + ".";
      assert "Your request for " + ("\U{09F3}" + text) + " was accepted and paid."
             == "Your request for \U{09F3}" + text + " was accepted and paid.";
      if t.amount <= 1_000_000_000_000 { Money.RoundTrip(rd, t.amount); }
    }
  }
}
