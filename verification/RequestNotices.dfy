/** The life of a request in events, and in notifications: at most one announcement of its creation,
    to its payer, and at most one of its resolution, to the other party. */
module RequestNotices {
  import opened Wrappers
  import opened Tables
  import opened Limits
  import opened Operations
  import opened History
  import opened Notifications
  import opened OutboxWorkers
  import opened ArrivalNotices
  import opened Answers

  function Creates(body: EventBody): Option<Uuid> {
    match body
    case RequestCreated(id, _, _, _) => Some(id)
    case _ => None
  }

  function Resolves(body: EventBody): Option<Uuid> {
    match body
    case RequestAccepted(id, _, _, _, _) => Some(id)
    case RequestDeclined(id, _, _, _) => Some(id)
    case RequestCancelled(id, _, _, _) => Some(id)
    case _ => None
  }

  predicate Fits(body: EventBody, id: Uuid, row: Request) {
    match body
    case RequestCreated(e, payer, requester, amount) =>
      e == id && payer == row.payer && requester == row.requester && amount == row.amount
    case RequestAccepted(e, payer, requester, amount, t) =>
      e == id && payer == row.payer && requester == row.requester && amount == row.amount
      && row.status == Accepted && row.acceptedTransfer == Some(t)
    case RequestDeclined(e, payer, requester, amount) =>
      e == id && payer == row.payer && requester == row.requester && amount == row.amount && row.status == Declined
    case RequestCancelled(e, payer, requester, amount) =>
      e == id && payer == row.payer && requester == row.requester && amount == row.amount && row.status == Cancelled
    case _ => false
  }

  /** What an event says about a request agrees with the stored row. */
  predicate Truthful(requests: map<Uuid, Request>, body: EventBody) {
    && (Creates(body).Some? ==> Creates(body).value in requests && Fits(body, Creates(body).value, requests[Creates(body).value]))
    && (Resolves(body).Some? ==> Resolves(body).value in requests && Fits(body, Resolves(body).value, requests[Resolves(body).value]))
  }

  predicate CreatedAt(events: seq<Event>, i: nat, id: Uuid)
    requires i < |events|
  {
    Creates(events[i].body) == Some(id)
  }

  predicate ResolvedAt(events: seq<Event>, i: nat, id: Uuid)
    requires i < |events|
  {
    Resolves(events[i].body) == Some(id)
  }

  /** Every request has exactly one event of its creation; it has exactly one event of its resolution
      when it is resolved and none while it is pending; and the events tell the truth. */
  ghost predicate Announced(requests: map<Uuid, Request>, events: seq<Event>) {
    && (forall i :: 0 <= i < |events| ==> Truthful(requests, events[i].body))
    && (forall id :: id in requests ==> exists i :: 0 <= i < |events| && CreatedAt(events, i, id))
    && (forall id :: id in requests && requests[id].status != Pending ==> exists i :: 0 <= i < |events| && ResolvedAt(events, i, id))
    && (forall i, j, id :: 0 <= i < j < |events| && CreatedAt(events, i, id) ==> !CreatedAt(events, j, id))
    && (forall i, j, id :: 0 <= i < j < |events| && ResolvedAt(events, i, id) ==> !ResolvedAt(events, j, id))
  }

  lemma SilentAppends(requests: map<Uuid, Request>, events: seq<Event>, e: Event)
    requires Announced(requests, events) && Creates(e.body).None? && Resolves(e.body).None?
    ensures Announced(requests, events + [e])
  {
    Witnesses(requests, events, e);
  }

  lemma Witnesses(requests: map<Uuid, Request>, events: seq<Event>, e: Event)
    requires Announced(requests, events)
    ensures forall id :: id in requests ==> exists i :: 0 <= i < |events + [e]| && CreatedAt(events + [e], i, id)
    ensures forall id :: id in requests && requests[id].status != Pending ==>
              exists i :: 0 <= i < |events + [e]| && ResolvedAt(events + [e], i, id)
    ensures forall i, id :: 0 <= i < |events| ==>
              && (CreatedAt(events + [e], i, id) <==> CreatedAt(events, i, id))
              && (ResolvedAt(events + [e], i, id) <==> ResolvedAt(events, i, id))
    ensures forall id :: CreatedAt(events + [e], |events|, id) <==> Creates(e.body) == Some(id)
    ensures forall id :: ResolvedAt(events + [e], |events|, id) <==> Resolves(e.body) == Some(id)
  {
    var all := events + [e];
    forall id | id in requests ensures exists i :: 0 <= i < |all| && CreatedAt(all, i, id) {
      var i :| 0 <= i < |events| && CreatedAt(events, i, id);
      assert CreatedAt(all, i, id);
    }
    forall id | id in requests && requests[id].status != Pending ensures exists i :: 0 <= i < |all| && ResolvedAt(all, i, id) {
      var i :| 0 <= i < |events| && ResolvedAt(events, i, id);
      assert ResolvedAt(all, i, id);
    }
  }

  lemma CreationAppends(requests: map<Uuid, Request>, events: seq<Event>, id: Uuid, row: Request, e: Event)
    requires Announced(requests, events) && id !in requests && row.status == Pending
    requires Creates(e.body) == Some(id) && Fits(e.body, id, row)
    ensures Announced(requests[id := row], events + [e])
  {
    Witnesses(requests, events, e);
    assert CreatedAt(events + [e], |events|, id);
    forall i | 0 <= i < |events| ensures !CreatedAt(events, i, id) && Truthful(requests[id := row], events[i].body) {
      assert Truthful(requests, events[i].body);
    }
  }

  lemma ResolutionAppends(requests: map<Uuid, Request>, events: seq<Event>, id: Uuid, row: Request, e: Event)
    requires Announced(requests, events) && id in requests && requests[id].status == Pending && row.status != Pending
    requires row.payer == requests[id].payer && row.requester == requests[id].requester && row.amount == requests[id].amount
    requires Resolves(e.body) == Some(id) && Fits(e.body, id, row)
    ensures Announced(requests[id := row], events + [e])
  {
    Witnesses(requests, events, e);
    assert ResolvedAt(events + [e], |events|, id);
    forall i | 0 <= i < |events| ensures !ResolvedAt(events, i, id) && Truthful(requests[id := row], events[i].body) {
      assert Truthful(requests, events[i].body);
    }
  }

  // ---------- over histories ----------

  /** A settlement's own events say nothing about requests. */
  lemma MovementIsSilent(db: Db, input: SettleInput, from: WalletId, to: WalletId, env: Env)
    requires from in db.wallets && to in db.wallets && Announced(db.requests, db.events)
    ensures Announced(MoveMoney(db, input, from, to, env).requests, MoveMoney(db, input, from, to, env).events)
  {
    hide Announced;
    if env.risk == High {
      SilentAppends(db.requests, db.events, RiskEvents(env)[0]);
    } else {
      assert db.events + RiskEvents(env) == db.events;
    }
    SilentAppends(db.requests, db.events + RiskEvents(env), DoneEvent(input, env));
  }

  lemma EffectKeepsAnnounced(db: Db, cmd: Command, env: Env)
    requires cmd.Settles() ==> From(db, cmd) in db.wallets && To(db, cmd) in db.wallets
    requires cmd.Resolves() ==> cmd.RequestId() in db.requests && db.requests[cmd.RequestId()].status == Pending
    requires Announced(db.requests, db.events) && Unused(db, env.serial)
    ensures Announced(Effect(db, cmd, env).requests, Effect(db, cmd, env).events)
  {
    hide Announced;
    if cmd.Settles() { MovementIsSilent(db, MovedBy(db, cmd), From(db, cmd), To(db, cmd), env); }
    if cmd.Create? {
      CreationAppends(db.requests, db.events, NewRequestId(env), NewRequest(cmd), CreatedEvent(cmd, env));
    } else if cmd.Resolves() {
      var moved := if cmd.Accept? then MoveMoney(db, MovedBy(db, cmd), From(db, cmd), To(db, cmd), env) else db;
      var row := db.requests[cmd.RequestId()];
      ResolutionAppends(db.requests, moved.events, cmd.RequestId(), ResolvedRow(cmd, row, env), ResolvedEvent(cmd, row, env));
    }
  }

  lemma NothingAnnounced()
    ensures Announced(EMPTY.requests, EMPTY.events)
  {
  }

  /** In every state of every history the events announce every request, once and truthfully. */
  lemma {:induction false} RequestsAreAnnounced(lim: Limits, h: seq<Entry>)
    requires Consistent(lim, h)
    ensures Announced(Replay(lim, h).requests, Replay(lim, h).events)
  {
    hide Announced, Handle, Effective, Effect, Cleared, EntryOk, Unused;
    if h == [] {
      NothingAnnounced();
    } else {
      var before, e := h[..|h| - 1], h[|h| - 1];
      var db := Replay(lim, before);
      RequestsAreAnnounced(lim, before);
      TablesAreSane(lim, before);
      if e.Answered? {
        HandleShape(lim, db, e.cmd, e.env);
        if Effective(lim, db, e.cmd, e.env) {
          EffectKeepsWalletsIndexed(lim, db, e.cmd, e.env);
          FreshEffect(lim, db, e);
          EffectKeepsAnnounced(db, e.cmd, e.env);
        }
      }
    }
  }

  // ---------- notifications ----------

  /** The notice that a request exists, for its payer. */
  predicate AnnouncesCreation(n: Notification, id: Uuid, row: Request) {
    n.kind == RequestReceived && n.resource == id && n.user == row.payer
  }

  /** The notice that it was resolved: for the requester when the payer did it, else for the payer. */
  predicate AnnouncesResolution(n: Notification, id: Uuid, row: Request) {
    n.resource == id
    && match row.status
       case Accepted => n.kind == RequestPaid && n.user == row.requester
       case Declined => n.kind == RequestWasDeclined && n.user == row.requester
       case Cancelled => n.kind == RequestWasCancelled && n.user == row.payer
       case _ => false
  }

  predicate ReportsResolution(kind: NotificationKind) {
    kind == RequestPaid || kind == RequestWasDeclined || kind == RequestWasCancelled
  }

  predicate TellsCreation(n: Notification, id: Uuid) { n.kind == RequestReceived && n.resource == id }
  predicate TellsResolution(n: Notification, id: Uuid) { ReportsResolution(n.kind) && n.resource == id }

  /** What a planned notification's kind tells of its event. */
  lemma PlanTellsItsEvent(e: Event, n: Notification)
    requires n in Plan(e)
    ensures n.kind == RequestReceived <==> Creates(e.body) == Some(n.resource)
    ensures ReportsResolution(n.kind) <==> Resolves(e.body) == Some(n.resource)
  {
  }

  lemma PlanFitsItsRow(e: Event, id: Uuid, row: Request)
    requires Fits(e.body, id, row)
    ensures |Plan(e)| == 1
    ensures Creates(e.body) == Some(id) ==> AnnouncesCreation(Plan(e)[0], id, row)
    ensures Resolves(e.body) == Some(id) ==> AnnouncesResolution(Plan(e)[0], id, row)
  {
  }

  /** The notification that a published, processed event stands for. */
  lemma NoticeOf(events: seq<Event>, s: State, i: nat) returns (j: nat)
    requires Published(events, s) && AllProcessed(s) && Exact(s) && i < |events| && |Plan(events[i])| == 1
    ensures j < |s.notes| && s.notes[j] == Plan(events[i])[0]
  {
    hide Plan;
    assert Plan(events[i])[0] in s.notes;
    j :| 0 <= j < |s.notes| && s.notes[j] == Plan(events[i])[0];
  }

  /** Which event a notification came from. */
  lemma SourceOf(events: seq<Event>, s: State, k: nat) returns (p: nat)
    requires Published(events, s) && Exact(s) && k < |s.notes|
    ensures p < |events| && s.notes[k].source == events[p].id && s.notes[k] in Plan(events[p])
  {
    hide Plan;
    assert s.notes[k].source in s.rows;
    p :| 0 <= p < |events| && events[p].id == s.notes[k].source;
  }

  /** Two notifications from one event are one notification. */
  lemma OneNoticePerEvent(events: seq<Event>, s: State, p: nat, j: nat, k: nat)
    requires Exact(s) && p < |events| && j < |s.notes| && k < |s.notes|
    requires s.notes[j] in Plan(events[p]) && s.notes[k] in Plan(events[p])
    ensures j == k
  {
    hide Plan;
    assert s.notes[j] == s.notes[k];
  }

  /** No request is ever announced twice. */
  lemma AtMostOneCreationNotice(lim: Limits, h: seq<Entry>, s: State, id: Uuid, j: nat, k: nat)
    requires Consistent(lim, h) && Published(Replay(lim, h).events, s) && Exact(s) && j < |s.notes| && k < |s.notes|
    ensures TellsCreation(s.notes[j], id) && TellsCreation(s.notes[k], id) ==> j == k
  {
    hide Consistent, Replay, Published, Exact, Plan, Fits;
    var events := Replay(lim, h).events;
    if TellsCreation(s.notes[j], id) && TellsCreation(s.notes[k], id) {
      RequestsAreAnnounced(lim, h);
      var p := SourceOf(events, s, j);
      var q := SourceOf(events, s, k);
      PlanTellsItsEvent(events[p], s.notes[j]);
      PlanTellsItsEvent(events[q], s.notes[k]);
      assert CreatedAt(events, p, id) && CreatedAt(events, q, id) && p == q;
      OneNoticePerEvent(events, s, p, j, k);
    }
  }

  /** Nor is any resolution ever reported twice. */
  lemma AtMostOneResolutionNotice(lim: Limits, h: seq<Entry>, s: State, id: Uuid, j: nat, k: nat)
    requires Consistent(lim, h) && Published(Replay(lim, h).events, s) && Exact(s) && j < |s.notes| && k < |s.notes|
    ensures TellsResolution(s.notes[j], id) && TellsResolution(s.notes[k], id) ==> j == k
  {
    hide Consistent, Replay, Published, Exact, Plan, Fits;
    var events := Replay(lim, h).events;
    if TellsResolution(s.notes[j], id) && TellsResolution(s.notes[k], id) {
      RequestsAreAnnounced(lim, h);
      var p := SourceOf(events, s, j);
      var q := SourceOf(events, s, k);
      PlanTellsItsEvent(events[p], s.notes[j]);
      PlanTellsItsEvent(events[q], s.notes[k]);
      assert ResolvedAt(events, p, id) && ResolvedAt(events, q, id) && p == q;
      OneNoticePerEvent(events, s, p, j, k);
    }
  }

  /** Once everything published has been processed, each request has been announced to its payer. */
  lemma SomeCreationNotice(lim: Limits, h: seq<Entry>, s: State, id: Uuid) returns (j: nat)
    requires Consistent(lim, h) && Published(Replay(lim, h).events, s) && Exact(s) && AllProcessed(s)
    requires id in Replay(lim, h).requests
    ensures j < |s.notes| && AnnouncesCreation(s.notes[j], id, Replay(lim, h).requests[id])
  {
    hide Consistent, Replay, Published, AllProcessed, Exact, Plan, Fits;
    var db := Replay(lim, h);
    RequestsAreAnnounced(lim, h);
    var i :| 0 <= i < |db.events| && CreatedAt(db.events, i, id);
    assert Truthful(db.requests, db.events[i].body);
    PlanFitsItsRow(db.events[i], id, db.requests[id]);
    j := NoticeOf(db.events, s, i);
  }

  /** And each resolved request has been reported to the other party, as what it is. */
  lemma SomeResolutionNotice(lim: Limits, h: seq<Entry>, s: State, id: Uuid) returns (j: nat)
    requires Consistent(lim, h) && Published(Replay(lim, h).events, s) && Exact(s) && AllProcessed(s)
    requires id in Replay(lim, h).requests && Replay(lim, h).requests[id].status != Pending
    ensures j < |s.notes| && AnnouncesResolution(s.notes[j], id, Replay(lim, h).requests[id])
  {
    hide Consistent, Replay, Published, AllProcessed, Exact, Plan, Fits;
    var db := Replay(lim, h);
    RequestsAreAnnounced(lim, h);
    var i :| 0 <= i < |db.events| && ResolvedAt(db.events, i, id);
    assert Truthful(db.requests, db.events[i].body);
    PlanFitsItsRow(db.events[i], id, db.requests[id]);
    j := NoticeOf(db.events, s, i);
  }
}
