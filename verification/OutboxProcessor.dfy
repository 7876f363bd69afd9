/** One worker draining the outbox: the claim query, the two updates, and the drain loop. The
    clock does not move during one drain. Every drain is a run of the worker machine, so what is
    proved of runs there holds of this code. */
module OutboxProcessor {
  import opened Wrappers
  import opened Tables
  import opened Notifications
  import opened OutboxWorkers

  datatype Outcome = NothingDue | Processed(id: Uuid) | Failed(id: Uuid)

  /** How one attempt goes: the consumer succeeds; or it fails, and the failure can be recorded; or
      recording it fails too. */
  datatype Fate = Delivers | FailsRecorded | FailsUnrecorded

  function DueSet(rows: map<Uuid, Row>, now: int): set<Uuid> {
    set id | id in rows && Due(rows[id], now)
  }

  predicate Oldest(rows: map<Uuid, Row>, among: set<Uuid>, id: Uuid) {
    among <= rows.Keys && id in among && forall e :: e in among ==> rows[id].occurredAt <= rows[e].occurredAt
  }

  lemma {:induction false} SomeOldest(rows: map<Uuid, Row>, among: set<Uuid>) returns (id: Uuid)
    requires among != {} && among <= rows.Keys
    ensures Oldest(rows, among, id)
    decreases |among|
  {
    id :| id in among;
    if among != {id} {
      var other := SomeOldest(rows, among - {id});
      if rows[other].occurredAt < rows[id].occurredAt { id := other; }
    }
  }

  /** What one attempt makes of the event's row. */
  function AfterAttempt(row: Row, fate: Fate, now: int): Row {
    match fate
    case Delivers => Claimed(row, now).(processed := true)
    case FailsRecorded => Charged(Claimed(row, now), row.attempts, now)
    case FailsUnrecorded => Claimed(row, now)
  }

  /** What these attempts leave behind; the i-th attempt goes as `fates(i)` says. */
  function After(rows: map<Uuid, Row>, attempted: seq<Uuid>, fates: nat -> Fate, now: int): map<Uuid, Row> {
    if attempted == [] then rows
    else
      var n := |attempted| - 1;
      var before := After(rows, attempted[..n], fates, now);
      if attempted[n] in before then before[attempted[n] := AfterAttempt(before[attempted[n]], fates(n), now)] else before
  }

  function CountDelivered(n: nat, fates: nat -> Fate): nat {
    if n == 0 then 0 else CountDelivered(n - 1, fates) + if fates(n - 1).Delivers? then 1 else 0
  }

  /** The events with an attempt that left a trace: delivered, or recorded as failed. */
  function Settled(attempted: seq<Uuid>, fates: nat -> Fate): set<Uuid> {
    set i | 0 <= i < |attempted| && !fates(i).FailsUnrecorded? :: attempted[i]
  }

  predicate Distinct(s: seq<Uuid>) { forall i, j :: 0 <= i < j < |s| ==> s[i] != s[j] }

  function Elements(s: seq<Uuid>): set<Uuid> { set id | id in s }

  /** Due events are attempted as they occurred. */
  predicate InTime(rows: map<Uuid, Row>, due: set<Uuid>, attempted: seq<Uuid>)
    requires due <= rows.Keys
  {
    && (forall i :: 0 <= i < |attempted| ==> attempted[i] in due)
    && (forall i, j :: 0 <= i < j < |attempted| ==> rows[attempted[i]].occurredAt <= rows[attempted[j]].occurredAt)
  }

  /** None is attempted again unless its failure went unrecorded. */
  predicate AgainOnlyWhenLost(attempted: seq<Uuid>, fates: nat -> Fate) {
    forall i, j :: 0 <= i < j < |attempted| && attempted[i] == attempted[j] ==> fates(i).FailsUnrecorded?
  }

  /** None is attempted before an older one that is left. */
  predicate OldestFirst(rows: map<Uuid, Row>, left: set<Uuid>, attempted: seq<Uuid>) {
    forall i, e :: 0 <= i < |attempted| && attempted[i] in rows && e in left && e in rows ==>
      rows[attempted[i]].occurredAt <= rows[e].occurredAt
  }

  /** After an unrecorded failure an event of the same instant comes next. */
  predicate LostIsNext(rows: map<Uuid, Row>, attempted: seq<Uuid>, fates: nat -> Fate) {
    forall i :: 0 <= i < |attempted| - 1 && fates(i).FailsUnrecorded? && attempted[i] in rows && attempted[i + 1] in rows ==>
      rows[attempted[i + 1]].occurredAt == rows[attempted[i]].occurredAt
  }

  predicate Orderly(rows: map<Uuid, Row>, due: set<Uuid>, attempted: seq<Uuid>, fates: nat -> Fate)
    requires due <= rows.Keys
  {
    && InTime(rows, due, attempted) && AgainOnlyWhenLost(attempted, fates)
    && OldestFirst(rows, due - Settled(attempted, fates), attempted) && LostIsNext(rows, attempted, fates)
  }

  predicate AllRecorded(n: nat, fates: nat -> Fate) { forall i :: 0 <= i < n ==> !fates(i).FailsUnrecorded? }

  class OutboxTable {
    var rows: map<Uuid, Row>

    constructor (initial: map<Uuid, Row>)
      ensures rows == initial
    {
      rows := initial;
    }

    /** The oldest due event; rows that occurred at the same instant come in any order. */
    method ClaimNext(now: int) returns (claimed: Option<Uuid>)
      modifies this
      ensures claimed.None? <==> DueSet(old(rows), now) == {}
      ensures claimed.None? ==> rows == old(rows)
      ensures claimed.Some? ==> Oldest(old(rows), DueSet(old(rows), now), claimed.value)
      ensures claimed.Some? ==> rows == old(rows)[claimed.value := Claimed(old(rows)[claimed.value], now)]
    {
      var due := DueSet(rows, now);
      if due == {} { return None; }
      ghost var _ := SomeOldest(rows, due);
      var id :| id in due && Oldest(rows, due, id);
      rows := rows[id := Claimed(rows[id], now)];
      return Some(id);
    }

    method MarkProcessed(id: Uuid)
      requires id in rows
      modifies this
      ensures rows == old(rows)[id := old(rows)[id].(processed := true)]
    {
      rows := rows[id := rows[id].(processed := true)];
    }

    method RecordFailure(id: Uuid, read: nat, now: int)
      requires id in rows
      modifies this
      ensures var row := old(rows)[id];
              rows == old(rows)[id := row.(attempts := row.attempts + 1, nextAttempt := now + Pow2(read + 1))]
    {
      rows := rows[id := Charged(rows[id], read, now)];
    }
  }

  class Processor {
    const outbox: OutboxTable
    const notices: NotificationTable

    constructor (outbox: OutboxTable, notices: NotificationTable)
      ensures this.outbox == outbox && this.notices == notices
    {
      this.outbox := outbox;
      this.notices := notices;
    }

    /** The state of the worker machine that these tables are in, between two events. */
    ghost function Snapshot(now: int): State
      reads outbox, notices
    {
      State(outbox.rows, [Idle], notices.rows, now)
    }

    /** One event: claim, dispatch and mark; or roll back the consumer's inserts and charge. */
    method ProcessNext(fate: Fate, now: int) returns (outcome: Outcome, ghost steps: seq<Action>)
      requires UniqueNotes(notices.rows)
      modifies outbox, notices
      ensures UniqueNotes(notices.rows)
      ensures ValidRun(old(Snapshot(now)), steps) && Final(old(Snapshot(now)), steps) == Snapshot(now)
      ensures outcome.NothingDue? <==> DueSet(old(outbox.rows), now) == {}
      ensures outcome.NothingDue? ==> outbox.rows == old(outbox.rows)
      ensures !outcome.NothingDue? ==>
        && Oldest(old(outbox.rows), DueSet(old(outbox.rows), now), outcome.id)
        && (outcome.Processed? <==> fate.Delivers?)
        && outbox.rows == old(outbox.rows)[outcome.id := AfterAttempt(old(outbox.rows)[outcome.id], fate, now)]
    {
      hide Plan, Deliver, UniqueNotes;
      ghost var s := Snapshot(now);
      var before := notices.rows;
      var claimed := outbox.ClaimNext(now);
      if claimed.None? { return NothingDue, []; }
      var id := claimed.value;
      var row := outbox.rows[id];
      notices.Handle(row.event);
      if fate.Delivers? {
        outbox.MarkProcessed(id);
        RunOfSuccess(s, id);
        return Processed(id), [Claim(0, id), Succeed(0)];
      }
      notices.rows := before;
      if fate.FailsRecorded? {
        RunOfFailure(s, id, Charge(0));
        outbox.RecordFailure(id, row.attempts, now);
        return Failed(id), [Claim(0, id), Fail(0), Charge(0)];
      }
      RunOfFailure(s, id, LoseCharge(0));
      return Failed(id), [Claim(0, id), Fail(0), LoseCharge(0)];
    }

    /** Up to `batchSize` attempts, in order, ending early only when every due event has been settled.
        While every failure gets recorded these are exactly the first min(batchSize, number due) due
        events, none twice. Answers how many were delivered. */
    method Drain(batchSize: nat, fates: nat -> Fate, now: int)
      returns (processed: nat, ghost attempted: seq<Uuid>, ghost run: seq<Action>)
      requires UniqueNotes(notices.rows)
      modifies outbox, notices
      ensures UniqueNotes(notices.rows)
      ensures ValidRun(old(Snapshot(now)), run) && Final(old(Snapshot(now)), run) == Snapshot(now)
      ensures |attempted| <= batchSize && processed == CountDelivered(|attempted|, fates)
      ensures var was, due := old(outbox.rows), DueSet(old(outbox.rows), now);
              && Orderly(was, due, attempted, fates)
              && outbox.rows == After(was, attempted, fates, now)
              && (|attempted| < batchSize ==> Settled(attempted, fates) == due)
              && (AllRecorded(|attempted|, fates) ==>
                    Distinct(attempted) && |attempted| == if batchSize <= |due| then batchSize else |due|)
    {
      hide UniqueNotes, ValidRun, Final, Progress, Oldest, After, Orderly, DueSet, Settled, Distinct, AllRecorded;
      processed, attempted, run := 0, [], [];
      ghost var was, s := outbox.rows, Snapshot(now);
      RunsStart(s);
      NothingAttempted(was, fates, now);
      var i := 0;
      while i < batchSize
        invariant 0 <= i <= batchSize && |attempted| == i
        invariant UniqueNotes(notices.rows) && ValidRun(s, run) && Final(s, run) == Snapshot(now)
        invariant processed == CountDelivered(i, fates)
        invariant Progress(was, attempted, fates, now, outbox.rows)
      {
        ghost var rows := outbox.rows;
        var outcome, steps := ProcessNext(fates(i), now);
        RunsAppend(s, run, steps);
        run := run + steps;
        if outcome.NothingDue? {
          break;
        }
        OneMore(was, attempted, fates, now, rows, outcome.id);
        attempted := attempted + [outcome.id];
        if outcome.Processed? {
          processed := processed + 1;
        }
        i := i + 1;
      }
      Unfold(was, attempted, fates, now, outbox.rows);
      HowFar(was, attempted, fates, now, outbox.rows, batchSize);
    }
  }

  // ---------- one event is a run of the machine ----------

  lemma RunsStart(s: State)
    ensures ValidRun(s, []) && Final(s, []) == s
  {
  }

  lemma RunOfSuccess(s: State, id: Uuid)
    requires s.workers == [Idle] && id in s.rows && Oldest(s.rows, DueSet(s.rows, s.clock), id)
    ensures var run := [Claim(0, id), Succeed(0)];
            && ValidRun(s, run)
            && Final(s, run) == State(s.rows[id := Claimed(s.rows[id], s.clock).(processed := true)],
                                      [Idle], Deliver(s.notes, Plan(s.rows[id].event)), s.clock)
  {
    hide Plan, Deliver;
    assert Enabled(s, Claim(0, id));
    var t := Next(s, Claim(0, id));
    RunCons(t, Succeed(0), []);
    RunCons(s, Claim(0, id), [Succeed(0)] + []);
    assert [Claim(0, id)] + ([Succeed(0)] + []) == [Claim(0, id), Succeed(0)];
    assert Next(t, Succeed(0)).workers == [Idle];
  }

  lemma RunOfFailure(s: State, id: Uuid, last: Action)
    requires s.workers == [Idle] && id in s.rows && Oldest(s.rows, DueSet(s.rows, s.clock), id)
    requires last == Charge(0) || last == LoseCharge(0)
    ensures var run, claimed := [Claim(0, id), Fail(0), last], Claimed(s.rows[id], s.clock);
            && ValidRun(s, run)
            && Final(s, run) == State(
                 s.rows[id := if last.Charge? then Charged(claimed, s.rows[id].attempts, s.clock) else claimed],
                 [Idle], s.notes, s.clock)
  {
    hide Plan, Deliver, Due, Charged, Claimed;
    assert Enabled(s, Claim(0, id)) by { assert Due(s.rows[id], s.clock); }
    var t := Next(s, Claim(0, id));
    var u := Next(t, Fail(0));
    assert t.workers == [Holding(id, s.rows[id].attempts)] && u.workers == [Owing(id, s.rows[id].attempts)];
    RunCons(u, last, []);
    RunCons(t, Fail(0), [last] + []);
    RunCons(s, Claim(0, id), [Fail(0)] + ([last] + []));
    assert [Claim(0, id)] + ([Fail(0)] + ([last] + [])) == [Claim(0, id), Fail(0), last];
    assert Next(u, last).workers == [Idle];
  }

  // ---------- the drain loop's invariant ----------

  predicate Progress(was: map<Uuid, Row>, attempted: seq<Uuid>, fates: nat -> Fate, now: int, rows: map<Uuid, Row>) {
    && Orderly(was, DueSet(was, now), attempted, fates)
    && rows == After(was, attempted, fates, now)
    && rows.Keys == was.Keys && (forall id :: id in was ==> rows[id].occurredAt == was[id].occurredAt)
    && DueSet(rows, now) == DueSet(was, now) - Settled(attempted, fates)
  }

  lemma Unfold(was: map<Uuid, Row>, attempted: seq<Uuid>, fates: nat -> Fate, now: int, rows: map<Uuid, Row>)
    ensures DueSet(was, now) <= was.Keys
    ensures Progress(was, attempted, fates, now, rows) ==>
              && Orderly(was, DueSet(was, now), attempted, fates) && rows == After(was, attempted, fates, now)
              && DueSet(rows, now) == DueSet(was, now) - Settled(attempted, fates)
  {
  }

  lemma NothingAttempted(was: map<Uuid, Row>, fates: nat -> Fate, now: int)
    ensures Progress(was, [], fates, now, was)
  {
  }

  lemma SettledAppends(attempted: seq<Uuid>, fates: nat -> Fate, id: Uuid)
    ensures Settled(attempted + [id], fates)
            == Settled(attempted, fates) + if fates(|attempted|).FailsUnrecorded? then {} else {id}
  {
    var next, all := attempted + [id], Settled(attempted + [id], fates);
    forall e | e in Settled(attempted, fates) ensures e in all {
      var i :| 0 <= i < |attempted| && !fates(i).FailsUnrecorded? && attempted[i] == e;
      assert next[i] == e;
    }
    if !fates(|attempted|).FailsUnrecorded? { assert next[|attempted|] == id; }
  }

  /** A settled event is no longer due; nothing else has changed. */
  lemma AttemptOnDue(rows: map<Uuid, Row>, id: Uuid, fate: Fate, now: int)
    requires id in DueSet(rows, now)
    ensures DueSet(rows[id := AfterAttempt(rows[id], fate, now)], now)
            == if fate.FailsUnrecorded? then DueSet(rows, now) else DueSet(rows, now) - {id}
  {
  }

  lemma NotSettledWhenLost(attempted: seq<Uuid>, fates: nat -> Fate)
    requires AgainOnlyWhenLost(attempted, fates) && attempted != [] && fates(|attempted| - 1).FailsUnrecorded?
    ensures attempted[|attempted| - 1] !in Settled(attempted, fates)
  {
  }

  lemma AgainExtends(attempted: seq<Uuid>, fates: nat -> Fate, id: Uuid)
    requires AgainOnlyWhenLost(attempted, fates) && id !in Settled(attempted, fates)
    ensures AgainOnlyWhenLost(attempted + [id], fates)
  {
    forall i | 0 <= i < |attempted| && !fates(i).FailsUnrecorded? ensures attempted[i] in Settled(attempted, fates) {}
  }

  lemma OldestExtends(was: map<Uuid, Row>, left: set<Uuid>, attempted: seq<Uuid>, id: Uuid, left': set<Uuid>)
    requires OldestFirst(was, left, attempted) && left' <= left
    requires id in was && forall e :: e in left && e in was ==> was[id].occurredAt <= was[e].occurredAt
    ensures OldestFirst(was, left', attempted + [id])
  {
  }

  /** The next oldest extends the order. */
  lemma OrderExtends(was: map<Uuid, Row>, due: set<Uuid>, attempted: seq<Uuid>, fates: nat -> Fate, id: Uuid)
    requires due <= was.Keys && Orderly(was, due, attempted, fates) && id in due - Settled(attempted, fates)
    requires forall e :: e in due - Settled(attempted, fates) ==> was[id].occurredAt <= was[e].occurredAt
    ensures Orderly(was, due, attempted + [id], fates)
  {
    hide Settled, AgainOnlyWhenLost;
    SettledAppends(attempted, fates, id);
    AgainExtends(attempted, fates, id);
    OldestExtends(was, due - Settled(attempted, fates), attempted, id, due - Settled(attempted + [id], fates));
    if attempted != [] && fates(|attempted| - 1).FailsUnrecorded? {
      NotSettledWhenLost(attempted, fates);
    }
  }

  lemma OneMore(was: map<Uuid, Row>, attempted: seq<Uuid>, fates: nat -> Fate, now: int, rows: map<Uuid, Row>, id: Uuid)
    requires Progress(was, attempted, fates, now, rows) && Oldest(rows, DueSet(rows, now), id)
    ensures Progress(was, attempted + [id], fates, now, rows[id := AfterAttempt(rows[id], fates(|attempted|), now)])
  {
    hide Due, DueSet, Settled, Orderly;
    var next := attempted + [id];
    Unfold(was, attempted, fates, now, rows);
    AttemptOnDue(rows, id, fates(|attempted|), now);
    SettledAppends(attempted, fates, id);
    OrderExtends(was, DueSet(was, now), attempted, fates, id);
    assert next[..|attempted|] == attempted;
  }

  lemma {:induction false} DistinctSize(s: seq<Uuid>)
    requires Distinct(s)
    ensures |Elements(s)| == |s|
  {
    if s != [] {
      var n := |s| - 1;
      DistinctSize(s[..n]);
      assert Elements(s) == Elements(s[..n]) + {s[n]};
    }
  }

  lemma CardinalityIsMonotone(a: set<Uuid>, b: set<Uuid>)
    requires a <= b
    ensures |a| <= |b| && (|a| == |b| <==> a == b)
  {
    assert b == a + (b - a) && a !! (b - a);
  }

  lemma RecordedOnce(attempted: seq<Uuid>, fates: nat -> Fate)
    requires AgainOnlyWhenLost(attempted, fates) && AllRecorded(|attempted|, fates)
    ensures Distinct(attempted) && Settled(attempted, fates) == Elements(attempted)
  {
    forall e | e in Elements(attempted) ensures e in Settled(attempted, fates) {
      var i :| 0 <= i < |attempted| && attempted[i] == e;
      assert !fates(i).FailsUnrecorded?;
    }
  }

  /** While every failure is recorded, as many events as attempts have been settled. */
  lemma HowFar(
    was: map<Uuid, Row>, attempted: seq<Uuid>, fates: nat -> Fate, now: int, rows: map<Uuid, Row>, batchSize: nat)
    requires Progress(was, attempted, fates, now, rows)
    requires |attempted| <= batchSize && (|attempted| < batchSize ==> DueSet(rows, now) == {})
    ensures |attempted| < batchSize ==> Settled(attempted, fates) == DueSet(was, now)
    ensures AllRecorded(|attempted|, fates) ==>
              && Distinct(attempted)
              && |attempted| == if batchSize <= |DueSet(was, now)| then batchSize else |DueSet(was, now)|
  {
    hide DueSet, After, Settled, AllRecorded, Distinct, AgainOnlyWhenLost, OldestFirst, LostIsNext;
    var due := DueSet(was, now);
    SettledIsDue(attempted, fates, due);
    if AllRecorded(|attempted|, fates) {
      RecordedOnce(attempted, fates);
      DistinctSize(attempted);
      CardinalityIsMonotone(Elements(attempted), due);
    }
  }

  lemma SettledIsDue(attempted: seq<Uuid>, fates: nat -> Fate, due: set<Uuid>)
    requires forall i :: 0 <= i < |attempted| ==> attempted[i] in due
    ensures Settled(attempted, fates) <= due
  {
  }

  /** When a failure goes unrecorded and the batch is not over, the drain attempts an event of the same
      instant next: the very same one, unless another due event occurred at that instant. */
  lemma LostRecordRepeats(
    rows: map<Uuid, Row>, due: set<Uuid>, attempted: seq<Uuid>, fates: nat -> Fate, batchSize: nat, i: nat)
    requires due <= rows.Keys && Orderly(rows, due, attempted, fates)
    requires |attempted| < batchSize ==> Settled(attempted, fates) == due
    requires i < |attempted| && fates(i).FailsUnrecorded? && i + 1 < batchSize
    ensures i + 1 < |attempted| && rows[attempted[i + 1]].occurredAt == rows[attempted[i]].occurredAt
    ensures (forall e :: e in due && rows[e].occurredAt == rows[attempted[i]].occurredAt ==> e == attempted[i])
            ==> attempted[i + 1] == attempted[i]
  {
    if i + 1 == |attempted| {
      NotSettledWhenLost(attempted, fates);
      assert false;
    }
  }

  /** The answer of a drain is the number of its attempts that delivered. */
  lemma {:induction false} DeliveredAreCounted(n: nat, fates: nat -> Fate)
    ensures CountDelivered(n, fates) == |set i: nat | i < n && fates(i).Delivers?|
  {
    var all := set i: nat | i < n && fates(i).Delivers?;
    if n == 0 {
      assert all == {};
    } else {
      DeliveredAreCounted(n - 1, fates);
      var before := set i: nat | i < n - 1 && fates(i).Delivers?;
      assert all == if fates(n - 1).Delivers? then before + {n - 1} else before;
    }
  }
}
