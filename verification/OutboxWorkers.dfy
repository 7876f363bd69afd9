/** The outbox with any number of workers. A worker claims an event with SKIP LOCKED and holds
    its row while the consumer runs; effects and the processed flag commit together; a failure is
    charged on another connection, after the row lock is gone. Times are in seconds. */
module OutboxWorkers {
  import opened Wrappers
  import opened Tables
  import opened Notifications

  const MAX_ATTEMPTS: nat := 5
  const BASE_BACKOFF_SECONDS := 2

  function Pow2(n: nat): (p: nat)
    ensures p >= 1
  {
    if n == 0 then 1 else 2 * Pow2(n - 1)
  }

  /** `firstClaim` is no column: it remembers when the event was first claimed. */
  datatype Row = Row(
    event: Event, occurredAt: int, processed: bool, attempts: nat, nextAttempt: int, firstClaim: Option<int>)

  /** `read` is the attempt count that the claim returned. */
  datatype Worker = Idle | Holding(event: Uuid, read: nat) | Owing(event: Uuid, read: nat)

  datatype State = State(rows: map<Uuid, Row>, workers: seq<Worker>, notes: seq<Notification>, clock: int)

  function Init(n: nat): State { State(map[], seq(n, _ => Idle), [], 0) }

  datatype Action =
    | Publish(event: Event, occurredAt: int)
    | Tick(seconds: nat)
    | Claim(worker: nat, id: Uuid)
    | Succeed(worker: nat)        // consumer done, processed flag set, committed
    | LoseCommit(worker: nat)     // the same, but the worker sees an error
    | Fail(worker: nat)           // the consumer throws: rolled back, to be charged
    | Crash(worker: nat)          // the process dies: rolled back, never charged
    | Charge(worker: nat)         // the failure is charged
    | LoseCharge(worker: nat)     // charging fails too

  predicate Due(row: Row, clock: int) {
    !row.processed && row.attempts < MAX_ATTEMPTS && row.nextAttempt <= clock
  }

  predicate Holds(w: Worker, id: Uuid) { w.Holding? && w.event == id }
  predicate Owes(w: Worker, id: Uuid) { w.Owing? && w.event == id }

  predicate Unlocked(s: State, id: Uuid) {
    forall w :: 0 <= w < |s.workers| ==> !Holds(s.workers[w], id)
  }

  /** The oldest due event whose row nobody has locked. */
  predicate Claimable(s: State, id: Uuid) {
    && id in s.rows && Due(s.rows[id], s.clock) && Unlocked(s, id)
    && (forall e :: e in s.rows && Due(s.rows[e], s.clock) && Unlocked(s, e) ==>
          s.rows[id].occurredAt <= s.rows[e].occurredAt)
  }

  predicate Enabled(s: State, a: Action) {
    match a
    case Publish(e, _) => e.id !in s.rows
    case Tick(_) => true
    case Claim(w, id) => w < |s.workers| && s.workers[w].Idle? && Claimable(s, id)
    case Succeed(w) => w < |s.workers| && s.workers[w].Holding? && s.workers[w].event in s.rows
    case LoseCommit(w) => w < |s.workers| && s.workers[w].Holding? && s.workers[w].event in s.rows
    case Fail(w) => w < |s.workers| && s.workers[w].Holding?
    case Crash(w) => w < |s.workers| && !s.workers[w].Idle?
    case Charge(w) =>
      // The update waits for a row lock held by another worker.
      w < |s.workers| && s.workers[w].Owing? && s.workers[w].event in s.rows && Unlocked(s, s.workers[w].event)
    case LoseCharge(w) => w < |s.workers| && s.workers[w].Owing?
  }

  function Claimed(row: Row, clock: int): Row {
    row.(firstClaim := if row.firstClaim.Some? then row.firstClaim else Some(clock))
  }

  function Charged(row: Row, read: nat, clock: int): Row {
    row.(attempts := row.attempts + 1, nextAttempt := clock + BASE_BACKOFF_SECONDS * Pow2(read))
  }

  /** The consumer's inserts and the processed flag, in one commit. */
  function Delivered(s: State, id: Uuid): State
    requires id in s.rows
  {
    s.(rows := s.rows[id := s.rows[id].(processed := true)], notes := Deliver(s.notes, Plan(s.rows[id].event)))
  }

  function Next(s: State, a: Action): State
    requires Enabled(s, a)
  {
    match a
    case Publish(e, occurredAt) => s.(rows := s.rows[e.id := Row(e, occurredAt, false, 0, s.clock, None)])
    case Tick(d) => s.(clock := s.clock + d)
    case Claim(w, id) =>
      s.(rows := s.rows[id := Claimed(s.rows[id], s.clock)],
         workers := s.workers[w := Holding(id, s.rows[id].attempts)])
    case Succeed(w) => Delivered(s, s.workers[w].event).(workers := s.workers[w := Idle])
    case LoseCommit(w) =>
      Delivered(s, s.workers[w].event).(workers := s.workers[w := Owing(s.workers[w].event, s.workers[w].read)])
    case Fail(w) => s.(workers := s.workers[w := Owing(s.workers[w].event, s.workers[w].read)])
    case Crash(w) => s.(workers := s.workers[w := Idle])
    case Charge(w) =>
      var id := s.workers[w].event;
      s.(rows := s.rows[id := Charged(s.rows[id], s.workers[w].read, s.clock)], workers := s.workers[w := Idle])
    case LoseCharge(w) => s.(workers := s.workers[w := Idle])
  }

  predicate ValidRun(s: State, run: seq<Action>)
    decreases |run|
  {
    run == [] || (Enabled(s, run[0]) && ValidRun(Next(s, run[0]), run[1..]))
  }

  function Final(s: State, run: seq<Action>): State
    requires ValidRun(s, run)
    decreases |run|
  {
    if run == [] then s else Final(Next(s, run[0]), run[1..])
  }

  // ---------- exclusion and exact delivery ----------

  predicate RowsOk(s: State) {
    forall id :: id in s.rows ==> s.rows[id].event.id == id
  }

  predicate WorkersOk(s: State) {
    && (forall w :: 0 <= w < |s.workers| && !s.workers[w].Idle? ==> s.workers[w].event in s.rows)
    && (forall w :: 0 <= w < |s.workers| && s.workers[w].Holding? ==> !s.rows[s.workers[w].event].processed)
  }

  /** Two workers never hold one event. */
  predicate Exclusive(s: State) {
    forall v, w :: 0 <= v < w < |s.workers| && s.workers[v].Holding? && s.workers[w].Holding? ==>
      s.workers[v].event != s.workers[w].event
  }

  /** The notifications are exactly the plans of the processed events, each once. */
  predicate Exact(s: State) {
    && (forall i :: 0 <= i < |s.notes| ==>
          && s.notes[i].source in s.rows && s.rows[s.notes[i].source].processed
          && s.notes[i] in Plan(s.rows[s.notes[i].source].event))
    && (forall id, n :: id in s.rows && s.rows[id].processed && n in Plan(s.rows[id].event) ==> n in s.notes)
    && UniqueNotes(s.notes)
  }

  predicate Sound(s: State) { RowsOk(s) && WorkersOk(s) && Exclusive(s) && Exact(s) }

  lemma DeliveredKeepsExact(s: State, id: Uuid)
    requires RowsOk(s) && Exact(s) && id in s.rows && !s.rows[id].processed
    ensures Exact(Delivered(s, id))
  {
    var e, s' := s.rows[id].event, Delivered(s, id);
    FreshSourceGetsItsPlan(s.notes, e);
    assert s'.notes == s.notes + Plan(e);
  }

  /** Where no event is delivered, nothing about the notifications changes. */
  lemma UndeliveredKeepsExact(s: State, t: State)
    requires Exact(s) && t.notes == s.notes && s.rows.Keys <= t.rows.Keys
    requires forall id :: id in s.rows ==> t.rows[id].event == s.rows[id].event && t.rows[id].processed == s.rows[id].processed
    requires forall id :: id in t.rows && id !in s.rows ==> !t.rows[id].processed
    ensures Exact(t)
  {
    hide Plan;
  }

  lemma NextKeepsSound(s: State, a: Action)
    requires Sound(s) && Enabled(s, a)
    ensures Sound(Next(s, a)) && |Next(s, a).workers| == |s.workers|
  {
    hide Plan, Deliver, Exact;
    if a.Succeed? || a.LoseCommit? {
      DeliveredKeepsExact(s, s.workers[a.worker].event);
      UndeliveredKeepsExact(Delivered(s, s.workers[a.worker].event), Next(s, a));
    } else {
      UndeliveredKeepsExact(s, Next(s, a));
    }
  }

  // ---------- the attempt bound ----------

  /** Workers that hold the event or owe it a failure record. */
  function Debt(workers: seq<Worker>, id: Uuid): nat {
    if workers == [] then 0
    else Debt(workers[..|workers| - 1], id) + Involved(workers[|workers| - 1], id)
  }

  function Involved(w: Worker, id: Uuid): nat { if Holds(w, id) || Owes(w, id) then 1 else 0 }

  lemma {:induction false} DebtUpdates(workers: seq<Worker>, w: nat, to: Worker, id: Uuid)
    requires w < |workers|
    ensures Debt(workers[w := to], id) == Debt(workers, id) - Involved(workers[w], id) + Involved(to, id)
    ensures Debt(workers, id) <= |workers| - 1 + Involved(workers[w], id)
  {
    var n := |workers| - 1;
    if w == n {
      assert workers[w := to][..n] == workers[..n];
      DebtIsBounded(workers[..n], id);
    } else {
      assert workers[w := to][..n] == workers[..n][w := to];
      DebtUpdates(workers[..n], w, to, id);
    }
  }

  lemma {:induction false} DebtIsBounded(workers: seq<Worker>, id: Uuid)
    ensures Debt(workers, id) <= |workers|
  {
    if workers != [] { DebtIsBounded(workers[..|workers| - 1], id); }
  }

  lemma {:induction false} IdleWorkersOweNothing(workers: seq<Worker>, id: Uuid)
    requires forall w :: 0 <= w < |workers| ==> workers[w].Idle? || workers[w].event != id
    ensures Debt(workers, id) == 0
  {
    if workers != [] { IdleWorkersOweNothing(workers[..|workers| - 1], id); }
  }

  /** What has been charged and what may still be charged never exceeds the bound. */
  predicate AttemptsBounded(s: State) {
    forall id :: id in s.rows ==> s.rows[id].attempts + Debt(s.workers, id) <= MAX_ATTEMPTS - 1 + |s.workers|
  }

  lemma NextKeepsAttempts(s: State, a: Action)
    requires Sound(s) && AttemptsBounded(s) && Enabled(s, a)
    ensures AttemptsBounded(Next(s, a))
  {
    hide Plan, Deliver, Exact;
    var s' := Next(s, a);
    forall id | id in s'.rows
      ensures s'.rows[id].attempts + Debt(s'.workers, id) <= MAX_ATTEMPTS - 1 + |s'.workers|
    {
      if a.Publish? {
        if a.event.id == id { IdleWorkersOweNothing(s.workers, id); }
      } else if !a.Tick? {
        DebtUpdates(s.workers, a.worker, s'.workers[a.worker], id);
      }
    }
  }

  // ---------- over every run ----------

  lemma {:induction false} RunKeepsAll(s: State, run: seq<Action>)
    requires Sound(s) && AttemptsBounded(s) && ValidRun(s, run)
    ensures Sound(Final(s, run)) && AttemptsBounded(Final(s, run)) && |Final(s, run).workers| == |s.workers|
    decreases |run|
  {
    hide Sound, AttemptsBounded, Enabled, Next;
    if run != [] {
      NextKeepsSound(s, run[0]);
      NextKeepsAttempts(s, run[0]);
      RunKeepsAll(Next(s, run[0]), run[1..]);
    }
  }

  /** With any number of workers, crashes, lost commits and failing consumers: the committed
      notifications are exactly the plans of the processed events, each once. */
  lemma NotificationsAreExact(n: nat, run: seq<Action>)
    requires ValidRun(Init(n), run)
    ensures Exact(Final(Init(n), run))
  {
    RunKeepsAll(Init(n), run);
  }

  /** With N workers an event is charged at most MAX_ATTEMPTS + N - 1 times. */
  lemma AttemptBound(n: nat, run: seq<Action>, id: Uuid)
    requires n >= 1 && ValidRun(Init(n), run) && id in Final(Init(n), run).rows
    ensures Final(Init(n), run).rows[id].attempts <= MAX_ATTEMPTS + n - 1 == 4 + n
  {
    RunKeepsAll(Init(n), run);
  }

  /** Processed is terminal: the event stays processed and nobody ever claims it again, even when
      a late failure record still lands on it. */
  lemma {:induction false} ProcessedIsNeverClaimed(s: State, run: seq<Action>, id: Uuid)
    requires ValidRun(s, run) && id in s.rows && s.rows[id].processed
    ensures id in Final(s, run).rows && Final(s, run).rows[id].processed
    ensures forall i :: 0 <= i < |run| && run[i].Claim? ==> run[i].id != id
    decreases |run|
  {
    hide Deliver;
    if run != [] {
      ProcessedIsNeverClaimed(Next(s, run[0]), run[1..], id);
      forall i | 0 <= i < |run| && run[i].Claim? ensures run[i].id != id {
        if i > 0 { assert run[i] == run[1..][i - 1]; }
      }
    }
  }

  // ---------- the bound is reached ----------

  lemma {:induction false} RunsAppend(s: State, a: seq<Action>, b: seq<Action>)
    requires ValidRun(s, a) && ValidRun(Final(s, a), b)
    ensures ValidRun(s, a + b) && Final(s, a + b) == Final(Final(s, a), b)
    decreases |a|
  {
    hide Enabled, Next;
    if a == [] {
      assert a + b == b;
    } else {
      RunsAppend(Next(s, a[0]), a[1..], b);
      assert (a + b)[1..] == a[1..] + b && (a + b)[0] == a[0];
    }
  }

  lemma RunCons(s: State, a: Action, rest: seq<Action>)
    requires Enabled(s, a) && ValidRun(Next(s, a), rest)
    ensures ValidRun(s, [a] + rest) && Final(s, [a] + rest) == Final(Next(s, a), rest)
  {
    hide Enabled, Next;
    assert ([a] + rest)[1..] == rest;
  }

  /** One event, charged `k` times and due; the first `owing` workers owe it a record. */
  predicate Piled(s: State, id: Uuid, k: nat, owing: nat) {
    && s.rows.Keys == {id} && !s.rows[id].processed && s.rows[id].attempts == k && s.rows[id].nextAttempt <= s.clock
    && owing <= |s.workers|
    && (forall w :: 0 <= w < owing ==> Owes(s.workers[w], id))
    && (forall w :: owing <= w < |s.workers| ==> s.workers[w].Idle?)
  }

  /** Claim, fail, charge, wait: one more attempt. */
  lemma OneMoreAttempt(s: State, id: Uuid, k: nat) returns (run: seq<Action>)
    requires Piled(s, id, k, 0) && k + 1 < MAX_ATTEMPTS && |s.workers| > 0
    ensures ValidRun(s, run) && Piled(Final(s, run), id, k + 1, 0) && |Final(s, run).workers| == |s.workers|
  {
    var wait := Tick(BASE_BACKOFF_SECONDS * Pow2(k));
    var s1 := Next(s, Claim(0, id));
    var s2 := Next(s1, Fail(0));
    var s3 := Next(s2, Charge(0));
    RunCons(s3, wait, []);
    RunCons(s2, Charge(0), [wait] + []);
    RunCons(s1, Fail(0), [Charge(0)] + ([wait] + []));
    RunCons(s, Claim(0, id), [Fail(0)] + ([Charge(0)] + ([wait] + [])));
    run := [Claim(0, id)] + ([Fail(0)] + ([Charge(0)] + ([wait] + [])));
  }

  lemma {:induction false} FourAttempts(s: State, id: Uuid, k: nat) returns (run: seq<Action>)
    requires Piled(s, id, k, 0) && k < MAX_ATTEMPTS && |s.workers| > 0
    ensures ValidRun(s, run) && Piled(Final(s, run), id, MAX_ATTEMPTS - 1, 0) && |Final(s, run).workers| == |s.workers|
    decreases MAX_ATTEMPTS - k
  {
    if k + 1 == MAX_ATTEMPTS {
      run := [];
    } else {
      var first := OneMoreAttempt(s, id, k);
      var rest := FourAttempts(Final(s, first), id, k + 1);
      RunsAppend(s, first, rest);
      run := first + rest;
    }
  }

  /** Each idle worker claims the still uncharged event in turn, fails and owes. */
  lemma {:induction false} PileUp(s: State, id: Uuid, k: nat, owing: nat) returns (run: seq<Action>)
    requires Piled(s, id, k, owing) && k < MAX_ATTEMPTS
    requires owing > 0 ==> s.rows[id].firstClaim.Some?
    ensures ValidRun(s, run) && Piled(Final(s, run), id, k, |s.workers|) && |Final(s, run).workers| == |s.workers|
    ensures Final(s, run).clock == s.clock
    ensures |s.workers| > 0 ==> Final(s, run).rows[id].firstClaim == Claimed(s.rows[id], s.clock).firstClaim
    decreases |s.workers| - owing
  {
    if owing == |s.workers| {
      run := [];
    } else {
      var s1 := Next(s, Claim(owing, id));
      var s2 := Next(s1, Fail(owing));
      var rest := PileUp(s2, id, k, owing + 1);
      RunCons(s1, Fail(owing), rest);
      RunCons(s, Claim(owing, id), [Fail(owing)] + rest);
      run := [Claim(owing, id)] + ([Fail(owing)] + rest);
    }
  }

  /** Everyone charges. */
  lemma {:induction false} ChargeAll(s: State, id: Uuid, from: nat) returns (run: seq<Action>)
    requires id in s.rows && from <= |s.workers|
    requires forall w :: 0 <= w < |s.workers| ==> if w < from then s.workers[w].Idle? else Owes(s.workers[w], id)
    ensures ValidRun(s, run) && id in Final(s, run).rows
    ensures Final(s, run).rows[id].attempts == s.rows[id].attempts + |s.workers| - from
    ensures Final(s, run).clock == s.clock && Final(s, run).rows[id].firstClaim == s.rows[id].firstClaim
    decreases |s.workers| - from
  {
    if from == |s.workers| {
      run := [];
    } else {
      var rest := ChargeAll(Next(s, Charge(from)), id, from + 1);
      RunCons(s, Charge(from), rest);
      run := [Charge(from)] + rest;
    }
  }

  /** The bound is tight for every number of workers. */
  lemma AttemptBoundIsReached(n: nat) returns (run: seq<Action>, id: Uuid)
    requires n >= 1
    ensures ValidRun(Init(n), run) && id in Final(Init(n), run).rows
    ensures Final(Init(n), run).rows[id].attempts == MAX_ATTEMPTS + n - 1 == 4 + n
  {
    id := Uuid(0, FlagEventSlot);
    var e := Event(id, RiskFlagged(Uuid(0, TransferSlot), High));
    var s := Next(Init(n), Publish(e, 0));
    var four := FourAttempts(s, id, 0);
    var pile := PileUp(Final(s, four), id, MAX_ATTEMPTS - 1, 0);
    var charge := ChargeAll(Final(Final(s, four), pile), id, 0);
    RunsAppend(Final(s, four), pile, charge);
    RunsAppend(s, four, pile + charge);
    RunCons(Init(n), Publish(e, 0), four + (pile + charge));
    run := [Publish(e, 0)] + (four + (pile + charge));
  }

  // ---------- backoff with one worker ----------

  /** With one worker, an event charged k > 0 times waits until 2^(k+1) - 2 seconds after its first
      claim, and its k-th charge came no earlier than 2^k - 2 seconds after it. */
  predicate RowSpaced(row: Row, clock: int) {
    && (row.firstClaim.None? ==> row.attempts == 0)
    && (row.firstClaim.Some? ==> row.firstClaim.value <= clock)
    && (row.attempts > 0 ==>
          && row.nextAttempt >= row.firstClaim.value + Pow2(row.attempts + 1) - 2
          && clock >= row.firstClaim.value + Pow2(row.attempts) - 2)
  }

  predicate Spaced(s: State) {
    forall id :: id in s.rows ==> RowSpaced(s.rows[id], s.clock)
  }

  lemma ChargedRowIsSpaced(row: Row, clock: int)
    requires RowSpaced(row, clock) && row.firstClaim.Some? && row.nextAttempt <= clock
    ensures RowSpaced(Charged(row, row.attempts, clock), clock)
  {
    assert Pow2(row.attempts + 2) == 2 * Pow2(row.attempts + 1) == 4 * Pow2(row.attempts);
  }

  /** What the one worker read is still the count, and its claim was due. */
  predicate ReadsAreCurrent(s: State) {
    forall w :: 0 <= w < |s.workers| && !s.workers[w].Idle? && s.workers[w].event in s.rows ==>
      var row := s.rows[s.workers[w].event];
      row.attempts == s.workers[w].read && row.firstClaim.Some? && row.nextAttempt <= s.clock
  }

  lemma NextKeepsSpacing(s: State, a: Action)
    requires |s.workers| == 1 && WorkersOk(s) && Spaced(s) && ReadsAreCurrent(s) && Enabled(s, a)
    ensures Spaced(Next(s, a)) && ReadsAreCurrent(Next(s, a))
  {
    hide Plan, Deliver;
    if a.Charge? {
      hide Pow2, RowSpaced, Charged;
      ChargedRowIsSpaced(s.rows[s.workers[0].event], s.clock);
    }
  }

  lemma {:induction false} RunKeepsSpacing(s: State, run: seq<Action>)
    requires |s.workers| == 1 && Sound(s) && Spaced(s) && ReadsAreCurrent(s) && ValidRun(s, run)
    ensures Spaced(Final(s, run))
    decreases |run|
  {
    hide Spaced, ReadsAreCurrent, Enabled, Next;
    if run != [] {
      NextKeepsSound(s, run[0]);
      NextKeepsSpacing(s, run[0]);
      RunKeepsSpacing(Next(s, run[0]), run[1..]);
    }
  }

  /** One worker and a clock that never goes back: no dead letter in under thirty seconds. */
  lemma BackoffSpacing(run: seq<Action>, id: Uuid)
    requires ValidRun(Init(1), run) && id in Final(Init(1), run).rows && Final(Init(1), run).rows[id].attempts > 0
    ensures var s := Final(Init(1), run); var row := s.rows[id];
            && row.firstClaim.Some?
            && s.clock >= row.firstClaim.value + Pow2(row.attempts) - 2
            && (row.attempts >= MAX_ATTEMPTS ==> s.clock >= row.firstClaim.value + 30)
  {
    RunKeepsSpacing(Init(1), run);
    AttemptBound(1, run, id);
    assert Pow2(5) == 32;
  }

  lemma {:induction false} PowersOfTwo(n: nat)
    requires n >= 2
    ensures Pow2(n) >= 4
  {
    if n == 2 {
      assert Pow2(2) == 4;
    } else {
      PowersOfTwo(n - 1);
    }
  }

  /** With any second worker the spacing fails: every worker claims, and all charges land in the
      second of the first claim. */
  lemma ManyWorkersBreakTheSpacing(n: nat) returns (run: seq<Action>, id: Uuid)
    requires n >= 2
    ensures ValidRun(Init(n), run) && id in Final(Init(n), run).rows
    ensures var s := Final(Init(n), run); var row := s.rows[id];
            row.attempts == n && row.firstClaim.Some? && s.clock < row.firstClaim.value + Pow2(row.attempts) - 2
  {
    id := Uuid(0, FlagEventSlot);
    var publish := Publish(Event(id, RiskFlagged(Uuid(0, TransferSlot), High)), 0);
    var s := Next(Init(n), publish);
    var pile := PileUp(s, id, 0, 0);
    var charge := ChargeAll(Final(s, pile), id, 0);
    RunsAppend(s, pile, charge);
    RunCons(Init(n), publish, pile + charge);
    run := [publish] + (pile + charge);
    PowersOfTwo(n);
  }

  /** The k-th charge of every event comes at least 2^k - 2 seconds after its first claim. */
  predicate WellSpaced(s: State) {
    forall id :: id in s.rows && s.rows[id].attempts > 0 ==>
      s.rows[id].firstClaim.Some? && s.clock >= s.rows[id].firstClaim.value + Pow2(s.rows[id].attempts) - 2
  }

  /** The backoff spaces the attempts in every run exactly when there is one worker. */
  lemma SpacingNeedsOneWorker(n: nat)
    requires n >= 1
    ensures n == 1 <==> forall run :: ValidRun(Init(n), run) ==> WellSpaced(Final(Init(n), run))
  {
    hide ValidRun, Final, Pow2;
    if n == 1 {
      forall run | ValidRun(Init(1), run) ensures WellSpaced(Final(Init(1), run)) {
        var s := Final(Init(1), run);
        forall id | id in s.rows && s.rows[id].attempts > 0
          ensures s.rows[id].firstClaim.Some? && s.clock >= s.rows[id].firstClaim.value + Pow2(s.rows[id].attempts) - 2
        {
          BackoffSpacing(run, id);
        }
      }
    } else {
      var run, id := ManyWorkersBreakTheSpacing(n);
      assert !WellSpaced(Final(Init(n), run));
    }
  }

  /** No event is ever charged more than MAX_ATTEMPTS times. */
  predicate WithinAttempts(s: State) {
    forall id :: id in s.rows ==> s.rows[id].attempts <= MAX_ATTEMPTS
  }

  /** MAX_ATTEMPTS bounds the attempts in every run exactly when there is one worker. */
  lemma AttemptLimitNeedsOneWorker(n: nat)
    requires n >= 1
    ensures n == 1 <==> forall run :: ValidRun(Init(n), run) ==> WithinAttempts(Final(Init(n), run))
  {
    hide ValidRun, Final;
    if n == 1 {
      forall run | ValidRun(Init(1), run) ensures WithinAttempts(Final(Init(1), run)) {
        forall id | id in Final(Init(1), run).rows ensures Final(Init(1), run).rows[id].attempts <= MAX_ATTEMPTS {
          AttemptBound(1, run, id);
        }
      }
    } else {
      var run, id := AttemptBoundIsReached(n);
      assert !WithinAttempts(Final(Init(n), run));
    }
  }

  // ---------- the schedule in seconds ----------

  /** What a claim takes: a row that nobody holds, not processed, charged at most four times, due by now,
      and as old as any other such row. */
  predicate Waiting(s: State, id: Uuid) {
    && id in s.rows && !s.rows[id].processed && s.rows[id].attempts <= 4 && s.rows[id].nextAttempt <= s.clock
    && forall w :: 0 <= w < |s.workers| ==> !(s.workers[w].Holding? && s.workers[w].event == id)
  }

  lemma ClaimsTakeTheOldestWaiting(s: State, w: nat, id: Uuid)
    ensures Enabled(s, Claim(w, id))
            <==> w < |s.workers| && s.workers[w].Idle? && Waiting(s, id)
                 && forall e :: Waiting(s, e) ==> s.rows[id].occurredAt <= s.rows[e].occurredAt
  {
    assert forall e :: Waiting(s, e) <==> e in s.rows && Due(s.rows[e], s.clock) && Unlocked(s, e);
  }

  /** No claim ever reads a count above four. */
  predicate ReadsAreLow(s: State) {
    forall w :: 0 <= w < |s.workers| && !s.workers[w].Idle? ==> s.workers[w].read <= 4
  }

  lemma {:induction false} RunKeepsReadsLow(s: State, run: seq<Action>)
    requires ReadsAreLow(s) && ValidRun(s, run)
    ensures ReadsAreLow(Final(s, run))
    decreases |run|
  {
    hide Deliver, Plan;
    if run != [] { RunKeepsReadsLow(Next(s, run[0]), run[1..]); }
  }

  /** In every run of any number of workers, charging an event whose claim read the count 0, 1, 2, 3 or 4
      adds one to its count and makes it due 2, 4, 8, 16 or 32 seconds later. */
  lemma ChargesBackOff(n: nat, run: seq<Action>, w: nat)
    requires ValidRun(Init(n), run) && Enabled(Final(Init(n), run), Charge(w))
    ensures var s := Final(Init(n), run); var id, read := s.workers[w].event, s.workers[w].read;
            && read <= 4
            && Next(s, Charge(w)).rows[id].attempts == s.rows[id].attempts + 1
            && Next(s, Charge(w)).rows[id].nextAttempt == s.clock + [2, 4, 8, 16, 32][read]
            && Next(s, Charge(w)).rows[id].processed == s.rows[id].processed
  {
    hide ValidRun, Final;
    RunKeepsReadsLow(Init(n), run);
    assert Pow2(0) == 1 && Pow2(1) == 2 && Pow2(2) == 4;
    assert Pow2(3) == 8 && Pow2(4) == 16;
  }

  /** One worker, one event, charged `k` times and this very second the last time. */
  predicate JustCharged(s: State, id: Uuid, k: nat) {
    && s.workers == [Idle] && s.rows.Keys == {id} && !s.rows[id].processed
    && s.rows[id].attempts == k && s.rows[id].firstClaim.Some?
    && s.clock == s.rows[id].firstClaim.value + Pow2(k) - 2
    && s.rows[id].nextAttempt == s.clock + Pow2(k)
  }

  /** Claim, fail, charge. */
  lemma ChargeOnce(s: State, id: Uuid, k: nat) returns (run: seq<Action>)
    requires s.workers == [Idle] && s.rows.Keys == {id} && k < MAX_ATTEMPTS
    requires !s.rows[id].processed && s.rows[id].attempts == k && s.rows[id].nextAttempt <= s.clock
    requires if k == 0 then s.rows[id].firstClaim.None?
             else s.rows[id].firstClaim.Some? && s.clock == s.rows[id].firstClaim.value + Pow2(k + 1) - 2
    ensures ValidRun(s, run) && JustCharged(Final(s, run), id, k + 1)
  {
    var s1 := Next(s, Claim(0, id));
    var s2 := Next(s1, Fail(0));
    RunCons(s2, Charge(0), []);
    RunCons(s1, Fail(0), [Charge(0)] + []);
    RunCons(s, Claim(0, id), [Fail(0)] + ([Charge(0)] + []));
    run := [Claim(0, id)] + ([Fail(0)] + ([Charge(0)] + []));
    assert Pow2(k + 1) == 2 * Pow2(k);
    assert Next(s2, Charge(0)).workers == [Idle];
    if k == 0 { assert Pow2(1) == 2 && Pow2(0) == 1; }
  }

  lemma {:induction false} ChargesInARow(k: nat) returns (run: seq<Action>, id: Uuid)
    requires 1 <= k <= MAX_ATTEMPTS
    ensures ValidRun(Init(1), run) && JustCharged(Final(Init(1), run), id, k)
  {
    if k == 1 {
      id := Uuid(0, FlagEventSlot);
      var publish := Publish(Event(id, RiskFlagged(Uuid(0, TransferSlot), High)), 0);
      var first := ChargeOnce(Next(Init(1), publish), id, 0);
      RunCons(Init(1), publish, first);
      run := [publish] + first;
    } else {
      var before;
      before, id := ChargesInARow(k - 1);
      var s := Final(Init(1), before);
      var wait := Tick(Pow2(k - 1));
      assert Pow2(k) == 2 * Pow2(k - 1);
      var again := ChargeOnce(Next(s, wait), id, k - 1);
      RunCons(s, wait, again);
      RunsAppend(Init(1), before, [wait] + again);
      run := before + ([wait] + again);
    }
  }

  /** The spacing is tight: an event can be charged for the first, second, third, fourth and fifth time
      exactly 0, 2, 6, 14 and 30 seconds after its first claim. */
  lemma SpacingIsTight(k: nat) returns (run: seq<Action>, id: Uuid)
    requires 1 <= k <= 5
    ensures ValidRun(Init(1), run) && id in Final(Init(1), run).rows
    ensures var s := Final(Init(1), run); var row := s.rows[id];
            && row.attempts == k && row.firstClaim.Some?
            && s.clock == row.firstClaim.value + [0, 2, 6, 14, 30][k - 1]
            && row.nextAttempt == s.clock + [2, 4, 8, 16, 32][k - 1]
  {
    hide ValidRun, Final;
    run, id := ChargesInARow(k);
    assert Pow2(1) == 2 && Pow2(2) == 4 && Pow2(3) == 8;
    assert Pow2(4) == 16 && Pow2(5) == 32;
  }

  /** A failure is charged by a worker that no longer holds the event, and only once nobody holds it. */
  lemma ChargesWaitForTheLock(s: State, w: nat)
    requires w < |s.workers| && s.workers[w].Owing? && s.workers[w].event in s.rows
    ensures Enabled(s, Charge(w))
            <==> forall v :: 0 <= v < |s.workers| ==>
                   !(s.workers[v].Holding? && s.workers[v].event == s.workers[w].event)
  {
    hide Deliver, Plan;
    assert Enabled(s, Charge(w)) <==> Unlocked(s, s.workers[w].event);
  }
}
