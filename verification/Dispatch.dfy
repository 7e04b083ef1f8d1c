/** The guest command dispatcher: a queue of host requests scheduled against two
    semaphore lanes. Requests are numbered in the order they are received. */
module Dispatch {
  import opened Common

  datatype Command = ProcessWait | VMShutdown | Other

  datatype Request = Request(id: nat, cmd: Command, deadline: Option<nat>)

  datatype Reply = Event(payload: nat) | Error(code: nat) | RequestTimedOut | Shutdown

  datatype Lane = Waits | Normal

  datatype Task = Task(request: Request, holds: bool)

  datatype Acquire = Acquired | NoPermits | Closed

  function LaneOf(r: Request): Lane {
    if r.cmd == ProcessWait then Waits else Normal
  }

  predicate Expired(r: Request, now: nat) {
    r.deadline.Some? && r.deadline.value <= now
  }

  /** What one scan of the queue accepts: a free permit in the lane, or a shutdown. */
  predicate Startable(r: Request, permits: nat, waitPermits: nat) {
    if r.cmd == ProcessWait then waitPermits > 0 else permits > 0 || r.cmd == VMShutdown
  }

  // ---------------------------------------------------------------------
  // Queues
  // ---------------------------------------------------------------------

  function Ids(q: seq<Request>): set<nat> {
    set i | 0 <= i < |q| :: q[i].id
  }

  predicate Distinct(q: seq<Request>) {
    forall i, j :: 0 <= i < j < |q| ==> q[i].id != q[j].id
  }

  /** Within each lane the queue is in order of arrival. */
  predicate LaneOrdered(q: seq<Request>) {
    forall i, j :: 0 <= i < j < |q| && LaneOf(q[i]) == LaneOf(q[j]) ==> q[i].id < q[j].id
  }

  /** Request a, already started, arrived before b if both are in one lane; a shutdown may have overtaken b. */
  predicate InOrder(a: Request, b: Request) {
    LaneOf(a) == LaneOf(b) && a.cmd != VMShutdown ==> a.id < b.id
  }

  function Remove(q: seq<Request>, i: nat): (q': seq<Request>)
    requires i < |q|
    ensures |q'| == |q| - 1
    ensures forall j :: 0 <= j < |q'| ==> q'[j] == q[if j < i then j else j + 1]
  {
    q[..i] + q[i + 1..]
  }

  /** A request that lost its permit to an outside holder goes back to the head of the queue. */
  function PushFront(q: seq<Request>, i: nat): seq<Request>
    requires i < |q|
  {
    [q[i]] + Remove(q, i)
  }

  /** The requests that survive an expiry sweep. */
  function Unexpired(q: seq<Request>, now: nat): seq<Request> {
    if |q| == 0 then []
    else if Expired(q[|q| - 1], now) then Unexpired(q[..|q| - 1], now)
    else Unexpired(q[..|q| - 1], now) + [q[|q| - 1]]
  }

  lemma RemoveIds(q: seq<Request>, i: nat)
    requires i < |q| && Distinct(q)
    ensures Distinct(Remove(q, i)) && Ids(Remove(q, i)) == Ids(q) - {q[i].id}
  {
    var q' := Remove(q, i);
    forall id | id in Ids(q) - {q[i].id}
      ensures id in Ids(q')
    {
      var j :| 0 <= j < |q| && q[j].id == id;
      assert q'[if j < i then j else j - 1] == q[j];
    }
  }

  lemma RemoveLaneOrdered(q: seq<Request>, i: nat)
    requires i < |q| && LaneOrdered(q)
    ensures LaneOrdered(Remove(q, i))
  {
  }

  lemma PushFrontIds(q: seq<Request>, i: nat)
    requires i < |q| && Distinct(q)
    ensures Distinct(PushFront(q, i)) && Ids(PushFront(q, i)) == Ids(q)
  {
    RemoveIds(q, i);
    var r := Remove(q, i);
    var q' := PushFront(q, i);
    assert q'[0] == q[i];
    forall j | 0 <= j < |r|
      ensures q'[j + 1] == r[j] && r[j].id in Ids(r)
    {
    }
    forall id | id in Ids(r)
      ensures id in Ids(q')
    {
      var j :| 0 <= j < |r| && r[j].id == id;
      assert q'[j + 1].id == id;
    }
  }

  /** Putting back the first request of its lane keeps each lane in order of arrival. */
  lemma PushFrontLaneOrdered(q: seq<Request>, i: nat)
    requires i < |q| && LaneOrdered(q) && forall j :: 0 <= j < i ==> LaneOf(q[j]) != LaneOf(q[i])
    ensures LaneOrdered(PushFront(q, i))
  {
    var r := Remove(q, i);
    var q' := PushFront(q, i);
    assert forall j :: 0 <= j < |r| ==> q'[j + 1] == r[j];
    forall a, b | 0 <= a < b < |q'| && LaneOf(q'[a]) == LaneOf(q'[b])
      ensures q'[a].id < q'[b].id
    {
      assert q'[b] == r[b - 1];
      if a > 0 {
        assert q'[a] == r[a - 1];
      }
    }
  }

  predicate QueuedIn(q: seq<Request>, lane: Lane) {
    exists j :: 0 <= j < |q| && LaneOf(q[j]) == lane
  }

  predicate ShutdownWaits(q: seq<Request>) {
    exists j :: 0 <= j < |q| && q[j].cmd == VMShutdown
  }

  predicate WorkIsLeft(q: seq<Request>, permits: nat, waitPermits: nat) {
    exists j :: 0 <= j < |q| && Startable(q[j], permits, waitPermits)
  }

  /** Exactly when a queue whose head cannot start holds work that can: a shutdown
      waits, or the other lane has a free permit and a request for it. */
  lemma WorkBehindHead(q: seq<Request>, permits: nat, waitPermits: nat)
    requires |q| > 0 && !Startable(q[0], permits, waitPermits)
    ensures WorkIsLeft(q, permits, waitPermits) <==>
            || ShutdownWaits(q)
            || (if LaneOf(q[0]) == Waits then permits > 0 && QueuedIn(q, Normal)
                else waitPermits > 0 && QueuedIn(q, Waits))
  {
  }

  function ExpiredIds(q: seq<Request>, now: nat): set<nat> {
    set i | 0 <= i < |q| && Expired(q[i], now) :: q[i].id
  }

  /** A sweep keeps exactly the requests whose deadline has not passed. */
  lemma {:induction false} UnexpiredMembers(q: seq<Request>, now: nat)
    ensures forall r :: r in Unexpired(q, now) <==> r in q && !Expired(r, now)
    decreases |q|
  {
    if |q| > 0 {
      UnexpiredMembers(q[..|q| - 1], now);
      assert q == q[..|q| - 1] + [q[|q| - 1]];
    }
  }

  /** A sweep does not reorder. */
  lemma {:induction false} UnexpiredOrder(q: seq<Request>, now: nat)
    requires Distinct(q) && LaneOrdered(q)
    ensures Distinct(Unexpired(q, now)) && LaneOrdered(Unexpired(q, now))
    decreases |q|
  {
    if |q| > 0 {
      var init, last := q[..|q| - 1], q[|q| - 1];
      UnexpiredOrder(init, now);
      UnexpiredMembers(init, now);
      var u := Unexpired(init, now);
      forall k | 0 <= k < |u|
        ensures u[k].id != last.id && (LaneOf(u[k]) == LaneOf(last) ==> u[k].id < last.id)
      {
        assert u[k] in init;
        var j :| 0 <= j < |init| && init[j] == u[k];
        assert q[j] == u[k];
      }
    }
  }

  lemma SplitIds(q: seq<Request>, now: nat)
    requires Distinct(q)
    ensures Ids(q) == Ids(Unexpired(q, now)) + ExpiredIds(q, now)
    ensures Ids(Unexpired(q, now)) !! ExpiredIds(q, now)
  {
    UnexpiredMembers(q, now);
    var u := Unexpired(q, now);
    forall i | 0 <= i < |q|
      ensures q[i].id in Ids(u) || q[i].id in ExpiredIds(q, now)
    {
      if !Expired(q[i], now) {
        assert q[i] in u;
        var k :| 0 <= k < |u| && u[k] == q[i];
      }
    }
    forall k | 0 <= k < |u|
      ensures u[k].id in Ids(q) && u[k].id !in ExpiredIds(q, now)
    {
      assert u[k] in u;
      var i :| 0 <= i < |q| && q[i] == u[k];
    }
  }

  // ---------------------------------------------------------------------
  // Lanes
  // ---------------------------------------------------------------------

  function Holders(tasks: map<nat, Task>, lane: Lane): set<nat> {
    set id | id in tasks && tasks[id].holds && LaneOf(tasks[id].request) == lane
  }

  lemma HoldersAfterSpawn(tasks: map<nat, Task>, id: nat, t: Task, lane: Lane)
    requires id !in tasks
    ensures |Holders(tasks[id := t], lane)|
            == |Holders(tasks, lane)| + (if t.holds && LaneOf(t.request) == lane then 1 else 0)
  {
    var h := Holders(tasks, lane);
    if t.holds && LaneOf(t.request) == lane {
      assert Holders(tasks[id := t], lane) == h + {id};
    } else {
      assert Holders(tasks[id := t], lane) == h;
    }
  }

  lemma HoldersAfterEnd(tasks: map<nat, Task>, id: nat, lane: Lane)
    requires id in tasks
    ensures |Holders(tasks - {id}, lane)|
            == |Holders(tasks, lane)| - (if tasks[id].holds && LaneOf(tasks[id].request) == lane then 1 else 0)
  {
    var h := Holders(tasks, lane);
    if tasks[id].holds && LaneOf(tasks[id].request) == lane {
      assert Holders(tasks - {id}, lane) == h - {id};
    } else {
      assert Holders(tasks - {id}, lane) == h;
    }
  }

  // ---------------------------------------------------------------------
  // The books: where every received request is
  // ---------------------------------------------------------------------

  datatype Books = Books(
    pending: seq<Request>,
    tasks: map<nat, Task>,
    answered: map<nat, Reply>,
    aborted: set<nat>,
    received: nat,
    started: seq<Request>,
    history: seq<Request>)

  /** In how many places a request is: queued, running, answered, aborted. */
  function Places(b: Books, id: nat): nat {
    (if id in Ids(b.pending) then 1 else 0) + (if id in b.tasks then 1 else 0)
    + (if id in b.answered then 1 else 0) + (if id in b.aborted then 1 else 0)
  }

  /** Every received request is in exactly one place, and in the queue only once. */
  ghost predicate Accounted(b: Books) {
    && Distinct(b.pending)
    && (forall id: nat :: Places(b, id) == if id < b.received then 1 else 0)
    && (forall id :: id in b.tasks ==> b.tasks[id].request.id == id)
  }

  predicate Below(q: seq<Request>, bound: nat) {
    forall i :: 0 <= i < |q| ==> q[i].id < bound
  }

  predicate StartedInOrder(q: seq<Request>) {
    forall i, j :: 0 <= i < j < |q| ==> q[j].cmd == VMShutdown || InOrder(q[i], q[j])
  }

  predicate AllBefore(done: seq<Request>, waiting: seq<Request>) {
    forall i, j :: 0 <= i < |done| && 0 <= j < |waiting| ==> InOrder(done[i], waiting[j])
  }

  /** Each lane starts its requests in order of arrival; only a shutdown may overtake. */
  predicate Fair(b: Books) {
    && LaneOrdered(b.pending) && Below(b.pending, b.received) && Below(b.started, b.received)
    && StartedInOrder(b.started) && AllBefore(b.started, b.pending)
  }

  function Enqueued(b: Books, cmd: Command, deadline: Option<nat>): Books {
    var r := Request(b.received, cmd, deadline);
    b.(pending := b.pending + [r], received := b.received + 1, history := b.history + [r])
  }

  lemma AppendIds(q: seq<Request>, r: Request)
    ensures Ids(q + [r]) == Ids(q) + {r.id}
  {
    var q' := q + [r];
    assert q'[|q|] == r;
    assert forall i :: 0 <= i < |q| ==> q'[i] == q[i];
  }

  lemma EnqueuedIsAccounted(b: Books, cmd: Command, deadline: Option<nat>)
    requires Accounted(b) && Fair(b)
    ensures Accounted(Enqueued(b, cmd, deadline))
  {
    var b' := Enqueued(b, cmd, deadline);
    AppendIds(b.pending, Request(b.received, cmd, deadline));
    forall id: nat
      ensures Places(b', id) == if id < b'.received then 1 else 0
    {
      assert Places(b, id) == if id < b.received then 1 else 0;
    }
  }

  lemma EnqueuedIsFair(b: Books, cmd: Command, deadline: Option<nat>)
    requires Fair(b)
    ensures Fair(Enqueued(b, cmd, deadline))
  {
  }

  function Spawned(b: Books, i: nat, holds: bool): Books
    requires i < |b.pending|
  {
    var r := b.pending[i];
    b.(pending := Remove(b.pending, i), tasks := b.tasks[r.id := Task(r, holds)], started := b.started + [r])
  }

  /** The request may start without breaking the order of its lane. */
  predicate MayStart(q: seq<Request>, i: nat) {
    i < |q| && (q[i].cmd != VMShutdown ==> forall j :: 0 <= j < i ==> LaneOf(q[j]) != LaneOf(q[i]))
  }

  /** The first request a scan accepts is the first of its lane, or a shutdown. */
  lemma FirstStartableMayStart(q: seq<Request>, i: nat, permits: nat, waitPermits: nat)
    requires i < |q| && Startable(q[i], permits, waitPermits)
    requires forall j :: 0 <= j < i ==> !Startable(q[j], permits, waitPermits)
    ensures MayStart(q, i)
  {
  }

  lemma SpawnedIsAccounted(b: Books, i: nat, holds: bool)
    requires Accounted(b) && i < |b.pending|
    ensures Accounted(Spawned(b, i, holds))
  {
    var b' := Spawned(b, i, holds);
    assert b.pending[i].id in Ids(b.pending);
    RemoveIds(b.pending, i);
    forall id: nat
      ensures Places(b', id) == if id < b'.received then 1 else 0
    {
      assert Places(b, id) == if id < b.received then 1 else 0;
    }
  }

  lemma SpawnedIsFair(b: Books, i: nat, holds: bool)
    requires Fair(b) && MayStart(b.pending, i)
    ensures Fair(Spawned(b, i, holds))
  {
    RemoveLaneOrdered(b.pending, i);
  }

  /** A queued request is answered without having been started. */
  function Rejected(b: Books, i: nat, reply: Reply): Books
    requires i < |b.pending|
  {
    b.(pending := Remove(b.pending, i), answered := b.answered[b.pending[i].id := reply])
  }

  lemma RejectedKeepsBooks(b: Books, i: nat, reply: Reply)
    requires Accounted(b) && Fair(b) && i < |b.pending|
    ensures Accounted(Rejected(b, i, reply)) && Fair(Rejected(b, i, reply))
  {
    var b' := Rejected(b, i, reply);
    assert b.pending[i].id in Ids(b.pending);
    RemoveIds(b.pending, i);
    RemoveLaneOrdered(b.pending, i);
    forall id: nat
      ensures Places(b', id) == if id < b'.received then 1 else 0
    {
      assert Places(b, id) == if id < b.received then 1 else 0;
    }
  }

  function PutBack(b: Books, i: nat): Books
    requires i < |b.pending|
  {
    b.(pending := PushFront(b.pending, i))
  }

  lemma PutBackKeepsBooks(b: Books, i: nat)
    requires Accounted(b) && Fair(b) && MayStart(b.pending, i) && b.pending[i].cmd != VMShutdown
    ensures Accounted(PutBack(b, i)) && Fair(PutBack(b, i))
  {
    PushFrontIds(b.pending, i);
    PushFrontLaneOrdered(b.pending, i);
    forall id: nat
      ensures Places(PutBack(b, i), id) == if id < b.received then 1 else 0
    {
      assert Places(b, id) == if id < b.received then 1 else 0;
    }
    var r := Remove(b.pending, i);
    assert forall j :: 0 <= j < |r| ==> PushFront(b.pending, i)[j + 1] == r[j];
    assert forall j :: 0 < j <= |r| ==> PushFront(b.pending, i)[j] == r[j - 1];
  }

  /** The sweep answers what has expired and keeps the rest. */
  function TimeOuts(q: seq<Request>, now: nat): map<nat, Reply> {
    map id | id in ExpiredIds(q, now) :: RequestTimedOut
  }

  lemma TimeOutsOneMore(q: seq<Request>, n: nat, now: nat)
    requires n < |q|
    ensures TimeOuts(q[..n + 1], now)
            == if Expired(q[n], now) then TimeOuts(q[..n], now)[q[n].id := RequestTimedOut]
               else TimeOuts(q[..n], now)
  {
    assert q[..n + 1] == q[..n] + [q[n]];
    var a, b := q[..n], q[..n + 1];
    assert forall i :: 0 <= i < n ==> b[i] == a[i];
    assert b[n] == q[n];
    assert ExpiredIds(b, now) == ExpiredIds(a, now) + (if Expired(q[n], now) then {q[n].id} else {});
  }

  function Swept(b: Books, now: nat): Books {
    b.(pending := Unexpired(b.pending, now), answered := b.answered + TimeOuts(b.pending, now))
  }

  lemma SweptIsAccounted(b: Books, now: nat)
    requires Accounted(b) && Fair(b)
    ensures Accounted(Swept(b, now))
  {
    SplitIds(b.pending, now);
    UnexpiredOrder(b.pending, now);
    forall id: nat
      ensures Places(Swept(b, now), id) == if id < b.received then 1 else 0
    {
      assert Places(b, id) == if id < b.received then 1 else 0;
    }
  }

  lemma SweptIsFair(b: Books, now: nat)
    requires Accounted(b) && Fair(b)
    ensures Fair(Swept(b, now))
  {
    UnexpiredOrder(b.pending, now);
    UnexpiredMembers(b.pending, now);
    var u := Unexpired(b.pending, now);
    forall k | 0 <= k < |u|
      ensures u[k].id < b.received && forall i :: 0 <= i < |b.started| ==> InOrder(b.started[i], u[k])
    {
      assert u[k] in u;
      var j :| 0 <= j < |b.pending| && b.pending[j] == u[k];
    }
  }

  /** A running request ends and is answered. */
  function Ended(b: Books, id: nat, reply: Reply): Books
    requires id in b.tasks
  {
    b.(tasks := b.tasks - {id}, answered := b.answered[id := reply])
  }

  lemma EndedKeepsBooks(b: Books, id: nat, reply: Reply)
    requires Accounted(b) && Fair(b) && id in b.tasks
    ensures Accounted(Ended(b, id, reply)) && Fair(Ended(b, id, reply))
  {
    var b' := Ended(b, id, reply);
    forall k: nat
      ensures Places(b', k) == if k < b.received then 1 else 0
    {
      assert Places(b, k) == if k < b.received then 1 else 0;
    }
  }

  /** Stopping answers the queue and aborts what runs. */
  function Stopped(b: Books): Books {
    b.(pending := [], tasks := map[],
       answered := b.answered + (map id | id in Ids(b.pending) :: Shutdown),
       aborted := b.aborted + b.tasks.Keys)
  }

  lemma StoppedKeepsBooks(b: Books)
    requires Accounted(b) && Fair(b)
    ensures Accounted(Stopped(b)) && Fair(Stopped(b))
    ensures forall id: nat :: id < b.received <==> id in Stopped(b).answered || id in Stopped(b).aborted
  {
    var b' := Stopped(b);
    assert Ids([]) == {};
    forall id: nat
      ensures Places(b', id) == if id < b.received then 1 else 0
      ensures id < b.received <==> id in b'.answered || id in b'.aborted
    {
      assert Places(b, id) == if id < b.received then 1 else 0;
    }
  }

  // ---------------------------------------------------------------------
  // What an answer means
  // ---------------------------------------------------------------------

  /** The history numbers the requests received, and the queue holds some of them. */
  predicate Recorded(b: Books) {
    && |b.history| == b.received && (forall i :: 0 <= i < |b.history| ==> b.history[i].id == i)
    && (forall j :: 0 <= j < |b.pending| ==>
          b.pending[j].id < |b.history| && b.history[b.pending[j].id] == b.pending[j])
  }

  /** An answer given without starting the request: it ran out of time, or a lane that
      others may close was closed. */
  predicate Excused(b: Books, id: nat, shared: bool, now: nat)
    requires id in b.answered
  {
    || (id < |b.history| && Expired(b.history[id], now) && b.answered[id] == RequestTimedOut)
    || (shared && b.answered[id] == Shutdown)
  }

  /** What runs was started, and what was answered was started or is excused. */
  predicate Truthful(b: Books, shared: bool, now: nat) {
    && Recorded(b)
    && (forall id :: id in b.tasks ==> id in Ids(b.started))
    && (forall id :: id in b.answered && id !in Ids(b.started) ==> Excused(b, id, shared, now))
  }

  lemma EnqueuedIsTruthful(b: Books, cmd: Command, deadline: Option<nat>, shared: bool, now: nat)
    requires Truthful(b, shared, now) && Accounted(b)
    ensures Truthful(Enqueued(b, cmd, deadline), shared, now)
  {
  }

  lemma LaterIsTruthful(b: Books, shared: bool, now: nat, later: nat)
    requires Truthful(b, shared, now) && now <= later
    ensures Truthful(b, shared, later)
  {
  }

  lemma RecordedAfter(b: Books, pending: seq<Request>)
    requires Recorded(b) && forall r :: r in pending ==> r in b.pending
    ensures Recorded(b.(pending := pending))
  {
    forall j | 0 <= j < |pending|
      ensures pending[j].id < |b.history| && b.history[pending[j].id] == pending[j]
    {
      assert pending[j] in b.pending;
    }
  }

  lemma SpawnedIsTruthful(b: Books, i: nat, holds: bool, shared: bool, now: nat)
    requires Truthful(b, shared, now) && i < |b.pending|
    ensures Truthful(Spawned(b, i, holds), shared, now)
  {
    RecordedAfter(b, Remove(b.pending, i));
    AppendIds(b.started, b.pending[i]);
  }

  lemma RejectedIsTruthful(b: Books, i: nat, now: nat)
    requires Truthful(b, true, now) && i < |b.pending|
    ensures Truthful(Rejected(b, i, Shutdown), true, now)
  {
    RecordedAfter(b, Remove(b.pending, i));
  }

  lemma PutBackIsTruthful(b: Books, i: nat, shared: bool, now: nat)
    requires Truthful(b, shared, now) && i < |b.pending|
    ensures Truthful(PutBack(b, i), shared, now)
  {
    RecordedAfter(b, PushFront(b.pending, i));
  }

  lemma SweptIsTruthful(b: Books, shared: bool, now: nat)
    requires Truthful(b, shared, now)
    ensures Truthful(Swept(b, now), shared, now)
  {
    UnexpiredMembers(b.pending, now);
    RecordedAfter(b, Unexpired(b.pending, now));
  }

  lemma EndedIsTruthful(b: Books, id: nat, reply: Reply, shared: bool, now: nat)
    requires Truthful(b, shared, now) && id in b.tasks
    ensures Truthful(Ended(b, id, reply), shared, now)
  {
  }

  /** What became of a request that was queued when a round began. */
  predicate Dealt(r: Request, b: Books, from: nat, sweep: nat, shared: bool) {
    || r in b.pending
    || (from <= |b.started| && r in b.started[from..])
    || (Expired(r, sweep) && r.id in b.answered && b.answered[r.id] == RequestTimedOut)
    || (shared && r.id in b.answered && b.answered[r.id] == Shutdown)
  }

  /** Answers given stay given. */
  predicate AnswersStay(b: Books, b': Books) {
    forall id :: id in b.answered ==> id in b'.answered && b'.answered[id] == b.answered[id]
  }

  lemma StaysDealt(b: Books, b': Books, from: nat, sweep: nat, shared: bool)
    requires from <= |b.started| && b.started <= b'.started && AnswersStay(b, b') && b'.pending == b.pending
    ensures forall r :: Dealt(r, b, from, sweep, shared) ==> Dealt(r, b', from, sweep, shared)
  {
    assert forall r :: r in b.started[from..] ==> r in b'.started[from..];
  }

  /** The books after an attempt to start a request, its lane being closed or having a permit. */
  function Attempted(b: Books, i: nat, shut: bool, free: bool): Books
    requires i < |b.pending|
  {
    if shut then Rejected(b, i, Shutdown)
    else if free || b.pending[i].cmd == VMShutdown then Spawned(b, i, free)
    else PutBack(b, i)
  }

  lemma AttemptedIsTruthful(b: Books, i: nat, shut: bool, free: bool, shared: bool, now: nat)
    requires Truthful(b, shared, now) && i < |b.pending| && (shut ==> shared)
    ensures Truthful(Attempted(b, i, shut, free), shared, now)
  {
    if shut {
      RejectedIsTruthful(b, i, now);
    } else if free || b.pending[i].cmd == VMShutdown {
      SpawnedIsTruthful(b, i, free, shared, now);
    } else {
      PutBackIsTruthful(b, i, shared, now);
    }
  }

  lemma AttemptDeals(b: Books, i: nat, shut: bool, free: bool, from: nat, sweep: nat, shared: bool)
    requires Accounted(b) && i < |b.pending| && from <= |b.started| && (shut ==> shared)
    ensures forall r :: Dealt(r, b, from, sweep, shared) ==> Dealt(r, Attempted(b, i, shut, free), from, sweep, shared)
  {
    QueuedIsNotRunning(b, i);
    StartDeals(b, i, Attempted(b, i, shut, free), from, sweep, shared);
  }

  /** The books moved on: whatever was dealt with still is, and answers stay truthful. */
  ghost predicate Advances(b: Books, b': Books, from: nat, sweep: nat, shared: bool, now: nat, later: nat) {
    && b'.history == b.history
    && (forall r :: Dealt(r, b, from, sweep, shared) ==> Dealt(r, b', from, sweep, shared))
    && (Truthful(b, shared, now) ==> Truthful(b', shared, later))
  }

  /** A round that begins with a sweep deals with everything that was queued. */
  lemma SweptAdvances(b: Books, from: nat, sweep: nat, shared: bool, b': Books, later: nat)
    requires Advances(Swept(b, sweep), b', from, sweep, shared, sweep, later)
    ensures forall r :: r in b.pending ==> Dealt(r, b', from, sweep, shared)
    ensures Truthful(b, shared, sweep) ==> Truthful(b', shared, later)
  {
    UnexpiredMembers(b.pending, sweep);
    forall r | r in b.pending
      ensures Dealt(r, Swept(b, sweep), from, sweep, shared)
    {
      var j :| 0 <= j < |b.pending| && b.pending[j] == r;
      assert Expired(r, sweep) ==> r.id in ExpiredIds(b.pending, sweep);
    }
    if Truthful(b, shared, sweep) {
      SweptIsTruthful(b, shared, sweep);
    }
  }

  lemma AttemptAdvances(b: Books, mid: Books, i: nat, shut: bool, free: bool, from: nat, sweep: nat, shared: bool,
                        now: nat, later: nat)
    requires GoesOn(b, mid, shared) && Accounted(mid) && i < |mid.pending| && from <= |b.started|
    requires now <= later && (shut ==> shared)
    ensures Advances(b, Attempted(mid, i, shut, free), from, sweep, shared, now, later)
  {
    StaysDealt(b, mid, from, sweep, shared);
    AttemptDeals(mid, i, shut, free, from, sweep, shared);
    if Truthful(b, shared, now) {
      LaterIsTruthful(b, shared, now, later);
      AttemptedIsTruthful(mid, i, shut, free, shared, later);
    }
  }

  /** Starting, refusing or putting back one request deals with it and leaves the others. */
  lemma StartDeals(b: Books, i: nat, b': Books, from: nat, sweep: nat, shared: bool)
    requires i < |b.pending| && from <= |b.started| && AnswersStay(b, b') && b.started <= b'.started
    requires b'.pending == PushFront(b.pending, i) || b'.pending == Remove(b.pending, i)
    requires b'.pending == Remove(b.pending, i) ==>
               || b'.started == b.started + [b.pending[i]]
               || (shared && b.pending[i].id in b'.answered && b'.answered[b.pending[i].id] == Shutdown)
    ensures forall r :: Dealt(r, b, from, sweep, shared) ==> Dealt(r, b', from, sweep, shared)
  {
    forall r | Dealt(r, b, from, sweep, shared)
      ensures Dealt(r, b', from, sweep, shared)
    {
      if r in b.pending {
        var j :| 0 <= j < |b.pending| && b.pending[j] == r;
        var rest := Remove(b.pending, i);
        if j != i {
          assert rest[if j < i then j else j - 1] == r;
        } else if b'.pending == rest && b'.started == b.started + [r] {
          assert b'.started[from..] == b.started[from..] + [r];
        }
      } else if r in b.started[from..] {
        assert b.started[from..] <= b'.started[from..];
      }
    }
  }

  /** Tasks ended, and nothing else happened to the books: what was answered stays so, and
      what was true of the answers still is. */
  ghost predicate GoesOn(b: Books, b': Books, shared: bool) {
    && b'.pending == b.pending && b'.started == b.started && b'.history == b.history && AnswersStay(b, b')
    && forall now :: Truthful(b, shared, now) ==> Truthful(b', shared, now)
  }

  lemma EndedGoesOn(b: Books, id: nat, reply: Reply, shared: bool)
    requires Accounted(b) && id in b.tasks
    ensures GoesOn(b, Ended(b, id, reply), shared)
  {
    RunningIsUnanswered(b, id);
    forall now | Truthful(b, shared, now)
      ensures Truthful(Ended(b, id, reply), shared, now)
    {
      EndedIsTruthful(b, id, reply, shared, now);
    }
  }

  lemma RunningIsUnanswered(b: Books, id: nat)
    requires Accounted(b) && id in b.tasks
    ensures id !in b.answered
  {
    assert Places(b, id) <= 1;
  }

  /** What one turn of the dispatch loop observes. */
  datatype Observed = Arrives(cmd: Command, deadline: Option<nat>) | Joined | DeadlinePassed | Cancelled | ChannelClosed

  predicate Stops(o: Observed) {
    o.Cancelled? || o.ChannelClosed?
  }

  /** The requests that arrive before the loop stops, numbered from the first free number. */
  function Arrivals(script: seq<Observed>, base: nat): seq<Request> {
    if |script| == 0 || Stops(script[0]) then []
    else if script[0].Arrives? then
      [Request(base, script[0].cmd, script[0].deadline)] + Arrivals(script[1..], base + 1)
    else Arrivals(script[1..], base)
  }

  lemma ArrivalsFirst(script: seq<Observed>, n: nat, base: nat)
    requires n < |script|
    ensures var first := Arrivals([script[n]], base);
            && |first| <= 1
            && Arrivals(script[n..], base)
               == if Stops(script[n]) then first else first + Arrivals(script[n + 1..], base + |first|)
  {
    assert script[n..][1..] == script[n + 1..] && [script[n]][1..] == [];
    assert Arrivals([], base + 1) == [];
  }

  /** When the loop stops: a request was started, ran out of time, or is told that it was
      cancelled; the last happens to no shutdown if none was queued. */
  lemma StoppedTells(b: Books, shared: bool, now: nat)
    requires Truthful(b, shared, now) && Accounted(b)
    ensures var b' := Stopped(b);
            && (forall id :: id in b'.answered && id !in Ids(b.started) ==>
                  || (id < |b.history| && Expired(b.history[id], now) && b'.answered[id] == RequestTimedOut)
                  || b'.answered[id] == Shutdown)
            && (forall id :: id in b'.aborted && id !in b.aborted ==> id in Ids(b.started))
    ensures !shared && !ShutdownWaits(b.pending) ==>
              forall id: nat :: id < |b.history| && b.history[id].cmd == VMShutdown && id in Stopped(b).answered ==>
                id in Ids(b.started) || Stopped(b).answered[id] == RequestTimedOut
  {
    forall id: nat | id in Stopped(b).answered
      ensures id in b.answered <==> id !in Ids(b.pending)
    {
      assert Places(b, id) <= 1;
    }
  }

  predicate OnlyShutdownsBypass(tasks: map<nat, Task>) {
    forall id :: id in tasks && !tasks[id].holds ==> tasks[id].request.cmd == VMShutdown
  }

  lemma QueuedIsNotRunning(b: Books, i: nat)
    requires Accounted(b) && i < |b.pending|
    ensures b.pending[i].id !in b.tasks && b.pending[i].id !in b.answered && b.pending[i].id !in b.aborted
  {
    assert b.pending[i].id in Ids(b.pending);
    assert Places(b, b.pending[i].id) <= 1;
  }

  predicate NoneExpired(q: seq<Request>, from: nat, now: nat) {
    forall k :: from <= k < |q| ==> !Expired(q[k], now)
  }

  lemma UnexpiredOneMore(q: seq<Request>, n: nat, now: nat, retained: seq<Request>)
    requires n < |q| && retained == Unexpired(q[..n], now)
    ensures Unexpired(q[..n + 1], now) == if Expired(q[n], now) then retained else retained + [q[n]]
  {
    assert q[..n + 1][..n] == q[..n];
  }

  lemma AnsweredOneMore(q: seq<Request>, n: nat, now: nat, answered: map<nat, Reply>)
    requires n < |q|
    ensures answered + TimeOuts(q[..n + 1], now)
            == if Expired(q[n], now) then (answered + TimeOuts(q[..n], now))[q[n].id := RequestTimedOut]
               else answered + TimeOuts(q[..n], now)
  {
    TimeOutsOneMore(q, n, now);
  }

  /** Pop every request once: expired ones are answered, the others keep their order. */
  method SweepQueue(queue: seq<Request>, now: nat, ghost answered: map<nat, Reply>)
    returns (retained: seq<Request>, ghost answered': map<nat, Reply>)
    ensures retained == Unexpired(queue, now)
    ensures answered' == answered + TimeOuts(queue, now)
  {
    retained, answered' := [], answered;
    for n := 0 to |queue|
      invariant retained == Unexpired(queue[..n], now)
      invariant answered' == answered + TimeOuts(queue[..n], now)
    {
      UnexpiredOneMore(queue, n, now, retained);
      AnsweredOneMore(queue, n, now, answered);
      if Expired(queue[n], now) {
        answered' := answered'[queue[n].id := RequestTimedOut];
      } else {
        retained := retained + [queue[n]];
      }
    }
    assert queue[..|queue|] == queue;
  }

  // ---------------------------------------------------------------------
  // The dispatcher
  // ---------------------------------------------------------------------

  class Dispatcher {
    /** Whether code outside the dispatcher may take permits or close a semaphore. */
    const shared: bool
    const capacity: nat
    const waitCapacity: nat
    var permits: nat
    var waitPermits: nat
    var closed: bool
    var waitClosed: bool
    // permits held by code outside the dispatcher
    var outside: nat
    var waitOutside: nat
    var pending: seq<Request>
    var tasks: map<nat, Task>
    var clock: nat
    var received: nat
    /** What became of every request. */
    ghost var books: Books

    /** No permit is lost and none is invented: a shutdown that started without one does not count. */
    ghost predicate Balanced()
      reads this
    {
      && permits + |Holders(books.tasks, Normal)| + outside == capacity
      && waitPermits + |Holders(books.tasks, Waits)| + waitOutside == waitCapacity
      && (!shared ==> outside == 0 && waitOutside == 0 && !closed && !waitClosed)
    }

    ghost predicate Valid()
      reads this
    {
      && books.pending == pending && books.tasks == tasks && books.received == received
      && Accounted(books) && Fair(books) && OnlyShutdownsBypass(books.tasks) && Balanced()
    }

    constructor (capacity: nat, waitCapacity: nat, shared: bool)
      ensures Valid() && books == Books([], map[], map[], {}, 0, [], []) && clock == 0
      ensures this.shared == shared && this.capacity == capacity && this.waitCapacity == waitCapacity
      ensures Truthful(books, shared, clock)
      ensures permits == capacity && waitPermits == waitCapacity && !closed && !waitClosed
    {
      this.shared, this.capacity, this.waitCapacity := shared, capacity, waitCapacity;
      permits, waitPermits, closed, waitClosed := capacity, waitCapacity, false, false;
      pending, tasks, clock, received, outside, waitOutside := [], map[], 0, 0, 0, 0;
      books := Books([], map[], map[], {}, 0, [], []);
      assert Holders(map[], Normal) == {} && Holders(map[], Waits) == {} && Ids([]) == {};
    }

    /** Whether the lane of a request is closed. */
    ghost predicate LaneClosed(r: Request)
      reads this
    {
      if LaneOf(r) == Waits then waitClosed else closed
    }

    ghost predicate LaneFree(r: Request)
      reads this
    {
      (if LaneOf(r) == Waits then waitPermits else permits) > 0
    }

    /** A request arrives from the channel. */
    method Receive(cmd: Command, deadline: Option<nat>)
      requires Valid()
      modifies this`pending, this`received, this`books
      ensures Valid() && books == Enqueued(old(books), cmd, deadline)
      ensures pending == old(pending) + [Request(old(received), cmd, deadline)] && received == old(received) + 1
    {
      EnqueuedIsAccounted(books, cmd, deadline);
      EnqueuedIsFair(books, cmd, deadline);
      pending := pending + [Request(received, cmd, deadline)];
      received := received + 1;
      books := Enqueued(books, cmd, deadline);
    }

    /** The work on a request ends: the reply is sent and the permit, if it held one, is released. */
    method Finish(id: nat, reply: Reply)
      requires Valid() && id in tasks
      modifies this`tasks, this`permits, this`waitPermits, this`books
      ensures Valid() && books == Ended(old(books), id, reply)
      ensures var t := old(tasks)[id];
              && permits == old(permits) + (if t.holds && LaneOf(t.request) == Normal then 1 else 0)
              && waitPermits == old(waitPermits) + (if t.holds && LaneOf(t.request) == Waits then 1 else 0)
    {
      EndedKeepsBooks(books, id, reply);
      HoldersAfterEnd(tasks, id, Normal);
      HoldersAfterEnd(tasks, id, Waits);
      if tasks[id].holds {
        if LaneOf(tasks[id].request) == Waits {
          waitPermits := waitPermits + 1;
        } else {
          permits := permits + 1;
        }
      }
      tasks := tasks - {id};
      books := Ended(books, id, reply);
    }

    /** The request at position i leaves the queue and its task is spawned. */
    method Spawn(i: nat, holds: bool)
      requires Valid() && MayStart(pending, i)
      requires if !holds then pending[i].cmd == VMShutdown
               else if LaneOf(pending[i]) == Waits then waitPermits > 0
               else permits > 0
      modifies this`pending, this`tasks, this`permits, this`waitPermits, this`books
      ensures Valid() && books == Spawned(old(books), i, holds)
      ensures var request := old(pending)[i];
              && permits == old(permits) - (if holds && LaneOf(request) == Normal then 1 else 0)
              && waitPermits == old(waitPermits) - (if holds && LaneOf(request) == Waits then 1 else 0)
    {
      var request := pending[i];
      SpawnedIsAccounted(books, i, holds);
      SpawnedIsFair(books, i, holds);
      QueuedIsNotRunning(books, i);
      HoldersAfterSpawn(tasks, request.id, Task(request, holds), Normal);
      HoldersAfterSpawn(tasks, request.id, Task(request, holds), Waits);
      pending := Remove(pending, i);
      tasks := tasks[request.id := Task(request, holds)];
      if holds {
        if LaneOf(request) == Waits {
          waitPermits := waitPermits - 1;
        } else {
          permits := permits - 1;
        }
      }
      books := Spawned(books, i, holds);
    }

    /** Outsiders take or return permits, or close a semaphore. */
    method OutsideStep()
      requires Valid() && shared
      modifies this`permits, this`waitPermits, this`closed, this`waitClosed, this`outside, this`waitOutside
      ensures Valid()
    {
      var free: int, waitFree: int := *, *;
      if 0 <= free <= permits + outside {
        permits, outside := free, permits + outside - free;
      }
      if 0 <= waitFree <= waitPermits + waitOutside {
        waitPermits, waitOutside := waitFree, waitPermits + waitOutside - waitFree;
      }
      closed, waitClosed := *, *;
    }

    /** An outside holder takes a permit of the normal lane. */
    method TakeOutside()
      requires Valid() && shared && permits > 0
      modifies this`permits, this`outside
      ensures Valid() && permits == old(permits) - 1
    {
      permits, outside := permits - 1, outside + 1;
    }

    /** A task ends, if one is to. */
    method MayFinish(id: int, reply: Reply)
      requires Valid()
      modifies this`tasks, this`permits, this`waitPermits, this`books
      ensures Valid() && permits >= old(permits) && waitPermits >= old(waitPermits)
      ensures GoesOn(old(books), books, shared)
    {
      ghost var before := books;
      if id in tasks {
        Finish(id, reply);
        EndedGoesOn(before, id, reply, shared);
      }
    }

    /** Whatever may happen on other threads between two looks at the semaphores:
        tasks end, outsiders take or return permits or close a semaphore, time passes. */
    method Interleave()
      requires Valid()
      modifies this`tasks, this`permits, this`waitPermits, this`books, this`closed, this`waitClosed
      modifies this`clock, this`outside, this`waitOutside
      ensures Valid() && clock >= old(clock)
      ensures !shared ==> permits >= old(permits) && waitPermits >= old(waitPermits)
      ensures GoesOn(old(books), books, shared)
    {
      var steps: int := *;
      while steps > 0
        invariant Valid() && clock >= old(clock)
        invariant !shared ==> permits >= old(permits) && waitPermits >= old(waitPermits)
        invariant GoesOn(old(books), books, shared)
      {
        steps := steps - 1;
        var id: int := *;
        var reply: Reply := *;
        MayFinish(id, reply);
        if shared {
          OutsideStep();
        }
        var passes: int := *;
        if passes > 0 {
          clock := clock + passes;
        }
      }
    }

    /** One scan of the queue: the first request that may start now. */
    method NextStartIndex() returns (index: Option<nat>)
      ensures index.Some? ==> index.value < |pending| && Startable(pending[index.value], permits, waitPermits)
      ensures index.Some? ==> forall j :: 0 <= j < index.value ==> !Startable(pending[j], permits, waitPermits)
      ensures index.None? ==> forall j :: 0 <= j < |pending| ==> !Startable(pending[j], permits, waitPermits)
    {
      for i := 0 to |pending|
        invariant forall j :: 0 <= j < i ==> !Startable(pending[j], permits, waitPermits)
      {
        if Startable(pending[i], permits, waitPermits) {
          return Some(i);
        }
      }
      return None;
    }

    /** Answer every queued request whose deadline has passed. */
    method ExpirePending()
      requires Valid()
      modifies this`pending, this`books
      ensures Valid() && books == Swept(old(books), clock)
      ensures forall r :: r in pending <==> r in old(pending) && !Expired(r, clock)
      ensures forall r :: r in old(pending) && Expired(r, clock) ==>
                r.id in books.answered && books.answered[r.id] == RequestTimedOut
    {
      UnexpiredMembers(pending, clock);
      SweptIsAccounted(books, clock);
      SweptIsFair(books, clock);
      ghost var answered;
      pending, answered := SweepQueue(pending, clock, books.answered);
      books := books.(pending := pending, answered := answered);
    }

    /** Try to take a permit for a request. */
    method TryAcquire(r: Request) returns (result: Acquire)
      ensures var shut := if LaneOf(r) == Waits then waitClosed else closed;
              var free := if LaneOf(r) == Waits then waitPermits else permits;
              result == if shut then Closed else if free > 0 then Acquired else NoPermits
    {
      if LaneOf(r) == Waits {
        result := if waitClosed then Closed else if waitPermits > 0 then Acquired else NoPermits;
      } else {
        result := if closed then Closed else if permits > 0 then Acquired else NoPermits;
      }
    }

    /** Take the request the scan chose and start it, answer it when its semaphore
        is closed, or put it back at the head when its permit is gone. */
    method StartAt(i: nat) returns (raced: bool)
      requires Valid() && MayStart(pending, i)
      modifies this`pending, this`tasks, this`permits, this`waitPermits, this`books
      ensures Valid()
      ensures raced <==>
                && old(pending)[i].cmd != VMShutdown
                && !old(LaneClosed(pending[i]))
                && !old(LaneFree(pending[i]))
      ensures raced ==>
                && pending == PushFront(old(pending), i) && !Startable(pending[0], permits, waitPermits)
                && books.started == old(books.started)
                && permits == old(permits) && waitPermits == old(waitPermits)
      ensures books == Attempted(old(books), i, old(LaneClosed(pending[i])), old(LaneFree(pending[i])))
      // a request that has its permit, or is a shutdown, runs
      ensures var request := old(pending)[i];
              var free := old(LaneFree(request));
              !raced && !old(LaneClosed(request)) ==>
                && pending == Remove(old(pending), i) && tasks == old(tasks)[request.id := Task(request, free)]
                && books.started == old(books.started) + [request] && books.answered == old(books.answered)
                && permits == old(permits) - (if free && LaneOf(request) == Normal then 1 else 0)
                && waitPermits == old(waitPermits) - (if free && LaneOf(request) == Waits then 1 else 0)
      // a request of a closed lane is told so
      ensures var request := old(pending)[i];
              old(LaneClosed(request)) ==>
                && pending == Remove(old(pending), i) && tasks == old(tasks) && books.started == old(books.started)
                && books.answered == old(books.answered)[request.id := Shutdown]
                && permits == old(permits) && waitPermits == old(waitPermits)
    {
      var request := pending[i];
      var result := TryAcquire(request);
      raced := false;
      match result {
        case Acquired =>
          Spawn(i, true);
        case NoPermits =>
          if request.cmd == VMShutdown {
            Spawn(i, false);
          } else {
            PutBackAt(i);
            raced := true;
          }
        case Closed =>
          Reject(i);
      }
    }

    /** The request goes back to the head of the queue. */
    method PutBackAt(i: nat)
      requires Valid() && MayStart(pending, i) && pending[i].cmd != VMShutdown
      modifies this`pending, this`books
      ensures Valid() && books == PutBack(old(books), i)
    {
      PutBackKeepsBooks(books, i);
      pending := PushFront(pending, i);
      books := PutBack(books, i);
    }

    /** The request is answered with the error of a cancelled request. */
    method Reject(i: nat)
      requires Valid() && i < |pending|
      modifies this`pending, this`books
      ensures Valid() && books == Rejected(old(books), i, Shutdown)
    {
      RejectedKeepsBooks(books, i, Shutdown);
      pending := Remove(pending, i);
      books := Rejected(books, i, Shutdown);
    }

    /** Start the first request that may start. `raced` tells that the permit the scan
        saw was gone when it was to be taken. */
    method StartNext(ghost sweep: nat, ghost from: nat) returns (found: bool, raced: bool)
      requires Valid() && clock >= sweep && NoneExpired(pending, 0, sweep) && from <= |books.started|
      modifies this`pending, this`tasks, this`permits, this`waitPermits, this`books, this`closed, this`waitClosed,
               this`clock, this`outside, this`waitOutside
      ensures Valid() && clock >= sweep && NoneExpired(pending, 0, sweep)
      ensures old(books.started) <= books.started && NoneExpired(books.started, |old(books.started)|, sweep)
      ensures Advances(old(books), books, from, sweep, shared, old(clock), clock)
      ensures !found ==> !raced && !WorkIsLeft(pending, permits, waitPermits)
      ensures found && !raced ==> |pending| < |old(pending)|
      ensures raced ==>
                shared && |pending| > 0 && pending[0].cmd != VMShutdown
                && !Startable(pending[0], permits, waitPermits)
    {
      var index := NextStartIndex();
      if index.None? {
        return false, false;
      }
      FirstStartableMayStart(pending, index.value, permits, waitPermits);
      Interleave();
      ghost var mid, shut, free := books, LaneClosed(pending[index.value]), LaneFree(pending[index.value]);
      raced := StartAt(index.value);
      found := true;
      AttemptAdvances(old(books), mid, index.value, shut, free, from, sweep, shared, old(clock), clock);
    }

    /** Start everything that may start. A round that loses a race ends early: the
        request that lost it is first in the queue, and other work may be left. */
    method StartReady() returns (raced: bool)
      requires Valid()
      modifies this`pending, this`tasks, this`permits, this`waitPermits, this`books, this`closed, this`waitClosed,
               this`clock, this`outside, this`waitOutside
      ensures Valid() && clock >= old(clock)
      ensures books.history == old(books.history)
      ensures old(Truthful(books, shared, clock)) ==> Truthful(books, shared, clock)
      // nothing expired at the sweep is started
      ensures old(books.started) <= books.started
      ensures forall k :: |old(books.started)| <= k < |books.started| ==> !Expired(books.started[k], old(clock))
      // what left the queue had run out of time, or runs, or found a lane closed by others
      ensures forall r :: r in old(pending) ==> Dealt(r, books, |old(books.started)|, old(clock), shared)
      // unless it lost a race, the round leaves nothing startable and no shutdown waiting
      ensures !raced ==> !WorkIsLeft(pending, permits, waitPermits) && !ShutdownWaits(pending)
      // a lost race needs someone else who takes permits; then work is left exactly if a
      // shutdown waits or the other lane has a permit and a request for it
      ensures raced ==>
                && shared && |pending| > 0 && pending[0].cmd != VMShutdown
                && (WorkIsLeft(pending, permits, waitPermits) <==>
                    || ShutdownWaits(pending)
                    || (if LaneOf(pending[0]) == Waits then permits > 0 && QueuedIn(pending, Normal)
                        else waitPermits > 0 && QueuedIn(pending, Waits)))
    {
      ghost var sweep, from := clock, |books.started|;
      ExpirePending();
      ghost var swept := books;
      var found := true;
      raced := false;
      while found && !raced
        invariant Valid() && clock >= sweep && NoneExpired(pending, 0, sweep)
        invariant old(books.started) <= books.started && NoneExpired(books.started, |old(books.started)|, sweep)
        invariant Advances(swept, books, from, sweep, shared, sweep, clock)
        invariant !found ==> !raced && !WorkIsLeft(pending, permits, waitPermits)
        invariant raced ==>
                    shared && |pending| > 0 && pending[0].cmd != VMShutdown
                    && !Startable(pending[0], permits, waitPermits)
        decreases found && !raced, |pending|
      {
        found, raced := StartNext(sweep, from);
      }
      SweptAdvances(old(books), from, sweep, shared, books, clock);
      if raced {
        WorkBehindHead(pending, permits, waitPermits);
      }
    }

    /** Answer the queue, abort every running task and take its permit back. */
    method Stop()
      requires Valid()
      modifies this`pending, this`tasks, this`permits, this`waitPermits, this`books
      ensures Valid() && books == Stopped(old(books))
      ensures permits + outside == capacity && waitPermits + waitOutside == waitCapacity
      ensures forall id: nat :: id < received <==> id in books.answered || id in books.aborted
      ensures forall r :: r in old(pending) ==> r.id in books.answered && books.answered[r.id] == Shutdown
      ensures books.aborted == old(books.aborted) + old(tasks).Keys && books.started == old(books.started)
    {
      StoppedKeepsBooks(books);
      permits := permits + |Holders(tasks, Normal)|;
      waitPermits := waitPermits + |Holders(tasks, Waits)|;
      pending := [];
      tasks := map[];
      books := Stopped(books);
      assert Holders(map[], Normal) == {} && Holders(map[], Waits) == {};
    }

    /** The earliest deadline in the queue: sleeping until it always expires a request. */
    method NextDeadline() returns (deadline: Option<nat>)
      ensures deadline.None? <==> forall j :: 0 <= j < |pending| ==> pending[j].deadline.None?
      ensures deadline.Some? ==>
                exists j :: 0 <= j < |pending| && pending[j].deadline == deadline && Expired(pending[j], deadline.value)
      ensures deadline.Some? ==> forall j, now :: 0 <= j < |pending| && Expired(pending[j], now) ==>
                deadline.value <= now
    {
      deadline := None;
      for i := 0 to |pending|
        invariant deadline.None? <==> forall j :: 0 <= j < i ==> pending[j].deadline.None?
        invariant deadline.Some? ==> exists j :: 0 <= j < i && pending[j].deadline == deadline
        invariant deadline.Some? ==> forall j :: 0 <= j < i && pending[j].deadline.Some? ==>
                    deadline.value <= pending[j].deadline.value
      {
        if pending[i].deadline.Some? && (deadline.None? || pending[i].deadline.value < deadline.value) {
          deadline := pending[i].deadline;
        }
      }
    }

    /** What the select observes is dealt with. */
    method React(observed: Observed) returns (stop: bool)
      requires Valid() && Truthful(books, shared, clock)
      modifies this`pending, this`received, this`books
      ensures Valid() && Truthful(books, shared, clock) && books.started == old(books.started)
      ensures stop <==> Stops(observed)
      ensures stop ==> pending == old(pending)
      ensures observed.DeadlinePassed? ==> NoneExpired(pending, 0, clock)
      ensures books.history == old(books.history) + Arrivals([observed], old(received))
    {
      stop := false;
      ghost var before := books;
      match observed {
        case Arrives(cmd, deadline) =>
          Receive(cmd, deadline);
          EnqueuedIsTruthful(before, cmd, deadline, shared, clock);
        case Joined =>
        case DeadlinePassed =>
          ExpirePending();
          SweptIsTruthful(before, shared, clock);
        case Cancelled => stop := true;
        case ChannelClosed => stop := true;
      }
    }

    /** One turn of the loop: start what may start, then see what happens. */
    method Turn(observed: Observed) returns (stop: bool)
      requires Valid() && Truthful(books, shared, clock)
      modifies this
      ensures Valid() && Truthful(books, shared, clock) && old(books.started) <= books.started
      ensures stop <==> Stops(observed)
      ensures stop && !shared ==> !ShutdownWaits(pending)
      ensures observed.DeadlinePassed? ==> NoneExpired(pending, 0, clock)
      ensures books.history == old(books.history) + Arrivals([observed], old(received))
    {
      var raced := StartReady();
      ghost var started := clock;
      Interleave();
      LaterIsTruthful(books, shared, started, clock);
      stop := React(observed);
    }

    /** The dispatch loop over any script of what the select observes, with anything
        happening on other threads in between. When it returns nothing is queued,
        nothing runs, every permit the dispatcher took is back, and every request
        it received was answered once or aborted. */
    method Run(script: seq<Observed>)
      requires Valid() && Truthful(books, shared, clock)
      modifies this
      ensures Valid() && pending == [] && tasks == map[]
      ensures permits + outside == capacity && waitPermits + waitOutside == waitCapacity
      ensures forall id: nat :: id < received <==> id in books.answered || id in books.aborted
      ensures old(books.started) <= books.started
      // it received what arrived before it stopped
      ensures books.history == old(books.history) + Arrivals(script, old(received))
      // what was not started ran out of time or is told that it was cancelled
      ensures forall id :: id in books.answered && id !in Ids(books.started) ==>
                || (id < |books.history| && Expired(books.history[id], clock) && books.answered[id] == RequestTimedOut)
                || books.answered[id] == Shutdown
      // and among that is no shutdown, if nobody else takes permits
      ensures !shared && (exists n :: 0 <= n < |script| && Stops(script[n])) ==>
                forall id: nat ::
                  id < |books.history| && books.history[id].cmd == VMShutdown && id in books.answered ==>
                    id in Ids(books.started) || books.answered[id] == RequestTimedOut
    {
      var stop := Loop(script);
      StoppedTells(books, shared, clock);
      Stop();
    }

    /** Turn after turn, until one stops the loop. */
    method Loop(script: seq<Observed>) returns (stop: bool)
      requires Valid() && Truthful(books, shared, clock)
      modifies this
      ensures Valid() && Truthful(books, shared, clock) && old(books.started) <= books.started
      ensures books.history == old(books.history) + Arrivals(script, old(received))
      ensures stop <==> exists n :: 0 <= n < |script| && Stops(script[n])
      ensures stop && !shared ==> !ShutdownWaits(pending)
    {
      stop := false;
      ghost var expected := books.history + Arrivals(script, received);
      assert script[0..] == script;
      for n := 0 to |script|
        invariant Valid() && Truthful(books, shared, clock) && old(books.started) <= books.started
        invariant books.history + Arrivals(script[n..], received) == expected
        invariant !stop && forall k :: 0 <= k < n ==> !Stops(script[k])
      {
        ArrivalsFirst(script, n, received);
        ghost var before := books.history;
        stop := Turn(script[n]);
        if stop {
          assert books.history == before + [] == before;
          return;
        }
        assert before + (Arrivals([script[n]], |before|) + Arrivals(script[n + 1..], received))
               == books.history + Arrivals(script[n + 1..], received);
      }
      assert script[|script|..] == [];
    }
  }

  /** A round that lost a race can leave work it could have started: an outside holder
      takes the last permit after the scan, the request it was for goes back to the
      head, and the shutdown behind it, startable without a permit, waits. */
  method LostRound() returns (d: Dispatcher, raced: bool)
    ensures fresh(d) && d.Valid() && raced && WorkIsLeft(d.pending, d.permits, d.waitPermits)
    ensures ShutdownWaits(d.pending)
  {
    d := TwoQueued();
    var index := d.NextStartIndex();
    FirstStartableMayStart(d.pending, index.value, d.permits, d.waitPermits);
    ghost var queue := d.pending;
    d.TakeOutside();
    raced := d.StartAt(index.value);
    assert d.pending == queue;
  }

  /** A dispatcher with one permit, an ordinary request and a shutdown. */
  method TwoQueued() returns (d: Dispatcher)
    ensures fresh(d) && d.Valid() && d.shared && d.permits == 1 && !d.closed && |d.pending| == 2
    ensures d.pending[0].cmd == Other && d.pending[1].cmd == VMShutdown
  {
    d := new Dispatcher(1, 1, true);
    d.Receive(Other, None);
    d.Receive(VMShutdown, None);
  }
}
