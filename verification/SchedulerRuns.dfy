// Every run of the territory scheduler: creations, scheduling in any mode, task endings, branch releases,
// completions, drains, cancellations, growing surfaces and peer manifests, interleaved freely.
module SchedulerRuns {
  import opened Wrappers
  import opened Text
  import opened Federation
  import opened Locks
  import opened Scheduler
  import opened Sequences

  // `Schedule` carries the mode it read, so a run may switch modes at will. `ReleaseStep` and `RemoveStep`
  // are the two halves of complete; handleTaskCancel performs the first one on its own.
  datatype Step =
    | Create(task: Task)
    | ScheduleStep(id: string, mode: Mode, now: int)
    | Finish(id: string, status: Status)
    | ReleaseStep(id: string)
    | RemoveStep(id: string, now: int)
    | DrainStep(now: int)
    | CancelStep(id: string)
    | Grow(id: string, surface: string)
    | Peers(peers: PeerTable)

  predicate HoldsBranch(h: Host, s: State, id: string)
    requires id in s.tasks
  {
    Lockable(KeyOf(h, s.tasks[id])) && HeldBy(s.locks, KeyOf(h, s.tasks[id]), id)
  }

  // A task is scheduled once, ends once, and leaves the running map after its branch was released.
  predicate Enabled(h: Host, s: State, step: Step) {
    match step
    case Create(task) => task.id !in s.tasks
    case ScheduleStep(id, mode, now) => id in s.tasks && id !in s.arrivals
    case Finish(id, status) =>
      id in s.tasks && Terminal(status) && !Terminal(s.tasks[id].status)
      && (status == Completed ==> s.tasks[id].status == Running)
    case ReleaseStep(id) => id in s.tasks && Terminal(s.tasks[id].status)
    case RemoveStep(id, now) => id in s.tasks && Terminal(s.tasks[id].status) && !HoldsBranch(h, s, id)
    case Grow(id, surface) =>
      id in s.tasks && !Terminal(s.tasks[id].status) && surface != "" && surface !in s.tasks[id].surfaces
    case _ => true
  }

  ghost function Next(h: Host, s: State, step: Step): State {
    if !Known(s) || !Enabled(h, s, step) then s
    else
      match step
      case Create(task) => s.(tasks := s.tasks[task.id := task.(status := Queued)])
      case ScheduleStep(id, mode, now) => ScheduleTask(h, s, id, mode, now)
      case Finish(id, status) => s.(tasks := s.tasks[id := s.tasks[id].(status := status)])
      case ReleaseStep(id) => Release(h, s, id)
      case RemoveStep(id, now) => Remove(h, s, id, now)
      case DrainStep(now) => Drain(h, s, now)
      case CancelStep(id) => CancelQueued(s, id)
      case Grow(id, surface) =>
        s.(tasks := s.tasks[id := s.tasks[id].(surfaces := s.tasks[id].surfaces + [surface])])
      case Peers(peers) => s.(peers := peers)
  }

  // ---- invariants

  ghost predicate TasksOk(h: Host, s: State) {
    forall id :: id in s.tasks ==> TaskOk(h, s, id)
  }

  predicate TaskOk(h: Host, s: State, id: string)
    requires id in s.tasks
  {
    && s.tasks[id].id == id
    && (s.tasks[id].status == Running ==> id in s.running && (Lockable(KeyOf(h, s.tasks[id])) ==> HoldsBranch(h, s, id)))
  }

  ghost predicate LocksOk(h: Host, s: State) {
    forall k :: k in s.locks ==>
      && Lockable(k)
      && s.locks[k].taskId in s.running && s.locks[k].taskId in s.tasks
      && KeyOf(h, s.tasks[s.locks[k].taskId]) == k
  }

  ghost predicate Core(h: Host, s: State) {
    && TasksOk(h, s)
    && LocksOk(h, s)
    && s.running <= s.dispatched
    && forall id :: id in s.dispatched ==> id in s.tasks && s.tasks[id].status != Queued
  }

  ghost predicate Earlier(arrivals: seq<string>, a: string, b: string) {
    exists i, j :: 0 <= i < j < |arrivals| && arrivals[i] == a && arrivals[j] == b
  }

  // Higher clamped priority first, arrival order among equals.
  ghost predicate Ahead(s: State, a: string, b: string) {
    a in s.tasks && b in s.tasks &&
    var p, q := ClampPriority(s.tasks[a].priority), ClampPriority(s.tasks[b].priority);
    p > q || (p == q && Earlier(s.arrivals, a, b))
  }

  ghost predicate Sorted(s: State, q: seq<string>) {
    forall i, j :: 0 <= i < j < |q| ==> Ahead(s, q[i], q[j])
  }

  predicate OneFate(s: State, id: string) {
    var q, d, c, r := id in s.queue, id in s.dispatched, id in s.cancelled, id in s.rejected;
    (q && !d && !c && !r) || (!q && d && !c && !r) || (!q && !d && c && !r) || (!q && !d && !c && r)
  }

  predicate NoFate(s: State, id: string) {
    id !in s.queue && id !in s.dispatched && id !in s.cancelled && id !in s.rejected
  }

  ghost predicate Fates(s: State) {
    && NoRepeat(s.arrivals)
    && (forall id :: id in s.arrivals ==> id in s.tasks)
    && (forall id :: if id in s.arrivals then OneFate(s, id) else NoFate(s, id))
  }

  ghost predicate Inv(h: Host, s: State) {
    Core(h, s) && Fates(s) && NoRepeat(s.queue) && Sorted(s, s.queue)
  }

  lemma InvKnown(h: Host, s: State)
    requires Inv(h, s)
    ensures Known(s)
  {
    forall id | id in s.queue
      ensures id in s.tasks
    {
      assert if id in s.arrivals then OneFate(s, id) else NoFate(s, id);
    }
  }

  // ---- dispatching

  predicate BranchTaken(h: Host, s: State, id: string)
    requires id in s.tasks
  {
    Lockable(KeyOf(h, s.tasks[id])) && HeldByOther(s.locks, KeyOf(h, s.tasks[id]), id)
  }

  lemma NewTasksHoldNothing(h: Host, s: State, id: string)
    requires LocksOk(h, s) && s.running <= s.dispatched && id !in s.dispatched
    ensures forall k :: k in s.locks ==> s.locks[k].taskId != id
  {
  }

  // On a task not dispatched before, dispatchUnderLock fails iff the branch is taken or the task is no
  // longer queued, and a failure changes nothing: a failed transition gives back the lock it had taken.
  lemma FailedDispatch(h: Host, s: State, id: string, now: int)
    requires Core(h, s) && id in s.tasks && id !in s.dispatched
    ensures var (after, err) := Dispatch(h, s, id, now);
      && (err.Some? ==> after == s)
      && (err.Some? <==> BranchTaken(h, s, id) || s.tasks[id].status != Queued)
      && (err == Some(BranchLockedError) <==> BranchTaken(h, s, id))
  {
    NewTasksHoldNothing(h, s, id);
    var key := KeyOf(h, s.tasks[id]);
    if Lockable(key) && key !in s.locks {
      assert s.locks[key := BranchLock(id, now)] - {key} == s.locks;
    }
  }

  lemma SuccessShape(h: Host, s: State, id: string, now: int)
    requires Core(h, s) && id in s.tasks && id !in s.dispatched
    requires !BranchTaken(h, s, id) && s.tasks[id].status == Queued
    ensures var after := Dispatch(h, s, id, now).0;
      && after == s.(tasks := s.tasks[id := s.tasks[id].(status := Running)], locks := after.locks,
                     running := s.running + {id}, dispatched := s.dispatched + {id})
      && (forall k :: k in s.locks ==> k in after.locks && after.locks[k] == s.locks[k])
      && (forall k :: k in after.locks && k !in s.locks ==>
            k == KeyOf(h, s.tasks[id]) && Lockable(k) && after.locks[k].taskId == id)
      && (Lockable(KeyOf(h, s.tasks[id])) ==> HeldBy(after.locks, KeyOf(h, s.tasks[id]), id))
  {
    NewTasksHoldNothing(h, s, id);
  }

  lemma SuccessKeepsTasks(h: Host, s: State, id: string, now: int)
    requires Core(h, s) && id in s.tasks && id !in s.dispatched
    requires !BranchTaken(h, s, id) && s.tasks[id].status == Queued
    ensures TasksOk(h, Dispatch(h, s, id, now).0)
  {
    SuccessShape(h, s, id, now);
    var after := Dispatch(h, s, id, now).0;
    forall other | other in after.tasks && after.tasks[other].status == Running
                   && Lockable(KeyOf(h, after.tasks[other]))
      ensures HoldsBranch(h, after, other)
    {
      if other != id {
        assert HoldsBranch(h, s, other);
      }
    }
  }

  lemma SuccessKeepsLocks(h: Host, s: State, id: string, now: int)
    requires Core(h, s) && id in s.tasks && id !in s.dispatched
    requires !BranchTaken(h, s, id) && s.tasks[id].status == Queued
    ensures LocksOk(h, Dispatch(h, s, id, now).0)
  {
    SuccessShape(h, s, id, now);
    var after := Dispatch(h, s, id, now).0;
    assert KeyOf(h, after.tasks[id]) == KeyOf(h, s.tasks[id]);
    forall k | k in after.locks
      ensures Lockable(k) && after.locks[k].taskId in after.running && after.locks[k].taskId in after.tasks
              && KeyOf(h, after.tasks[after.locks[k].taskId]) == k
    {
      assert k in s.locks ==> s.locks[k].taskId in s.running;
    }
  }

  lemma SuccessfulDispatch(h: Host, s: State, id: string, now: int)
    requires Core(h, s) && id in s.tasks && id !in s.dispatched
    requires !BranchTaken(h, s, id) && s.tasks[id].status == Queued
    ensures Core(h, Dispatch(h, s, id, now).0)
  {
    SuccessShape(h, s, id, now);
    SuccessKeepsTasks(h, s, id, now);
    SuccessKeepsLocks(h, s, id, now);
    var after := Dispatch(h, s, id, now).0;
    forall o | o in after.dispatched
      ensures o in after.tasks && after.tasks[o].status != Queued
    {
    }
  }

  // Progress of a drain: some queued tasks were started, nothing else changed but the locks they took.
  ghost predicate Started(s: State, t: State, started: seq<string>) {
    && t == s.(tasks := t.tasks, running := s.running + Elements(started), dispatched := s.dispatched + Elements(started),
               locks := t.locks)
    && t.tasks.Keys == s.tasks.Keys
    && (forall id :: id in s.tasks ==>
          t.tasks[id] == if id in started then s.tasks[id].(status := Running) else s.tasks[id])
  }

  ghost predicate Drainable(s: State, waiting: seq<string>) {
    NoRepeat(waiting) && forall id :: id in waiting ==> id in s.tasks && id !in s.dispatched
  }

  // What holds of a drain that has been through `done`.
  ghost predicate ScanOk(h: Host, s: State, done: seq<string>, r: Scan) {
    && Core(h, r.state)
    && Started(s, r.state, r.started)
    && (forall id :: id in done <==> id in r.kept || id in r.started)
    && (forall id :: id in r.kept ==> id !in r.started)
  }

  lemma KeptOne(h: Host, s: State, done: seq<string>, r: Scan, id: string)
    requires ScanOk(h, s, done, r) && id !in done
    ensures ScanOk(h, s, done + [id], r.(kept := r.kept + [id]))
  {
  }

  lemma StartedOne(h: Host, s: State, done: seq<string>, r: Scan, id: string, now: int)
    requires ScanOk(h, s, done, r) && id !in done && id in s.tasks && id !in s.dispatched
    requires !BranchTaken(h, r.state, id) && r.state.tasks[id].status == Queued
    ensures ScanOk(h, s, done + [id], Scan(Dispatch(h, r.state, id, now).0, r.kept, r.started + [id]))
  {
    assert id !in r.started;
    SuccessShape(h, r.state, id, now);
    SuccessfulDispatch(h, r.state, id, now);
    StartedGrows(s, r.state, Dispatch(h, r.state, id, now).0, r.started, id);
  }

  lemma StartedGrows(s: State, mid: State, after: State, started: seq<string>, id: string)
    requires Started(s, mid, started) && id in s.tasks && id !in started
    requires after == mid.(tasks := mid.tasks[id := mid.tasks[id].(status := Running)], locks := after.locks,
                           running := mid.running + {id}, dispatched := mid.dispatched + {id})
    ensures Started(s, after, started + [id])
  {
    AddElement(started, id);
  }

  // A drain keeps the core invariant and splits its tasks into those kept and those started.
  lemma {:induction false} DrainKeepsCore(h: Host, s: State, waiting: seq<string>, now: int)
    requires Core(h, s) && Drainable(s, waiting)
    ensures ScanOk(h, s, waiting, DrainScan(h, s, waiting, now))
  {
    if waiting != [] {
      var n := |waiting| - 1;
      var id := waiting[n];
      assert waiting == waiting[..n] + [id];
      DrainKeepsCore(h, s, waiting[..n], now);
      var mid := DrainScan(h, s, waiting[..n], now);
      assert id !in mid.started;
      FailedDispatch(h, mid.state, id, now);
      if Conflicting(h, mid.state, mid.state.tasks[id]) || Dispatch(h, mid.state, id, now).1.Some? {
        KeptOne(h, s, waiting[..n], mid, id);
      } else {
        StartedOne(h, s, waiting[..n], mid, id, now);
      }
    }
  }

  // ---- a drain is maximal

  // Dispatching others only adds territories and locks, so a refused task stays refused.
  lemma RefusalPersists(h: Host, s: State, id: string, other: string, now: int)
    requires Core(h, s) && id in s.tasks && id !in s.dispatched && id != other
    requires other in s.tasks && other !in s.dispatched
    requires !BranchTaken(h, s, other) && s.tasks[other].status == Queued
    requires Refused(h, s, id)
    ensures Refused(h, Dispatch(h, s, other, now).0, id)
  {
    SuccessShape(h, s, other, now);
    SuccessfulDispatch(h, s, other, now);
    var after := Dispatch(h, s, other, now).0;
    FailedDispatch(h, s, id, 0);
    FailedDispatch(h, after, id, 0);
    if RunningClash(h, s.tasks, s.tasks[id]) {
      var o :| o in s.tasks && s.tasks[o].status == Running
        && ClashesOther(h, TerritoryOf(s.tasks[id]), TerritoryOf(s.tasks[o]));
      assert o != other && after.tasks[o] == s.tasks[o];
    }
  }

  lemma {:induction false} DrainRefusesKept(h: Host, s: State, waiting: seq<string>, now: int)
    requires Core(h, s) && Drainable(s, waiting)
    ensures var r := DrainScan(h, s, waiting, now);
      r.state.tasks.Keys == s.tasks.Keys && forall id :: id in r.kept ==> id in s.tasks && Refused(h, r.state, id)
  {
    DrainKeepsCore(h, s, waiting, now);
    if waiting != [] {
      var n := |waiting| - 1;
      var id := waiting[n];
      DrainRefusesKept(h, s, waiting[..n], now);
      DrainKeepsCore(h, s, waiting[..n], now);
      var mid := DrainScan(h, s, waiting[..n], now);
      assert forall x :: x in waiting[..n] ==> x in waiting && x != id;
      FailedDispatch(h, mid.state, id, now);
      FailedDispatch(h, mid.state, id, 0);
      if !Conflicting(h, mid.state, mid.state.tasks[id]) && Dispatch(h, mid.state, id, now).1.None? {
        forall other | other in mid.kept
          ensures Refused(h, Dispatch(h, mid.state, id, now).0, other)
        {
          RefusalPersists(h, mid.state, other, id, now);
        }
      }
    }
  }

  // ---- order

  // `a` lists elements of `b` at increasing positions.
  ghost predicate Subsequence(a: seq<string>, b: seq<string>) {
    exists at: seq<nat> :: Picks(at, a, b)
  }

  ghost predicate Picks(at: seq<nat>, a: seq<string>, b: seq<string>) {
    && |at| == |a|
    && (forall i :: 0 <= i < |at| ==> at[i] < |b| && b[at[i]] == a[i])
    && (forall i, j :: 0 <= i < j < |at| ==> at[i] < at[j])
  }

  lemma {:induction false} DrainKeepsOrder(h: Host, s: State, waiting: seq<string>, now: int)
    requires forall id :: id in waiting ==> id in s.tasks
    ensures Subsequence(DrainScan(h, s, waiting, now).kept, waiting)
  {
    if waiting == [] {
      assert Picks([], [], waiting);
    } else {
      var n := |waiting| - 1;
      DrainKeepsOrder(h, s, waiting[..n], now);
      var mid := DrainScan(h, s, waiting[..n], now);
      PicksLater(mid.kept, waiting, n);
    }
  }

  lemma PicksLater(kept: seq<string>, waiting: seq<string>, n: nat)
    requires n < |waiting| && Subsequence(kept, waiting[..n])
    ensures Subsequence(kept, waiting) && Subsequence(kept + [waiting[n]], waiting)
  {
    var at :| Picks(at, kept, waiting[..n]);
    assert Picks(at, kept, waiting);
    assert Picks(at + [n], kept + [waiting[n]], waiting);
  }

  lemma CancelKeepsOrder(s: State, id: string)
    ensures Subsequence(CancelQueued(s, id).queue, s.queue)
    ensures id in s.queue && NoRepeat(s.queue) ==>
      id !in CancelQueued(s, id).queue && forall o :: o != id ==> (o in CancelQueued(s, id).queue <==> o in s.queue)
  {
    var q := s.queue;
    if id in q {
      var i := First(q, id);
      WithoutAt(q, i);
      LosesPosition(q, i);
    } else {
      assert Picks(seq(|q|, k requires 0 <= k < |q| => k), q, q);
    }
  }

  lemma LosesPosition(q: seq<string>, i: nat)
    requires i < |q|
    ensures var r := q[..i] + q[i + 1..];
      Subsequence(r, q) && (NoRepeat(q) ==> q[i] !in r && forall o :: o != q[i] ==> (o in r <==> o in q))
  {
    var r := q[..i] + q[i + 1..];
    assert Picks(seq(|q| - 1, k requires 0 <= k < |q| - 1 => if k < i then k else k + 1), r, q);
    forall o | o in q && o != q[i]
      ensures o in r
    {
      var k :| 0 <= k < |q| && q[k] == o;
      assert r[if k < i then k else k - 1] == o;
    }
  }

  lemma First(q: seq<string>, id: string) returns (i: nat)
    requires id in q
    ensures i < |q| && q[i] == id && id !in q[..i]
  {
    i := 0;
    while q[i] != id
      invariant i < |q| && id !in q[..i] && id in q[i..]
      decreases |q| - i
    {
      assert q[i..] == [q[i]] + q[i + 1..];
      i := i + 1;
    }
  }

  lemma SubsequenceKeepsOrder(s: State, a: seq<string>, b: seq<string>)
    requires Subsequence(a, b) && NoRepeat(b)
    ensures NoRepeat(a) && (Sorted(s, b) ==> Sorted(s, a))
    ensures forall id :: id in a ==> id in b
  {
    var at :| Picks(at, a, b);
  }

  // Order depends on priorities and arrivals only, and later arrivals do not disturb it.
  lemma SortedStays(s: State, t: State, q: seq<string>)
    requires Sorted(s, q) && s.arrivals <= t.arrivals
    requires forall id :: id in s.tasks ==> id in t.tasks && t.tasks[id].priority == s.tasks[id].priority
    ensures Sorted(t, q)
  {
    forall i, j | 0 <= i < j < |q|
      ensures Ahead(t, q[i], q[j])
    {
      assert Ahead(s, q[i], q[j]);
      if Earlier(s.arrivals, q[i], q[j]) {
        var x, y :| 0 <= x < y < |s.arrivals| && s.arrivals[x] == q[i] && s.arrivals[y] == q[j];
        assert t.arrivals[x] == q[i] && t.arrivals[y] == q[j];
      }
    }
  }

  // Position i of q with id put in at pos.
  function Inserted(q: seq<string>, id: string, pos: nat, i: nat): string
    requires pos <= |q| && i <= |q|
  {
    if i == pos then id else q[if i < pos then i else i - 1]
  }

  lemma InsertedPair(s: State, q: seq<string>, id: string, pos: nat, i: nat, j: nat)
    requires Sorted(s, q) && id in s.tasks && forall o :: o in q ==> o in s.tasks
    requires s.arrivals != [] && s.arrivals[|s.arrivals| - 1] == id
    requires forall o :: o in q ==> o in s.arrivals[..|s.arrivals| - 1]
    requires pos <= |q| && i < j <= |q|
    requires forall k :: 0 <= k < pos ==> ClampPriority(s.tasks[id].priority) <= ClampPriority(s.tasks[q[k]].priority)
    requires pos < |q| ==> ClampPriority(s.tasks[id].priority) > ClampPriority(s.tasks[q[pos]].priority)
    ensures Ahead(s, Inserted(q, id, pos, i), Inserted(q, id, pos, j))
  {
    if i == pos {
      if j - 1 > pos {
        assert Ahead(s, q[pos], q[j - 1]);
      }
    } else if j == pos {
      assert q[i] in q;
      LatestIsBehind(s, q[i], id);
    } else {
      assert Ahead(s, q[if i < pos then i else i - 1], q[if j < pos then j else j - 1]);
    }
  }

  // Inserting the latest arrival by priority keeps the queue sorted with arrival order among equals.
  lemma InsertKeepsSorted(s: State, q: seq<string>, id: string)
    requires Sorted(s, q) && NoRepeat(q) && id !in q && id in s.tasks && forall o :: o in q ==> o in s.tasks
    requires s.arrivals != [] && s.arrivals[|s.arrivals| - 1] == id
    requires forall o :: o in q ==> o in s.arrivals[..|s.arrivals| - 1]
    ensures var r := InsertByPriority(s.tasks, q, id);
      Sorted(s, r) && NoRepeat(r) && forall o :: o in r <==> o == id || o in q
  {
    var pos := InsertSpot(s, q, id);
    InsertPosition(s.tasks, q, id, pos);
    var r := InsertByPriority(s.tasks, q, id);
    assert |r| == |q| + 1 && forall i :: 0 <= i < |r| ==> r[i] == Inserted(q, id, pos, i);
    forall i, j | 0 <= i < j < |r|
      ensures Ahead(s, r[i], r[j])
    {
      InsertedPair(s, q, id, pos, i, j);
    }
    InsertedOnce(q, id, pos, r);
    InsertKeepsMembers(s.tasks, q, id);
  }

  lemma InsertedOnce(q: seq<string>, id: string, pos: nat, r: seq<string>)
    requires NoRepeat(q) && id !in q && pos <= |q| && |r| == |q| + 1
    requires forall i :: 0 <= i < |r| ==> r[i] == Inserted(q, id, pos, i)
    ensures NoRepeat(r)
  {
  }

  lemma LatestIsBehind(s: State, o: string, id: string)
    requires o in s.tasks && id in s.tasks
    requires s.arrivals != [] && s.arrivals[|s.arrivals| - 1] == id && o in s.arrivals[..|s.arrivals| - 1]
    ensures Earlier(s.arrivals, o, id)
  {
    var init := s.arrivals[..|s.arrivals| - 1];
    var i :| 0 <= i < |init| && init[i] == o;
    assert s.arrivals[i] == o;
  }

  lemma InsertSpot(s: State, q: seq<string>, id: string) returns (pos: nat)
    requires id in s.tasks && forall o :: o in q ==> o in s.tasks
    ensures pos <= |q|
    ensures forall j :: 0 <= j < pos ==> ClampPriority(s.tasks[id].priority) <= ClampPriority(s.tasks[q[j]].priority)
    ensures pos < |q| ==> ClampPriority(s.tasks[id].priority) > ClampPriority(s.tasks[q[pos]].priority)
  {
    pos := 0;
    while pos < |q| && ClampPriority(s.tasks[id].priority) <= ClampPriority(s.tasks[q[pos]].priority)
      invariant pos <= |q|
      invariant forall j :: 0 <= j < pos ==> ClampPriority(s.tasks[id].priority) <= ClampPriority(s.tasks[q[j]].priority)
    {
      pos := pos + 1;
    }
  }

  // ---- every step keeps the invariant

  lemma QueueIsDrainable(h: Host, s: State)
    requires Inv(h, s)
    ensures Known(s) && Drainable(s, s.queue)
  {
    InvKnown(h, s);
    forall id | id in s.queue
      ensures id !in s.dispatched
    {
      assert if id in s.arrivals then OneFate(s, id) else NoFate(s, id);
    }
  }

  lemma DrainKeepsInv(h: Host, s: State, now: int)
    requires Inv(h, s)
    ensures Known(s) && Inv(h, Drain(h, s, now))
  {
    QueueIsDrainable(h, s);
    DrainKeepsCore(h, s, s.queue, now);
    DrainKeepsOrder(h, s, s.queue, now);
    var r := DrainScan(h, s, s.queue, now);
    SubsequenceKeepsOrder(s, r.kept, s.queue);
    var t := Drain(h, s, now);
    SortedStays(s, t, r.kept);
    DrainKeepsFates(s, t, r);
  }

  lemma DrainKeepsFates(s: State, t: State, r: Scan)
    requires Fates(s) && Started(s, r.state, r.started) && t == r.state.(queue := r.kept)
    requires forall id :: id in s.queue <==> id in r.kept || id in r.started
    requires forall id :: id in r.kept ==> id !in r.started
    ensures Fates(t)
  {
    forall id
      ensures if id in t.arrivals then OneFate(t, id) else NoFate(t, id)
    {
      assert if id in s.arrivals then OneFate(s, id) else NoFate(s, id);
    }
  }

  lemma RemoveKeepsInv(h: Host, s: State, id: string, now: int)
    requires Inv(h, s) && Enabled(h, s, RemoveStep(id, now))
    ensures Known(s) && Inv(h, s.(running := s.running - {id})) && Inv(h, Remove(h, s, id, now))
  {
    InvKnown(h, s);
    var t := s.(running := s.running - {id});
    forall k | k in t.locks
      ensures t.locks[k].taskId in t.running
    {
      assert Lockable(k) && KeyOf(h, s.tasks[s.locks[k].taskId]) == k;
    }
    forall o | o in t.tasks && t.tasks[o].status == Running && Lockable(KeyOf(h, t.tasks[o]))
      ensures HoldsBranch(h, t, o)
    {
      assert HoldsBranch(h, s, o);
    }
    SameFates(s, t);
    SortedStays(s, t, t.queue);
    DrainKeepsInv(h, t, now);
  }

  lemma SameFates(s: State, t: State)
    requires Fates(s) && t.arrivals == s.arrivals && s.tasks.Keys <= t.tasks.Keys
    requires t.queue == s.queue && t.dispatched == s.dispatched && t.cancelled == s.cancelled && t.rejected == s.rejected
    ensures Fates(t)
  {
    forall id
      ensures if id in t.arrivals then OneFate(t, id) else NoFate(t, id)
    {
      assert if id in s.arrivals then OneFate(s, id) else NoFate(s, id);
    }
  }

  // A step that only creates, ends or grows one task: the entry keeps its key and priority, and its status
  // moves at most to an end.
  ghost predicate TouchesOne(h: Host, s: State, id: string, t: Task) {
    && t.id == id
    && (id in s.tasks ==>
          KeyOf(h, t) == KeyOf(h, s.tasks[id]) && t.priority == s.tasks[id].priority
          && (t.status == s.tasks[id].status || Terminal(t.status)))
    && (id !in s.tasks ==> t.status == Queued)
  }

  lemma TaskStepKeepsTasks(h: Host, s: State, id: string, t: Task)
    requires TasksOk(h, s) && TouchesOne(h, s, id, t)
    ensures TasksOk(h, s.(tasks := s.tasks[id := t]))
  {
    var after := s.(tasks := s.tasks[id := t]);
    forall o | o in after.tasks
      ensures TaskOk(h, after, o)
    {
      assert o in s.tasks ==> TaskOk(h, s, o);
      if o in s.tasks && after.tasks[o].status == Running && Lockable(KeyOf(h, s.tasks[o])) {
        assert HoldsBranch(h, s, o);
      }
    }
  }

  lemma TaskStepKeepsLocks(h: Host, s: State, id: string, t: Task)
    requires LocksOk(h, s) && TouchesOne(h, s, id, t)
    ensures LocksOk(h, s.(tasks := s.tasks[id := t]))
  {
  }

  lemma TaskStepKeepsInv(h: Host, s: State, id: string, t: Task)
    requires Inv(h, s) && TouchesOne(h, s, id, t)
    ensures Inv(h, s.(tasks := s.tasks[id := t]))
  {
    var after := s.(tasks := s.tasks[id := t]);
    TaskStepKeepsTasks(h, s, id, t);
    TaskStepKeepsLocks(h, s, id, t);
    SameFates(s, after);
    SortedStays(s, after, s.queue);
  }

  lemma ReleaseKeepsInv(h: Host, s: State, id: string)
    requires Inv(h, s) && id in s.tasks && Terminal(s.tasks[id].status)
    ensures Inv(h, Release(h, s, id))
  {
    var t := Release(h, s, id);
    forall o | o in t.tasks && t.tasks[o].status == Running && Lockable(KeyOf(h, t.tasks[o]))
      ensures HoldsBranch(h, t, o)
    {
      assert HoldsBranch(h, s, o);
    }
    SameFates(s, t);
    SortedStays(s, t, s.queue);
  }

  lemma CancelKeepsInv(h: Host, s: State, id: string)
    requires Inv(h, s)
    ensures Inv(h, CancelQueued(s, id))
  {
    var t := CancelQueued(s, id);
    CancelKeepsOrder(s, id);
    SubsequenceKeepsOrder(s, t.queue, s.queue);
    SortedStays(s, t, t.queue);
    forall o
      ensures if o in t.arrivals then OneFate(t, o) else NoFate(t, o)
    {
      assert if o in s.arrivals then OneFate(s, o) else NoFate(s, o);
    }
  }

  // A newly scheduled task joins exactly one of the queue, the dispatched and the rejected tasks.
  lemma JoinKeepsFates(s: State, t: State, id: string)
    requires Fates(s) && id in s.tasks && id !in s.arrivals
    requires t.arrivals == s.arrivals + [id] && t.tasks.Keys == s.tasks.Keys && t.cancelled == s.cancelled
    requires forall o :: o != id ==>
      (o in t.queue <==> o in s.queue) && (o in t.dispatched <==> o in s.dispatched) && (o in t.rejected <==> o in s.rejected)
    requires OneFate(t, id)
    ensures Fates(t)
  {
    AddElement(s.arrivals, id);
    forall o
      ensures if o in t.arrivals then OneFate(t, o) else NoFate(t, o)
    {
      assert if o in s.arrivals then OneFate(s, o) else NoFate(s, o);
    }
  }

  lemma RejectKeepsInv(h: Host, s: State, id: string)
    requires Inv(h, s) && id in s.tasks && id !in s.arrivals
    ensures Inv(h, s.(arrivals := s.arrivals + [id], rejected := s.rejected + {id}))
  {
    var t := s.(arrivals := s.arrivals + [id], rejected := s.rejected + {id});
    assert NoFate(s, id);
    JoinKeepsFates(s, t, id);
    SortedStays(s, t, s.queue);
    CoreSame(h, s, t);
  }

  lemma CoreSame(h: Host, s: State, t: State)
    requires Core(h, s) && t.tasks == s.tasks && t.locks == s.locks && t.running == s.running && t.dispatched == s.dispatched
    ensures Core(h, t)
  {
    forall o | o in t.tasks && t.tasks[o].status == Running && Lockable(KeyOf(h, t.tasks[o]))
      ensures HoldsBranch(h, t, o)
    {
      assert HoldsBranch(h, s, o);
    }
  }

  lemma EnqueueKeepsInv(h: Host, s: State, id: string)
    requires Inv(h, s) && id in s.tasks && id !in s.arrivals
    ensures Known(s)
    ensures Inv(h, s.(arrivals := s.arrivals + [id], queue := InsertByPriority(s.tasks, s.queue, id)))
  {
    InvKnown(h, s);
    var mid := s.(arrivals := s.arrivals + [id]);
    var t := mid.(queue := InsertByPriority(s.tasks, s.queue, id));
    assert NoFate(s, id);
    assert mid.arrivals[..|mid.arrivals| - 1] == s.arrivals;
    forall o | o in s.queue
      ensures o in s.arrivals
    {
      assert if o in s.arrivals then OneFate(s, o) else NoFate(s, o);
    }
    SortedStays(s, mid, s.queue);
    InsertKeepsSorted(mid, s.queue, id);
    SortedStays(mid, t, t.queue);
    JoinKeepsFates(s, t, id);
    CoreSame(h, s, t);
  }

  lemma StartKeepsInv(h: Host, s: State, id: string, now: int)
    requires Inv(h, s) && id in s.tasks && id !in s.arrivals
    requires !BranchTaken(h, s, id) && s.tasks[id].status == Queued
    ensures Inv(h, Dispatch(h, s.(arrivals := s.arrivals + [id]), id, now).0)
  {
    var mid := s.(arrivals := s.arrivals + [id]);
    assert NoFate(s, id);
    CoreSame(h, s, mid);
    SuccessShape(h, mid, id, now);
    SuccessfulDispatch(h, mid, id, now);
    var t := Dispatch(h, mid, id, now).0;
    JoinKeepsFates(s, t, id);
    SortedStays(s, t, s.queue);
  }

  // The outcome of scheduling in one view: which of the three fates, decided by what the mode looks at.
  lemma ScheduleOutcome(h: Host, s: State, id: string, mode: Mode, now: int)
    requires Inv(h, s) && id in s.tasks && id !in s.arrivals
    ensures Known(s)
    ensures var arrived := s.(arrivals := s.arrivals + [id]);
      var clash := Conflicting(h, s, s.tasks[id]);
      var free := !BranchTaken(h, s, id) && s.tasks[id].status == Queued;
      ScheduleTask(h, s, id, mode, now) ==
      if free && (clash ==> mode == WarnMode || mode == DisabledMode) then Dispatch(h, arrived, id, now).0
      else if mode == QueueMode && (clash || BranchTaken(h, s, id)) then
        arrived.(queue := InsertByPriority(s.tasks, s.queue, id))
      else arrived.(rejected := s.rejected + {id})
  {
    InvKnown(h, s);
    var arrived := s.(arrivals := s.arrivals + [id]);
    assert NoFate(s, id);
    CoreSame(h, s, arrived);
    FailedDispatch(h, arrived, id, now);
    assert BranchTaken(h, arrived, id) == BranchTaken(h, s, id);
  }

  lemma ScheduleKeepsInv(h: Host, s: State, id: string, mode: Mode, now: int)
    requires Inv(h, s) && id in s.tasks && id !in s.arrivals
    ensures Known(s) && Inv(h, ScheduleTask(h, s, id, mode, now))
  {
    ScheduleOutcome(h, s, id, mode, now);
    RejectKeepsInv(h, s, id);
    EnqueueKeepsInv(h, s, id);
    if !BranchTaken(h, s, id) && s.tasks[id].status == Queued {
      StartKeepsInv(h, s, id, now);
    }
  }

  lemma PeersKeepInv(h: Host, s: State, peers: PeerTable)
    requires Inv(h, s)
    ensures Inv(h, s.(peers := peers))
  {
    var t := s.(peers := peers);
    CoreSame(h, s, t);
    SameFates(s, t);
    SortedStays(s, t, s.queue);
  }

  lemma NextKeepsInv(h: Host, s: State, step: Step)
    requires Inv(h, s)
    ensures Known(s) && Inv(h, Next(h, s, step))
  {
    InvKnown(h, s);
    if Enabled(h, s, step) {
      match step
      case Create(task) => TaskStepKeepsInv(h, s, task.id, task.(status := Queued));
      case ScheduleStep(id, mode, now) => ScheduleKeepsInv(h, s, id, mode, now);
      case Finish(id, status) => TaskStepKeepsInv(h, s, id, s.tasks[id].(status := status));
      case ReleaseStep(id) => ReleaseKeepsInv(h, s, id);
      case RemoveStep(id, now) => RemoveKeepsInv(h, s, id, now);
      case DrainStep(now) => DrainKeepsInv(h, s, now);
      case CancelStep(id) => CancelKeepsInv(h, s, id);
      case Grow(id, surface) =>
        TaskStepKeepsInv(h, s, id, s.tasks[id].(surfaces := s.tasks[id].surfaces + [surface]));
      case Peers(peers) => PeersKeepInv(h, s, peers);
    }
  }

  ghost function Run(h: Host, s: State, steps: seq<Step>): State {
    if steps == [] then s else Next(h, Run(h, s, steps[..|steps| - 1]), steps[|steps| - 1])
  }

  const START := State(map[], [], {}, map[], map[], [], {}, {}, {})

  // Every reachable state is sound: running tasks are tracked and hold their branches, every lock belongs to
  // a task still in the running map, the queue is sorted by clamped priority with arrival order among equals,
  // and every scheduled task has exactly one fate.
  lemma {:induction false} RunKeepsInv(h: Host, steps: seq<Step>)
    ensures Inv(h, Run(h, START, steps))
  {
    if steps != [] {
      RunKeepsInv(h, steps[..|steps| - 1]);
      NextKeepsInv(h, Run(h, START, steps[..|steps| - 1]), steps[|steps| - 1]);
    }
  }

  // In particular the queue: clamped priorities never increase along it, tasks of equal priority wait in the
  // order they were scheduled, and each scheduled task is in exactly one of queued, dispatched, cancelled and
  // rejected.
  lemma QueueAndFates(h: Host, steps: seq<Step>)
    ensures var s := Run(h, START, steps);
      && (forall i, j :: 0 <= i < j < |s.queue| ==> s.queue[i] != s.queue[j] && Ahead(s, s.queue[i], s.queue[j]))
      && (forall id :: id in s.arrivals ==> OneFate(s, id))
      && (forall id :: id in s.dispatched ==> id in s.tasks && s.tasks[id].status != Queued)
  {
    RunKeepsInv(h, steps);
  }

  // In terms of the priorities as given: a task waits behind one of lower priority only where both lie beyond
  // the same end of the range -100..100, and among equals the earlier arrival waits in front.
  lemma QueueByPriority(h: Host, steps: seq<Step>, i: nat, j: nat)
    requires i < j < |Run(h, START, steps).queue|
    ensures var s := Run(h, START, steps);
      && s.queue[i] in s.tasks && s.queue[j] in s.tasks
      && var p, q := s.tasks[s.queue[i]].priority, s.tasks[s.queue[j]].priority;
         && (p < q ==> q <= -100 || p >= 100)
         && (p == q ==> Earlier(s.arrivals, s.queue[i], s.queue[j]))
  {
    QueueAndFates(h, steps);
    assert Ahead(Run(h, START, steps), Run(h, START, steps).queue[i], Run(h, START, steps).queue[j]);
  }

  // ---- branch locks

  // In every mode no two running tasks share a branch of one repository.
  lemma NoSharedBranch(h: Host, steps: seq<Step>, a: string, b: string)
    requires var s := Run(h, START, steps);
      a in s.tasks && b in s.tasks && s.tasks[a].status == Running && s.tasks[b].status == Running
    requires var x, y := Run(h, START, steps).tasks[a], Run(h, START, steps).tasks[b];
      && NormalizeRepo(h, x.repo) == NormalizeRepo(h, y.repo) != ""
      && TrimSpace(x.branch) == TrimSpace(y.branch) != ""
    ensures a == b
  {
    RunKeepsInv(h, steps);
    var s := Run(h, START, steps);
    assert HoldsBranch(h, s, a) && HoldsBranch(h, s, b);
  }

  // Releasing a task's branch leaves the task with no lock and every other task with its own.
  lemma ReleaseFrees(h: Host, s: State, id: string, k: BranchKey)
    requires LocksOk(h, s) && id in s.tasks && k in s.locks
    ensures k in Release(h, s, id).locks <==> s.locks[k].taskId != id
    ensures k in Release(h, s, id).locks ==> Release(h, s, id).locks[k] == s.locks[k]
  {
  }

  // A completed task leaves the running map, and nobody else does.
  lemma RemoveForgets(h: Host, s: State, id: string, now: int)
    requires Inv(h, s) && Enabled(h, s, RemoveStep(id, now))
    ensures Known(s) && var t := Remove(h, s, id, now);
      && (id in s.dispatched ==> id !in t.running)
      && (forall o :: o in s.running && o != id ==> o in t.running)
      && (forall o :: o in t.running && o !in s.running ==> o in s.queue && o !in t.queue)
  {
    RemoveKeepsInv(h, s, id, now);
    var mid := s.(running := s.running - {id});
    InvKnown(h, mid);
    QueueIsDrainable(h, mid);
    DrainKeepsCore(h, mid, s.queue, now);
  }

  ghost predicate KeepsLocks(s: State, t: State) {
    forall k :: k in s.locks ==> k in t.locks && t.locks[k] == s.locks[k]
  }

  lemma DrainOneKeepsLocks(h: Host, scan: Scan, id: string, now: int)
    requires Core(h, scan.state) && id in scan.state.tasks && id !in scan.state.dispatched
    ensures KeepsLocks(scan.state, DrainOne(h, scan, id, now).state)
  {
    FailedDispatch(h, scan.state, id, now);
    if !BranchTaken(h, scan.state, id) && scan.state.tasks[id].status == Queued {
      SuccessShape(h, scan.state, id, now);
    }
  }

  lemma {:induction false} DrainKeepsLocks(h: Host, s: State, waiting: seq<string>, now: int)
    requires Core(h, s) && Drainable(s, waiting)
    ensures KeepsLocks(s, DrainScan(h, s, waiting, now).state)
  {
    if waiting != [] {
      var n := |waiting| - 1;
      DrainKeepsLocks(h, s, waiting[..n], now);
      DrainKeepsCore(h, s, waiting[..n], now);
      var mid := DrainScan(h, s, waiting[..n], now);
      assert waiting[n] !in mid.started;
      DrainOneKeepsLocks(h, mid, waiting[n], now);
    }
  }

  lemma ScheduleKeepsLocks(h: Host, s: State, id: string, mode: Mode, now: int)
    requires Inv(h, s) && id in s.tasks && id !in s.arrivals
    ensures Known(s) && KeepsLocks(s, ScheduleTask(h, s, id, mode, now))
  {
    ScheduleOutcome(h, s, id, mode, now);
    var mid := s.(arrivals := s.arrivals + [id]);
    assert NoFate(s, id);
    CoreSame(h, s, mid);
    if !BranchTaken(h, s, id) && s.tasks[id].status == Queued {
      SuccessShape(h, mid, id, now);
    }
  }

  lemma DrainingKeepsLocks(h: Host, s: State, now: int)
    requires Inv(h, s)
    ensures Known(s) && KeepsLocks(s, Drain(h, s, now))
  {
    QueueIsDrainable(h, s);
    DrainKeepsLocks(h, s, s.queue, now);
  }

  // The only step that frees a lock is its owner's own release, and the owner has ended by then.
  lemma OnlyOwnersFree(h: Host, s: State, step: Step, k: BranchKey)
    requires Inv(h, s) && k in s.locks
    ensures var t := Next(h, s, step);
      (k in t.locks && t.locks[k] == s.locks[k])
      || (step == ReleaseStep(s.locks[k].taskId) && Terminal(s.tasks[s.locks[k].taskId].status))
  {
    InvKnown(h, s);
    if Enabled(h, s, step) && !step.ReleaseStep? {
      OtherStepsKeepLocks(h, s, step);
    } else if Enabled(h, s, step) && step.id != s.locks[k].taskId {
      ReleaseFreesOwn(h, s, step.id, k);
    }
  }

  lemma ReleaseFreesOwn(h: Host, s: State, id: string, k: BranchKey)
    requires id in s.tasks && k in s.locks && s.locks[k].taskId != id
    ensures k in Release(h, s, id).locks && Release(h, s, id).locks[k] == s.locks[k]
  {
  }

  lemma OtherStepsKeepLocks(h: Host, s: State, step: Step)
    requires Inv(h, s) && Enabled(h, s, step) && !step.ReleaseStep?
    ensures KeepsLocks(s, Next(h, s, step))
  {
    InvKnown(h, s);
    match step
    case ScheduleStep(id, mode, now) => ScheduleKeepsLocks(h, s, id, mode, now);
    case DrainStep(now) => DrainingKeepsLocks(h, s, now);
    case RemoveStep(id, now) =>
      RemoveKeepsInv(h, s, id, now);
      DrainingKeepsLocks(h, s.(running := s.running - {id}), now);
    case _ =>
  }

  // ---- territory exclusion

  ghost predicate Excluded(h: Host, s: State) {
    forall a, b :: a in s.tasks && b in s.tasks && a != b && s.tasks[a].status == Running && s.tasks[b].status == Running ==>
      Clash(h, TerritoryOf(s.tasks[a]), TerritoryOf(s.tasks[b])).None?
  }

  // Some other running task of a matching repository already has a surface overlapping this one.
  ghost predicate Intrudes(h: Host, s: State, id: string, surface: string)
    requires id in s.tasks
  {
    exists o :: o in s.tasks && o != id && s.tasks[o].status == Running
      && RepositoriesMatch(h, s.tasks[id].repo, s.tasks[o].repo)
      && AnyOverlap(h, [surface], s.tasks[o].surfaces)
  }

  // The steps that can end exclusion: a dispatch in warn or disabled mode over a running clash, and a
  // running task touching a file inside another running task's surfaces.
  ghost predicate Harmless(h: Host, s: State, step: Step) {
    Enabled(h, s, step) ==>
      match step
      case ScheduleStep(id, mode, now) =>
        (mode == WarnMode || mode == DisabledMode) && !BranchTaken(h, s, id) && s.tasks[id].status == Queued ==>
          !RunningClash(h, s.tasks, s.tasks[id])
      case Grow(id, surface) => s.tasks[id].status == Running ==> !Intrudes(h, s, id, surface)
      case _ => true
  }

  // Starting a task keeps exclusion iff no running task clashes with it; needs the clash to be symmetric.
  lemma StartExcludes(h: Host, s: State, t: State, id: string)
    requires TasksOk(h, s) && Excluded(h, s) && id in s.tasks && s.tasks[id].status == Queued
    requires t.tasks == s.tasks[id := s.tasks[id].(status := Running)]
    ensures Excluded(h, t) <==> !RunningClash(h, s.tasks, s.tasks[id])
  {
    var mine := TerritoryOf(s.tasks[id]);
    assert TerritoryOf(t.tasks[id]) == mine;
    if RunningClash(h, s.tasks, s.tasks[id]) {
      var o :| o in s.tasks && s.tasks[o].status == Running && ClashesOther(h, mine, TerritoryOf(s.tasks[o]));
      assert o != id && t.tasks[o] == s.tasks[o];
    } else {
      forall a, b | a in t.tasks && b in t.tasks && a != b && t.tasks[a].status == Running && t.tasks[b].status == Running
        ensures Clash(h, TerritoryOf(t.tasks[a]), TerritoryOf(t.tasks[b])).None?
      {
        ClashSymmetric(h, TerritoryOf(t.tasks[a]), TerritoryOf(t.tasks[b]));
        var o := if a == id then b else a;
        if a == id || b == id {
          assert !ClashesOther(h, mine, TerritoryOf(s.tasks[o]));
        }
      }
    }
  }

  lemma DrainOneExcludes(h: Host, scan: Scan, id: string, now: int)
    requires Core(h, scan.state) && id in scan.state.tasks && id !in scan.state.dispatched && Excluded(h, scan.state)
    ensures Excluded(h, DrainOne(h, scan, id, now).state)
  {
    FailedDispatch(h, scan.state, id, now);
    if !BranchTaken(h, scan.state, id) && scan.state.tasks[id].status == Queued {
      SuccessShape(h, scan.state, id, now);
      StartExcludes(h, scan.state, Dispatch(h, scan.state, id, now).0, id);
    }
  }

  lemma {:induction false} DrainExcludes(h: Host, s: State, waiting: seq<string>, now: int)
    requires Core(h, s) && Drainable(s, waiting) && Excluded(h, s)
    ensures Excluded(h, DrainScan(h, s, waiting, now).state)
  {
    if waiting != [] {
      var n := |waiting| - 1;
      DrainExcludes(h, s, waiting[..n], now);
      DrainKeepsCore(h, s, waiting[..n], now);
      var mid := DrainScan(h, s, waiting[..n], now);
      assert waiting[n] !in mid.started;
      DrainOneExcludes(h, mid, waiting[n], now);
    }
  }

  lemma OverlapOfOneMore(h: Host, a: seq<string>, x: string, b: seq<string>)
    ensures AnyOverlap(h, a + [x], b) <==> AnyOverlap(h, a, b) || AnyOverlap(h, [x], b)
  {
    var all := a + [x];
    if i, j :| 0 <= i < |all| && 0 <= j < |b| && SurfacesOverlap(h, all[i], b[j]) {
      if i < |a| {
        assert SurfacesOverlap(h, a[i], b[j]);
      } else {
        assert SurfacesOverlap(h, [x][0], b[j]);
      }
    }
    if i, j :| 0 <= i < |a| && 0 <= j < |b| && SurfacesOverlap(h, a[i], b[j]) {
      assert SurfacesOverlap(h, all[i], b[j]);
    }
    if i, j :| 0 <= i < |[x]| && 0 <= j < |b| && SurfacesOverlap(h, [x][i], b[j]) {
      assert SurfacesOverlap(h, all[|a|], b[j]);
    }
  }

  // Growing one surface of a territory that did not clash makes it clash iff the new surface overlaps.
  lemma GrownClash(h: Host, t: Territory, x: string, o: Territory)
    requires Clash(h, t, o).None?
    ensures Clash(h, t.(surfaces := t.surfaces + [x]), o).Some? <==>
      RepositoriesMatch(h, t.repo, o.repo) && AnyOverlap(h, [x], o.surfaces)
  {
    OverlapOfOneMore(h, t.surfaces, x, o.surfaces);
  }

  lemma GrowExcludes(h: Host, s: State, id: string, x: string)
    requires TasksOk(h, s) && Excluded(h, s) && id in s.tasks && s.tasks[id].status == Running
    ensures Excluded(h, s.(tasks := s.tasks[id := s.tasks[id].(surfaces := s.tasks[id].surfaces + [x])]))
      <==> !Intrudes(h, s, id, x)
  {
    var t := s.(tasks := s.tasks[id := s.tasks[id].(surfaces := s.tasks[id].surfaces + [x])]);
    var mine := TerritoryOf(s.tasks[id]);
    assert TerritoryOf(t.tasks[id]) == mine.(surfaces := mine.surfaces + [x]);
    forall o | o in s.tasks && o != id && s.tasks[o].status == Running
      ensures Clash(h, TerritoryOf(t.tasks[id]), TerritoryOf(t.tasks[o])).Some? <==>
        RepositoriesMatch(h, s.tasks[id].repo, s.tasks[o].repo) && AnyOverlap(h, [x], s.tasks[o].surfaces)
    {
      GrownClash(h, mine, x, TerritoryOf(s.tasks[o]));
    }
    if !Intrudes(h, s, id, x) {
      forall a, b | a in t.tasks && b in t.tasks && a != b && t.tasks[a].status == Running && t.tasks[b].status == Running
        ensures Clash(h, TerritoryOf(t.tasks[a]), TerritoryOf(t.tasks[b])).None?
      {
        ClashSymmetric(h, TerritoryOf(t.tasks[a]), TerritoryOf(t.tasks[b]));
      }
    }
  }

  lemma DrainingExcludes(h: Host, s: State, now: int)
    requires Inv(h, s) && Excluded(h, s)
    ensures Known(s) && Excluded(h, Drain(h, s, now))
  {
    QueueIsDrainable(h, s);
    DrainExcludes(h, s, s.queue, now);
  }

  // Nothing new runs and what runs kept its territory.
  lemma FewerRunning(h: Host, s: State, t: State)
    requires Excluded(h, s)
    requires forall id :: id in t.tasks && t.tasks[id].status == Running ==> id in s.tasks && s.tasks[id] == t.tasks[id]
    ensures Excluded(h, t)
  {
  }

  lemma SurfaceStepExcludes(h: Host, s: State, id: string, surface: string)
    requires Inv(h, s) && Excluded(h, s) && Enabled(h, s, Grow(id, surface))
    ensures Excluded(h, Next(h, s, Grow(id, surface))) <==> Harmless(h, s, Grow(id, surface))
  {
    InvKnown(h, s);
    if s.tasks[id].status == Running {
      GrowExcludes(h, s, id, surface);
    } else {
      FewerRunning(h, s, Next(h, s, Grow(id, surface)));
    }
  }

  lemma QuietStepExcludes(h: Host, s: State, step: Step)
    requires Inv(h, s) && Excluded(h, s) && Enabled(h, s, step)
    requires step.Create? || step.Finish? || step.ReleaseStep? || step.CancelStep? || step.Peers?
    ensures Excluded(h, Next(h, s, step))
  {
    InvKnown(h, s);
    FewerRunning(h, s, Next(h, s, step));
  }

  lemma RemovalExcludes(h: Host, s: State, id: string, now: int)
    requires Inv(h, s) && Excluded(h, s) && Enabled(h, s, RemoveStep(id, now))
    ensures Known(s) && Excluded(h, Remove(h, s, id, now))
  {
    RemoveKeepsInv(h, s, id, now);
    DrainingExcludes(h, s.(running := s.running - {id}), now);
  }

  // Exactly when a step keeps exclusion.
  lemma ExclusionStep(h: Host, s: State, step: Step)
    requires Inv(h, s) && Excluded(h, s)
    ensures Excluded(h, Next(h, s, step)) <==> Harmless(h, s, step)
  {
    InvKnown(h, s);
    if Enabled(h, s, step) {
      match step
      case ScheduleStep(id, mode, now) => ScheduleExcludes(h, s, id, mode, now);
      case RemoveStep(id, now) => RemovalExcludes(h, s, id, now);
      case DrainStep(now) => DrainingExcludes(h, s, now);
      case Grow(id, surface) => SurfaceStepExcludes(h, s, id, surface);
      case _ => QuietStepExcludes(h, s, step);
    }
  }

  lemma ScheduleExcludes(h: Host, s: State, id: string, mode: Mode, now: int)
    requires Inv(h, s) && Excluded(h, s) && id in s.tasks && id !in s.arrivals
    ensures Known(s)
    ensures Excluded(h, ScheduleTask(h, s, id, mode, now)) <==> Harmless(h, s, ScheduleStep(id, mode, now))
  {
    ScheduleOutcome(h, s, id, mode, now);
    if !BranchTaken(h, s, id) && s.tasks[id].status == Queued {
      ArrivalStarts(h, s, id, now);
    }
  }

  lemma ArrivalStarts(h: Host, s: State, id: string, now: int)
    requires Inv(h, s) && Excluded(h, s) && id in s.tasks && id !in s.arrivals
    requires !BranchTaken(h, s, id) && s.tasks[id].status == Queued
    ensures Excluded(h, Dispatch(h, s.(arrivals := s.arrivals + [id]), id, now).0) <==> !RunningClash(h, s.tasks, s.tasks[id])
  {
    var mid := s.(arrivals := s.arrivals + [id]);
    assert NoFate(s, id);
    CoreSame(h, s, mid);
    SuccessShape(h, mid, id, now);
    StartExcludes(h, mid, Dispatch(h, mid, id, now).0, id);
  }

  ghost predicate ExcludedUpTo(h: Host, steps: seq<Step>, n: nat)
    requires n <= |steps|
  {
    forall i: nat :: i <= n ==> Excluded(h, Run(h, START, steps[..i]))
  }

  ghost predicate HarmlessUpTo(h: Host, steps: seq<Step>, n: nat)
    requires n <= |steps|
  {
    forall i: nat :: i < n ==> Harmless(h, Run(h, START, steps[..i]), steps[i])
  }

  // Territory exclusion over whole runs, whatever the interleaving: no two running tasks clash in any state iff
  // every step is harmless. In queue and strict mode only the growth of a running task's surfaces can harm.
  lemma {:induction false} RunExcludes(h: Host, steps: seq<Step>, n: nat)
    requires n <= |steps|
    ensures ExcludedUpTo(h, steps, n) <==> HarmlessUpTo(h, steps, n)
  {
    if n == 0 {
      assert steps[..0] == [];
    } else {
      RunExcludes(h, steps, n - 1);
      OneMoreExcluded(h, steps, n - 1);
    }
  }

  lemma OneMoreExcluded(h: Host, steps: seq<Step>, n: nat)
    requires n < |steps|
    ensures ExcludedUpTo(h, steps, n + 1) <==> ExcludedUpTo(h, steps, n) && Excluded(h, Run(h, START, steps[..n + 1]))
    ensures HarmlessUpTo(h, steps, n + 1) <==> HarmlessUpTo(h, steps, n) && Harmless(h, Run(h, START, steps[..n]), steps[n])
    ensures Excluded(h, Run(h, START, steps[..n])) ==>
      (Excluded(h, Run(h, START, steps[..n + 1])) <==> Harmless(h, Run(h, START, steps[..n]), steps[n]))
  {
    assert steps[..n + 1][..n] == steps[..n];
    RunKeepsInv(h, steps[..n]);
    if Excluded(h, Run(h, START, steps[..n])) {
      ExclusionStep(h, Run(h, START, steps[..n]), steps[n]);
    }
  }

  predicate SemaphoreMode(step: Step) {
    step.ScheduleStep? ==> step.mode == QueueMode || step.mode == StrictMode
  }

  // The same for runs that only queue or reject and in which no running task grows: no side condition left.
  lemma SemaphoreRunsExclude(h: Host, steps: seq<Step>)
    requires forall i :: 0 <= i < |steps| ==> SemaphoreMode(steps[i])
    requires forall i :: 0 <= i < |steps| && steps[i].Grow? ==>
      var s := Run(h, START, steps[..i]); steps[i].id in s.tasks ==> s.tasks[steps[i].id].status == Queued
    ensures Excluded(h, Run(h, START, steps))
  {
    forall i: nat | i < |steps|
      ensures Harmless(h, Run(h, START, steps[..i]), steps[i])
    {
      assert SemaphoreMode(steps[i]);
    }
    RunExcludes(h, steps, |steps|);
    assert steps[..|steps|] == steps;
  }
}
