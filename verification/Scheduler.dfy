// The territory scheduler (pkg/server/http/scheduler.go) over the task table (pkg/server/task/task.go).
module Scheduler {
  import opened Wrappers
  import opened Federation
  import opened Locks

  datatype Mode = QueueMode | WarnMode | StrictMode | DisabledMode

  // Only dispatching moves a task to Running; the preparing state is not used.
  datatype Status = Queued | Running | Completed | Failed | Canceled

  predicate Terminal(s: Status) {
    s == Completed || s == Failed || s == Canceled
  }

  datatype Task = Task(
    id: string,
    repo: string,
    branch: string,
    surfaces: seq<string>,
    summary: string,
    priority: int,
    status: Status)

  function TerritoryOf(t: Task): Territory {
    Territory(t.id, t.repo, t.branch, t.surfaces, t.summary)
  }

  function KeyOf(h: Host, t: Task): BranchKey {
    MakeBranchKey(h, t.repo, t.branch)
  }

  // The scheduler with the task table, the lock table and the cached peer manifests. The last four fields
  // record history: ids in the order they were scheduled, and what became of each.
  datatype State = State(
    tasks: map<string, Task>,
    queue: seq<string>,
    running: set<string>,
    locks: Table,
    peers: PeerTable,
    arrivals: seq<string>,
    dispatched: set<string>,
    cancelled: set<string>,
    rejected: set<string>)

  datatype DispatchError = BranchLockedError | TransitionError

  function ClampPriority(p: int): (r: int)
    ensures -100 <= r <= 100
    ensures -100 <= p <= 100 ==> r == p
    ensures p < -100 ==> r == -100
    ensures p > 100 ==> r == 100
  {
    if p < -100 then -100 else if p > 100 then 100 else p
  }

  ghost predicate RunningClash(h: Host, tasks: map<string, Task>, t: Task) {
    exists o :: o in tasks && tasks[o].status == Running && ClashesOther(h, TerritoryOf(t), TerritoryOf(tasks[o]))
  }

  ghost predicate Conflicting(h: Host, s: State, t: Task) {
    RunningClash(h, s.tasks, t) || PeersClash(h, s.peers, TerritoryOf(t))
  }

  // dispatchUnderLock: claim the branch, move to running, or give the branch back.
  function Dispatch(h: Host, s: State, id: string, now: int): (State, Option<DispatchError>)
    requires id in s.tasks
  {
    var t := s.tasks[id];
    var key := KeyOf(h, t);
    if Lockable(key) && HeldByOther(s.locks, key, id) then (s, Some(BranchLockedError))
    else if t.status != Queued then
      (s.(locks := Released(Claimed(s.locks, key, id, now), key, id)), Some(TransitionError))
    else
      (s.(locks := Claimed(s.locks, key, id, now), tasks := s.tasks[id := t.(status := Running)],
       running := s.running + {id}, dispatched := s.dispatched + {id}), None)
  }

  // A task that cannot be dispatched now: it clashes, its branch is taken, or it is no longer queued.
  ghost predicate Refused(h: Host, s: State, id: string)
    requires id in s.tasks
  {
    Conflicting(h, s, s.tasks[id]) || Dispatch(h, s, id, 0).1.Some?
  }

  function InsertByPriority(tasks: map<string, Task>, queue: seq<string>, id: string): seq<string>
    requires id in tasks && forall q :: q in queue ==> q in tasks
  {
    if queue == [] then [id]
    else if ClampPriority(tasks[id].priority) > ClampPriority(tasks[queue[0]].priority) then [id] + queue
    else [queue[0]] + InsertByPriority(tasks, queue[1..], id)
  }

  ghost predicate Known(s: State) {
    && (forall id :: id in s.tasks ==> s.tasks[id].id == id)
    && (forall id :: id in s.queue ==> id in s.tasks)
  }

  ghost function ScheduleTask(h: Host, s: State, id: string, mode: Mode, now: int): State
    requires id in s.tasks && Known(s)
  {
    var arrived := s.(arrivals := s.arrivals + [id]);
    var reject := arrived.(rejected := s.rejected + {id});
    var wait := arrived.(queue := InsertByPriority(s.tasks, s.queue, id));
    var (after, err) := Dispatch(h, arrived, id, now);
    match mode
    case StrictMode =>
      if Conflicting(h, s, s.tasks[id]) then reject
      else if err.Some? then after.(rejected := s.rejected + {id})
      else after
    case QueueMode =>
      if Conflicting(h, s, s.tasks[id]) then wait
      else if err == Some(BranchLockedError) then wait
      else if err.Some? then after.(rejected := s.rejected + {id})
      else after
    case _ =>
      if id in s.running then reject
      else if err.Some? then after.(rejected := s.rejected + {id})
      else after
  }

  // A drain in progress: the tasks kept and started so far, each in queue order.
  datatype Scan = Scan(state: State, kept: seq<string>, started: seq<string>)

  // One turn of the drain loop: the task is dispatched, or kept where it stood.
  ghost function DrainOne(h: Host, scan: Scan, id: string, now: int): (r: Scan)
    requires id in scan.state.tasks
    ensures r.state.tasks.Keys == scan.state.tasks.Keys
  {
    var s := scan.state;
    if Conflicting(h, s, s.tasks[id]) then scan.(kept := scan.kept + [id])
    else
      var (after, err) := Dispatch(h, s, id, now);
      if err.Some? then Scan(after, scan.kept + [id], scan.started)
      else Scan(after, scan.kept, scan.started + [id])
  }

  // drainUnderLock over the first tasks of the queue.
  ghost function DrainScan(h: Host, s: State, waiting: seq<string>, now: int): (r: Scan)
    requires forall id :: id in waiting ==> id in s.tasks
    ensures r.state.tasks.Keys == s.tasks.Keys
  {
    if waiting == [] then Scan(s, [], [])
    else
      var n := |waiting| - 1;
      DrainOne(h, DrainScan(h, s, waiting[..n], now), waiting[n], now)
  }

  lemma DrainScanStep(h: Host, s: State, i: nat, now: int)
    requires Known(s) && i < |s.queue|
    ensures DrainScan(h, s, s.queue[..i + 1], now) ==
      DrainOne(h, DrainScan(h, s, s.queue[..i], now), s.queue[i], now)
  {
    assert s.queue[..i + 1][..i] == s.queue[..i];
  }

  ghost function Drain(h: Host, s: State, now: int): State
    requires Known(s)
  {
    var scan := DrainScan(h, s, s.queue, now);
    scan.state.(queue := scan.kept)
  }

  function Release(h: Host, s: State, id: string): State
    requires id in s.tasks
  {
    s.(locks := Released(s.locks, KeyOf(h, s.tasks[id]), id))
  }

  // complete after its lock release: forget the task and drain.
  ghost function Remove(h: Host, s: State, id: string, now: int): State
    requires Known(s)
  {
    Drain(h, s.(running := s.running - {id}), now)
  }

  function Without(queue: seq<string>, id: string): seq<string> {
    if queue == [] then []
    else if queue[0] == id then queue[1..]
    else [queue[0]] + Without(queue[1..], id)
  }

  function CancelQueued(s: State, id: string): State {
    if id in s.queue then s.(queue := Without(s.queue, id), cancelled := s.cancelled + {id}) else s
  }

  class TerritoryScheduler {
    const host: Host
    const lockManager: BranchLockManager
    const territoryManager: TerritoryManager
    var mode: Mode
    var tasks: map<string, Task>
    var queue: seq<string>
    var running: set<string>
    ghost var arrivals: seq<string>
    ghost var dispatched: set<string>
    ghost var cancelled: set<string>
    ghost var rejected: set<string>

    constructor (host: Host, mode: Mode, lockManager: BranchLockManager, territoryManager: TerritoryManager)
      ensures this.host == host && this.mode == mode && this.lockManager == lockManager
      ensures this.territoryManager == territoryManager
      ensures View() == State(map[], [], {}, lockManager.locks, territoryManager.peers, [], {}, {}, {})
    {
      this.host, this.mode := host, mode;
      this.lockManager, this.territoryManager := lockManager, territoryManager;
      tasks, queue, running := map[], [], {};
      arrivals, dispatched, cancelled, rejected := [], {}, {}, {};
    }

    ghost function View(): State
      reads this, lockManager, territoryManager
    {
      State(tasks, queue, running, lockManager.locks, territoryManager.peers, arrivals, dispatched, cancelled, rejected)
    }

    ghost predicate Ready()
      reads this, lockManager, territoryManager
    {
      lockManager.host == host && territoryManager.host == host && Known(View())
    }

    // The territories of the running-status tasks (RunningSource).
    method RunningTerritories() returns (manifest: seq<Territory>)
      ensures forall t :: t in manifest <==> exists o :: o in tasks && tasks[o].status == Running && t == TerritoryOf(tasks[o])
    {
      manifest := [];
      var left := tasks.Keys;
      while left != {}
        invariant left <= tasks.Keys
        invariant forall t :: t in manifest <==>
          exists o :: o in tasks && o !in left && tasks[o].status == Running && t == TerritoryOf(tasks[o])
        decreases left
      {
        var o :| o in left;
        if tasks[o].status == Running {
          manifest := manifest + [TerritoryOf(tasks[o])];
        }
        left := left - {o};
      }
    }

    method FindConflict(id: string) returns (conflict: Option<Conflict>)
      requires Ready() && id in tasks
      ensures conflict.Some? <==> Conflicting(host, View(), tasks[id])
    {
      var manifest := RunningTerritories();
      var t := TerritoryOf(tasks[id]);
      conflict := territoryManager.FindRunningConflict(t, manifest);
      if ClashesAny(host, t, manifest) {
        var i :| 0 <= i < |manifest| && ClashesOther(host, t, manifest[i]);
        assert manifest[i] in manifest;
      }
      if o :| o in tasks && tasks[o].status == Running && ClashesOther(host, t, TerritoryOf(tasks[o])) {
        assert TerritoryOf(tasks[o]) in manifest;
        var i :| 0 <= i < |manifest| && manifest[i] == TerritoryOf(tasks[o]);
      }
    }

    method DispatchUnderLock(id: string, now: int) returns (err: Option<DispatchError>)
      requires Ready() && id in tasks
      modifies this`tasks, this`running, this`dispatched, lockManager`locks
      ensures Ready() && (View(), err) == Dispatch(host, old(View()), id, now)
    {
      var t := tasks[id];
      if t.repo != "" && t.branch != "" {
        var refused := lockManager.ClaimLock(t.repo, t.branch, id, now);
        if refused.Some? {
          return Some(BranchLockedError);
        }
      }
      if t.status != Queued {
        if t.repo != "" && t.branch != "" {
          var ignored := lockManager.ReleaseLock(t.repo, t.branch, id);
        }
        return Some(TransitionError);
      }
      tasks := tasks[id := t.(status := Running)];
      running := running + {id};
      dispatched := dispatched + {id};
      return None;
    }

    // Higher clamped priority first; behind everything of its own priority.
    method EnqueueByPriority(id: string)
      requires Ready() && id in tasks
      modifies this`queue
      ensures Ready() && queue == InsertByPriority(tasks, old(queue), id)
    {
      var priority := ClampPriority(tasks[id].priority);
      var insertPos := |queue|;
      var i := 0;
      while i < |queue|
        invariant 0 <= i <= |queue| && insertPos == |queue|
        invariant forall j :: 0 <= j < i ==> priority <= ClampPriority(tasks[queue[j]].priority)
      {
        if priority > ClampPriority(tasks[queue[i]].priority) {
          insertPos := i;
          break;
        }
        i := i + 1;
      }
      InsertPosition(tasks, queue, id, insertPos);
      if insertPos == |queue| {
        queue := queue + [id];
      } else {
        queue := queue[..insertPos] + [id] + queue[insertPos..];
      }
    }

    method DispatchNow(id: string, now: int) returns (ok: bool)
      requires Ready() && id in tasks
      modifies this`tasks, this`running, this`dispatched, lockManager`locks
      ensures Ready()
      ensures id in old(running) ==> !ok && View() == old(View())
      ensures id !in old(running) ==> View() == Dispatch(host, old(View()), id, now).0
      ensures id !in old(running) ==> (ok <==> Dispatch(host, old(View()), id, now).1.None?)
    {
      if id in running {
        return false;
      }
      var err := DispatchUnderLock(id, now);
      return err.None?;
    }

    // Decides what becomes of a new task. `queued` holds only when it joined the queue, `ok` unless it was
    // turned away.
    method Schedule(id: string, now: int) returns (queued: bool, ok: bool)
      requires Ready() && id in tasks && id !in queue && id !in rejected
      modifies this`tasks, this`queue, this`running, lockManager`locks
      modifies this`arrivals, this`dispatched, this`rejected
      ensures Ready() && View() == ScheduleTask(host, old(View()), id, mode, now)
      ensures queued <==> id in queue
      ensures ok <==> id !in rejected
    {
      arrivals := arrivals + [id];
      if mode == DisabledMode || mode == WarnMode {
        ok := DispatchNow(id, now);
        if !ok {
          rejected := rejected + {id};
        }
        return false, ok;
      }
      var conflict := FindConflict(id);
      if mode == StrictMode {
        if conflict.Some? {
          rejected := rejected + {id};
          return false, false;
        }
        var err := DispatchUnderLock(id, now);
        if err.Some? {
          rejected := rejected + {id};
          return false, false;
        }
        return false, true;
      }
      ghost var waiting := queue;
      if conflict.Some? {
        EnqueueByPriority(id);
        InsertKeepsMembers(tasks, waiting, id);
        return true, true;
      }
      var err := DispatchUnderLock(id, now);
      if err.Some? {
        if err.value == BranchLockedError {
          EnqueueByPriority(id);
          InsertKeepsMembers(tasks, waiting, id);
          return true, true;
        }
        rejected := rejected + {id};
        return false, false;
      }
      return false, true;
    }

    method DrainStep(id: string, kept: seq<string>, started: seq<string>, now: int)
      returns (keptNow: seq<string>, startedNow: seq<string>)
      requires Ready() && id in tasks
      modifies this`tasks, this`running, this`dispatched, lockManager`locks
      ensures Ready() && Scan(View(), keptNow, startedNow) == DrainOne(host, Scan(old(View()), kept, started), id, now)
    {
      var conflict := FindConflict(id);
      if conflict.Some? {
        return kept + [id], started;
      }
      var err := DispatchUnderLock(id, now);
      if err.Some? {
        return kept + [id], started;
      }
      return kept, started + [id];
    }

    method DrainUnderLock(now: int) returns (toStart: seq<string>)
      requires Ready()
      modifies this`tasks, this`queue, this`running, this`dispatched, lockManager`locks
      ensures Ready() && View() == Drain(host, old(View()), now)
      ensures toStart == DrainScan(host, old(View()), old(queue), now).started
    {
      var kept := [];
      toStart := [];
      ghost var s := View();
      for i := 0 to |queue|
        invariant queue == s.queue && Ready() && forall id :: id in kept ==> id in tasks
        invariant Scan(View(), kept, toStart) == DrainScan(host, s, queue[..i], now)
      {
        DrainScanStep(host, s, i, now);
        kept, toStart := DrainStep(queue[i], kept, toStart, now);
      }
      assert queue[..|queue|] == queue;
      queue := kept;
    }

    method ReleaseBranchLock(id: string)
      requires Ready() && id in tasks
      modifies lockManager`locks
      ensures Ready() && View() == Release(host, old(View()), id)
    {
      var t := tasks[id];
      if t.repo != "" && t.branch != "" {
        var ignored := lockManager.ReleaseLock(t.repo, t.branch, id);
      }
    }

    method RemoveAndDrain(id: string, now: int) returns (toStart: seq<string>)
      requires Ready()
      modifies this`tasks, this`queue, this`running, this`dispatched, lockManager`locks
      ensures Ready() && View() == Remove(host, old(View()), id, now)
      ensures toStart == DrainScan(host, old(View()).(running := old(running) - {id}), old(queue), now).started
    {
      running := running - {id};
      toStart := DrainUnderLock(now);
    }

    // The end of a task. The two halves do not share one critical section: runs may put other steps between.
    method Complete(id: string, now: int) returns (toStart: seq<string>)
      requires Ready() && id in tasks
      modifies this`tasks, this`queue, this`running, this`dispatched, lockManager`locks
      ensures Ready() && View() == Remove(host, Release(host, old(View()), id), id, now)
    {
      ReleaseBranchLock(id);
      toStart := RemoveAndDrain(id, now);
    }

    // Takes the task out of the queue, wherever it waits; the rest keeps its order.
    method Cancel(id: string) returns (found: bool)
      requires Ready()
      modifies this`queue, this`cancelled
      ensures Ready() && View() == CancelQueued(old(View()), id)
      ensures found <==> id in old(queue)
    {
      var idx := 0;
      while idx < |queue| && queue[idx] != id
        invariant 0 <= idx <= |queue|
        invariant id !in queue[..idx]
      {
        idx := idx + 1;
      }
      if idx == |queue| {
        assert queue[..idx] == queue;
        return false;
      }
      WithoutAt(queue, idx);
      queue := queue[..idx] + queue[idx + 1..];
      cancelled := cancelled + {id};
      return true;
    }
  }

  lemma {:induction false} InsertKeepsMembers(tasks: map<string, Task>, queue: seq<string>, id: string)
    requires id in tasks && forall q :: q in queue ==> q in tasks
    ensures forall q :: q in InsertByPriority(tasks, queue, id) <==> q == id || q in queue
  {
    if queue != [] {
      InsertKeepsMembers(tasks, queue[1..], id);
      assert queue == [queue[0]] + queue[1..];
    }
  }

  lemma {:induction false} WithoutAt(queue: seq<string>, i: nat)
    requires i < |queue| && queue[i] !in queue[..i]
    ensures Without(queue, queue[i]) == queue[..i] + queue[i + 1..]
  {
    if i > 0 {
      assert queue[0] == queue[..i][0];
      assert queue[1..][..i - 1] == queue[..i][1..];
      WithoutAt(queue[1..], i - 1);
      assert queue[..i] == [queue[0]] + queue[1..][..i - 1];
    }
  }

  lemma {:induction false} InsertPosition(tasks: map<string, Task>, queue: seq<string>, id: string, pos: nat)
    requires id in tasks && forall q :: q in queue ==> q in tasks
    requires pos <= |queue|
    requires forall j :: 0 <= j < pos ==> ClampPriority(tasks[id].priority) <= ClampPriority(tasks[queue[j]].priority)
    requires pos < |queue| ==> ClampPriority(tasks[id].priority) > ClampPriority(tasks[queue[pos]].priority)
    ensures InsertByPriority(tasks, queue, id) == queue[..pos] + [id] + queue[pos..]
  {
    if queue != [] && pos > 0 {
      InsertPosition(tasks, queue[1..], id, pos - 1);
      assert queue[..pos] == [queue[0]] + queue[1..][..pos - 1];
    }
  }
}
