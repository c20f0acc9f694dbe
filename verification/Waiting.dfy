// Why tasks wait in the scheduler's queue: what a drain leaves behind, which steps take away a live task's
// last cause to wait without draining, and when a live task is left over with nothing running.
module Waiting {
  import opened Wrappers
  import opened Federation
  import opened Locks
  import opened Scheduler
  import opened SchedulerRuns

  predicate Live(s: State, id: string) {
    id in s.queue && id in s.tasks && s.tasks[id].status == Queued
  }

  // ---- the three causes to wait

  ghost predicate InTheWay(h: Host, s: State, id: string, o: string)
    requires id in s.tasks
  {
    o in s.tasks && o != id && s.tasks[o].status == Running
    && ClashesOther(h, TerritoryOf(s.tasks[id]), TerritoryOf(s.tasks[o]))
  }

  ghost predicate RunnerBlocks(h: Host, s: State, id: string)
    requires id in s.tasks
  {
    exists o :: InTheWay(h, s, id, o)
  }

  ghost predicate PeerBlocks(h: Host, s: State, id: string)
    requires id in s.tasks
  {
    PeersClash(h, s.peers, TerritoryOf(s.tasks[id]))
  }

  ghost predicate Blocked(h: Host, s: State, id: string)
    requires id in s.tasks
  {
    RunnerBlocks(h, s, id) || PeerBlocks(h, s, id) || BranchTaken(h, s, id)
  }

  // A queued task is refused exactly for one of the three causes.
  lemma BlockedIsRefused(h: Host, s: State, id: string)
    requires Core(h, s) && id in s.tasks && id !in s.dispatched && s.tasks[id].status == Queued
    ensures Refused(h, s, id) <==> Blocked(h, s, id)
  {
    FailedDispatch(h, s, id, 0);
    if RunningClash(h, s.tasks, s.tasks[id]) {
      var o :| o in s.tasks && s.tasks[o].status == Running
        && ClashesOther(h, TerritoryOf(s.tasks[id]), TerritoryOf(s.tasks[o]));
      assert InTheWay(h, s, id, o);
    }
  }

  // With an empty running map only a peer manifest is left as a cause.
  lemma IdleBlocked(h: Host, s: State, id: string)
    requires Core(h, s) && id in s.tasks && s.running == {}
    ensures Blocked(h, s, id) <==> PeerBlocks(h, s, id)
  {
    assert forall o :: InTheWay(h, s, id, o) ==> o in s.running;
    assert forall k :: k !in s.locks;
  }

  // ---- what a drain leaves

  // A running task that nothing blocks stays so when a task is started that nothing blocks.
  lemma StartBlocksNoRunner(h: Host, s: State, id: string, a: string, now: int)
    requires Core(h, s) && id in s.tasks && id !in s.dispatched && s.tasks[id].status == Queued && !Blocked(h, s, id)
    requires a in s.tasks && s.tasks[a].status == Running && !Blocked(h, s, a)
    ensures !Blocked(h, Dispatch(h, s, id, now).0, a)
  {
    SuccessShape(h, s, id, now);
    SuccessfulDispatch(h, s, id, now);
    var t := Dispatch(h, s, id, now).0;
    assert !InTheWay(h, s, id, a);
    ClashSymmetric(h, TerritoryOf(s.tasks[id]), TerritoryOf(s.tasks[a]));
    assert forall o :: o != id ==> (InTheWay(h, t, a, o) <==> InTheWay(h, s, a, o));
    assert !InTheWay(h, t, a, id);
    assert Lockable(KeyOf(h, t.tasks[a])) ==> HoldsBranch(h, t, a);
  }

  lemma StartedUnblocked(h: Host, s: State, id: string, now: int)
    requires Core(h, s) && id in s.tasks && id !in s.dispatched && s.tasks[id].status == Queued && !Blocked(h, s, id)
    ensures var t := Dispatch(h, s, id, now).0;
      id in t.tasks && t.tasks[id].status == Running && !Blocked(h, t, id)
  {
    SuccessShape(h, s, id, now);
    var t := Dispatch(h, s, id, now).0;
    assert TerritoryOf(t.tasks[id]) == TerritoryOf(s.tasks[id]);
    assert forall o :: InTheWay(h, t, id, o) ==> InTheWay(h, s, id, o);
  }

  ghost predicate AllFree(h: Host, s: State, ids: seq<string>) {
    forall id :: id in ids ==> id in s.tasks && s.tasks[id].status == Running && !Blocked(h, s, id)
  }

  // What a drain started is blocked by nothing when the drain is over.
  lemma {:induction false} DrainFreesStarted(h: Host, s: State, waiting: seq<string>, now: int)
    requires Core(h, s) && Drainable(s, waiting)
    ensures var r := DrainScan(h, s, waiting, now); AllFree(h, r.state, r.started)
  {
    if waiting != [] {
      var n := |waiting| - 1;
      var id := waiting[n];
      DrainFreesStarted(h, s, waiting[..n], now);
      DrainKeepsCore(h, s, waiting[..n], now);
      var mid := DrainScan(h, s, waiting[..n], now);
      assert id !in mid.started;
      OneMoreFree(h, mid, id, now);
    }
  }

  lemma OneMoreFree(h: Host, scan: Scan, id: string, now: int)
    requires Core(h, scan.state) && id in scan.state.tasks && id !in scan.state.dispatched
    requires AllFree(h, scan.state, scan.started)
    ensures var r := DrainOne(h, scan, id, now); AllFree(h, r.state, r.started)
  {
    var s := scan.state;
    FailedDispatch(h, s, id, now);
    FailedDispatch(h, s, id, 0);
    if !Refused(h, s, id) {
      BlockedIsRefused(h, s, id);
      StartedUnblocked(h, s, id, now);
      forall a | a in scan.started
        ensures !Blocked(h, Dispatch(h, s, id, now).0, a)
      {
        StartBlocksNoRunner(h, s, id, a, now);
      }
      SuccessShape(h, s, id, now);
    }
  }

  // A live task is kept by a drain exactly when in the state the drain leaves something blocks it. With
  // nothing running there, it is kept exactly when it clashes with a cached peer manifest.
  lemma DrainKeepsExactly(h: Host, s: State, now: int)
    requires Inv(h, s)
    ensures Known(s) && Inv(h, Drain(h, s, now)) && Drain(h, s, now).tasks.Keys == s.tasks.Keys
    ensures Drain(h, s, now).peers == s.peers
    ensures var t := Drain(h, s, now);
      && (forall id :: Live(s, id) ==> (Live(t, id) <==> Blocked(h, t, id)))
      && (forall id :: Live(s, id) ==> (Live(t, id) <==> id in t.queue))
      && (forall id :: Live(t, id) ==> Live(s, id))
      && (t.running == {} ==> forall id :: Live(s, id) ==> (Live(t, id) <==> PeersClash(h, s.peers, TerritoryOf(s.tasks[id]))))
  {
    QueueIsDrainable(h, s);
    DrainKeepsCore(h, s, s.queue, now);
    DrainRefusesKept(h, s, s.queue, now);
    DrainFreesStarted(h, s, s.queue, now);
    DrainKeepsInv(h, s, now);
    var r := DrainScan(h, s, s.queue, now);
    var t := Drain(h, s, now);
    forall id | Live(s, id)
      ensures (Live(t, id) <==> id in t.queue) && (Live(t, id) <==> Blocked(h, t, id))
      ensures t.running == {} ==> (Live(t, id) <==> PeersClash(h, s.peers, TerritoryOf(s.tasks[id])))
    {
      KeptOrStarted(h, s, r, id);
      SameBlocks(h, r.state, t, id);
      if t.running == {} {
        IdleBlocked(h, t, id);
      }
    }
  }

  lemma KeptOrStarted(h: Host, s: State, r: Scan, id: string)
    requires ScanOk(h, s, s.queue, r) && Live(s, id) && id !in s.dispatched && Fates(s)
    requires forall o :: o in r.kept ==> o in r.state.tasks && Refused(h, r.state, o)
    requires AllFree(h, r.state, r.started)
    ensures id in r.state.tasks && TerritoryOf(r.state.tasks[id]) == TerritoryOf(s.tasks[id])
    ensures id in r.kept ==> r.state.tasks[id].status == Queued && Blocked(h, r.state, id)
    ensures id !in r.kept ==> !Blocked(h, r.state, id)
  {
    if id in r.kept {
      BlockedIsRefused(h, r.state, id);
    }
  }

  // Only tasks, locks and peers decide what blocks.
  lemma SameBlocks(h: Host, s: State, t: State, id: string)
    requires id in s.tasks && t.tasks == s.tasks && t.locks == s.locks && t.peers == s.peers
    ensures Blocked(h, t, id) <==> Blocked(h, s, id)
    ensures RunnerBlocks(h, t, id) <==> RunnerBlocks(h, s, id)
  {
    assert forall o :: InTheWay(h, t, id, o) <==> InTheWay(h, s, id, o);
  }

  // ---- every wait has a cause

  ghost predicate Justified(h: Host, s: State) {
    forall id :: Live(s, id) ==> Blocked(h, s, id)
  }

  // The steps that take the last cause of some live task away without draining the queue: the end of the one
  // running task in its way, the release of its branch, or a new peer table.
  ghost predicate Frees(h: Host, s: State, step: Step) {
    Enabled(h, s, step) &&
    match step
    case Finish(x, status) => exists id :: Live(s, id) && id != x && OnlyRunnerBlocks(h, s, id, x)
    case ReleaseStep(x) => exists id :: Live(s, id) && OnlyBranchBlocks(h, s, id, x)
    case Peers(peers) => exists id :: Live(s, id) && OnlyPeersBlock(h, s, id, peers)
    case _ => false
  }

  ghost predicate OnlyRunnerBlocks(h: Host, s: State, id: string, x: string)
    requires id in s.tasks
  {
    !PeerBlocks(h, s, id) && !BranchTaken(h, s, id) && forall o :: InTheWay(h, s, id, o) ==> o == x
  }

  ghost predicate OnlyBranchBlocks(h: Host, s: State, id: string, x: string)
    requires id in s.tasks
  {
    !PeerBlocks(h, s, id) && !RunnerBlocks(h, s, id) && HeldBy(s.locks, KeyOf(h, s.tasks[id]), x)
  }

  ghost predicate OnlyPeersBlock(h: Host, s: State, id: string, peers: PeerTable)
    requires id in s.tasks
  {
    !RunnerBlocks(h, s, id) && !BranchTaken(h, s, id) && !PeersClash(h, peers, TerritoryOf(s.tasks[id]))
  }

  lemma FinishJustifies(h: Host, s: State, x: string, status: Status)
    requires Inv(h, s) && Justified(h, s) && Enabled(h, s, Finish(x, status))
    ensures Justified(h, Next(h, s, Finish(x, status))) <==> !Frees(h, s, Finish(x, status))
  {
    InvKnown(h, s);
    var t := Next(h, s, Finish(x, status));
    forall id | id in s.tasks && id != x
      ensures Live(t, id) <==> Live(s, id)
      ensures Blocked(h, t, id) <==> Blocked(h, s, id) && !OnlyRunnerBlocks(h, s, id, x)
    {
      FinishUnblocks(h, s, t, x, id);
    }
    assert !Live(t, x);
  }

  lemma FinishUnblocks(h: Host, s: State, t: State, x: string, id: string)
    requires id in s.tasks && x in s.tasks && id != x
    requires exists status :: Terminal(status) && t == s.(tasks := s.tasks[x := s.tasks[x].(status := status)])
    ensures Blocked(h, t, id) <==> Blocked(h, s, id) && !OnlyRunnerBlocks(h, s, id, x)
  {
    assert t.tasks[id] == s.tasks[id];
    assert forall o :: InTheWay(h, t, id, o) <==> InTheWay(h, s, id, o) && o != x;
  }

  lemma ReleaseJustifies(h: Host, s: State, x: string)
    requires Inv(h, s) && Justified(h, s) && Enabled(h, s, ReleaseStep(x))
    ensures Justified(h, Next(h, s, ReleaseStep(x))) <==> !Frees(h, s, ReleaseStep(x))
  {
    InvKnown(h, s);
    var t := Next(h, s, ReleaseStep(x));
    forall id | Live(s, id)
      ensures Live(t, id) && (Blocked(h, t, id) <==> !OnlyBranchBlocks(h, s, id, x))
    {
      ReleaseUnblocks(h, s, x, id);
    }
  }

  lemma ReleaseUnblocks(h: Host, s: State, x: string, id: string)
    requires LocksOk(h, s) && id in s.tasks && x in s.tasks && id != x
    ensures Blocked(h, s, id) ==> (Blocked(h, Release(h, s, x), id) <==> !OnlyBranchBlocks(h, s, id, x))
  {
    ReleaseKeepsOthers(h, s, x, id);
    ReleaseOpensBranch(h, s, x, id);
  }

  lemma ReleaseKeepsOthers(h: Host, s: State, x: string, id: string)
    requires id in s.tasks && x in s.tasks
    ensures RunnerBlocks(h, Release(h, s, x), id) <==> RunnerBlocks(h, s, id)
    ensures PeerBlocks(h, Release(h, s, x), id) <==> PeerBlocks(h, s, id)
  {
    assert forall o :: InTheWay(h, Release(h, s, x), id, o) <==> InTheWay(h, s, id, o);
  }

  lemma ReleaseOpensBranch(h: Host, s: State, x: string, id: string)
    requires LocksOk(h, s) && id in s.tasks && x in s.tasks && id != x
    ensures BranchTaken(h, Release(h, s, x), id) <==> BranchTaken(h, s, id) && !HeldBy(s.locks, KeyOf(h, s.tasks[id]), x)
    ensures HeldBy(s.locks, KeyOf(h, s.tasks[id]), x) ==> BranchTaken(h, s, id)
  {
    var key := KeyOf(h, s.tasks[id]);
    if key in s.locks {
      ReleaseFrees(h, s, x, key);
    }
  }

  lemma PeersJustify(h: Host, s: State, peers: PeerTable)
    requires Inv(h, s) && Justified(h, s)
    ensures Justified(h, Next(h, s, Peers(peers))) <==> !Frees(h, s, Peers(peers))
  {
    InvKnown(h, s);
    var t := s.(peers := peers);
    forall id | Live(s, id)
      ensures Live(t, id) && (Blocked(h, t, id) <==> !OnlyPeersBlock(h, s, id, peers))
    {
      assert forall o :: InTheWay(h, t, id, o) <==> InTheWay(h, s, id, o);
    }
  }

  // A cause stays when territories only grow and runners keep running.
  lemma BlockedStays(h: Host, s: State, t: State, id: string)
    requires id in s.tasks && s.tasks.Keys <= t.tasks.Keys && Blocked(h, s, id)
    requires s.peers == t.peers && KeepsLocks(s, t)
    requires forall o :: o in s.tasks ==> GrownFrom(s.tasks[o], t.tasks[o])
    ensures Blocked(h, t, id)
  {
    if RunnerBlocks(h, s, id) {
      var o :| InTheWay(h, s, id, o);
      GrowthKeepsClash(h, TerritoryOf(s.tasks[id]), TerritoryOf(t.tasks[id]), TerritoryOf(s.tasks[o]), TerritoryOf(t.tasks[o]));
      assert InTheWay(h, t, id, o);
    } else if PeerBlocks(h, s, id) {
      GrowthKeepsPeers(h, s.peers, TerritoryOf(s.tasks[id]), TerritoryOf(t.tasks[id]));
    }
  }

  predicate Wider(a: Territory, b: Territory) {
    a.surfaces <= b.surfaces && b == a.(surfaces := b.surfaces)
  }

  predicate GrownFrom(a: Task, b: Task) {
    Wider(TerritoryOf(a), TerritoryOf(b)) && (a.status == Running ==> b.status == Running)
  }

  lemma LongerOverlap(h: Host, a: seq<string>, c: seq<string>, b: seq<string>, d: seq<string>)
    requires AnyOverlap(h, a, b) && a <= c && b <= d
    ensures AnyOverlap(h, c, d)
  {
    var i, j :| 0 <= i < |a| && 0 <= j < |b| && SurfacesOverlap(h, a[i], b[j]);
    assert SurfacesOverlap(h, c[i], d[j]);
  }

  lemma GrowthKeepsClash(h: Host, a: Territory, c: Territory, b: Territory, d: Territory)
    requires ClashesOther(h, a, b) && Wider(a, c) && Wider(b, d)
    ensures ClashesOther(h, c, d)
  {
    if AnyOverlap(h, a.surfaces, b.surfaces) {
      LongerOverlap(h, a.surfaces, c.surfaces, b.surfaces, d.surfaces);
    }
  }

  lemma GrowthKeepsPeers(h: Host, peers: PeerTable, a: Territory, c: Territory)
    requires PeersClash(h, peers, a) && Wider(a, c)
    ensures PeersClash(h, peers, c)
  {
    var p :| p in peers && peers[p].Some? && ClashesAny(h, a, peers[p].value);
    var manifest := peers[p].value;
    var i :| 0 <= i < |manifest| && ClashesOther(h, a, manifest[i]);
    GrowthKeepsClash(h, a, c, manifest[i], manifest[i]);
  }

  lemma ScheduleJustifies(h: Host, s: State, id: string, mode: Mode, now: int)
    requires Inv(h, s) && Justified(h, s) && id in s.tasks && id !in s.arrivals
    ensures Known(s) && Justified(h, ScheduleTask(h, s, id, mode, now))
  {
    ScheduleOutcome(h, s, id, mode, now);
    ScheduleKeepsLocks(h, s, id, mode, now);
    InsertKeepsMembers(s.tasks, s.queue, id);
    ArrivalShape(h, s, id, now);
    assert NoFate(s, id);
    var t := ScheduleTask(h, s, id, mode, now);
    forall o | Live(t, o)
      ensures Blocked(h, t, o)
    {
      if o == id {
        FailedDispatch(h, s, id, 0);
        BlockedIsRefused(h, s, id);
      }
      BlockedStays(h, s, t, o);
    }
  }

  // A task that starts on arrival leaves all others and the queue as they were.
  lemma ArrivalShape(h: Host, s: State, id: string, now: int)
    requires Inv(h, s) && id in s.tasks && id !in s.arrivals
    ensures !BranchTaken(h, s, id) && s.tasks[id].status == Queued ==>
      var t := Dispatch(h, s.(arrivals := s.arrivals + [id]), id, now).0;
      t.tasks == s.tasks[id := s.tasks[id].(status := Running)] && t.queue == s.queue && t.peers == s.peers
      && t.running == s.running + {id}
  {
    var mid := s.(arrivals := s.arrivals + [id]);
    assert NoFate(s, id);
    CoreSame(h, s, mid);
    if !BranchTaken(h, s, id) && s.tasks[id].status == Queued {
      SuccessShape(h, mid, id, now);
    }
  }

  lemma GrowJustifies(h: Host, s: State, id: string, surface: string)
    requires Inv(h, s) && Justified(h, s) && Enabled(h, s, Grow(id, surface))
    ensures Justified(h, Next(h, s, Grow(id, surface)))
  {
    var t := Next(h, s, Grow(id, surface));
    GrowWidens(h, s, id, surface);
    forall o | Live(t, o)
      ensures Blocked(h, t, o)
    {
      assert Live(s, o);
      BlockedStays(h, s, t, o);
    }
  }

  lemma GrowWidens(h: Host, s: State, id: string, surface: string)
    requires Inv(h, s) && Enabled(h, s, Grow(id, surface))
    ensures var t := Next(h, s, Grow(id, surface));
      && t == s.(tasks := t.tasks) && t.tasks.Keys == s.tasks.Keys
      && (forall o :: o in s.tasks ==> GrownFrom(s.tasks[o], t.tasks[o]) && t.tasks[o].status == s.tasks[o].status)
  {
    InvKnown(h, s);
  }

  lemma CreateJustifies(h: Host, s: State, task: Task)
    requires Inv(h, s) && Justified(h, s) && Enabled(h, s, Create(task))
    ensures Justified(h, Next(h, s, Create(task)))
  {
    InvKnown(h, s);
    var t := Next(h, s, Create(task));
    forall o | Live(t, o)
      ensures Blocked(h, t, o)
    {
      assert Live(s, o);
      BlockedStays(h, s, t, o);
    }
  }

  lemma CancelJustifies(h: Host, s: State, id: string)
    requires Inv(h, s) && Justified(h, s)
    ensures Justified(h, CancelQueued(s, id))
  {
    CancelOnlyRemoves(s, id);
    var t := CancelQueued(s, id);
    forall o | Live(t, o)
      ensures Blocked(h, t, o)
    {
      assert Live(s, o);
      SameBlocks(h, s, t, o);
    }
  }

  lemma CancelOnlyRemoves(s: State, id: string)
    ensures forall o :: o in CancelQueued(s, id).queue ==> o in s.queue
  {
    CancelKeepsOrder(s, id);
    var at :| Picks(at, CancelQueued(s, id).queue, s.queue);
  }

  // Whatever happened before, after a drain every live task in the queue has a cause to wait.
  lemma DrainJustifies(h: Host, s: State, now: int)
    requires Inv(h, s)
    ensures Known(s) && Justified(h, Drain(h, s, now))
  {
    DrainKeepsExactly(h, s, now);
  }

  // Exactly when a step leaves every live task in the queue with a cause to wait.
  lemma JustifiedStep(h: Host, s: State, step: Step)
    requires Inv(h, s) && Justified(h, s)
    ensures Justified(h, Next(h, s, step)) <==> !Frees(h, s, step)
  {
    InvKnown(h, s);
    if Enabled(h, s, step) {
      match step
      case Create(task) => CreateJustifies(h, s, task);
      case ScheduleStep(id, mode, now) => ScheduleJustifies(h, s, id, mode, now);
      case Finish(id, status) => FinishJustifies(h, s, id, status);
      case ReleaseStep(id) => ReleaseJustifies(h, s, id);
      case RemoveStep(id, now) =>
        RemoveKeepsInv(h, s, id, now);
        DrainJustifies(h, s.(running := s.running - {id}), now);
      case DrainStep(now) => DrainJustifies(h, s, now);
      case CancelStep(id) => CancelJustifies(h, s, id);
      case Grow(id, surface) => GrowJustifies(h, s, id, surface);
      case Peers(peers) => PeersJustify(h, s, peers);
    }
  }

  ghost predicate JustifiedUpTo(h: Host, steps: seq<Step>, n: nat)
    requires n <= |steps|
  {
    forall i: nat :: i <= n ==> Justified(h, Run(h, START, steps[..i]))
  }

  ghost predicate NothingFreed(h: Host, steps: seq<Step>, n: nat)
    requires n <= |steps|
  {
    forall i: nat :: i < n ==> !Frees(h, Run(h, START, steps[..i]), steps[i])
  }

  // Over whole runs: every live task in the queue has a cause to wait in every state iff no step takes a last
  // cause away.
  lemma {:induction false} RunJustifiedIff(h: Host, steps: seq<Step>, n: nat)
    requires n <= |steps|
    ensures JustifiedUpTo(h, steps, n) <==> NothingFreed(h, steps, n)
  {
    if n == 0 {
      assert steps[..0] == [];
    } else {
      RunJustifiedIff(h, steps, n - 1);
      OneMoreJustified(h, steps, n - 1);
    }
  }

  lemma OneMoreJustified(h: Host, steps: seq<Step>, n: nat)
    requires n < |steps|
    ensures JustifiedUpTo(h, steps, n + 1) <==> JustifiedUpTo(h, steps, n) && Justified(h, Run(h, START, steps[..n + 1]))
    ensures NothingFreed(h, steps, n + 1) <==> NothingFreed(h, steps, n) && !Frees(h, Run(h, START, steps[..n]), steps[n])
    ensures Justified(h, Run(h, START, steps[..n])) ==>
      (Justified(h, Run(h, START, steps[..n + 1])) <==> !Frees(h, Run(h, START, steps[..n]), steps[n]))
  {
    assert steps[..n + 1][..n] == steps[..n];
    RunKeepsInv(h, steps[..n]);
    if Justified(h, Run(h, START, steps[..n])) {
      JustifiedStep(h, Run(h, START, steps[..n]), steps[n]);
    }
  }

  // ---- nothing running, yet something waits

  ghost predicate Stranded(s: State, id: string) {
    s.running == {} && Live(s, id)
  }

  // Nothing is left over but for a peer manifest.
  ghost predicate Attended(h: Host, s: State) {
    forall id :: Stranded(s, id) ==> PeerBlocks(h, s, id)
  }

  // While nothing runs, a new peer table that does not clash with some live task.
  ghost predicate Withdraws(h: Host, s: State, step: Step) {
    step.Peers? && exists id :: Stranded(s, id) && !PeersClash(h, step.peers, TerritoryOf(s.tasks[id]))
  }

  lemma DrainAttends(h: Host, s: State, now: int)
    requires Inv(h, s)
    ensures Known(s) && Attended(h, Drain(h, s, now))
  {
    DrainKeepsExactly(h, s, now);
    var t := Drain(h, s, now);
    forall id | Stranded(t, id)
      ensures PeerBlocks(h, t, id)
    {
      IdleBlocked(h, t, id);
    }
  }

  lemma ScheduleAttends(h: Host, s: State, id: string, mode: Mode, now: int)
    requires Inv(h, s) && Attended(h, s) && id in s.tasks && id !in s.arrivals
    ensures Known(s) && Attended(h, ScheduleTask(h, s, id, mode, now))
  {
    ScheduleOutcome(h, s, id, mode, now);
    InsertKeepsMembers(s.tasks, s.queue, id);
    ArrivalShape(h, s, id, now);
    assert NoFate(s, id);
    FailedDispatch(h, s, id, 0);
    var t := ScheduleTask(h, s, id, mode, now);
    forall o | Stranded(t, o)
      ensures PeerBlocks(h, t, o)
    {
      if o == id {
        BlockedIsRefused(h, s, id);
        IdleBlocked(h, s, id);
      } else {
        assert Stranded(s, o);
      }
    }
  }

  lemma GrowAttends(h: Host, s: State, id: string, surface: string)
    requires Inv(h, s) && Attended(h, s) && Enabled(h, s, Grow(id, surface))
    ensures Attended(h, Next(h, s, Grow(id, surface)))
  {
    InvKnown(h, s);
    var t := Next(h, s, Grow(id, surface));
    forall o | Stranded(t, o)
      ensures PeerBlocks(h, t, o)
    {
      assert Stranded(s, o);
      GrowthKeepsPeers(h, s.peers, TerritoryOf(s.tasks[o]), TerritoryOf(t.tasks[o]));
    }
  }

  // A step that neither drains nor schedules nor touches territories or peers.
  lemma QuietStepAttends(h: Host, s: State, step: Step)
    requires Inv(h, s) && Attended(h, s) && Enabled(h, s, step)
    requires step.Create? || step.Finish? || step.ReleaseStep? || step.CancelStep?
    ensures Attended(h, Next(h, s, step))
  {
    InvKnown(h, s);
    var t := Next(h, s, step);
    if step.CancelStep? {
      CancelOnlyRemoves(s, step.id);
    }
    forall o | Stranded(t, o)
      ensures PeerBlocks(h, t, o)
    {
      assert Stranded(s, o);
    }
  }

  // Exactly when a step leaves every live task attended to: only a peer table can break it.
  lemma AttendedStep(h: Host, s: State, step: Step)
    requires Inv(h, s) && Attended(h, s)
    ensures Attended(h, Next(h, s, step)) <==> !Withdraws(h, s, step)
  {
    InvKnown(h, s);
    if Enabled(h, s, step) {
      match step
      case ScheduleStep(id, mode, now) => ScheduleAttends(h, s, id, mode, now);
      case RemoveStep(id, now) =>
        RemoveKeepsInv(h, s, id, now);
        DrainAttends(h, s.(running := s.running - {id}), now);
      case DrainStep(now) => DrainAttends(h, s, now);
      case Grow(id, surface) => GrowAttends(h, s, id, surface);
      case Peers(peers) => PeersAttend(h, s, peers);
      case _ => QuietStepAttends(h, s, step);
    }
  }

  lemma PeersAttend(h: Host, s: State, peers: PeerTable)
    requires Inv(h, s) && Attended(h, s)
    ensures Attended(h, Next(h, s, Peers(peers))) <==> !Withdraws(h, s, Peers(peers))
  {
    InvKnown(h, s);
    var t := s.(peers := peers);
    assert forall id :: Stranded(t, id) <==> Stranded(s, id);
    assert forall id :: Stranded(s, id) ==> (PeerBlocks(h, t, id) <==> PeersClash(h, peers, TerritoryOf(s.tasks[id])));
  }

  ghost predicate AttendedUpTo(h: Host, steps: seq<Step>, n: nat)
    requires n <= |steps|
  {
    forall i: nat :: i <= n ==> Attended(h, Run(h, START, steps[..i]))
  }

  ghost predicate NothingWithdrawn(h: Host, steps: seq<Step>, n: nat)
    requires n <= |steps|
  {
    forall i: nat :: i < n ==> !Withdraws(h, Run(h, START, steps[..i]), steps[i])
  }

  // Over whole runs: in every state with an empty running map each live task in the queue clashes with a
  // cached peer manifest, iff no peer table installed while nothing ran missed a live task.
  lemma {:induction false} RunAttendedIff(h: Host, steps: seq<Step>, n: nat)
    requires n <= |steps|
    ensures AttendedUpTo(h, steps, n) <==> NothingWithdrawn(h, steps, n)
  {
    if n == 0 {
      assert steps[..0] == [];
    } else {
      RunAttendedIff(h, steps, n - 1);
      OneMoreAttended(h, steps, n - 1);
    }
  }

  lemma OneMoreAttended(h: Host, steps: seq<Step>, n: nat)
    requires n < |steps|
    ensures AttendedUpTo(h, steps, n + 1) <==> AttendedUpTo(h, steps, n) && Attended(h, Run(h, START, steps[..n + 1]))
    ensures NothingWithdrawn(h, steps, n + 1) <==>
      NothingWithdrawn(h, steps, n) && !Withdraws(h, Run(h, START, steps[..n]), steps[n])
    ensures Attended(h, Run(h, START, steps[..n])) ==>
      (Attended(h, Run(h, START, steps[..n + 1])) <==> !Withdraws(h, Run(h, START, steps[..n]), steps[n]))
  {
    assert steps[..n + 1][..n] == steps[..n];
    RunKeepsInv(h, steps[..n]);
    if Attended(h, Run(h, START, steps[..n])) {
      AttendedStep(h, Run(h, START, steps[..n]), steps[n]);
    }
  }

  predicate NoPeers(step: Step) {
    step.Peers? ==> step.peers == map[]
  }

  lemma {:induction false} PeersStayEmpty(h: Host, steps: seq<Step>)
    requires forall i :: 0 <= i < |steps| ==> NoPeers(steps[i])
    ensures Run(h, START, steps).peers == map[]
  {
    if steps != [] {
      var n := |steps| - 1;
      PeersStayEmpty(h, steps[..n]);
      RunKeepsInv(h, steps[..n]);
      StepKeepsPeers(h, Run(h, START, steps[..n]), steps[n]);
    }
  }

  lemma StepKeepsPeers(h: Host, s: State, step: Step)
    requires Inv(h, s)
    ensures step.Peers? || Next(h, s, step).peers == s.peers
  {
    InvKnown(h, s);
    if Enabled(h, s, step) {
      match step
      case ScheduleStep(id, mode, now) =>
        ScheduleOutcome(h, s, id, mode, now);
        ArrivalShape(h, s, id, now);
      case RemoveStep(id, now) =>
        RemoveKeepsInv(h, s, id, now);
        DrainKeepsExactly(h, s.(running := s.running - {id}), now);
      case DrainStep(now) => DrainKeepsExactly(h, s, now);
      case _ =>
    }
  }

  // Without peer manifests nothing is stranded: in no reachable state with an empty running map is a task
  // waiting in the queue still live.
  lemma {:induction false} NoRunStrands(h: Host, steps: seq<Step>)
    requires forall i :: 0 <= i < |steps| ==> NoPeers(steps[i])
    ensures forall id :: !Stranded(Run(h, START, steps), id)
  {
    if steps != [] {
      var n := |steps| - 1;
      var s := Run(h, START, steps[..n]);
      NoRunStrands(h, steps[..n]);
      RunKeepsInv(h, steps[..n]);
      AttendedStep(h, s, steps[n]);
      PeersStayEmpty(h, steps);
    }
  }
}
