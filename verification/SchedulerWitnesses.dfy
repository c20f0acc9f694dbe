// Concrete runs of the scheduler showing that the side conditions of its theorems are needed.
module SchedulerWitnesses {
  import opened Wrappers
  import opened Text
  import opened Federation
  import opened Locks
  import opened Scheduler
  import opened SchedulerRuns
  import opened Waiting

  // A host on which nothing is rewritten and only equal paths match.
  const PLAIN := Host((s: string) => s, (p: string, n: string) => p == n, (s: string) => s, (s: string) => s,
                      (s: string) => s + "#")

  lemma PlainLetter(c: char)
    requires 'a' <= c <= 'z'
    ensures TrimSpace([c]) == [c] && CleanSurface(PLAIN, [c]) == [c] && !ContainsAny([c], "*?[]")
    ensures NormalizeRepo(PLAIN, [c]) == [c] && NormalizeTaskSummary(PLAIN, [c]) == [c]
  {
    assert TrimLeft([c]) == [c];
    assert TrimPrefix([c], "./") == [c] && TrimSuffix([c], "/") == [c] && TrimSuffix([c], ".git") == [c];
    assert Index([c][1..], "://") == -1;
    assert FirstWord([c]) == [c] by {
      assert [c] == [c] + FirstWord([c][1..]);
    }
    assert TrimLeft([c][1..]) == "";
  }

  // Two letters name overlapping surfaces only when they are the same letter.
  lemma PlainSurfaces(c: char, d: char)
    requires 'a' <= c <= 'z' && 'a' <= d <= 'z'
    ensures AnyOverlap(PLAIN, [[c]], [[d]]) <==> c == d
  {
    PlainLetter(c);
    PlainLetter(d);
    assert [c][0] == c && [d][0] == d;
    if c == d {
      assert SurfacesOverlap(PLAIN, [[c]][0], [[d]][0]);
    } else {
      assert !([c] + "/" <= [d]) && !([d] + "/" <= [c]);
      assert [c] != [d] && [c] != "." && [d] != ".";
      assert !SurfacesOverlap(PLAIN, [c], [d]);
    }
  }

  const FIRST := Task("a", "r", "", ["x"], "p", 0, Queued)
  const SECOND := Task("b", "r", "", ["y"], "q", 0, Queued)

  lemma NoClashAtFirst()
    ensures Clash(PLAIN, TerritoryOf(SECOND), TerritoryOf(FIRST)).None?
    ensures RepositoriesMatch(PLAIN, "r", "r")
  {
    PlainLetter('r');
    PlainLetter('p');
    PlainLetter('q');
    PlainSurfaces('y', 'x');
    assert "p" == ['p'] && "q" == ['q'] && "r" == ['r'] && ["x"] == [['x']] && ["y"] == [['y']];
    assert ("r" + "\n" + "p")[2] == 'p' && ("r" + "\n" + "q")[2] == 'q';
    assert ("r" + "\n" + "p" + "#")[2] == 'p' && ("r" + "\n" + "q" + "#")[2] == 'q';
  }

  // Two tasks of one repository with empty summaries clash although they share neither branch nor surface.
  lemma EmptySummariesClash()
    ensures var a, b := TerritoryOf(FIRST.(summary := "")), TerritoryOf(SECOND.(summary := ""));
      && Clash(PLAIN, a, b) == Some(DuplicateTask)
      && a.taskId != b.taskId && !SameBranch(PLAIN, a, b) && !AnyOverlap(PLAIN, a.surfaces, b.surfaces)
  {
    PlainLetter('r');
    PlainSurfaces('x', 'y');
    assert "r" == ['r'] && ["x"] == [['x']] && ["y"] == [['y']];
    assert TrimSpace("") == "" && "a"[0] == 'a' && "b"[0] == 'b';
    var mark := "r" + "\n" + "" + "#";
    assert mark[0] == 'r';
  }

  // The run of a list of steps, unfolded from the front.
  lemma {:induction false} RunFrom(h: Host, s: State, step: Step, rest: seq<Step>)
    ensures Run(h, s, [step] + rest) == Run(h, Next(h, s, step), rest)
  {
    var all := [step] + rest;
    if rest == [] {
      assert all[..0] == [];
    } else {
      var n := |rest| - 1;
      RunFrom(h, s, step, rest[..n]);
      assert all[..n + 1] == [step] + rest[..n];
    }
  }

  lemma Creates(h: Host, s: State, t: Task)
    requires Inv(h, s) && t.id !in s.tasks && t.status == Queued
    ensures Next(h, s, Create(t)) == s.(tasks := s.tasks[t.id := t]) && Inv(h, s.(tasks := s.tasks[t.id := t]))
  {
    NextKeepsInv(h, s, Create(t));
    assert t.(status := Queued) == t;
  }

  // A fresh task without a branch that clashes with nothing starts.
  lemma StartsFreely(h: Host, s: State, id: string) returns (t: State)
    requires Inv(h, s) && id in s.tasks && id !in s.arrivals
    requires s.tasks[id].status == Queued && s.tasks[id].branch == "" && !Conflicting(h, s, s.tasks[id])
    ensures t == Next(h, s, ScheduleStep(id, QueueMode, 0)) && Inv(h, t)
    ensures t.tasks == s.tasks[id := s.tasks[id].(status := Running)] && t.arrivals == s.arrivals + [id]
    ensures t.peers == s.peers
  {
    t := Next(h, s, ScheduleStep(id, QueueMode, 0));
    NextKeepsInv(h, s, ScheduleStep(id, QueueMode, 0));
    ScheduleOutcome(h, s, id, QueueMode, 0);
  }

  function StartingTwo(a: Task, b: Task, rest: seq<Step>): seq<Step> {
    [Create(a)] + ([Create(b)] + ([ScheduleStep(a.id, QueueMode, 0)] + ([ScheduleStep(b.id, QueueMode, 0)] + rest)))
  }

  lemma StartBoth(h: Host, a: Task, b: Task, rest: seq<Step>) returns (s: State)
    requires a.id != b.id && a.status == b.status == Queued && a.branch == b.branch == ""
    requires Clash(h, TerritoryOf(b), TerritoryOf(a)).None?
    ensures Inv(h, s) && s.tasks == map[a.id := a.(status := Running), b.id := b.(status := Running)]
    ensures Run(h, START, StartingTwo(a, b, rest)) == Run(h, s, rest)
  {
    var later := [ScheduleStep(a.id, QueueMode, 0)] + ([ScheduleStep(b.id, QueueMode, 0)] + rest);
    Creates(h, START, a);
    var s1 := START.(tasks := map[a.id := a]);
    Creates(h, s1, b);
    var s2 := s1.(tasks := map[a.id := a, b.id := b]);
    RunFrom(h, s1, Create(b), later);
    RunFrom(h, START, Create(a), [Create(b)] + later);
    s := ScheduleBoth(h, s2, a, b, rest);
  }

  lemma ScheduleBoth(h: Host, s2: State, a: Task, b: Task, rest: seq<Step>) returns (s: State)
    requires a.id != b.id && a.status == b.status == Queued && a.branch == b.branch == ""
    requires Clash(h, TerritoryOf(b), TerritoryOf(a)).None?
    requires Inv(h, s2) && s2.tasks == map[a.id := a, b.id := b] && s2.arrivals == [] && s2.peers == map[]
    ensures Inv(h, s) && s.tasks == map[a.id := a.(status := Running), b.id := b.(status := Running)]
    ensures Run(h, s2, [ScheduleStep(a.id, QueueMode, 0)] + ([ScheduleStep(b.id, QueueMode, 0)] + rest)) == Run(h, s, rest)
  {
    var s3 := ScheduleFirst(h, s2, a, b);
    RunFrom(h, s2, ScheduleStep(a.id, QueueMode, 0), [ScheduleStep(b.id, QueueMode, 0)] + rest);
    s := ScheduleSecond(h, s3, a, b, rest);
  }

  lemma ScheduleFirst(h: Host, s2: State, a: Task, b: Task) returns (s3: State)
    requires a.id != b.id && a.status == b.status == Queued && a.branch == ""
    requires Inv(h, s2) && s2.tasks == map[a.id := a, b.id := b] && s2.arrivals == [] && s2.peers == map[]
    ensures s3 == Next(h, s2, ScheduleStep(a.id, QueueMode, 0)) && Inv(h, s3)
    ensures s3.tasks == map[a.id := a.(status := Running), b.id := b] && s3.arrivals == [a.id] && s3.peers == map[]
  {
    NothingConflicts(h, s2, a);
    s3 := StartsFreely(h, s2, a.id);
    assert [] + [a.id] == [a.id];
  }

  lemma NothingConflicts(h: Host, s: State, t: Task)
    requires s.peers == map[] && forall o :: o in s.tasks ==> s.tasks[o].status == Queued
    ensures !Conflicting(h, s, t)
  {
  }

  lemma ScheduleSecond(h: Host, s3: State, a: Task, b: Task, rest: seq<Step>) returns (s: State)
    requires a.id != b.id && b.status == Queued && b.branch == ""
    requires Clash(h, TerritoryOf(b), TerritoryOf(a)).None?
    requires Inv(h, s3) && s3.tasks == map[a.id := a.(status := Running), b.id := b]
    requires s3.arrivals == [a.id] && s3.peers == map[]
    ensures Inv(h, s) && s.tasks == map[a.id := a.(status := Running), b.id := b.(status := Running)]
    ensures Run(h, s3, [ScheduleStep(b.id, QueueMode, 0)] + rest) == Run(h, s, rest)
  {
    StaysClear(h, s3, a, b);
    s := StartsFreely(h, s3, b.id);
    RunFrom(h, s3, ScheduleStep(b.id, QueueMode, 0), rest);
  }

  lemma StaysClear(h: Host, s: State, a: Task, b: Task)
    requires a.id != b.id && b.status == Queued && s.tasks == map[a.id := a.(status := Running), b.id := b]
    requires Clash(h, TerritoryOf(b), TerritoryOf(a)).None? && s.peers == map[]
    ensures !Conflicting(h, s, s.tasks[b.id])
  {
    assert TerritoryOf(s.tasks[a.id]) == TerritoryOf(a);
    assert !RunningClash(h, s.tasks, b);
  }

  lemma GrowStepBreaks(h: Host, s: State, a: string, b: string, x: string)
    requires Inv(h, s) && a in s.tasks && b in s.tasks && a != b && Excluded(h, s)
    requires s.tasks[a].status == Running && s.tasks[b].status == Running
    requires RepositoriesMatch(h, s.tasks[a].repo, s.tasks[b].repo) && AnyOverlap(h, [x], s.tasks[b].surfaces)
    requires x != "" && x !in s.tasks[a].surfaces
    ensures !Excluded(h, Next(h, s, Grow(a, x)))
  {
    assert Intrudes(h, s, a, x);
    assert Enabled(h, s, Grow(a, x));
    assert !Harmless(h, s, Grow(a, x));
    ExclusionStep(h, s, Grow(a, x));
  }

  lemma BothExcluded(h: Host, s: State, a: Task, b: Task)
    requires a.id != b.id && s.tasks == map[a.id := a.(status := Running), b.id := b.(status := Running)]
    requires Clash(h, TerritoryOf(b), TerritoryOf(a)).None?
    ensures Excluded(h, s)
  {
    ClashSymmetric(h, TerritoryOf(a), TerritoryOf(b));
    assert TerritoryOf(s.tasks[a.id]) == TerritoryOf(a) && TerritoryOf(s.tasks[b.id]) == TerritoryOf(b);
  }

  lemma GrowsFrom(h: Host, s: State, a: Task, b: Task, x: string)
    requires Inv(h, s) && a.id != b.id && s.tasks == map[a.id := a.(status := Running), b.id := b.(status := Running)]
    requires Clash(h, TerritoryOf(b), TerritoryOf(a)).None?
    requires RepositoriesMatch(h, a.repo, b.repo) && AnyOverlap(h, [x], b.surfaces)
    requires x != "" && x !in a.surfaces
    ensures !Excluded(h, Next(h, s, Grow(a.id, x)))
  {
    BothExcluded(h, s, a, b);
    assert s.tasks[a.id].surfaces == a.surfaces && s.tasks[b.id].surfaces == b.surfaces;
    assert s.tasks[a.id].repo == a.repo && s.tasks[b.id].repo == b.repo;
    GrowStepBreaks(h, s, a.id, b.id, x);
  }

  // Any two tasks that start side by side and of which one then touches a surface of the other.
  lemma GrowsInto(h: Host, a: Task, b: Task, x: string)
    requires a.id != b.id && a.status == b.status == Queued && a.branch == b.branch == ""
    requires Clash(h, TerritoryOf(b), TerritoryOf(a)).None?
    requires RepositoriesMatch(h, a.repo, b.repo) && AnyOverlap(h, [x], b.surfaces)
    requires x != "" && x !in a.surfaces
    ensures !Excluded(h, Run(h, START, StartingTwo(a, b, [Grow(a.id, x)])))
  {
    var s := StartBoth(h, a, b, [Grow(a.id, x)]);
    GrowsFrom(h, s, a, b, x);
    RunFrom(h, s, Grow(a.id, x), []);
    assert [Grow(a.id, x)] + [] == [Grow(a.id, x)];
  }

  // In queue mode two tasks on disjoint surfaces are both dispatched; then the first edits the second's file.
  // Both keep running, and their territories now clash.
  lemma GrowthBreaksExclusion()
    ensures !Excluded(PLAIN, Run(PLAIN, START, StartingTwo(FIRST, SECOND, [Grow("a", "y")])))
  {
    NoClashAtFirst();
    PlainSurfaces('y', 'y');
    assert ["y"] == [['y']];
    GrowsInto(PLAIN, FIRST, SECOND, "y");
  }

  lemma WaitsForPeer(h: Host, s: State, id: string)
    requires Inv(h, s) && id in s.tasks && id !in s.arrivals && s.running == {}
    requires s.tasks[id].status == Queued && PeersClash(h, s.peers, TerritoryOf(s.tasks[id]))
    ensures Stranded(Next(h, s, ScheduleStep(id, QueueMode, 0)), id)
  {
    ScheduleOutcome(h, s, id, QueueMode, 0);
    InsertKeepsMembers(s.tasks, s.queue, id);
  }

  lemma PeersChange(h: Host, s: State, peers: PeerTable)
    requires Inv(h, s)
    ensures Next(h, s, Peers(peers)) == s.(peers := peers) && Inv(h, s.(peers := peers))
  {
    InvKnown(h, s);
    PeersKeepInv(h, s, peers);
  }

  // A task created, then peer manifests that clash with it cached, then the task scheduled.
  function WaitingForPeer(t: Task, peers: PeerTable, rest: seq<Step>): seq<Step> {
    [Create(t)] + ([Peers(peers)] + ([ScheduleStep(t.id, QueueMode, 0)] + rest))
  }

  lemma PeerKeepsWaiting(h: Host, t: Task, peers: PeerTable, rest: seq<Step>) returns (s: State)
    requires t.status == Queued && PeersClash(h, peers, TerritoryOf(t))
    ensures Inv(h, s) && Stranded(s, t.id)
    ensures Run(h, START, WaitingForPeer(t, peers, rest)) == Run(h, s, rest)
  {
    Creates(h, START, t);
    var s1 := START.(tasks := map[t.id := t]);
    PeersChange(h, s1, peers);
    var s2 := s1.(peers := peers);
    WaitsForPeer(h, s2, t.id);
    s := Next(h, s2, ScheduleStep(t.id, QueueMode, 0));
    NextKeepsInv(h, s2, ScheduleStep(t.id, QueueMode, 0));
    RunFrom(h, s2, ScheduleStep(t.id, QueueMode, 0), rest);
    RunFrom(h, s1, Peers(peers), [ScheduleStep(t.id, QueueMode, 0)] + rest);
    RunFrom(h, START, Create(t), [Peers(peers)] + ([ScheduleStep(t.id, QueueMode, 0)] + rest));
  }

  const THIRD := FIRST.(surfaces := ["y"])
  const PEERS: PeerTable := map["peer" := Some([TerritoryOf(SECOND)])]

  // A peer that advertises the task's surface keeps it waiting although nothing runs.
  lemma PeersStrand()
    ensures Stranded(Run(PLAIN, START, WaitingForPeer(THIRD, PEERS, [])), THIRD.id)
  {
    ClashesWithPeer();
    var s := PeerKeepsWaiting(PLAIN, THIRD, PEERS, []);
  }

  // The manifest is withdrawn, but no drain follows: the task still waits, with nothing running and nothing
  // left that blocks it.
  lemma WithdrawnManifestStrands()
    ensures var s := Run(PLAIN, START, WaitingForPeer(THIRD, PEERS, [Peers(map[])]));
      Stranded(s, THIRD.id) && !Blocked(PLAIN, s, THIRD.id)
  {
    ClashesWithPeer();
    var s := PeerKeepsWaiting(PLAIN, THIRD, PEERS, [Peers(map[])]);
    PeersChange(PLAIN, s, map[]);
    RunFrom(PLAIN, s, Peers(map[]), []);
    assert [Peers(map[])] + [] == [Peers(map[])];
    IdleBlocked(PLAIN, s.(peers := map[]), THIRD.id);
  }

  lemma ClashesWithPeer()
    ensures PeersClash(PLAIN, PEERS, TerritoryOf(THIRD))
  {
    NoClashAtFirst();
    PlainSurfaces('y', 'y');
    assert ["y"] == [['y']];
    assert Clash(PLAIN, TerritoryOf(THIRD), TerritoryOf(SECOND)).Some?;
    assert ClashesOther(PLAIN, TerritoryOf(THIRD), [TerritoryOf(SECOND)][0]);
    assert "peer" in PEERS && PEERS["peer"].Some?;
  }
}
