// Replaying the join log into tables and reading a snapshot back (pkg/joinlog/projector.go).
module Projectors {
  import opened Wrappers

  // The payload of an event after decoding; Malformed when a known kind does not decode, Unknown for other kinds.
  datatype Body =
    | NodeJoined(nodeId: string, node: Node)
    | TaskCreated(taskId: string, origin: Origin)
    | TerritoryClaimed(taskId: string, repo: string, branch: string)
    | TerritoryReleased(taskId: string, repo: string, branch: string, reason: string)
    | TaskSettled(taskId: string, settlement: Settlement)
    | TerritoryVerified(evidence: Evidence)
    | Unknown
    | Malformed

  datatype Node = Node(role: string, endpoint: string, publicKey: string, tags: seq<string>)

  datatype Origin = Origin(repo: string, branch: string, prompt: string)

  datatype Settlement = Settlement(verdict: string, receiptHash: string)

  datatype Evidence = Evidence(
    taskId: string,
    repo: string,
    branch: string,
    declared: seq<string>,
    observed: seq<string>,
    discrepancies: seq<string>,
    status: string)

  // `time` is the event's own creation time, the only clock the projector uses.
  datatype Event = Event(id: string, time: int, body: Body)

  datatype TaskRow = TaskRow(origin: Origin, settled: Option<Settlement>)

  datatype Lock = Lock(taskId: string, claimedAt: int)

  datatype Release = Release(taskId: string, key: string, reason: string, releasedAt: int)

  datatype Tables = Tables(
    nodes: map<string, Node>,
    tasks: map<string, TaskRow>,
    locks: map<string, Lock>,
    history: seq<Release>,
    verifications: seq<(Evidence, int)>)

  const EMPTY := Tables(map[], map[], map[], [], [])

  function TerritoryKey(repo: string, branch: string): string {
    repo + ":" + branch
  }

  function Project(t: Tables, e: Event): Tables {
    match e.body
    case NodeJoined(id, node) => t.(nodes := t.nodes[id := node])
    case TaskCreated(id, origin) =>
      t.(tasks := t.tasks[id := TaskRow(origin, if id in t.tasks then t.tasks[id].settled else None)])
    case TerritoryClaimed(id, repo, branch) => t.(locks := t.locks[TerritoryKey(repo, branch) := Lock(id, e.time)])
    case TerritoryReleased(id, repo, branch, reason) =>
      var key := TerritoryKey(repo, branch);
      t.(locks := t.locks - {key}, history := t.history + [Release(id, key, reason, e.time)])
    case TaskSettled(id, settlement) =>
      if id in t.tasks then t.(tasks := t.tasks[id := t.tasks[id].(settled := Some(settlement))]) else t
    case TerritoryVerified(evidence) => t.(verifications := t.verifications + [(evidence, e.time)])
    case _ => t
  }

  // The tables after projecting the events in order.
  function Fold(t: Tables, events: seq<Event>): Tables {
    if events == [] then t else Project(Fold(t, events[..|events| - 1]), events[|events| - 1])
  }

  predicate WellFormed(events: seq<Event>) {
    forall i :: 0 <= i < |events| ==> !events[i].body.Malformed?
  }

  // The part of the log a replay gets through: all of it, or what precedes the first malformed payload.
  ghost predicate Readable(events: seq<Event>, n: int) {
    0 <= n <= |events| && WellFormed(events[..n]) && (n < |events| ==> events[n].body.Malformed?)
  }

  datatype MeshState = MeshState(
    nodes: map<string, Node>,
    tasks: map<string, Origin>,
    settledTasks: map<string, Settlement>,
    activeLocks: map<string, Lock>,
    history: seq<Release>,
    verifications: seq<(Evidence, int)>)

  class Projector {
    var nodes: map<string, Node>
    var tasks: map<string, TaskRow>
    var locks: map<string, Lock>
    var history: seq<Release>
    var verifications: seq<(Evidence, int)>

    constructor ()
      ensures View() == EMPTY
    {
      nodes, tasks, locks, history, verifications := map[], map[], map[], [], [];
    }

    ghost function View(): Tables
      reads this
    {
      Tables(nodes, tasks, locks, history, verifications)
    }

    // A malformed payload is reported and leaves the tables alone.
    method ProjectEvent(e: Event) returns (ok: bool)
      modifies this
      ensures ok == !e.body.Malformed?
      ensures View() == Project(old(View()), e)
    {
      match e.body {
        case NodeJoined(id, node) =>
          nodes := nodes[id := node];
        case TaskCreated(id, origin) =>
          if id in tasks {
            tasks := tasks[id := tasks[id].(origin := origin)];
          } else {
            tasks := tasks[id := TaskRow(origin, None)];
          }
        case TerritoryClaimed(id, repo, branch) =>
          locks := locks[TerritoryKey(repo, branch) := Lock(id, e.time)];
        case TerritoryReleased(id, repo, branch, reason) =>
          var key := TerritoryKey(repo, branch);
          locks := locks - {key};
          history := history + [Release(id, key, reason, e.time)];
        case TaskSettled(id, settlement) =>
          if id in tasks {
            tasks := tasks[id := tasks[id].(settled := Some(settlement))];
          }
        case TerritoryVerified(evidence) =>
          verifications := verifications + [(evidence, e.time)];
        case Unknown =>
        case Malformed =>
          return false;
      }
      return true;
    }

    // Projects the log in order and stops at the first malformed payload; what precedes it stays projected.
    method Replay(events: seq<Event>) returns (ok: bool)
      modifies this
      ensures ok == WellFormed(events)
      ensures exists n :: Readable(events, n) && View() == Fold(old(View()), events[..n])
      ensures ok ==> View() == Fold(old(View()), events)
    {
      for i := 0 to |events|
        invariant WellFormed(events[..i]) && View() == Fold(old(View()), events[..i])
      {
        assert events[..i + 1][..i] == events[..i];
        var done := ProjectEvent(events[i]);
        if !done {
          assert Readable(events, i);
          assert View() == Fold(old(View()), events[..i]);
          return false;
        }
      }
      assert events[..|events|] == events;
      assert Readable(events, |events|);
      return true;
    }

    method Snapshot() returns (state: MeshState)
      ensures state == SnapshotOf(View())
    {
      var origins, settled := map[], map[];
      var left := tasks.Keys;
      while left != {}
        invariant left <= tasks.Keys && origins.Keys == tasks.Keys - left
        invariant forall id :: id in origins ==> origins[id] == tasks[id].origin
        invariant settled == SettledIn(tasks, origins.Keys)
        decreases left
      {
        var id :| id in left;
        var row := tasks[id];
        origins := origins[id := row.origin];
        var verdict := if row.settled.None? then "" else row.settled.value.verdict;
        if verdict != "" {
          settled := settled[id := row.settled.value];
        }
        left := left - {id};
      }
      state := MeshState(nodes, origins, settled, locks, history, verifications);
    }
  }

  predicate ShowsSettled(row: TaskRow) {
    row.settled.Some? && row.settled.value.verdict != ""
  }

  function SettledIn(tasks: map<string, TaskRow>, ids: set<string>): map<string, Settlement>
  {
    map id | id in tasks && id in ids && ShowsSettled(tasks[id]) :: tasks[id].settled.value
  }

  function SnapshotOf(t: Tables): MeshState {
    MeshState(t.nodes, map id | id in t.tasks :: t.tasks[id].origin, SettledIn(t.tasks, t.tasks.Keys), t.locks,
              t.history, t.verifications)
  }

  // What a snapshot shows after the events were projected into empty tables.
  function StateOf(events: seq<Event>): MeshState {
    SnapshotOf(Fold(EMPTY, events))
  }

  // Projecting a prefix and then the rest is projecting the whole log.
  lemma {:induction false} FoldSplits(t: Tables, a: seq<Event>, b: seq<Event>)
    ensures Fold(t, a + b) == Fold(Fold(t, a), b)
  {
    if b == [] {
      assert a + b == a;
    } else {
      var n := |b| - 1;
      FoldSplits(t, a, b[..n]);
      assert (a + b)[..|a| + n] == a + b[..n];
    }
  }

  // ---- the declarative reading of a log

  predicate Claims(e: Event, key: string) {
    e.body.TerritoryClaimed? && TerritoryKey(e.body.repo, e.body.branch) == key
  }

  predicate Releases(e: Event, key: string) {
    e.body.TerritoryReleased? && TerritoryKey(e.body.repo, e.body.branch) == key
  }

  predicate Touches(e: Event, key: string) {
    Claims(e, key) || Releases(e, key)
  }

  // Event i is the last claim or release of the key.
  ghost predicate LastTouch(events: seq<Event>, key: string, i: int) {
    0 <= i < |events| && Touches(events[i], key) && forall j :: i < j < |events| ==> !Touches(events[j], key)
  }

  predicate Creates(e: Event, id: string) {
    e.body.TaskCreated? && e.body.taskId == id
  }

  predicate Settles(e: Event, id: string) {
    e.body.TaskSettled? && e.body.taskId == id
  }

  // Event i is the last settlement of a task that had been created before it.
  ghost predicate LastSettlement(events: seq<Event>, id: string, i: int) {
    && 0 <= i < |events| && Settles(events[i], id)
    && (exists c :: 0 <= c < i && Creates(events[c], id))
    && forall j :: i < j < |events| ==> !Settles(events[j], id)
  }

  ghost predicate LastCreation(events: seq<Event>, id: string, i: int) {
    0 <= i < |events| && Creates(events[i], id) && forall j :: i < j < |events| ==> !Creates(events[j], id)
  }

  predicate Joins(e: Event, id: string) {
    e.body.NodeJoined? && e.body.nodeId == id
  }

  ghost predicate LastJoin(events: seq<Event>, id: string, i: int) {
    0 <= i < |events| && Joins(events[i], id) && forall j :: i < j < |events| ==> !Joins(events[j], id)
  }

  // With branch names, which hold no colon, keys are equal exactly when repository and branch are.
  lemma KeyNamesBoth(repo: string, branch: string, otherRepo: string, otherBranch: string)
    requires ':' !in branch && ':' !in otherBranch
    ensures TerritoryKey(repo, branch) == TerritoryKey(otherRepo, otherBranch) <==>
      repo == otherRepo && branch == otherBranch
  {
    if TerritoryKey(repo, branch) == TerritoryKey(otherRepo, otherBranch) {
      LastColon(repo, branch, otherRepo, otherBranch);
      LastColon(otherRepo, otherBranch, repo, branch);
      assert (repo + ":" + branch)[..|repo|] == repo && (otherRepo + ":" + otherBranch)[..|repo|] == otherRepo;
      assert (repo + ":" + branch)[|repo| + 1..] == branch;
      assert (otherRepo + ":" + otherBranch)[|repo| + 1..] == otherBranch;
    }
  }

  lemma LastColon(repo: string, branch: string, otherRepo: string, otherBranch: string)
    requires TerritoryKey(repo, branch) == TerritoryKey(otherRepo, otherBranch)
    ensures ':' in branch || |repo| >= |otherRepo|
  {
    if |repo| < |otherRepo| {
      assert TerritoryKey(otherRepo, otherBranch)[|otherRepo|] == ':';
      assert branch[|otherRepo| - |repo| - 1] == ':';
    }
  }

  // With a colon in the branch they may meet.
  lemma KeysMeet()
    ensures TerritoryKey("a:b", "c") == TerritoryKey("a", "b:c")
  {
    assert "a:b" + ":" + "c" == "a" + ":" + "b:c";
  }

  lemma LastTouchMoves(events: seq<Event>, key: string)
    requires events != []
    ensures var n := |events| - 1;
      forall i :: LastTouch(events, key, i) <==> if Touches(events[n], key) then i == n else LastTouch(events[..n], key, i)
  {
    var n := |events| - 1;
    var init := events[..n];
    forall i
      ensures LastTouch(events, key, i) <==> if Touches(events[n], key) then i == n else LastTouch(init, key, i)
    {
      assert forall j :: 0 <= j < n ==> init[j] == events[j];
      if LastTouch(init, key, i) && !Touches(events[n], key) {
        assert LastTouch(events, key, i);
      }
    }
  }

  lemma LastCreationMoves(events: seq<Event>, id: string)
    requires events != []
    ensures var n := |events| - 1;
      forall i :: LastCreation(events, id, i) <==> if Creates(events[n], id) then i == n else LastCreation(events[..n], id, i)
  {
    var n := |events| - 1;
    var init := events[..n];
    forall i
      ensures LastCreation(events, id, i) <==> if Creates(events[n], id) then i == n else LastCreation(init, id, i)
    {
      assert forall j :: 0 <= j < n ==> init[j] == events[j];
      if LastCreation(init, id, i) && !Creates(events[n], id) {
        assert LastCreation(events, id, i);
      }
    }
  }

  ghost predicate Created(events: seq<Event>, id: string) {
    exists c :: 0 <= c < |events| && Creates(events[c], id)
  }

  lemma LastSettlementMoves(events: seq<Event>, id: string)
    requires events != []
    ensures var n := |events| - 1;
      forall i :: LastSettlement(events, id, i) <==>
        if Settles(events[n], id) then i == n && Created(events[..n], id) else LastSettlement(events[..n], id, i)
  {
    var n := |events| - 1;
    var init := events[..n];
    forall i
      ensures LastSettlement(events, id, i) <==>
        if Settles(events[n], id) then i == n && Created(init, id) else LastSettlement(init, id, i)
    {
      assert forall j :: 0 <= j < n ==> init[j] == events[j];
      if Settles(events[n], id) && i == n && Created(init, id) {
        var c :| 0 <= c < n && Creates(init[c], id);
        assert Creates(events[c], id);
      }
      if LastSettlement(init, id, i) && !Settles(events[n], id) {
        var c :| 0 <= c < i && Creates(init[c], id);
        assert Creates(events[c], id);
        assert LastSettlement(events, id, i);
      }
      if LastSettlement(events, id, i) {
        var c :| 0 <= c < i && Creates(events[c], id);
        assert Creates(init[c], id);
      }
    }
  }

  lemma CreatedMoves(events: seq<Event>, id: string)
    requires events != []
    ensures var n := |events| - 1;
      Created(events, id) <==> Creates(events[n], id) || Created(events[..n], id)
  {
    var n := |events| - 1;
    if Created(events[..n], id) {
      var c :| 0 <= c < n && Creates(events[..n][c], id);
      assert Creates(events[c], id);
    }
    if c :| 0 <= c < |events| && Creates(events[c], id) {
      assert c < n ==> Creates(events[..n][c], id);
    }
  }

  // A key is locked exactly when its last claim or release is a claim, by that task since that time.
  lemma {:induction false} LockReading(events: seq<Event>, key: string)
    ensures key in StateOf(events).activeLocks <==> exists i :: LastTouch(events, key, i) && Claims(events[i], key)
    ensures forall i :: LastTouch(events, key, i) && Claims(events[i], key) ==>
      key in StateOf(events).activeLocks
      && StateOf(events).activeLocks[key] == Lock(events[i].body.taskId, events[i].time)
  {
    if events != [] {
      var n := |events| - 1;
      var init := events[..n];
      LockReading(init, key);
      LastTouchMoves(events, key);
      if Touches(events[n], key) {
        assert LastTouch(events, key, n);
      } else if key in StateOf(init).activeLocks {
        var i :| LastTouch(init, key, i) && Claims(init[i], key);
        assert LastTouch(events, key, i) && init[i] == events[i];
      }
    }
  }

  // A task is known exactly when it was created, with the fields of its last creation.
  lemma {:induction false} TaskReading(events: seq<Event>, id: string)
    ensures id in StateOf(events).tasks <==> Created(events, id)
    ensures forall i :: LastCreation(events, id, i) ==>
      id in StateOf(events).tasks && StateOf(events).tasks[id] == events[i].body.origin
  {
    if events != [] {
      var n := |events| - 1;
      var init := events[..n];
      TaskReading(init, id);
      CreatedMoves(events, id);
      LastCreationMoves(events, id);
      forall i | LastCreation(events, id, i)
        ensures id in StateOf(events).tasks && StateOf(events).tasks[id] == events[i].body.origin
      {
        if !Creates(events[n], id) {
          assert LastCreation(init, id, i) && init[i] == events[i];
        }
      }
    }
  }

  lemma SettledMoves(t: Tables, e: Event, id: string)
    ensures var u := Project(t, e);
      && (id in u.tasks <==> id in t.tasks || Creates(e, id))
      && (id in u.tasks && id !in t.tasks ==> u.tasks[id].settled == None)
      && (id in t.tasks ==>
            u.tasks[id].settled == if Settles(e, id) then Some(e.body.settlement) else t.tasks[id].settled)
  {
  }

  ghost predicate RowReads(events: seq<Event>, t: Tables, id: string) {
    && (id in t.tasks && t.tasks[id].settled.Some? <==> exists i :: LastSettlement(events, id, i))
    && (forall i :: LastSettlement(events, id, i) ==>
          id in t.tasks && t.tasks[id].settled == Some(events[i].body.settlement))
  }

  lemma SettledByLast(events: seq<Event>, t: Tables, id: string)
    requires events != [] && Settles(events[|events| - 1], id)
    requires id in t.tasks <==> Created(events[..|events| - 1], id)
    ensures RowReads(events, Project(t, events[|events| - 1]), id)
  {
    LastSettlementMoves(events, id);
    SettledMoves(t, events[|events| - 1], id);
    if id in t.tasks {
      assert LastSettlement(events, id, |events| - 1);
    }
  }

  lemma SettledEarlier(events: seq<Event>, t: Tables, id: string)
    requires events != [] && !Settles(events[|events| - 1], id)
    requires RowReads(events[..|events| - 1], t, id)
    ensures RowReads(events, Project(t, events[|events| - 1]), id)
  {
    var init := events[..|events| - 1];
    LastSettlementMoves(events, id);
    SettledMoves(t, events[|events| - 1], id);
    forall i | LastSettlement(events, id, i)
      ensures id in t.tasks && t.tasks[id].settled == Some(events[i].body.settlement)
    {
      assert LastSettlement(init, id, i) && init[i] == events[i];
    }
    if id in t.tasks && t.tasks[id].settled.Some? {
      var i :| LastSettlement(init, id, i);
      assert LastSettlement(events, id, i);
    }
  }

  lemma {:induction false} SettledRow(events: seq<Event>, id: string)
    ensures RowReads(events, Fold(EMPTY, events), id)
  {
    if events != [] {
      var n := |events| - 1;
      SettledRow(events[..n], id);
      TaskReading(events[..n], id);
      if Settles(events[n], id) {
        SettledByLast(events, Fold(EMPTY, events[..n]), id);
      } else {
        SettledEarlier(events, Fold(EMPTY, events[..n]), id);
      }
    }
  }

  // A task shows as settled exactly when its last settlement since its first creation has a verdict, and then
  // with that settlement: an empty verdict that came later hides an earlier one.
  lemma SettledReading(events: seq<Event>, id: string)
    ensures id in StateOf(events).settledTasks <==>
      exists i :: LastSettlement(events, id, i) && events[i].body.settlement.verdict != ""
    ensures forall i :: LastSettlement(events, id, i) && events[i].body.settlement.verdict != "" ==>
      id in StateOf(events).settledTasks
      && StateOf(events).settledTasks[id] == events[i].body.settlement
  {
    SettledRow(events, id);
    if id in StateOf(events).settledTasks {
      var i :| LastSettlement(events, id, i);
      assert events[i].body.settlement.verdict != "";
    }
  }

  // The history is the releases of the log, all of them, in log order, with key and time of their events.
  lemma {:induction false} HistoryReading(events: seq<Event>) returns (at: seq<nat>)
    ensures |at| == |StateOf(events).history|
    ensures forall k :: 0 <= k < |at| ==> at[k] < |events|
    ensures forall j, k :: 0 <= j < k < |at| ==> at[j] < at[k]
    ensures forall i :: 0 <= i < |events| ==> (events[i].body.TerritoryReleased? <==> i in at)
    ensures forall k :: 0 <= k < |at| ==>
      var e := events[at[k]];
      e.body.TerritoryReleased? && StateOf(events).history[k] ==
      Release(e.body.taskId, TerritoryKey(e.body.repo, e.body.branch), e.body.reason, e.time)
  {
    if events == [] {
      at := [];
    } else {
      var n := |events| - 1;
      at := HistoryReading(events[..n]);
      if events[n].body.TerritoryReleased? {
        at := at + [n];
      }
    }
  }

  // A node is known exactly when it joined, as its last join describes it.
  lemma {:induction false} NodeReading(events: seq<Event>, id: string)
    ensures id in StateOf(events).nodes <==> exists i :: LastJoin(events, id, i)
    ensures forall i :: LastJoin(events, id, i) ==>
      id in StateOf(events).nodes && StateOf(events).nodes[id] == events[i].body.node
  {
    if events != [] {
      var n := |events| - 1;
      var init := events[..n];
      NodeReading(init, id);
      if Joins(events[n], id) {
        assert LastJoin(events, id, n);
      } else {
        forall i
          ensures LastJoin(events, id, i) <==> LastJoin(init, id, i)
        {
          assert forall j :: 0 <= j < n ==> init[j] == events[j];
        }
      }
    }
  }

  // The verifications are those of the log, all of them, in log order, with the time of their events.
  lemma {:induction false} VerificationReading(events: seq<Event>) returns (at: seq<nat>)
    ensures |at| == |StateOf(events).verifications|
    ensures forall k :: 0 <= k < |at| ==> at[k] < |events|
    ensures forall j, k :: 0 <= j < k < |at| ==> at[j] < at[k]
    ensures forall i :: 0 <= i < |events| ==> (events[i].body.TerritoryVerified? <==> i in at)
    ensures forall k :: 0 <= k < |at| ==>
      var e := events[at[k]];
      e.body.TerritoryVerified? && StateOf(events).verifications[k] == (e.body.evidence, e.time)
  {
    if events == [] {
      at := [];
    } else {
      var n := |events| - 1;
      at := VerificationReading(events[..n]);
      if events[n].body.TerritoryVerified? {
        at := at + [n];
      }
    }
  }
}
