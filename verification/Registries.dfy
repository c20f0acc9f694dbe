// Ranking nodes and counting the dispatches in flight on them (pkg/server/registry/registry.go).
module Registries {
  import opened Wrappers
  import opened Text

  datatype Status = Online | Degraded | Offline

  datatype Profile = Profile(name: string, tags: seq<string>)

  datatype Node = Node(
    id: string,
    endpoint: string,
    agents: seq<Profile>,
    maxConcurrency: int,
    activeTasks: int,
    status: Status,
    lastHeartbeat: int)

  datatype Request = Request(agent: string, tags: seq<string>)

  // Heartbeats older than 1.5 timeouts are stale; a non-positive timeout switches the rule off.
  datatype Clock = Clock(now: int, heartbeatTimeout: int)

  datatype State = State(
    nodes: map<string, Node>,
    inFlight: map<string, nat>,
    lastSelected: map<string, nat>,
    selections: nat)

  function Count(m: map<string, nat>, id: string): nat {
    if id in m then m[id] else 0
  }

  ghost predicate Keyed(s: State) {
    forall id :: id in s.nodes ==> s.nodes[id].id == id
  }

  predicate Supports(n: Node, req: Request) {
    exists i :: 0 <= i < |n.agents| && n.agents[i].name == req.agent && forall t :: t in req.tags ==> t in n.agents[i].tags
  }

  predicate HeartbeatIsFresh(c: Clock, n: Node) {
    c.heartbeatTimeout <= 0 || 2 * (c.now - n.lastHeartbeat) <= 3 * c.heartbeatTimeout
  }

  predicate Eligible(c: Clock, n: Node, req: Request) {
    n.status == Online && HeartbeatIsFresh(c, n) && Supports(n, req)
  }

  function EffectiveLoad(s: State, n: Node): (r: int)
    ensures r >= 0 && r >= Count(s.inFlight, n.id) && r >= n.activeTasks
  {
    if n.activeTasks > Count(s.inFlight, n.id) then n.activeTasks else Count(s.inFlight, n.id)
  }

  function EffectiveCapacity(n: Node): (r: int)
    ensures r >= 1
  {
    if n.maxConcurrency <= 0 then 1 else n.maxConcurrency
  }

  predicate HasFreeSlot(s: State, n: Node) {
    EffectiveLoad(s, n) < EffectiveCapacity(n)
  }

  function Ratio(s: State, n: Node): real {
    EffectiveLoad(s, n) as real / EffectiveCapacity(n) as real
  }

  predicate PreferOver(s: State, a: Node, b: Node) {
    if Ratio(s, a) != Ratio(s, b) then Ratio(s, a) < Ratio(s, b)
    else if EffectiveLoad(s, a) != EffectiveLoad(s, b) then EffectiveLoad(s, a) < EffectiveLoad(s, b)
    else if Count(s.lastSelected, a.id) != Count(s.lastSelected, b.id) then
      Count(s.lastSelected, a.id) < Count(s.lastSelected, b.id)
    else Below(a.id, b.id)
  }

  // On distinct node ids the preference is a strict total order.
  lemma PreferenceIsStrictTotal(s: State, a: Node, b: Node, c: Node)
    ensures !PreferOver(s, a, a)
    ensures PreferOver(s, a, b) ==> !PreferOver(s, b, a)
    ensures a.id != b.id ==> PreferOver(s, a, b) || PreferOver(s, b, a)
    ensures PreferOver(s, a, b) && PreferOver(s, b, c) ==> PreferOver(s, a, c)
  {
    BelowIsStrictTotal(a.id, b.id, c.id);
    BelowIsStrictTotal(a.id, a.id, a.id);
  }

  ghost predicate EligibleId(c: Clock, s: State, req: Request, id: string) {
    id in s.nodes && Eligible(c, s.nodes[id], req)
  }

  ghost predicate FreeId(c: Clock, s: State, req: Request, id: string) {
    EligibleId(c, s, req, id) && HasFreeSlot(s, s.nodes[id])
  }

  // The soft cap: nodes at capacity compete only when no eligible node has a free slot.
  ghost predicate Candidate(c: Clock, s: State, req: Request, id: string) {
    EligibleId(c, s, req, id) && ((exists o :: FreeId(c, s, req, o)) ==> HasFreeSlot(s, s.nodes[id]))
  }

  ghost predicate IsChoice(c: Clock, s: State, req: Request, id: string) {
    Candidate(c, s, req, id) && forall o :: Candidate(c, s, req, o) && o != id ==> PreferOver(s, s.nodes[id], s.nodes[o])
  }

  // Whatever order the node map is traversed in, there is one choice.
  lemma ChoiceIsUnique(c: Clock, s: State, req: Request, a: string, b: string)
    requires Keyed(s) && IsChoice(c, s, req, a) && IsChoice(c, s, req, b)
    ensures a == b
  {
    if a != b {
      PreferenceIsStrictTotal(s, s.nodes[a], s.nodes[b], s.nodes[a]);
    }
  }

  // A node at capacity is chosen exactly when every eligible node is at capacity.
  lemma ChosenAtCapacity(c: Clock, s: State, req: Request, id: string)
    requires IsChoice(c, s, req, id)
    ensures !HasFreeSlot(s, s.nodes[id]) <==> forall o :: EligibleId(c, s, req, o) ==> !HasFreeSlot(s, s.nodes[o])
  {
    forall o | EligibleId(c, s, req, o) && HasFreeSlot(s, s.nodes[o])
      ensures HasFreeSlot(s, s.nodes[id])
    {
      assert FreeId(c, s, req, o);
    }
  }

  // A node is eligible when it is online, its heartbeat is at most one and a half timeouts old, and one of its
  // agents has the name and all the tags of the request.
  lemma EligibleMeans(c: Clock, n: Node, req: Request)
    ensures Eligible(c, n, req) <==>
      && n.status == Online
      && (c.heartbeatTimeout <= 0 || (c.now - n.lastHeartbeat) as real <= 1.5 * c.heartbeatTimeout as real)
      && exists p :: p in n.agents && p.name == req.agent && forall t :: t in req.tags ==> t in p.tags
  {
    if p :| p in n.agents && p.name == req.agent && forall t :: t in req.tags ==> t in p.tags {
      var i :| 0 <= i < |n.agents| && n.agents[i] == p;
    }
    if Supports(n, req) {
      var i :| 0 <= i < |n.agents| && n.agents[i].name == req.agent
        && forall t :: t in req.tags ==> t in n.agents[i].tags;
      assert n.agents[i] in n.agents;
    }
  }

  // Tasks a node reports or is known to be sent, whichever is more, and the tasks it takes, at least one.
  function Load(s: State, id: string): int
    requires id in s.nodes
  {
    var active, sent := s.nodes[id].activeTasks, if id in s.inFlight then s.inFlight[id] else 0;
    if active >= sent then active else sent
  }

  function Room(s: State, id: string): int
    requires id in s.nodes
  {
    if s.nodes[id].maxConcurrency >= 1 then s.nodes[id].maxConcurrency else 1
  }

  // Less load for its room; or as much and less load; or as much and chosen longer ago; or the smaller id.
  predicate LessLoaded(s: State, a: string, b: string)
    requires a in s.nodes && b in s.nodes
  {
    var x, y := Load(s, a) * Room(s, b), Load(s, b) * Room(s, a);
    var p, q := Count(s.lastSelected, a), Count(s.lastSelected, b);
    x < y || (x == y && (Load(s, a) < Load(s, b) || (Load(s, a) == Load(s, b) && (p < q || (p == q && Below(a, b))))))
  }

  lemma RatioOrder(a: int, b: int, x: int, y: int)
    requires b >= 1 && y >= 1
    ensures a as real / b as real < x as real / y as real <==> a * y < x * b
    ensures a as real / b as real == x as real / y as real <==> a * y == x * b
  {
    var r, q := a as real / b as real, x as real / y as real;
    var scale := b as real * y as real;
    assert r * b as real == a as real && q * y as real == x as real;
    assert r * scale == (a * y) as real by {
      Times(r, b as real, y as real);
    }
    assert q * scale == (x * b) as real by {
      Times(q, y as real, b as real);
    }
    Scales(r, q, scale);
  }

  lemma Times(r: real, a: real, b: real)
    ensures r * (a * b) == (r * a) * b == r * (b * a)
  {
  }

  lemma Scales(r: real, q: real, scale: real)
    requires scale > 0.0
    ensures r < q <==> r * scale < q * scale
    ensures r == q <==> r * scale == q * scale
  {
  }

  lemma PreferenceMeans(s: State, a: string, b: string)
    requires Keyed(s) && a in s.nodes && b in s.nodes
    ensures PreferOver(s, s.nodes[a], s.nodes[b]) <==> LessLoaded(s, a, b)
    ensures HasFreeSlot(s, s.nodes[a]) <==> Load(s, a) < Room(s, a)
  {
    RatioOrder(Load(s, a), Room(s, a), Load(s, b), Room(s, b));
  }

  // A node with room ranks before every node without.
  lemma FreeRanksFirst(s: State, a: string, b: string)
    requires Keyed(s) && a in s.nodes && b in s.nodes && Load(s, a) < Room(s, a) && Load(s, b) >= Room(s, b)
    ensures LessLoaded(s, a, b)
  {
    Smaller(Load(s, a), Room(s, a), Room(s, b), Load(s, b));
  }

  lemma Smaller(a: int, b: int, x: int, y: int)
    requires a < b && 1 <= x <= y && 1 <= b
    ensures a * x < y * b
  {
    assert a * x < b * x;
    assert x * b <= y * b;
  }

  // The choice is the least loaded of all eligible nodes: the soft cap never changes which node that is.
  lemma ChoiceIff(c: Clock, s: State, req: Request, id: string)
    requires Keyed(s)
    ensures IsChoice(c, s, req, id) <==>
      EligibleId(c, s, req, id) && forall o :: EligibleId(c, s, req, o) && o != id ==> LessLoaded(s, id, o)
  {
    if IsChoice(c, s, req, id) {
      forall o | EligibleId(c, s, req, o) && o != id
        ensures LessLoaded(s, id, o)
      {
        PreferenceMeans(s, id, o);
        PreferenceMeans(s, o, id);
        if Candidate(c, s, req, o) {
          assert PreferOver(s, s.nodes[id], s.nodes[o]);
        } else {
          FreeRanksFirst(s, id, o);
        }
      }
    }
    if EligibleId(c, s, req, id) && forall o :: EligibleId(c, s, req, o) && o != id ==> LessLoaded(s, id, o) {
      forall o | EligibleId(c, s, req, o) && o != id
        ensures PreferOver(s, s.nodes[id], s.nodes[o]) && (HasFreeSlot(s, s.nodes[o]) ==> HasFreeSlot(s, s.nodes[id]))
      {
        PreferenceMeans(s, id, o);
        PreferenceMeans(s, o, id);
        PreferenceIsStrictTotal(s, s.nodes[id], s.nodes[o], s.nodes[id]);
        if HasFreeSlot(s, s.nodes[o]) && !HasFreeSlot(s, s.nodes[id]) {
          FreeRanksFirst(s, o, id);
        }
      }
      forall o | FreeId(c, s, req, o)
        ensures HasFreeSlot(s, s.nodes[id])
      {
      }
    }
  }

  // No stamp is ahead of the selection counter.
  ghost predicate Stamped(s: State) {
    forall id :: Count(s.lastSelected, id) <= s.selections
  }

  // A reservation puts one more dispatch on its node and makes it the most recently chosen one.
  lemma ReservedMeans(s: State, id: string, o: string)
    requires Stamped(s)
    ensures var t := Reserved(s, id);
      && Stamped(t) && t.nodes == s.nodes
      && Count(t.inFlight, o) == Count(s.inFlight, o) + (if o == id then 1 else 0)
      && (o != id ==> Count(t.lastSelected, o) == Count(s.lastSelected, o) < Count(t.lastSelected, id))
  {
    var t := Reserved(s, id);
    forall x
      ensures Count(t.lastSelected, x) <= t.selections
    {
      assert Count(s.lastSelected, x) <= s.selections;
    }
    assert Count(s.lastSelected, o) <= s.selections;
  }

  // A release takes one off, never below none, and undoes a reservation's count.
  lemma ReleasedMeans(s: State, id: string, o: string)
    ensures var t := Released(s, id);
      && t == s.(inFlight := t.inFlight)
      && Count(t.inFlight, o) == if o == id && Count(s.inFlight, o) > 0 then Count(s.inFlight, o) - 1 else Count(s.inFlight, o)
    ensures Count(Released(Reserved(s, id), id).inFlight, o) == Count(s.inFlight, o)
  {
  }

  // A node marked unreachable is out for every request; the others are as they were.
  lemma UnreachableMeans(c: Clock, s: State, id: string, req: Request, o: string)
    ensures EligibleId(c, Unreachable(s, id), req, o) <==> o != id && EligibleId(c, s, req, o)
    ensures id in s.nodes ==> Unreachable(s, id).nodes[id] == s.nodes[id].(status := Degraded)
    ensures Unreachable(s, id).nodes.Keys == s.nodes.Keys
    ensures Unreachable(s, id) == s.(nodes := Unreachable(s, id).nodes)
  {
  }

  function Reserved(s: State, id: string): State {
    s.(inFlight := s.inFlight[id := Count(s.inFlight, id) + 1], selections := s.selections + 1,
       lastSelected := s.lastSelected[id := s.selections + 1])
  }

  function Released(s: State, id: string): State {
    if Count(s.inFlight, id) > 0 then s.(inFlight := s.inFlight[id := Count(s.inFlight, id) - 1]) else s
  }

  function Unreachable(s: State, id: string): State {
    if id in s.nodes then s.(nodes := s.nodes[id := s.nodes[id].(status := Degraded)]) else s
  }

  class Registry {
    var nodes: map<string, Node>
    var inFlight: map<string, nat>
    var lastSelected: map<string, nat>
    var selectionSeq: nat

    constructor (nodes: map<string, Node>)
      ensures View() == State(nodes, map[], map[], 0)
    {
      this.nodes, inFlight, lastSelected, selectionSeq := nodes, map[], map[], 0;
    }

    ghost function View(): State
      reads this
    {
      State(nodes, inFlight, lastSelected, selectionSeq)
    }

    // Nothing is found iff no node is eligible; otherwise the one best candidate, in any traversal order.
    method SelectLocked(c: Clock, req: Request) returns (r: Option<string>)
      requires Keyed(View())
      ensures r.None? <==> forall id :: !EligibleId(c, View(), req, id)
      ensures r.Some? ==> IsChoice(c, View(), req, r.value)
    {
      ghost var s := View();
      var matching: set<string> := {};
      var left := nodes.Keys;
      while left != {}
        invariant left <= nodes.Keys
        invariant forall id :: id in matching <==> id !in left && EligibleId(c, s, req, id)
        decreases left
      {
        var id :| id in left;
        if Eligible(c, nodes[id], req) {
          matching := matching + {id};
        }
        left := left - {id};
      }
      if matching == {} {
        assert forall id :: EligibleId(c, s, req, id) ==> id in matching;
        return None;
      }
      var candidates := FreeOnes(matching);
      assert forall id :: FreeId(c, s, req, id) <==> id in candidates;
      if candidates == {} {
        candidates := matching;
      }
      assert forall id :: Candidate(c, s, req, id) <==> id in candidates;
      var best := Best(candidates);
      assert EligibleId(c, View(), req, best);
      return Some(best);
    }

    method FreeOnes(matching: set<string>) returns (free: set<string>)
      requires matching <= nodes.Keys
      ensures forall id :: id in free <==> id in matching && HasFreeSlot(View(), nodes[id])
    {
      free := {};
      var left := matching;
      while left != {}
        invariant left <= matching
        invariant forall id :: id in free <==> id in matching && id !in left && HasFreeSlot(View(), nodes[id])
        decreases left
      {
        var id :| id in left;
        var active, used := nodes[id].activeTasks, if nodes[id].id in inFlight then inFlight[nodes[id].id] else 0;
        if (if active > used then active else used) < EffectiveCapacity(nodes[id]) {
          free := free + {id};
        }
        left := left - {id};
      }
    }

    method Prefers(a: string, b: string) returns (r: bool)
      requires a in nodes && b in nodes
      ensures r == PreferOver(View(), nodes[a], nodes[b])
    {
      var s := State(nodes, inFlight, lastSelected, selectionSeq);
      return PreferOver(s, nodes[a], nodes[b]);
    }

    method Best(candidates: set<string>) returns (best: string)
      requires Keyed(View()) && candidates <= nodes.Keys && candidates != {}
      ensures best in candidates
      ensures forall o :: o in candidates && o != best ==> PreferOver(View(), nodes[best], nodes[o])
    {
      ghost var s := View();
      best :| best in candidates;
      var left := candidates - {best};
      while left != {}
        invariant left <= candidates && best in candidates && best !in left
        invariant forall o :: o in candidates && o !in left && o != best ==> PreferOver(s, nodes[best], nodes[o])
        decreases left
      {
        var id :| id in left;
        var better := Prefers(id, best);
        PreferenceIsStrictTotal(s, nodes[id], nodes[best], nodes[best]);
        forall o | o in candidates && o !in left && o != best && better
          ensures PreferOver(s, nodes[id], nodes[o])
        {
          PreferenceIsStrictTotal(s, nodes[id], nodes[best], nodes[o]);
        }
        left := left - {id};
        if better {
          best := id;
        }
      }
    }

    method SelectAndReserve(c: Clock, req: Request) returns (r: Option<string>)
      requires Keyed(View())
      modifies this`inFlight, this`lastSelected, this`selectionSeq
      ensures r.None? ==> View() == old(View()) && forall id :: !EligibleId(c, View(), req, id)
      ensures r.Some? ==> IsChoice(c, old(View()), req, r.value) && View() == Reserved(old(View()), r.value)
    {
      r := SelectLocked(c, req);
      if r.Some? {
        var id := r.value;
        inFlight := inFlight[id := (if id in inFlight then inFlight[id] else 0) + 1];
        selectionSeq := selectionSeq + 1;
        lastSelected := lastSelected[id := selectionSeq];
      }
    }

    // Never below zero.
    method Release(id: string)
      modifies this`inFlight
      ensures View() == Released(old(View()), id)
    {
      if id in inFlight && inFlight[id] > 0 {
        inFlight := inFlight[id := inFlight[id] - 1];
      }
    }

    method MarkNodeUnreachable(id: string) returns (ok: bool)
      modifies this`nodes
      ensures View() == Unreachable(old(View()), id) && ok == (id in old(nodes))
    {
      if id !in nodes {
        return false;
      }
      nodes := nodes[id := nodes[id].(status := Degraded)];
      return true;
    }
  }
}
