// Dispatching tasks to mesh nodes with bounded retries (pkg/server/runner/mesh.go).
module MeshRunners {
  import opened Wrappers
  import opened Registries

  const MESH_DISPATCH_ATTEMPTS: nat := 3

  // How one dispatch attempt ends: the worker ran the task, answered 429, was never reached, or anything
  // else, which may mean that it had accepted the task.
  datatype Outcome = Completed | Busy | DialFailed | OtherError

  // What Run reports: the task ran on a node, a dispatch error, or no node was ever tried and the local
  // fallback takes it.
  datatype Report = RanOnMesh | DispatchError(last: Outcome) | Fallback

  predicate MayHaveAccepted(o: Outcome) {
    o == Completed || o == OtherError
  }

  datatype Contact = Contact(node: string, outcome: Outcome)

  // At most three attempts, only the last of which can have been accepted; the report tells how it went.
  ghost predicate Faithful(contacts: seq<Contact>, report: Report) {
    && |contacts| <= 3
    && (forall i :: 0 <= i < |contacts| - 1 ==> !MayHaveAccepted(contacts[i].outcome))
    && (report == Fallback <==> contacts == [])
    && (contacts != [] ==>
          var last := contacts[|contacts| - 1].outcome;
          report == if last == Completed then RanOnMesh else DispatchError(last))
  }

  // The registry after one attempt on a node: the slot is given back, and a node that was never reached is out.
  function AfterContact(s: State, contact: Contact): State {
    var back := Released(Reserved(s, contact.node), contact.node);
    if contact.outcome == DialFailed then Unreachable(back, contact.node) else back
  }

  // The registry's choice, which has to have an endpoint.
  ghost predicate Reachable(c: Clock, s: State, req: Request, id: string) {
    IsChoice(c, s, req, id) && s.nodes[id].endpoint != ""
  }

  ghost predicate NoneLeft(c: Clock, s: State, req: Request) {
    forall id :: !Reachable(c, s, req, id)
  }

  // Every attempt went to the choice of the registry as the attempts before it had left it: states[i] is the
  // registry before attempt i.
  ghost predicate Course(c: Clock, req: Request, states: seq<State>, contacts: seq<Contact>) {
    |states| == |contacts| + 1 && forall i :: 0 <= i < |contacts| ==> WentOn(c, req, states, contacts, i)
  }

  ghost predicate WentOn(c: Clock, req: Request, states: seq<State>, contacts: seq<Contact>, i: nat)
    requires i < |contacts| < |states|
  {
    Reachable(c, states[i], req, contacts[i].node) && states[i + 1] == AfterContact(states[i], contacts[i])
  }

  // Up to the slots taken and given back on a choice without an endpoint.
  ghost predicate SameNodes(s: State, t: State) {
    t.nodes == s.nodes && forall id :: Count(t.inFlight, id) == Count(s.inFlight, id)
  }

  class MeshRunner {
    const registry: Registry

    constructor (registry: Registry)
      ensures this.registry == registry
    {
      this.registry := registry;
    }

    method SelectNodeForAttempt(c: Clock, req: Request) returns (node: Option<string>)
      requires Keyed(registry.View())
      modifies registry
      ensures Keyed(registry.View())
      ensures node.Some? ==>
        Reachable(c, old(registry.View()), req, node.value)
        && registry.View() == Reserved(old(registry.View()), node.value)
      ensures node.None? ==>
        SameNodes(old(registry.View()), registry.View()) && NoneLeft(c, old(registry.View()), req)
    {
      ghost var s := registry.View();
      node := registry.SelectAndReserve(c, req);
      if node.Some? && registry.nodes[node.value].endpoint == "" {
        forall id | IsChoice(c, s, req, id)
          ensures id == node.value
        {
          ChoiceIsUnique(c, s, req, id, node.value);
        }
        registry.Release(node.value);
        return None;
      }
    }

    // One attempt: reserve a node, dispatch, give the slot back whatever happened, and take a node that was
    // never reached out of the rotation.
    method AttemptOnce(c: Clock, req: Request, outcome: Outcome) returns (node: Option<string>)
      requires Keyed(registry.View())
      modifies registry
      ensures Keyed(registry.View())
      ensures node.Some? ==>
        Reachable(c, old(registry.View()), req, node.value)
        && registry.View() == AfterContact(old(registry.View()), Contact(node.value, outcome))
      ensures node.None? ==>
        SameNodes(old(registry.View()), registry.View()) && NoneLeft(c, old(registry.View()), req)
    {
      node := SelectNodeForAttempt(c, req);
      if node.Some? {
        registry.Release(node.value);
        if outcome == DialFailed {
          var marked := registry.MarkNodeUnreachable(node.value);
        }
      }
    }

    // The next of several attempts.
    method NextContact(c: Clock, req: Request, outcome: Outcome, contacts: seq<Contact>, ghost states: seq<State>)
      returns (node: Option<string>, ghost now: State)
      requires Keyed(registry.View()) && Course(c, req, states, contacts) && registry.View() == states[|contacts|]
      modifies registry
      ensures Keyed(registry.View()) && registry.View() == now
      ensures node.Some? ==> Course(c, req, states + [now], contacts + [Contact(node.value, outcome)])
      ensures node.None? ==> SameNodes(states[|contacts|], now) && NoneLeft(c, states[|contacts|], req)
    {
      node := AttemptOnce(c, req, outcome);
      now := registry.View();
      if node.Some? {
        OneMoreContact(c, req, states, contacts, Contact(node.value, outcome), now);
      }
    }

    // `outcomes` is how each attempt would end. With nothing else touching the registry meanwhile, each attempt
    // goes to the choice of the moment, and after fewer than three attempts the call stops only because the
    // task may have been accepted or because no choice with an endpoint is left.
    method DispatchToMesh(c: Clock, req: Request, outcomes: seq<Outcome>)
      returns (report: Report, contacts: seq<Contact>, ghost states: seq<State>)
      requires Keyed(registry.View()) && |outcomes| >= MESH_DISPATCH_ATTEMPTS
      modifies registry
      ensures Faithful(contacts, report)
      ensures forall i :: 0 <= i < |contacts| ==> contacts[i].outcome == outcomes[i]
      ensures Course(c, req, states, contacts) && states[0] == old(registry.View())
      ensures SameNodes(states[|contacts|], registry.View())
      ensures |contacts| == 3 || (contacts != [] && MayHaveAccepted(contacts[|contacts| - 1].outcome))
        || NoneLeft(c, states[|contacts|], req)
    {
      contacts, states := [], [registry.View()];
      for attempt := 0 to MESH_DISPATCH_ATTEMPTS
        invariant |contacts| == attempt && Keyed(registry.View()) && Pending(contacts, outcomes)
        invariant Course(c, req, states, contacts)
        invariant states[0] == old(registry.View()) && registry.View() == states[|contacts|]
      {
        ghost var now;
        var node;
        node, now := NextContact(c, req, outcomes[attempt], contacts, states);
        if node.None? {
          PendingIsFaithful(contacts, outcomes);
          if |contacts| > 0 {
            return DispatchError(contacts[|contacts| - 1].outcome), contacts, states;
          }
          return Fallback, contacts, states;
        }
        OneMorePending(contacts, outcomes, node.value);
        contacts, states := contacts + [Contact(node.value, outcomes[attempt])], states + [now];
        if outcomes[attempt] == Completed {
          return RanOnMesh, contacts, states;
        }
        if outcomes[attempt] == Busy {
          continue;
        }
        if outcomes[attempt] != DialFailed {
          return DispatchError(outcomes[attempt]), contacts, states;
        }
      }
      PendingIsFaithful(contacts, outcomes);
      return DispatchError(contacts[|contacts| - 1].outcome), contacts, states;
    }
  }

  // So far nobody can have accepted the task.
  ghost predicate Pending(contacts: seq<Contact>, outcomes: seq<Outcome>) {
    |contacts| <= |outcomes|
    && forall i :: 0 <= i < |contacts| ==> contacts[i].outcome == outcomes[i] && !MayHaveAccepted(contacts[i].outcome)
  }

  lemma PendingIsFaithful(contacts: seq<Contact>, outcomes: seq<Outcome>)
    requires Pending(contacts, outcomes) && |contacts| <= 3
    ensures Faithful(contacts, GiveUp(contacts))
  {
  }

  lemma OneMorePending(contacts: seq<Contact>, outcomes: seq<Outcome>, node: string)
    requires Pending(contacts, outcomes) && |contacts| < |outcomes| && |contacts| < 3
    ensures var o := outcomes[|contacts|];
      var all := contacts + [Contact(node, o)];
      && (!MayHaveAccepted(o) ==> Pending(all, outcomes))
      && (o == Completed ==> Faithful(all, RanOnMesh))
      && (o == OtherError ==> Faithful(all, DispatchError(o)))
      && forall i :: 0 <= i < |all| ==> all[i].outcome == outcomes[i]
  {
  }

  lemma OneMoreContact(c: Clock, req: Request, states: seq<State>, contacts: seq<Contact>, next: Contact, now: State)
    requires Course(c, req, states, contacts) && Reachable(c, states[|contacts|], req, next.node)
    requires now == AfterContact(states[|contacts|], next)
    ensures Course(c, req, states + [now], contacts + [next])
  {
    forall i | 0 <= i < |contacts| + 1
      ensures WentOn(c, req, states + [now], contacts + [next], i)
    {
      assert i < |contacts| ==> WentOn(c, req, states, contacts, i);
    }
  }

  // Attempts give back every slot they take, and the nodes that were never reached, and no others, end up
  // degraded.
  lemma {:induction false} ContactsMean(c: Clock, req: Request, states: seq<State>, contacts: seq<Contact>, n: nat, id: string)
    requires Course(c, req, states, contacts) && n <= |contacts|
    ensures var s, t := states[0], states[n];
      && t.nodes.Keys == s.nodes.Keys && Count(t.inFlight, id) == Count(s.inFlight, id)
      && (id in s.nodes ==> t.nodes[id] == if Contact(id, DialFailed) in contacts[..n] then s.nodes[id].(status := Degraded)
                                           else s.nodes[id])
  {
    if n > 0 {
      ContactsMean(c, req, states, contacts, n - 1, id);
      assert WentOn(c, req, states, contacts, n - 1);
      ReleasedMeans(states[n - 1], contacts[n - 1].node, id);
      assert contacts[..n] == contacts[..n - 1] + [contacts[n - 1]];
    }
  }

  // So no node is tried again after it could not be reached.
  lemma UnreachedNotRetried(c: Clock, req: Request, states: seq<State>, contacts: seq<Contact>, i: nat, j: nat)
    requires Course(c, req, states, contacts) && i < j < |contacts| && contacts[i].outcome == DialFailed
    ensures contacts[j].node != contacts[i].node
  {
    assert WentOn(c, req, states, contacts, j);
    ContactsMean(c, req, states, contacts, j, contacts[j].node);
    assert contacts[..j][i] == contacts[i];
  }

  predicate WasOnline(nodes: map<string, Node>, id: string) {
    id in nodes && nodes[id].status == Online
  }

  predicate Retired(nodes: map<string, Node>, id: string) {
    id in nodes && nodes[id].status == Degraded
  }

  // ---- concurrent dispatches

  // A dispatch holds a slot while it is on a node, and also on a chosen node without an endpoint until it has
  // given it back. After a failed dial it has given its slot back and is about to mark the node unreachable.
  datatype Phase = Selecting | OnNode(node: string) | Returning(node: string) | Marking(node: string) | Done(report: Report)

  datatype Dispatch = Dispatch(req: Request, phase: Phase, contacts: seq<Contact>)

  datatype World = World(registry: State, dispatches: map<nat, Dispatch>)

  // Each call into the registry is one step under its lock. Heartbeats, joins, leaves and prunings change the
  // node table at will.
  datatype Step =
    | Begin(k: nat, req: Request)
    | Select(k: nat, clock: Clock)
    | GiveBack(k: nat)
    | Return(k: nat, outcome: Outcome)
    | Mark(k: nat)
    | Nodes(nodes: map<string, Node>)

  function GiveUp(contacts: seq<Contact>): Report {
    if contacts == [] then Fallback else DispatchError(contacts[|contacts| - 1].outcome)
  }

  ghost predicate MayStep(w: World, step: Step, v: World) {
    match step
    case Begin(k, req) => k !in w.dispatches && v == w.(dispatches := w.dispatches[k := Dispatch(req, Selecting, [])])
    case Select(k, clock) =>
      && k in w.dispatches && w.dispatches[k].phase == Selecting
      && SelectsTo(w, k, clock, v)
    case GiveBack(k) =>
      && k in w.dispatches && w.dispatches[k].phase.Returning?
      && v == AfterGivingBack(w, k)
    case Return(k, outcome) =>
      && k in w.dispatches && w.dispatches[k].phase.OnNode?
      && v == AfterAttempt(w, k, outcome)
    case Mark(k) =>
      && k in w.dispatches && w.dispatches[k].phase.Marking?
      && v == World(Unreachable(w.registry, w.dispatches[k].phase.node),
                    w.dispatches[k := w.dispatches[k].(phase := Selecting)])
    case Nodes(nodes) => v == w.(registry := w.registry.(nodes := nodes)) && Keyed(v.registry)
  }

  // With its attempts used up, or without an eligible node, the dispatch reports; else it reserves the choice.
  ghost predicate SelectsTo(w: World, k: nat, clock: Clock, v: World)
    requires k in w.dispatches
  {
    var d := w.dispatches[k];
    var over := w.(dispatches := w.dispatches[k := d.(phase := Done(GiveUp(d.contacts)))]);
    if |d.contacts| >= MESH_DISPATCH_ATTEMPTS then v == over
    else
      || (v == over && forall id :: !EligibleId(clock, w.registry, d.req, id))
      || exists id :: IsChoice(clock, w.registry, d.req, id) && v == Chosen(w, k, id)
  }

  function Chosen(w: World, k: nat, id: string): World
    requires k in w.dispatches && id in w.registry.nodes
  {
    var phase := if w.registry.nodes[id].endpoint == "" then Returning(id) else OnNode(id);
    World(Reserved(w.registry, id), w.dispatches[k := w.dispatches[k].(phase := phase)])
  }

  // A node without an endpoint counts as none.
  function AfterGivingBack(w: World, k: nat): World
    requires k in w.dispatches && w.dispatches[k].phase.Returning?
  {
    var d := w.dispatches[k];
    World(Released(w.registry, d.phase.node), w.dispatches[k := d.(phase := Done(GiveUp(d.contacts)))])
  }

  function AfterAttempt(w: World, k: nat, outcome: Outcome): World
    requires k in w.dispatches && w.dispatches[k].phase.OnNode?
  {
    var d := w.dispatches[k];
    var id := d.phase.node;
    var phase := match outcome
      case Completed => Done(RanOnMesh)
      case OtherError => Done(DispatchError(OtherError))
      case Busy => Selecting
      case DialFailed => Marking(id);
    World(Released(w.registry, id), w.dispatches[k := Dispatch(d.req, phase, d.contacts + [Contact(id, outcome)])])
  }

  predicate Holds(phase: Phase, id: string) {
    phase == OnNode(id) || phase == Returning(id)
  }

  // A dispatch ends only when its task may have been accepted, after three attempts, without an eligible node,
  // or on a choice without an endpoint.
  lemma EndsOnlyWhen(w: World, step: Step, v: World, k: nat)
    requires MayStep(w, step, v) && k in w.dispatches && !w.dispatches[k].phase.Done?
    ensures k in v.dispatches && v.dispatches[k].req == w.dispatches[k].req
    ensures w.dispatches[k].contacts <= v.dispatches[k].contacts
    ensures v.dispatches[k].phase.Done? ==>
      var d := v.dispatches[k];
      || (d.contacts != [] && d.contacts[|d.contacts| - 1].outcome in {Completed, OtherError})
      || |d.contacts| >= 3
      || (step.Select? && forall id :: !EligibleId(step.clock, w.registry, d.req, id))
      || w.dispatches[k].phase.Returning?
  {
  }

  // And a dispatch that selects reserves the registry's choice, in whose name it then waits for an outcome.
  lemma SelectsTheChoice(w: World, step: Step, v: World, k: nat)
    requires MayStep(w, step, v) && k in w.dispatches && w.dispatches[k].phase == Selecting
    requires v.dispatches[k].phase.OnNode? || v.dispatches[k].phase.Returning?
    ensures step.Select? && var id := v.dispatches[k].phase.node;
      && IsChoice(step.clock, w.registry, w.dispatches[k].req, id)
      && (v.dispatches[k].phase.OnNode? <==> w.registry.nodes[id].endpoint != "")
      && v.registry == Reserved(w.registry, id)
  {
  }

  // The dispatches that hold a slot on a node.
  function Outstanding(w: World, id: string): set<nat> {
    set k | k in w.dispatches && Holds(w.dispatches[k].phase, id)
  }

  ghost predicate Balanced(w: World) {
    forall id :: Count(w.registry.inFlight, id) == |Outstanding(w, id)|
  }

  ghost predicate DispatchOk(d: Dispatch) {
    && (d.phase.Done? ==> Faithful(d.contacts, d.phase.report))
    && (!d.phase.Done? ==>
          |d.contacts| + (if d.phase.OnNode? then 1 else 0) <= MESH_DISPATCH_ATTEMPTS
          && forall i :: 0 <= i < |d.contacts| ==> !MayHaveAccepted(d.contacts[i].outcome))
  }

  ghost predicate Inv(w: World) {
    Balanced(w) && forall k :: k in w.dispatches ==> DispatchOk(w.dispatches[k])
  }

  predicate HoldsNow(w: World, k: nat, id: string) {
    k in w.dispatches && Holds(w.dispatches[k].phase, id)
  }

  lemma OneMember(s: set<nat>, k: nat)
    ensures |s| == |s - {k}| + if k in s then 1 else 0
  {
    assert s == if k in s then (s - {k}) + {k} else s - {k};
  }

  // One dispatch takes or gives back slots: the counts follow.
  lemma OutstandingMoves(w: World, k: nat, d: Dispatch, registry: State)
    requires Balanced(w)
    requires forall id ::
      Count(registry.inFlight, id) ==
      Count(w.registry.inFlight, id) - (if HoldsNow(w, k, id) then 1 else 0) + (if Holds(d.phase, id) then 1 else 0)
    ensures Balanced(World(registry, w.dispatches[k := d]))
  {
    var v := World(registry, w.dispatches[k := d]);
    forall id
      ensures Count(registry.inFlight, id) == |Outstanding(v, id)|
    {
      OnlyOneMoves(w, k, d, registry, id);
    }
  }

  lemma OnlyOneMoves(w: World, k: nat, d: Dispatch, registry: State, id: string)
    ensures |Outstanding(World(registry, w.dispatches[k := d]), id)| ==
      |Outstanding(w, id)| - (if HoldsNow(w, k, id) then 1 else 0) + (if Holds(d.phase, id) then 1 else 0)
  {
    var v := World(registry, w.dispatches[k := d]);
    assert Outstanding(v, id) - {k} == Outstanding(w, id) - {k};
    OneMember(Outstanding(w, id), k);
    OneMember(Outstanding(v, id), k);
  }

  lemma ReservedCounts(s: State, id: string)
    ensures forall o :: Count(Reserved(s, id).inFlight, o) == Count(s.inFlight, o) + if o == id then 1 else 0
  {
  }

  lemma OthersStayOk(w: World, k: nat, d: Dispatch, registry: State)
    requires Inv(w) && DispatchOk(d) && Balanced(World(registry, w.dispatches[k := d]))
    ensures Inv(World(registry, w.dispatches[k := d]))
  {
  }

  lemma GivesUpFaithfully(contacts: seq<Contact>)
    requires |contacts| <= MESH_DISPATCH_ATTEMPTS
    requires forall i :: 0 <= i < |contacts| ==> !MayHaveAccepted(contacts[i].outcome)
    ensures Faithful(contacts, GiveUp(contacts))
  {
  }

  lemma SelectKeepsInv(w: World, k: nat, clock: Clock, v: World)
    requires Inv(w) && k in w.dispatches && w.dispatches[k].phase == Selecting && SelectsTo(w, k, clock, v)
    ensures Inv(v)
  {
    var d := w.dispatches[k];
    assert DispatchOk(d);
    GivesUpFaithfully(d.contacts);
    var over := d.(phase := Done(GiveUp(d.contacts)));
    if v == World(w.registry, w.dispatches[k := over]) {
      OutstandingMoves(w, k, over, w.registry);
      OthersStayOk(w, k, over, w.registry);
    } else {
      var id :| IsChoice(clock, w.registry, d.req, id) && v == Chosen(w, k, id);
      ReservedCounts(w.registry, id);
      OutstandingMoves(w, k, v.dispatches[k], v.registry);
      OthersStayOk(w, k, v.dispatches[k], v.registry);
    }
  }

  // Giving a held slot back lowers the count of its node.
  lemma SlotGivenBack(w: World, k: nat, id: string)
    requires Balanced(w) && HoldsNow(w, k, id)
    ensures forall o :: Count(Released(w.registry, id).inFlight, o) == Count(w.registry.inFlight, o) - if o == id then 1 else 0
  {
    assert k in Outstanding(w, id);
    assert Count(w.registry.inFlight, id) == |Outstanding(w, id)| && |Outstanding(w, id)| > 0;
  }

  lemma GiveBackKeepsInv(w: World, k: nat)
    requires Inv(w) && k in w.dispatches && w.dispatches[k].phase.Returning?
    ensures Inv(AfterGivingBack(w, k))
  {
    var d := w.dispatches[k];
    assert DispatchOk(d);
    GivesUpFaithfully(d.contacts);
    SlotGivenBack(w, k, d.phase.node);
    var v := AfterGivingBack(w, k);
    OutstandingMoves(w, k, v.dispatches[k], v.registry);
    OthersStayOk(w, k, v.dispatches[k], v.registry);
  }

  lemma ReturnKeepsInv(w: World, k: nat, outcome: Outcome)
    requires Inv(w) && k in w.dispatches && w.dispatches[k].phase.OnNode?
    ensures Inv(AfterAttempt(w, k, outcome))
  {
    assert DispatchOk(w.dispatches[k]);
    SlotGivenBack(w, k, w.dispatches[k].phase.node);
    var v := AfterAttempt(w, k, outcome);
    OutstandingMoves(w, k, v.dispatches[k], v.registry);
    OthersStayOk(w, k, v.dispatches[k], v.registry);
  }

  lemma MarkKeepsInv(w: World, k: nat)
    requires Inv(w) && k in w.dispatches && w.dispatches[k].phase.Marking?
    ensures Inv(World(Unreachable(w.registry, w.dispatches[k].phase.node),
                      w.dispatches[k := w.dispatches[k].(phase := Selecting)]))
  {
    var d, registry := w.dispatches[k], Unreachable(w.registry, w.dispatches[k].phase.node);
    assert DispatchOk(d);
    OutstandingMoves(w, k, d.(phase := Selecting), registry);
    OthersStayOk(w, k, d.(phase := Selecting), registry);
  }

  lemma StepKeepsInv(w: World, step: Step, v: World)
    requires Inv(w) && MayStep(w, step, v)
    ensures Inv(v)
  {
    match step
    case Begin(k, req) =>
      OutstandingMoves(w, k, Dispatch(req, Selecting, []), w.registry);
      OthersStayOk(w, k, Dispatch(req, Selecting, []), w.registry);
    case Select(k, clock) => SelectKeepsInv(w, k, clock, v);
    case GiveBack(k) => GiveBackKeepsInv(w, k);
    case Return(k, outcome) => ReturnKeepsInv(w, k, outcome);
    case Mark(k) => MarkKeepsInv(w, k);
    case Nodes(nodes) =>
      assert forall id :: Outstanding(v, id) == Outstanding(w, id);
  }

  // Worlds reached one step at a time from empty counters.
  ghost predicate IsRun(worlds: seq<World>, steps: seq<Step>) {
    && |worlds| == |steps| + 1
    && worlds[0].registry.inFlight == map[] && worlds[0].dispatches == map[] && Keyed(worlds[0].registry)
    && forall i :: 0 <= i < |steps| ==> MayStep(worlds[i], steps[i], worlds[i + 1])
  }

  lemma {:induction false} RunKeepsInv(worlds: seq<World>, steps: seq<Step>, n: nat)
    requires IsRun(worlds, steps) && n < |worlds|
    ensures Inv(worlds[n])
  {
    if n == 0 {
      assert forall id :: Outstanding(worlds[0], id) == {};
    } else {
      RunKeepsInv(worlds, steps, n - 1);
      StepKeepsInv(worlds[n - 1], steps[n - 1], worlds[n]);
    }
  }

  // In every run of concurrent dispatches each node's count is the number of dispatches that hold a slot on
  // it, so it is back at zero once all have ended; and each dispatch that ended made at most three attempts,
  // of which only the last can have been accepted, and fell back only if it made none.
  lemma DispatchIsAtMostOnce(worlds: seq<World>, steps: seq<Step>, n: nat)
    requires IsRun(worlds, steps) && n < |worlds|
    ensures forall id :: Count(worlds[n].registry.inFlight, id) == |Outstanding(worlds[n], id)|
    ensures (forall k, id :: !HoldsNow(worlds[n], k, id)) ==>
      forall id :: Count(worlds[n].registry.inFlight, id) == 0
    ensures forall k :: k in worlds[n].dispatches && worlds[n].dispatches[k].phase.Done? ==>
      Faithful(worlds[n].dispatches[k].contacts, worlds[n].dispatches[k].phase.report)
  {
    RunKeepsInv(worlds, steps, n);
    if forall k, id :: !HoldsNow(worlds[n], k, id) {
      forall id
        ensures Count(worlds[n].registry.inFlight, id) == 0
      {
        assert forall k :: k in Outstanding(worlds[n], id) ==> HoldsNow(worlds[n], k, id);
        assert Outstanding(worlds[n], id) == {};
      }
    }
  }

  // ---- nodes that could not be reached

  lemma {:induction false} RunKeepsKeyed(worlds: seq<World>, steps: seq<Step>, n: nat)
    requires IsRun(worlds, steps) && n < |worlds|
    ensures Keyed(worlds[n].registry)
  {
    if n > 0 {
      RunKeepsKeyed(worlds, steps, n - 1);
      assert MayStep(worlds[n - 1], steps[n - 1], worlds[n]);
    }
  }

  // Some step in between, a heartbeat or a join, shows the node online.
  ghost predicate BackOnline(steps: seq<Step>, from: int, to: int, id: string)
    requires 0 <= from && to <= |steps|
  {
    exists m :: from <= m < to && steps[m].Nodes? && WasOnline(steps[m].nodes, id)
  }

  lemma {:induction false} DownUntilBack(worlds: seq<World>, steps: seq<Step>, from: nat, to: nat, id: string)
    requires IsRun(worlds, steps) && from <= to < |worlds|
    requires !WasOnline(worlds[from].registry.nodes, id)
    ensures WasOnline(worlds[to].registry.nodes, id) ==> BackOnline(steps, from, to, id)
  {
    if from < to {
      DownUntilBack(worlds, steps, from, to - 1, id);
      assert MayStep(worlds[to - 1], steps[to - 1], worlds[to]);
    }
  }

  ghost predicate MarkedAt(steps: seq<Step>, k: nat, from: int, m: int) {
    0 <= from <= m < |steps| && steps[m] == Mark(k) && forall n :: from <= n < m ==> steps[n] != Mark(k)
  }

  lemma {:induction false} MarkingStays(worlds: seq<World>, steps: seq<Step>, k: nat, id: string, from: nat, to: nat)
    requires IsRun(worlds, steps) && from <= to < |worlds|
    requires k in worlds[from].dispatches && worlds[from].dispatches[k].phase == Marking(id)
    requires forall n :: from <= n < to ==> steps[n] != Mark(k)
    ensures k in worlds[to].dispatches && worlds[to].dispatches[k].phase == Marking(id)
  {
    if from < to {
      MarkingStays(worlds, steps, k, id, from, to - 1);
      assert MayStep(worlds[to - 1], steps[to - 1], worlds[to]);
    }
  }

  // The mark takes the node out; from then on only a heartbeat or a join brings it back.
  lemma MarkTakesOut(worlds: seq<World>, steps: seq<Step>, k: nat, id: string, from: nat, m: nat, to: nat)
    requires IsRun(worlds, steps) && MarkedAt(steps, k, from, m) && m < to < |worlds|
    requires k in worlds[from].dispatches && worlds[from].dispatches[k].phase == Marking(id)
    ensures WasOnline(worlds[to].registry.nodes, id) ==> BackOnline(steps, m + 1, to, id)
  {
    MarkingStays(worlds, steps, k, id, from, m);
    assert MayStep(worlds[m], steps[m], worlds[m + 1]);
    DownUntilBack(worlds, steps, m + 1, to, id);
  }

  // Whether the failed dial keeps a later selection at j off the node: its dispatch has marked the node since,
  // and nothing has brought the node back after the mark.
  ghost predicate KeptOff(steps: seq<Step>, k: nat, from: nat, j: nat, id: string)
    requires from <= j <= |steps|
  {
    exists m :: m < j && MarkedAt(steps, k, from, m) && !BackOnline(steps, m + 1, j, id)
  }

  // After a dispatch could not reach a node, a later selection of any dispatch with attempts left goes to that
  // node iff it is the best candidate there and the mark is still to come or the node was brought back since.
  lemma RetriedIff(worlds: seq<World>, steps: seq<Step>, i: nat, j: nat, k: nat, id: string, other: nat, clock: Clock)
    requires IsRun(worlds, steps) && i < j < |steps|
    requires steps[i] == Return(k, DialFailed) && steps[j] == Select(other, clock)
    requires k in worlds[i].dispatches && worlds[i].dispatches[k].phase == OnNode(id)
    requires other in worlds[j].dispatches && |worlds[j].dispatches[other].contacts| < MESH_DISPATCH_ATTEMPTS
    ensures other in worlds[j + 1].dispatches
    ensures worlds[j + 1].dispatches[other].phase == OnNode(id) <==>
      !KeptOff(steps, k, i + 1, j, id)
      && IsChoice(clock, worlds[j].registry, worlds[j].dispatches[other].req, id)
      && worlds[j].registry.nodes[id].endpoint != ""
    ensures KeptOff(steps, k, i + 1, j, id) ==> !WasOnline(worlds[j].registry.nodes, id)
  {
    assert MayStep(worlds[i], steps[i], worlds[i + 1]);
    assert MayStep(worlds[j], steps[j], worlds[j + 1]);
    if KeptOff(steps, k, i + 1, j, id) {
      var m :| m < j && MarkedAt(steps, k, i + 1, m) && !BackOnline(steps, m + 1, j, id);
      MarkTakesOut(worlds, steps, k, id, i + 1, m, j);
    }
    RunKeepsKeyed(worlds, steps, j);
    SelectGoesTo(worlds[j], other, clock, worlds[j + 1], id);
  }

  lemma SelectGoesTo(w: World, k: nat, clock: Clock, v: World, id: string)
    requires Keyed(w.registry) && k in w.dispatches && w.dispatches[k].phase == Selecting && SelectsTo(w, k, clock, v)
    requires |w.dispatches[k].contacts| < MESH_DISPATCH_ATTEMPTS
    ensures k in v.dispatches
    ensures v.dispatches[k].phase == OnNode(id) <==>
      IsChoice(clock, w.registry, w.dispatches[k].req, id) && w.registry.nodes[id].endpoint != ""
  {
    var req := w.dispatches[k].req;
    if IsChoice(clock, w.registry, req, id) {
      assert EligibleId(clock, w.registry, req, id);
      var o :| IsChoice(clock, w.registry, req, o) && v == Chosen(w, k, o);
      ChoiceIsUnique(clock, w.registry, req, id, o);
    }
  }

  // ---- two concrete runs

  const REQUEST := Request("x", [])
  const NODES := map["a" := Node("a", "endpoint", [Profile("x", [])], 1, 0, Online, 0)]

  lemma SoleChoice(c: Clock, s: State)
    requires c.heartbeatTimeout <= 0 && s.nodes == NODES
    ensures IsChoice(c, s, REQUEST, "a") && s.nodes["a"].endpoint != ""
  {
    assert s.nodes["a"].agents[0].name == "x";
    assert EligibleId(c, s, REQUEST, "a");
  }

  // Two dispatches wait; the first takes the only node and cannot reach it.
  lemma DialFails(c: Clock) returns (worlds: seq<World>, steps: seq<Step>)
    requires c.heartbeatTimeout <= 0
    ensures IsRun(worlds, steps) && |steps| == 4 && steps[3] == Return(0, DialFailed)
    ensures worlds[4].registry.nodes == NODES && worlds[4].dispatches.Keys == {0, 1}
    ensures worlds[4].dispatches[0].phase == Marking("a") && worlds[4].dispatches[1] == Dispatch(REQUEST, Selecting, [])
  {
    var idle := Dispatch(REQUEST, Selecting, []);
    var w0 := World(State(NODES, map[], map[], 0), map[]);
    var w1 := w0.(dispatches := map[0 := idle]);
    var w2 := w0.(dispatches := map[0 := idle, 1 := idle]);
    SoleChoice(c, w2.registry);
    var w3 := Chosen(w2, 0, "a");
    var w4 := AfterAttempt(w3, 0, DialFailed);
    steps := [Begin(0, REQUEST), Begin(1, REQUEST), Select(0, c), Return(0, DialFailed)];
    worlds := [w0, w1, w2, w3, w4];
    assert SelectsTo(w2, 0, c, w3);
  }

  lemma RunGoesOn(worlds: seq<World>, steps: seq<Step>, step: Step, v: World)
    requires IsRun(worlds, steps) && MayStep(worlds[|steps|], step, v)
    ensures IsRun(worlds + [v], steps + [step])
  {
    var ws, ss := worlds + [v], steps + [step];
    forall i | 0 <= i < |ss|
      ensures MayStep(ws[i], ss[i], ws[i + 1])
    {
      assert i < |steps| ==> MayStep(worlds[i], steps[i], worlds[i + 1]);
    }
  }

  // Between the release of the slot and the mark, the second dispatch is sent to the node that was just not
  // reached, with no heartbeat in between.
  lemma TriedBeforeMark(c: Clock) returns (worlds: seq<World>, steps: seq<Step>)
    requires c.heartbeatTimeout <= 0
    ensures IsRun(worlds, steps) && |steps| == 5 && steps[3] == Return(0, DialFailed) && steps[4] == Select(1, c)
    ensures worlds[3].dispatches.Keys == {0, 1} && worlds[3].dispatches[0].phase == OnNode("a")
    ensures 1 in worlds[5].dispatches && worlds[5].dispatches[1].phase == OnNode("a")
  {
    var ws, ss := DialFails(c);
    SoleChoice(c, ws[4].registry);
    assert MayStep(ws[3], ss[3], ws[4]);
    assert SelectsTo(ws[4], 1, c, Chosen(ws[4], 1, "a"));
    RunGoesOn(ws, ss, Select(1, c), Chosen(ws[4], 1, "a"));
    worlds, steps := ws + [Chosen(ws[4], 1, "a")], ss + [Select(1, c)];
    BeforeDial(ws[3], ws[4]);
  }

  lemma BeforeDial(w: World, v: World)
    requires MayStep(w, Return(0, DialFailed), v) && v.dispatches.Keys == {0, 1} && v.dispatches[0].phase == Marking("a")
    ensures w.dispatches.Keys == {0, 1} && w.dispatches[0].phase == OnNode("a")
  {
    assert v.dispatches.Keys == w.dispatches.Keys + {0};
  }

  // After the mark a heartbeat brings the node back, and it is tried again.
  lemma TriedAfterHeartbeat(c: Clock) returns (worlds: seq<World>, steps: seq<Step>)
    requires c.heartbeatTimeout <= 0
    ensures IsRun(worlds, steps) && |steps| == 7
    ensures steps[3] == Return(0, DialFailed) && steps[4] == Mark(0) && steps[5] == Nodes(NODES) && steps[6] == Select(1, c)
    ensures !WasOnline(worlds[5].registry.nodes, "a")
    ensures 1 in worlds[7].dispatches && worlds[7].dispatches[1].phase == OnNode("a")
  {
    var ws, ss := DialFails(c);
    var w4 := ws[4];
    var w5 := World(Unreachable(w4.registry, "a"), w4.dispatches[0 := w4.dispatches[0].(phase := Selecting)]);
    var w6 := w5.(registry := w5.registry.(nodes := NODES));
    var w7 := Chosen(w6, 1, "a");
    RunGoesOn(ws, ss, Mark(0), w5);
    RunGoesOn(ws + [w5], ss + [Mark(0)], Nodes(NODES), w6);
    SoleChoice(c, w6.registry);
    assert SelectsTo(w6, 1, c, w7);
    RunGoesOn(ws + [w5] + [w6], ss + [Mark(0)] + [Nodes(NODES)], Select(1, c), w7);
    worlds, steps := ws + [w5] + [w6] + [w7], ss + [Mark(0)] + [Nodes(NODES)] + [Select(1, c)];
  }
}
