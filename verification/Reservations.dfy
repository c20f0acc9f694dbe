// When reservations and releases of several kinds of request, mixed at will, keep every eligible node within
// its capacity while another still has a free slot (pkg/server/registry/registry.go SelectAndReserve, Release).
module Reservations {
  import opened Registries
  import opened Text

  ghost predicate SlotFree(c: Clock, s: State, req: Request) {
    exists o :: FreeId(c, s, req, o)
  }

  ghost predicate WithinCapacity(c: Clock, s: State, req: Request) {
    forall id :: EligibleId(c, s, req, id) ==> Count(s.inFlight, id) <= EffectiveCapacity(s.nodes[id])
  }

  // No node that could serve the request is over its capacity while another has a free slot for it.
  ghost predicate Spread(c: Clock, s: State, req: Request) {
    SlotFree(c, s, req) ==> WithinCapacity(c, s, req)
  }

  predicate Overloaded(s: State, id: string) {
    id in s.nodes && Count(s.inFlight, id) > EffectiveCapacity(s.nodes[id])
  }

  // One more dispatch would put the node over its capacity while another eligible node has a free slot.
  ghost predicate Overfills(c: Clock, s: State, req: Request, id: string) {
    && EligibleId(c, s, req, id)
    && Count(s.inFlight, id) >= EffectiveCapacity(s.nodes[id])
    && exists f :: f != id && FreeId(c, s, req, f)
  }

  // One dispatch less would leave a free slot on the node while another eligible node is over its capacity.
  ghost predicate OpensBeside(c: Clock, s: State, req: Request, id: string) {
    && EligibleId(c, s, req, id)
    && s.nodes[id].activeTasks < EffectiveCapacity(s.nodes[id])
    && Count(s.inFlight, id) <= EffectiveCapacity(s.nodes[id])
    && exists o :: o != id && EligibleId(c, s, req, o) && Overloaded(s, o)
  }

  // Whatever request it is made for, a reservation keeps the spread for req iff it does not overfill.
  lemma ReserveKeepsIff(c: Clock, s: State, req: Request, id: string)
    requires Keyed(s) && id in s.nodes && Spread(c, s, req)
    ensures Spread(c, Reserved(s, id), req) <==> !Overfills(c, s, req, id)
  {
    var t := Reserved(s, id);
    forall o
      ensures EligibleId(c, t, req, o) <==> EligibleId(c, s, req, o)
      ensures FreeId(c, t, req, o) ==> FreeId(c, s, req, o)
      ensures o != id ==> (FreeId(c, t, req, o) <==> FreeId(c, s, req, o))
    {
    }
    if Overfills(c, s, req, id) {
      var f :| f != id && FreeId(c, s, req, f);
      assert FreeId(c, t, req, f);
      assert EligibleId(c, t, req, id) && Count(t.inFlight, id) > EffectiveCapacity(t.nodes[id]);
    } else if SlotFree(c, t, req) {
      var f :| FreeId(c, t, req, f);
      assert FreeId(c, s, req, f);
      StaysWithin(c, s, req, id, f);
    }
  }

  lemma StaysWithin(c: Clock, s: State, req: Request, id: string, f: string)
    requires Keyed(s) && id in s.nodes && WithinCapacity(c, s, req) && !Overfills(c, s, req, id)
    requires FreeId(c, s, req, f) && FreeId(c, Reserved(s, id), req, f)
    ensures WithinCapacity(c, Reserved(s, id), req)
  {
    var t := Reserved(s, id);
    forall o | EligibleId(c, t, req, o)
      ensures Count(t.inFlight, o) <= EffectiveCapacity(t.nodes[o])
    {
      assert EligibleId(c, s, req, o);
      if o == id && f == id {
        assert HasFreeSlot(t, t.nodes[id]);
      }
    }
  }

  // So every reservation for req itself keeps it: the chosen node has a free slot whenever any has.
  lemma OwnReservationKeeps(c: Clock, s: State, req: Request, id: string)
    requires Keyed(s) && Spread(c, s, req) && IsChoice(c, s, req, id)
    ensures Spread(c, Reserved(s, id), req)
  {
    assert Candidate(c, s, req, id);
    assert SlotFree(c, s, req) ==> HasFreeSlot(s, s.nodes[id]);
    assert Overfills(c, s, req, id) ==> SlotFree(c, s, req);
    ReserveKeepsIff(c, s, req, id);
  }

  // A release keeps the spread iff it does not open a slot beside an overloaded node.
  lemma ReleaseKeepsIff(c: Clock, s: State, req: Request, id: string)
    requires Keyed(s) && Spread(c, s, req)
    ensures Spread(c, Released(s, id), req) <==> !OpensBeside(c, s, req, id)
  {
    var t := Released(s, id);
    forall o
      ensures EligibleId(c, t, req, o) <==> EligibleId(c, s, req, o)
      ensures o != id ==> Count(t.inFlight, o) == Count(s.inFlight, o) && (FreeId(c, t, req, o) <==> FreeId(c, s, req, o))
      ensures Count(t.inFlight, o) <= Count(s.inFlight, o)
    {
    }
    if OpensBeside(c, s, req, id) {
      var o :| o != id && EligibleId(c, s, req, o) && Overloaded(s, o);
      OverloadMeansFull(c, s, req, o);
      assert FreeId(c, t, req, id);
      assert EligibleId(c, t, req, o) && Count(t.inFlight, o) > EffectiveCapacity(t.nodes[o]);
    } else if SlotFree(c, t, req) {
      ReleaseStaysWithin(c, s, req, id);
    }
  }

  lemma OverloadMeansFull(c: Clock, s: State, req: Request, o: string)
    requires Spread(c, s, req) && EligibleId(c, s, req, o) && Overloaded(s, o)
    ensures !SlotFree(c, s, req)
  {
  }

  lemma ReleaseStaysWithin(c: Clock, s: State, req: Request, id: string)
    requires Keyed(s) && Spread(c, s, req) && !OpensBeside(c, s, req, id) && SlotFree(c, Released(s, id), req)
    ensures WithinCapacity(c, Released(s, id), req)
  {
    var t := Released(s, id);
    var f :| FreeId(c, t, req, f);
    forall o | EligibleId(c, t, req, o)
      ensures Count(t.inFlight, o) <= EffectiveCapacity(t.nodes[o])
    {
      assert EligibleId(c, s, req, o);
      if f == id {
        assert HasFreeSlot(t, t.nodes[id]) && EligibleId(c, s, req, id);
        if o != id {
          assert !Overloaded(s, o);
        }
      } else {
        assert FreeId(c, s, req, f);
      }
    }
  }

  // ---- runs

  datatype Step = Reserve(req: Request, id: string) | GiveBack(id: string)

  function Apply(s: State, step: Step): State {
    match step
    case Reserve(req, id) => Reserved(s, id)
    case GiveBack(id) => Released(s, id)
  }

  function ApplyAll(s: State, steps: seq<Step>): (t: State)
    ensures t.nodes == s.nodes
  {
    if steps == [] then s else Apply(ApplyAll(s, steps[..|steps| - 1]), steps[|steps| - 1])
  }

  // Every reservation takes the node that is chosen for its own request.
  ghost predicate Follows(c: Clock, s: State, steps: seq<Step>) {
    forall n :: 0 <= n < |steps| && steps[n].Reserve? ==> IsChoice(c, ApplyAll(s, steps[..n]), steps[n].req, steps[n].id)
  }

  ghost predicate Harms(c: Clock, s: State, req: Request, step: Step) {
    match step
    case Reserve(_, id) => Overfills(c, s, req, id)
    case GiveBack(id) => OpensBeside(c, s, req, id)
  }

  lemma StepKeepsIff(c: Clock, s: State, req: Request, step: Step)
    requires Keyed(s) && Spread(c, s, req) && (step.Reserve? ==> IsChoice(c, s, step.req, step.id))
    ensures Spread(c, Apply(s, step), req) <==> !Harms(c, s, req, step)
    ensures step.Reserve? && step.req == req ==> !Harms(c, s, req, step)
  {
    match step
    case Reserve(r, id) =>
      assert Candidate(c, s, r, id);
      ReserveKeepsIff(c, s, req, id);
      if r == req {
        OwnReservationKeeps(c, s, req, id);
      }
    case GiveBack(id) => ReleaseKeepsIff(c, s, req, id);
  }

  ghost predicate SpreadUpTo(c: Clock, s: State, req: Request, steps: seq<Step>, end: nat)
    requires end <= |steps|
  {
    forall n :: 0 <= n <= end ==> Spread(c, ApplyAll(s, steps[..n]), req)
  }

  ghost predicate HarmlessUpTo(c: Clock, s: State, req: Request, steps: seq<Step>, end: nat)
    requires end <= |steps|
  {
    forall n :: 0 <= n < end ==> !Harms(c, ApplyAll(s, steps[..n]), req, steps[n])
  }

  lemma RangesGrow(c: Clock, s: State, req: Request, steps: seq<Step>, end: nat)
    requires 0 < end <= |steps|
    ensures SpreadUpTo(c, s, req, steps, end) <==>
      SpreadUpTo(c, s, req, steps, end - 1) && Spread(c, ApplyAll(s, steps[..end]), req)
    ensures HarmlessUpTo(c, s, req, steps, end) <==>
      HarmlessUpTo(c, s, req, steps, end - 1) && !Harms(c, ApplyAll(s, steps[..end - 1]), req, steps[end - 1])
  {
  }

  lemma {:induction false} SpreadUpToIff(c: Clock, s: State, req: Request, steps: seq<Step>, end: nat)
    requires Keyed(s) && Spread(c, s, req) && Follows(c, s, steps) && end <= |steps|
    ensures SpreadUpTo(c, s, req, steps, end) <==> HarmlessUpTo(c, s, req, steps, end)
  {
    if end == 0 {
      assert steps[..0] == [];
    } else {
      SpreadUpToIff(c, s, req, steps, end - 1);
      RangesGrow(c, s, req, steps, end);
      if SpreadUpTo(c, s, req, steps, end - 1) {
        var mid := ApplyAll(s, steps[..end - 1]);
        assert steps[..end][..end - 1] == steps[..end - 1] && Spread(c, mid, req);
        StepKeepsIff(c, mid, req, steps[end - 1]);
      }
    }
  }

  // From counters at zero, and for every kind of request: the in-flight counts stay spread through a run of
  // reservations and releases of all kinds iff no reservation overfills a node and no release opens a slot
  // beside an overloaded one.
  lemma MixedRunsSpreadIff(c: Clock, s: State, req: Request, steps: seq<Step>)
    requires Keyed(s) && s.inFlight == map[] && Follows(c, s, steps)
    ensures SpreadUpTo(c, s, req, steps, |steps|) <==> HarmlessUpTo(c, s, req, steps, |steps|)
  {
    assert WithinCapacity(c, s, req);
    SpreadUpToIff(c, s, req, steps, |steps|);
  }

  // Reservations for the request itself never harm, so runs of one kind without releases always stay spread.
  lemma {:induction false} OneKindNeverHarms(c: Clock, s: State, req: Request, steps: seq<Step>, end: nat)
    requires Keyed(s) && s.inFlight == map[] && Follows(c, s, steps) && end <= |steps|
    requires forall n :: 0 <= n < |steps| ==> steps[n].Reserve? && steps[n].req == req
    ensures HarmlessUpTo(c, s, req, steps, end) && SpreadUpTo(c, s, req, steps, end)
  {
    assert WithinCapacity(c, s, req);
    if end > 0 {
      OneKindNeverHarms(c, s, req, steps, end - 1);
      RangesGrow(c, s, req, steps, end);
      var mid := ApplyAll(s, steps[..end - 1]);
      assert Spread(c, mid, req) && steps[end - 1].Reserve?;
      StepKeepsIff(c, mid, req, steps[end - 1]);
    }
    SpreadUpToIff(c, s, req, steps, end);
  }

  // Reservations alone overload nobody early: from counters at zero, while some eligible node still has a
  // free slot, no eligible node has more dispatches in flight than its capacity.
  lemma NoEarlyOverload(c: Clock, s: State, req: Request, steps: seq<Step>, free: string)
    requires Keyed(s) && s.inFlight == map[] && Follows(c, s, steps)
    requires forall n :: 0 <= n < |steps| ==> steps[n].Reserve? && steps[n].req == req
    requires FreeId(c, ApplyAll(s, steps), req, free)
    ensures WithinCapacity(c, ApplyAll(s, steps), req)
  {
    OneKindNeverHarms(c, s, req, steps, |steps|);
    assert steps[..|steps|] == steps;
    assert Spread(c, ApplyAll(s, steps), req);
  }

  // ---- releases and mixed kinds do harm

  function OneSlot(id: string, agent: string): Node {
    Node(id, "endpoint", [Profile(agent, [])], 1, 0, Online, 0)
  }

  function TwoNodes(agent: string): State {
    State(map["a" := OneSlot("a", agent), "b" := OneSlot("b", agent)], map[], map[], 0)
  }

  // Which of the two is chosen, from what sets them apart.
  lemma ChoiceOfTwo(c: Clock, s: State, agent: string, x: string, y: string)
    requires c.heartbeatTimeout <= 0 && s.nodes == TwoNodes(agent).nodes && {x, y} == {"a", "b"} && x != y
    requires (Count(s.inFlight, x) == 0 && Count(s.inFlight, y) > 0)
             || (Count(s.inFlight, x) == Count(s.inFlight, y) && PreferOver(s, s.nodes[x], s.nodes[y]))
    ensures IsChoice(c, s, Request(agent, []), x)
  {
    var req := Request(agent, []);
    assert x in {x, y} && y in {x, y};
    assert s.nodes[x].agents[0].name == agent && s.nodes[y].agents[0].name == agent;
    assert EligibleId(c, s, req, x) && EligibleId(c, s, req, y);
    assert forall o :: EligibleId(c, s, req, o) ==> o in {"a", "b"};
    if Count(s.inFlight, x) == 0 {
      assert FreeId(c, s, req, x);
    }
  }

  // Two nodes of one slot each, a third reservation under the soft cap, and the other node's release leave one
  // node with two dispatches beside an idle one.
  lemma ReleasesOverload(c: Clock, agent: string)
    requires c.heartbeatTimeout <= 0
    ensures var s, req := TwoNodes(agent), Request(agent, []);
      var steps := [Reserve(req, "a"), Reserve(req, "b"), Reserve(req, "a"), GiveBack("b")];
      && Follows(c, s, steps)
      && FreeId(c, ApplyAll(s, steps), req, "b")
      && !Spread(c, ApplyAll(s, steps), req)
  {
    var s, req := TwoNodes(agent), Request(agent, []);
    ThreeChoices(c, agent);
    var end := Released(Reserved(Reserved(Reserved(s, "a"), "b"), "a"), "b");
    FourApply(s, [Reserve(req, "a"), Reserve(req, "b"), Reserve(req, "a"), GiveBack("b")]);
    assert end.inFlight == map["a" := 2, "b" := 0];
    TwoBesideNone(c, end, agent);
  }

  lemma ThreeChoices(c: Clock, agent: string)
    requires c.heartbeatTimeout <= 0
    ensures var s, req := TwoNodes(agent), Request(agent, []);
      IsChoice(c, s, req, "a") && IsChoice(c, Reserved(s, "a"), req, "b")
      && IsChoice(c, Reserved(Reserved(s, "a"), "b"), req, "a")
  {
    var s := TwoNodes(agent);
    var s2 := Reserved(Reserved(s, "a"), "b");
    assert CodePoints("a")[0] == 97 && CodePoints("b")[0] == 98;
    ChoiceOfTwo(c, s, agent, "a", "b");
    ChoiceOfTwo(c, Reserved(s, "a"), agent, "b", "a");
    assert s2.lastSelected == map["a" := 1, "b" := 2] && s2.inFlight == map["a" := 1, "b" := 1];
    ChoiceOfTwo(c, s2, agent, "a", "b");
  }

  lemma TwoBesideNone(c: Clock, end: State, agent: string)
    requires c.heartbeatTimeout <= 0 && end.nodes == TwoNodes(agent).nodes && end.inFlight == map["a" := 2, "b" := 0]
    ensures FreeId(c, end, Request(agent, []), "b") && !Spread(c, end, Request(agent, []))
  {
    var req := Request(agent, []);
    assert end.nodes["a"].agents[0].name == agent && end.nodes["b"].agents[0].name == agent;
    assert EligibleId(c, end, req, "a") && EligibleId(c, end, req, "b");
    assert FreeId(c, end, req, "b");
  }

  lemma FourApply(s: State, steps: seq<Step>)
    requires |steps| == 4
    ensures ApplyAll(s, steps[..0]) == s
    ensures ApplyAll(s, steps[..1]) == Apply(s, steps[0])
    ensures ApplyAll(s, steps[..2]) == Apply(Apply(s, steps[0]), steps[1])
    ensures ApplyAll(s, steps[..3]) == Apply(Apply(Apply(s, steps[0]), steps[1]), steps[2])
    ensures ApplyAll(s, steps) == Apply(Apply(Apply(Apply(s, steps[0]), steps[1]), steps[2]), steps[3])
  {
    assert steps[..1][..0] == [] && steps[..2][..1] == steps[..1] && steps[..3][..2] == steps[..2];
    assert ApplyAll(s, steps[..1]) == Apply(s, steps[0]);
    assert ApplyAll(s, steps[..2]) == Apply(Apply(s, steps[0]), steps[1]);
  }

  // x serves both agents, y only the second.
  function TwoKinds(): State {
    State(map["x" := Node("x", "endpoint", [Profile("a", []), Profile("b", [])], 1, 0, Online, 0),
              "y" := Node("y", "endpoint", [Profile("b", [])], 1, 0, Online, 0)], map[], map[], 0)
  }

  const FOR_A := Request("a", [])
  const FOR_B := Request("b", [])

  lemma OnlyOneServes(c: Clock, s: State)
    requires c.heartbeatTimeout <= 0 && s.nodes == TwoKinds().nodes
    ensures IsChoice(c, s, FOR_A, "x") && EligibleId(c, s, FOR_B, "x") && EligibleId(c, s, FOR_B, "y")
  {
    var x, y := s.nodes["x"], s.nodes["y"];
    assert x.agents[0].name == "a" && x.agents[1].name == "b" && y.agents[0].name == "b";
    assert "a"[0] == 'a' && "b"[0] == 'b';
    assert Supports(x, FOR_A) && Supports(x, FOR_B) && Supports(y, FOR_B) && !Supports(y, FOR_A);
    assert forall o :: EligibleId(c, s, FOR_A, o) ==> o == "x";
  }

  // Two reservations for the first kind go to the only node that serves it, and leave it with two dispatches
  // while the other node is idle for the second kind.
  lemma MixedKindsOverload(c: Clock)
    requires c.heartbeatTimeout <= 0
    ensures var s, steps := TwoKinds(), [Reserve(FOR_A, "x"), Reserve(FOR_A, "x")];
      && Follows(c, s, steps)
      && FreeId(c, ApplyAll(s, steps), FOR_B, "y")
      && !Spread(c, ApplyAll(s, steps), FOR_B)
  {
    var s, steps := TwoKinds(), [Reserve(FOR_A, "x"), Reserve(FOR_A, "x")];
    var s1 := Reserved(s, "x");
    var s2 := Reserved(s1, "x");
    assert steps[..0] == [] && steps[..1] == [Reserve(FOR_A, "x")] && steps[..1][..0] == [];
    assert ApplyAll(s, []) == s;
    assert ApplyAll(s, steps[..1]) == s1;
    assert ApplyAll(s, steps) == s2;
    OnlyOneServes(c, s);
    OnlyOneServes(c, s1);
    OnlyOneServes(c, s2);
    assert s2.inFlight == map["x" := 2];
    assert FreeId(c, s2, FOR_B, "y");
  }
}
