// How long a decision lasts when accept and dispute handlers overlap: each reads the receipt, checks it and
// writes it back whole, with nothing held in between (integration/agent/server.go handleAccept, handleDispute).
module Decisions {
  import opened Wrappers
  import opened Receipts
  import opened ChainStores
  import opened ChainVerifier
  import opened Append
  import opened Protocol
  import Sequences

  // Row i carries this decision; Undecided is one of the three.
  predicate DecidedAt(rows: seq<Row>, i: int, d: Acceptance) {
    0 <= i < |rows| && rows[i].data.Some? && rows[i].data.value.emitterAcceptance == d
  }

  // A handler that has passed its guards on this receipt with another decision and has yet to write.
  predicate IsContrary(s: State, k: nat, id: string, d: Acceptance) {
    k in s.decisions && s.decisions[k].decision != d && s.decisions[k].stored.receiptId == id
  }

  ghost predicate ContraryPending(s: State, id: string, d: Acceptance) {
    exists k :: IsContrary(s, k, id, d)
  }

  // Another decision of this receipt would pass its guards now.
  ghost predicate ContraryAdmissible(cfg: Config, rows: seq<Row>, id: string, d: Acceptance) {
    exists decision, reason, signature :: decision != d && Admit(cfg, rows, id, decision, reason, signature).Some?
  }

  predicate Overturns(s: State, step: Step, id: string, d: Acceptance) {
    step.WriteDecision? && IsContrary(s, step.call, id, d)
  }

  // ---- one step

  // A write leaves the rows of other receipts alone and its own with its decision.
  lemma WriteDecides(cfg: Config, s: State, k: nat, now: int, i: nat)
    requires Inv(cfg, s) && k in s.decisions && i < |s.rows|
    ensures var after, p := WriteBack(s.rows, s.decisions[k], now), s.decisions[k];
      && |after| == |s.rows| && after[i].receiptId == s.rows[i].receiptId
      && (s.rows[i].receiptId != p.stored.receiptId ==> after[i] == s.rows[i])
      && (s.rows[i].receiptId == p.stored.receiptId ==> DecidedAt(after, i, p.decision))
    ensures s.decisions[k].decision == Accepted || s.decisions[k].decision == Disputed
    ensures s.decisions[k].decision == Disputed ==> s.decisions[k].stored.emitterAcceptance == Undecided
  {
    var p := s.decisions[k];
    assert PendingOk(cfg, s.rows, p);
    var at := WriteTouchesOneRow(cfg, s.rows, p, now);
    assert s.rows[i].receiptId == s.rows[at].receiptId ==> i == at by {
      assert DistinctIds(s.rows);
    }
  }

  // A decision, or its absence, outlives a step iff the step does not write another decision of the receipt.
  // What overturns an acceptance is a dispute made on a snapshot from before the acceptance.
  lemma DecisionStaysIff(cfg: Config, s: State, step: Step, i: nat, d: Acceptance)
    requires Lawful(cfg.crypto) && Inv(cfg, s) && Unused(s.rows, step) && DecidedAt(s.rows, i, d)
    ensures DecidedAt(Next(cfg, s, step).rows, i, d) <==> !Overturns(s, step, s.rows[i].receiptId, d)
    ensures d == Accepted && Overturns(s, step, s.rows[i].receiptId, d) ==>
      s.decisions[step.call].decision == Disputed && s.decisions[step.call].stored.emitterAcceptance == Undecided
  {
    match step
    case Advance(id, receiptId, now) =>
      if id in s.calls {
        AdvanceKeepsInv(cfg, s, id, receiptId, now);
      }
    case WriteDecision(k, now) =>
      if k in s.decisions {
        WriteDecides(cfg, s, k, now, i);
      }
    case _ =>
  }

  // ---- every continuation

  // Whether a decision passes its guards depends on what the executor signed and on the decision so far.
  lemma AdmissionStays(cfg: Config, a: seq<Row>, b: seq<Row>, i: nat, d: Acceptance)
    requires StoreInv(cfg, a) && StoreInv(cfg, b) && Evolves(a, b)
    requires DecidedAt(a, i, d) && DecidedAt(b, i, d)
    ensures ContraryAdmissible(cfg, b, a[i].receiptId, d) ==> ContraryAdmissible(cfg, a, a[i].receiptId, d)
  {
    var id := a[i].receiptId;
    if ContraryAdmissible(cfg, b, id, d) {
      var decision, reason, signature :| decision != d && Admit(cfg, b, id, decision, reason, signature).Some?;
      SameAdmission(cfg, a, b, i, decision, reason, signature);
    }
  }

  lemma RowOfReceipt(cfg: Config, rows: seq<Row>, i: nat)
    requires StoreInv(cfg, rows) && i < |rows|
    ensures ByReceipt(rows, rows[i].receiptId) == Some(rows[i]) && Loaded(rows[i]).Some?
    ensures var r := Loaded(rows[i]).value;
      r.receiptId == rows[i].receiptId && ExecutorContent(r) == ExecutorContent(rows[i].data.value)
      && r.executorSignature == rows[i].data.value.executorSignature
      && r.emitterAcceptance == rows[i].data.value.emitterAcceptance
  {
    var k :| 0 <= k < |rows| && rows[k] == ByReceipt(rows, rows[i].receiptId).value && rows[k].receiptId == rows[i].receiptId;
    assert k == i by {
      assert DistinctIds(rows);
    }
    assert Faithful(rows[i]);
    ExecutorContentBlindSpots(rows[i].data.value, Loaded(rows[i]).value);
  }

  lemma SameAdmission(cfg: Config, a: seq<Row>, b: seq<Row>, i: nat, decision: Acceptance, reason: string, signature: string)
    requires StoreInv(cfg, a) && StoreInv(cfg, b) && i < |a| <= |b| && Preserved(a[i], b[i])
    requires a[i].data.value.emitterAcceptance == b[i].data.value.emitterAcceptance
    ensures Admit(cfg, a, a[i].receiptId, decision, reason, signature).Some? <==>
            Admit(cfg, b, a[i].receiptId, decision, reason, signature).Some?
  {
    RowOfReceipt(cfg, a, i);
    RowOfReceipt(cfg, b, i);
    var x, y := Loaded(a[i]).value, Loaded(b[i]).value;
    ExecutorContentBlindSpots(x, y);
    var note := if decision == Accepted then "" else reason;
    assert EmitterContent(Candidate(Pending(x, decision, note, signature))) == EmitterContent(Candidate(Pending(y, decision, note, signature)));
  }

  lemma NoNewContrary(cfg: Config, s: State, step: Step, i: nat, d: Acceptance)
    requires Inv(cfg, s) && DecidedAt(s.rows, i, d)
    requires !ContraryPending(s, s.rows[i].receiptId, d) && !ContraryAdmissible(cfg, s.rows, s.rows[i].receiptId, d)
    ensures !ContraryPending(Next(cfg, s, step), s.rows[i].receiptId, d)
  {
    var id, after := s.rows[i].receiptId, Next(cfg, s, step);
    forall k: nat
      ensures !IsContrary(after, k, id, d)
    {
      assert !IsContrary(s, k, id, d);
      if step.ReadDecision? && Admit(cfg, s.rows, step.receiptId, step.decision, step.reason, step.signature).Some? {
        AdmittedIsOk(cfg, s.rows, step.receiptId, step.decision, step.reason, step.signature);
      }
    }
  }

  // With no other decision pending and none admissible, a decision stays through every continuation.
  lemma {:induction false} DecidedForGood(cfg: Config, s: State, steps: seq<Step>, i: nat, d: Acceptance)
    requires Lawful(cfg.crypto) && Inv(cfg, s) && FreshIds(s.rows, steps) && DecidedAt(s.rows, i, d)
    requires !ContraryPending(s, s.rows[i].receiptId, d) && !ContraryAdmissible(cfg, s.rows, s.rows[i].receiptId, d)
    ensures var end := Run(cfg, s, steps);
      DecidedAt(end.rows, i, d) && end.rows[i].receiptId == s.rows[i].receiptId
      && !ContraryPending(end, s.rows[i].receiptId, d) && !ContraryAdmissible(cfg, end.rows, s.rows[i].receiptId, d)
  {
    RunIsSafe(cfg, s, steps);
    if steps != [] {
      var init, last := steps[..|steps| - 1], steps[|steps| - 1];
      DecidedForGood(cfg, s, init, i, d);
      RunIsSafe(cfg, s, init);
      var mid := Run(cfg, s, init);
      UnusedAfter(s.rows, mid.rows, steps);
      DecisionStaysIff(cfg, mid, last, i, d);
      assert !IsContrary(mid, if last.WriteDecision? then last.call else 0, mid.rows[i].receiptId, d);
      NoNewContrary(cfg, mid, last, i, d);
      assert Preserved(s.rows[i], Run(cfg, s, steps).rows[i]);
      AdmissionStays(cfg, s.rows, Run(cfg, s, steps).rows, i, d);
    }
  }

  ghost predicate AlwaysDecided(cfg: Config, s: State, i: nat, d: Acceptance) {
    forall steps: seq<Step> {:trigger Run(cfg, s, steps)} :: FreshIds(s.rows, steps) ==> DecidedAt(Run(cfg, s, steps).rows, i, d)
  }

  lemma WriteOverturns(cfg: Config, s: State, i: nat, d: Acceptance, k: nat)
    requires Lawful(cfg.crypto) && Inv(cfg, s) && DecidedAt(s.rows, i, d) && IsContrary(s, k, s.rows[i].receiptId, d)
    ensures !DecidedAt(Next(cfg, s, WriteDecision(k, 0)).rows, i, d)
  {
    DecisionStaysIff(cfg, s, WriteDecision(k, 0), i, d);
  }

  // The write of a pending contrary decision is a continuation of its own.
  lemma PendingOverturns(cfg: Config, s: State, i: nat, d: Acceptance)
    requires Lawful(cfg.crypto) && Inv(cfg, s) && DecidedAt(s.rows, i, d)
    requires ContraryPending(s, s.rows[i].receiptId, d)
    ensures !AlwaysDecided(cfg, s, i, d)
  {
    var k :| IsContrary(s, k, s.rows[i].receiptId, d);
    WriteOverturns(cfg, s, i, d, k);
    OneStepContinues(cfg, s, [], WriteDecision(k, 0), i, d);
  }

  lemma OneStepContinues(cfg: Config, s: State, steps: seq<Step>, last: Step, i: nat, d: Acceptance)
    requires !last.Advance? && forall n :: 0 <= n < |steps| ==> !steps[n].Advance?
    requires !DecidedAt(Next(cfg, Run(cfg, s, steps), last).rows, i, d)
    ensures !AlwaysDecided(cfg, s, i, d)
  {
    RunAppends(cfg, s, steps, last);
    assert FreshIds(s.rows, steps + [last]);
  }

  // An admissible contrary decision can be read by a new handler and then written.
  lemma AdmissibleOverturns(cfg: Config, s: State, i: nat, d: Acceptance)
    requires Lawful(cfg.crypto) && Inv(cfg, s) && DecidedAt(s.rows, i, d)
    requires ContraryAdmissible(cfg, s.rows, s.rows[i].receiptId, d)
    ensures !AlwaysDecided(cfg, s, i, d)
  {
    var id := s.rows[i].receiptId;
    var decision, reason, signature :| decision != d && Admit(cfg, s.rows, id, decision, reason, signature).Some?;
    var k := UnusedCall(s.decisions.Keys);
    var read := ReadDecision(k, id, decision, reason, signature);
    NewHandlerWaits(cfg, s, k, id, decision, reason, signature, d);
    RunOfOne(cfg, s, read);
    WriteOverturns(cfg, Next(cfg, s, read), i, d, k);
    OneStepContinues(cfg, s, [read], WriteDecision(k, 0), i, d);
  }

  lemma NewHandlerWaits(cfg: Config, s: State, k: nat, id: string, decision: Acceptance, reason: string, signature: string,
                        d: Acceptance)
    requires Inv(cfg, s) && k !in s.decisions && decision != d && Admit(cfg, s.rows, id, decision, reason, signature).Some?
    ensures var mid := Next(cfg, s, ReadDecision(k, id, decision, reason, signature));
      Inv(cfg, mid) && mid.rows == s.rows && IsContrary(mid, k, id, d)
  {
    AdmittedIsOk(cfg, s.rows, id, decision, reason, signature);
    ReadKeepsInv(cfg, s, k, id, decision, reason, signature);
  }

  lemma {:induction false} UnusedCall(used: set<nat>) returns (k: nat)
    ensures forall u :: u in used ==> u < k
  {
    if used == {} {
      k := 0;
    } else {
      var u :| u in used;
      k := UnusedCall(used - {u});
      assert forall x :: x in used && x != u ==> x in used - {u};
      if k <= u {
        k := u + 1;
      }
    }
  }

  lemma RunOfOne(cfg: Config, s: State, step: Step)
    ensures Run(cfg, s, [step]) == Next(cfg, s, step)
  {
    assert [step][..0] == [];
  }

  // A decision is for good iff at that moment no other decision of the receipt is pending and none would pass
  // its guards.
  lemma DecidedForeverIff(cfg: Config, s: State, i: nat, d: Acceptance)
    requires Lawful(cfg.crypto) && Inv(cfg, s) && DecidedAt(s.rows, i, d)
    ensures AlwaysDecided(cfg, s, i, d) <==>
      !ContraryPending(s, s.rows[i].receiptId, d) && !ContraryAdmissible(cfg, s.rows, s.rows[i].receiptId, d)
  {
    if ContraryPending(s, s.rows[i].receiptId, d) {
      PendingOverturns(cfg, s, i, d);
    } else if ContraryAdmissible(cfg, s.rows, s.rows[i].receiptId, d) {
      AdmissibleOverturns(cfg, s, i, d);
    } else {
      forall steps: seq<Step> | FreshIds(s.rows, steps)
        ensures DecidedAt(Run(cfg, s, steps).rows, i, d)
      {
        DecidedForGood(cfg, s, steps, i, d);
      }
    }
  }

  // The dispute handler refuses a decided receipt, so an acceptance is for good iff no dispute is pending.
  lemma AcceptedForeverIff(cfg: Config, s: State, i: nat)
    requires Lawful(cfg.crypto) && Inv(cfg, s) && DecidedAt(s.rows, i, Accepted)
    ensures AlwaysDecided(cfg, s, i, Accepted) <==> !ContraryPending(s, s.rows[i].receiptId, Accepted)
  {
    RowOfReceipt(cfg, s.rows, i);
    DecidedForeverIff(cfg, s, i, Accepted);
  }

  // The signature verifies under the emitter's key over the stored receipt with this decision and reason in it
  // and the two signatures, the decision's time and the number out of it.
  predicate SignsDecision(cfg: Config, row: Row, decision: Acceptance, reason: string, signature: string)
    requires row.data.Some?
  {
    && signature != ""
    && cfg.crypto.verify(
         cfg.emitterKey(row.emitter),
         cfg.crypto.digest(row.data.value.(emitterAcceptance := decision, disputeReason := reason, emitterAcceptanceAt := None,
                                           executorSignature := "", emitterSignature := "", sequenceNumber := 0)),
         signature)
  }

  // What the accept handler asks for. It does not look at the decision so far.
  predicate Acceptable(cfg: Config, row: Row, signature: string)
    requires row.data.Some?
  {
    row.data.value.meshId == cfg.meshId && SignsDecision(cfg, row, Accepted, "", signature)
  }

  // What the dispute handler asks for.
  predicate Disputable(cfg: Config, row: Row, reason: string, signature: string)
    requires row.data.Some?
  {
    && reason != "" && row.data.value.emitterAcceptance == Undecided
    && row.data.value.meshId == cfg.meshId && SignsDecision(cfg, row, Disputed, reason, signature)
  }

  // Exactly when a handler passes its guards on a sound table, and what it then takes along.
  lemma AdmittedIff(cfg: Config, rows: seq<Row>, i: nat, decision: Acceptance, reason: string, signature: string)
    requires StoreInv(cfg, rows) && i < |rows|
    ensures rows[i].data.Some?
    ensures Admit(cfg, rows, rows[i].receiptId, decision, reason, signature).Some? <==>
      (decision == Accepted && Acceptable(cfg, rows[i], signature))
      || (decision == Disputed && Disputable(cfg, rows[i], reason, signature))
    ensures Admit(cfg, rows, rows[i].receiptId, decision, reason, signature).Some? ==>
      Admit(cfg, rows, rows[i].receiptId, decision, reason, signature) ==
      Some(Pending(rows[i].data.value.(sequenceNumber := rows[i].number), decision, if decision == Accepted then "" else reason, signature))
  {
    RowOfReceipt(cfg, rows, i);
    assert Genuine(cfg, rows[i]) && Faithful(rows[i]);
    var r, x := Loaded(rows[i]).value, rows[i].data.value;
    ExecutorContentBlindSpots(x, r);
    var note := if decision == Accepted then "" else reason;
    assert EmitterContent(Candidate(Pending(r, decision, note, signature))) ==
      x.(emitterAcceptance := decision, disputeReason := note, emitterAcceptanceAt := None,
         executorSignature := "", emitterSignature := "", sequenceNumber := 0);
  }

  lemma UnknownIsRefused(cfg: Config, rows: seq<Row>, id: string, decision: Acceptance, reason: string, signature: string)
    requires forall i :: 0 <= i < |rows| ==> rows[i].receiptId != id
    ensures Admit(cfg, rows, id, decision, reason, signature).None?
  {
  }

  // A signature made for one decision and reason is refused for every other.
  lemma SignatureIsForOneDecision(cfg: Config, rows: seq<Row>, i: nat, a: Acceptance, why: string, b: Acceptance, other: string,
                                  signature: string)
    requires Binding(cfg.crypto) && StoreInv(cfg, rows) && i < |rows|
    requires rows[i].data.Some? && SignsDecision(cfg, rows[i], a, why, signature)
    ensures Admit(cfg, rows, rows[i].receiptId, b, other, signature).Some? ==>
      a == b && why == (if b == Accepted then "" else other)
  {
    AdmittedIff(cfg, rows, i, b, other, signature);
    if Admit(cfg, rows, rows[i].receiptId, b, other, signature).Some? {
      var x, note := rows[i].data.value, if b == Accepted then "" else other;
      var m := x.(emitterAcceptance := a, disputeReason := why, emitterAcceptanceAt := None, executorSignature := "",
                  emitterSignature := "", sequenceNumber := 0);
      var n := x.(emitterAcceptance := b, disputeReason := note, emitterAcceptanceAt := None, executorSignature := "",
                  emitterSignature := "", sequenceNumber := 0);
      assert cfg.crypto.digest(m) == cfg.crypto.digest(n);
      assert m.emitterAcceptance == n.emitterAcceptance && m.disputeReason == n.disputeReason;
    }
  }

  // A dispute is for good iff no acceptance is pending and no signature makes the receipt acceptable.
  lemma DisputedForeverIff(cfg: Config, s: State, i: nat)
    requires Lawful(cfg.crypto) && Inv(cfg, s) && DecidedAt(s.rows, i, Disputed)
    ensures AlwaysDecided(cfg, s, i, Disputed) <==>
      !ContraryPending(s, s.rows[i].receiptId, Disputed) && forall signature :: !Acceptable(cfg, s.rows[i], signature)
  {
    DecidedForeverIff(cfg, s, i, Disputed);
    forall decision, reason, signature | decision != Disputed
      ensures Admit(cfg, s.rows, s.rows[i].receiptId, decision, reason, signature).Some? <==>
        decision == Accepted && Acceptable(cfg, s.rows[i], signature)
    {
      AdmittedIff(cfg, s.rows, i, decision, reason, signature);
    }
    if signature :| Acceptable(cfg, s.rows[i], signature) {
      assert Admit(cfg, s.rows, s.rows[i].receiptId, Accepted, "", signature).Some?;
    }
  }

  // So while the emitter holds its key, no dispute of a receipt of the executor's own mesh is for good.
  lemma KeyHoldersMayAccept(cfg: Config, s: State, i: nat, key: string)
    requires Lawful(cfg.crypto) && Inv(cfg, s) && DecidedAt(s.rows, i, Disputed)
    requires s.rows[i].data.value.meshId == cfg.meshId && cfg.emitterKey(s.rows[i].emitter) == cfg.crypto.publicKey(key)
    ensures !AlwaysDecided(cfg, s, i, Disputed)
  {
    var message := s.rows[i].data.value.(emitterAcceptance := Accepted, disputeReason := "", emitterAcceptanceAt := None,
                                         executorSignature := "", emitterSignature := "", sequenceNumber := 0);
    assert Acceptable(cfg, s.rows[i], cfg.crypto.sign(key, cfg.crypto.digest(message)));
    DisputedForeverIff(cfg, s, i);
  }

  // ---- whole runs

  ghost predicate DecidedFrom(cfg: Config, steps: seq<Step>, i: nat, d: Acceptance, n: nat, end: nat)
    requires end <= |steps|
  {
    forall m :: n <= m <= end ==> DecidedAt(Run(cfg, START, steps[..m]).rows, i, d)
  }

  ghost predicate NeverOverturned(cfg: Config, steps: seq<Step>, id: string, d: Acceptance, n: nat, end: nat)
    requires end <= |steps|
  {
    forall m :: n <= m < end ==> !Overturns(Run(cfg, START, steps[..m]), steps[m], id, d)
  }

  // From the n-th state of a run to its end the receipt carries its decision in every state iff no step in
  // between writes another decision of it.
  lemma DecidedThroughoutIff(cfg: Config, steps: seq<Step>, n: nat, i: nat, d: Acceptance)
    requires Lawful(cfg.crypto) && FreshIds([], steps) && n <= |steps|
    requires DecidedAt(Run(cfg, START, steps[..n]).rows, i, d)
    ensures DecidedFrom(cfg, steps, i, d, n, |steps|) <==>
      NeverOverturned(cfg, steps, Run(cfg, START, steps[..n]).rows[i].receiptId, d, n, |steps|)
  {
    DecidedUpToIff(cfg, steps, n, i, d, |steps|);
  }

  lemma {:induction false} DecidedUpToIff(cfg: Config, steps: seq<Step>, n: nat, i: nat, d: Acceptance, end: nat)
    requires Lawful(cfg.crypto) && FreshIds([], steps) && n <= end <= |steps|
    requires DecidedAt(Run(cfg, START, steps[..n]).rows, i, d)
    ensures DecidedFrom(cfg, steps, i, d, n, end) <==>
      NeverOverturned(cfg, steps, Run(cfg, START, steps[..n]).rows[i].receiptId, d, n, end)
  {
    if n < end {
      DecidedUpToIff(cfg, steps, n, i, d, end - 1);
      RangesGrow(cfg, steps, i, Run(cfg, START, steps[..n]).rows[i].receiptId, d, n, end);
      if DecidedFrom(cfg, steps, i, d, n, end - 1) {
        assert DecidedAt(Run(cfg, START, steps[..end - 1]).rows, i, d);
        OneMoreDecided(cfg, steps, n, i, d, end);
      }
    }
  }

  lemma RangesGrow(cfg: Config, steps: seq<Step>, i: nat, id: string, d: Acceptance, n: nat, end: nat)
    requires n < end <= |steps|
    ensures DecidedFrom(cfg, steps, i, d, n, end) <==>
      DecidedFrom(cfg, steps, i, d, n, end - 1) && DecidedAt(Run(cfg, START, steps[..end]).rows, i, d)
    ensures NeverOverturned(cfg, steps, id, d, n, end) <==>
      NeverOverturned(cfg, steps, id, d, n, end - 1) && !Overturns(Run(cfg, START, steps[..end - 1]), steps[end - 1], id, d)
  {
  }

  lemma OneMoreDecided(cfg: Config, steps: seq<Step>, n: nat, i: nat, d: Acceptance, end: nat)
    requires Lawful(cfg.crypto) && FreshIds([], steps) && n < end <= |steps|
    requires DecidedAt(Run(cfg, START, steps[..n]).rows, i, d) && DecidedAt(Run(cfg, START, steps[..end - 1]).rows, i, d)
    ensures DecidedAt(Run(cfg, START, steps[..end]).rows, i, d) <==>
      !Overturns(Run(cfg, START, steps[..end - 1]), steps[end - 1], Run(cfg, START, steps[..n]).rows[i].receiptId, d)
  {
    var done, before := steps[..end], steps[..end - 1];
    FreshPrefix([], steps, end);
    FreshPrefix([], steps, end - 1);
    assert before[..n] == steps[..n] && done[..|done| - 1] == before && done[|done| - 1] == steps[end - 1];
    SameReceipt(cfg, before, n, i);
    DecidedAtEnd(cfg, done, i, d);
  }

  lemma FreshPrefix(rows: seq<Row>, steps: seq<Step>, n: nat)
    requires FreshIds(rows, steps) && n <= |steps|
    ensures FreshIds(rows, steps[..n])
  {
    forall i | 0 <= i < n
      ensures Unused(rows, steps[..n][i])
    {
      assert Unused(rows, steps[i]);
    }
  }

  lemma SameReceipt(cfg: Config, steps: seq<Step>, n: nat, i: nat)
    requires Lawful(cfg.crypto) && FreshIds([], steps) && n <= |steps| && i < |Run(cfg, START, steps[..n]).rows|
    ensures i < |Run(cfg, START, steps).rows|
    ensures Run(cfg, START, steps).rows[i].receiptId == Run(cfg, START, steps[..n]).rows[i].receiptId
  {
    StoredReceiptsSurvive(cfg, steps, n);
    assert Preserved(Run(cfg, START, steps[..n]).rows[i], Run(cfg, START, steps).rows[i]);
  }

  lemma DecidedAtEnd(cfg: Config, steps: seq<Step>, i: nat, d: Acceptance)
    requires Lawful(cfg.crypto) && FreshIds([], steps) && steps != []
    requires DecidedAt(Run(cfg, START, steps[..|steps| - 1]).rows, i, d)
    ensures var mid, last := Run(cfg, START, steps[..|steps| - 1]), steps[|steps| - 1];
      DecidedAt(Run(cfg, START, steps).rows, i, d) <==> !Overturns(mid, last, mid.rows[i].receiptId, d)
  {
    var init, last := steps[..|steps| - 1], steps[|steps| - 1];
    RunIsSafe(cfg, START, init);
    var mid := Run(cfg, START, init);
    UnusedAfter([], mid.rows, steps);
    DecisionStaysIff(cfg, mid, last, i, d);
  }

  // ---- two concrete runs

  const PLAIN := Config(
    Crypto((s: string) => "#" + s, (r: Receipt) => "digest", (k: string) => k, (k: string, m: string) => "signed",
           (k: string, m: string, s: string) => s == "signed"),
    "key", "agent", "mesh", (e: string) => e, 5)

  const ORDER := Order("emitter", "mesh", "contract", "hash", SettledClean, "")

  // One call settles the contract: it looks it up, reads the head and saves receipt "c".
  const SETTLING: seq<Step> := [Begin(0, ORDER), Advance(0, "a", 0), Advance(0, "b", 0), Advance(0, "c", 0)]

  const DISPUTING := ReadDecision(0, "c", Disputed, "late", "signed")
  const ACCEPTING := ReadDecision(1, "c", Accepted, "", "signed")

  lemma RunAppends(cfg: Config, s: State, steps: seq<Step>, last: Step)
    ensures Run(cfg, s, steps + [last]) == Next(cfg, Run(cfg, s, steps), last)
  {
    var all := steps + [last];
    assert all[..|all| - 1] == steps && all[|all| - 1] == last;
  }

  function SettledReceipt(): Receipt {
    Attempted(PLAIN, ORDER, "", "c", 0).(sequenceNumber := 1)
  }

  lemma PlainIsLawful()
    ensures Lawful(PLAIN.crypto) && FreshIds([], SETTLING)
  {
  }

  lemma SettlesFirst()
    ensures Run(PLAIN, START, SETTLING).rows == [RowOf(SettledReceipt())]
    ensures Run(PLAIN, START, SETTLING).decisions == map[]
  {
    var s1 := Next(PLAIN, START, Begin(0, ORDER));
    var s2 := Next(PLAIN, s1, Advance(0, "a", 0));
    assert s2.calls[0].phase == Reading && s2.rows == [];
    var s3 := Next(PLAIN, s2, Advance(0, "b", 0));
    assert s3.calls[0].phase == Saving("", 0) && s3.rows == [];
    SavesFirst();
    var s4 := Next(PLAIN, s3, Advance(0, "c", 0));
    assert s4.rows == [RowOf(SettledReceipt())];
    FourSteps(PLAIN, START, SETTLING, s1, s2, s3);
  }

  lemma FourSteps(cfg: Config, s: State, steps: seq<Step>, s1: State, s2: State, s3: State)
    requires |steps| == 4 && s1 == Next(cfg, s, steps[0]) && s2 == Next(cfg, s1, steps[1]) && s3 == Next(cfg, s2, steps[2])
    ensures Run(cfg, s, steps) == Next(cfg, s3, steps[3])
    ensures Run(cfg, s, steps[..3]) == s3
  {
    assert Run(cfg, s, []) == s;
    RunAppends(cfg, s, [], steps[0]);
    RunAppends(cfg, s, [steps[0]], steps[1]);
    RunAppends(cfg, s, [steps[0], steps[1]], steps[2]);
    RunAppends(cfg, s, [steps[0], steps[1], steps[2]], steps[3]);
    assert [] + [steps[0]] == [steps[0]] && [steps[0]] + [steps[1]] == [steps[0], steps[1]];
    assert [steps[0], steps[1]] + [steps[2]] == [steps[0], steps[1], steps[2]] == steps[..3];
    assert [steps[0], steps[1], steps[2]] + [steps[3]] == steps;
  }

  lemma SavesFirst()
    ensures Save(PLAIN.crypto, [], Attempted(PLAIN, ORDER, "", "c", 0)) == (Saved, [RowOf(SettledReceipt())], SettledReceipt())
  {
    var r := Attempted(PLAIN, ORDER, "", "c", 0);
    assert "mesh"[0] == 'm' && "mesh"[3] == 'h';
    assert Valid(r);
    assert [] + [RowOf(SettledReceipt())] == [RowOf(SettledReceipt())];
  }

  lemma {:induction false} RunConcat(cfg: Config, s: State, a: seq<Step>, b: seq<Step>)
    ensures Run(cfg, s, a + b) == Run(cfg, Run(cfg, s, a), b)
  {
    if b == [] {
      assert a + b == a;
    } else {
      var n := |b| - 1;
      RunConcat(cfg, s, a, b[..n]);
      RunAppends(cfg, s, a + b[..n], b[n]);
      RunAppends(cfg, Run(cfg, s, a), b[..n], b[n]);
      Sequences.SplitLast(a, b);
    }
  }

  // The stored receipt with one decision on it.
  function With(decision: Acceptance, reason: string): Row {
    RowOf(SettledReceipt()).(data := Some(Decided(SettledReceipt(), decision, reason, 0, "signed")))
  }

  lemma PlainAdmits(data: Receipt, decision: Acceptance, reason: string)
    requires data == SettledReceipt() || Some(data) == With(Disputed, "late").data
    requires decision == Accepted || (decision == Disputed && reason != "" && data == SettledReceipt())
    ensures Admit(PLAIN, [RowOf(SettledReceipt()).(data := Some(data))], "c", decision, reason, "signed") ==
      Some(Pending(data, decision, if decision == Accepted then "" else reason, "signed"))
  {
    var row := RowOf(SettledReceipt()).(data := Some(data));
    assert ByReceipt([row], "c") == Some(row) && Loaded(row) == Some(data);
  }

  lemma PlainWrites(data: Receipt, p: Pending)
    requires p.stored == SettledReceipt() || Some(p.stored) == With(Disputed, "late").data
    ensures WriteBack([RowOf(SettledReceipt()).(data := Some(data))], p, 0) ==
      [RowOf(SettledReceipt()).(data := Some(Decided(p.stored, p.decision, p.reason, 0, p.signature)))]
  {
    var rows := [RowOf(SettledReceipt()).(data := Some(data))];
    var decided := Decided(p.stored, p.decision, p.reason, 0, p.signature);
    assert "mesh"[0] == 'm' && "mesh"[3] == 'h';
    assert Valid(decided);
    assert Rewrite(rows, decided)[0] == RowOf(SettledReceipt()).(data := Some(decided));
  }

  lemma PlainReadStep(s: State, k: nat, data: Receipt, decision: Acceptance, reason: string)
    requires s.rows == [RowOf(SettledReceipt()).(data := Some(data))] && k !in s.decisions
    requires data == SettledReceipt() || Some(data) == With(Disputed, "late").data
    requires (decision == Accepted && reason == "") || (decision == Disputed && reason != "" && data == SettledReceipt())
    ensures Next(PLAIN, s, ReadDecision(k, "c", decision, reason, "signed")) ==
      s.(decisions := s.decisions[k := Pending(data, decision, reason, "signed")])
  {
    PlainAdmits(data, decision, reason);
  }

  lemma PlainWriteStep(s: State, k: nat, data: Receipt)
    requires s.rows == [RowOf(SettledReceipt()).(data := Some(data))] && k in s.decisions
    requires s.decisions[k].stored == SettledReceipt() || Some(s.decisions[k].stored) == With(Disputed, "late").data
    ensures var p, t := s.decisions[k], Next(PLAIN, s, WriteDecision(k, 0));
      t.rows == [RowOf(SettledReceipt()).(data := Some(Decided(p.stored, p.decision, p.reason, 0, p.signature)))]
      && t.decisions == s.decisions - {k}
  {
    PlainWrites(data, s.decisions[k]);
  }

  const OVERLAP: seq<Step> := [DISPUTING, ACCEPTING, WriteDecision(1, 0), WriteDecision(0, 0)]

  // A dispute that read the receipt before it was accepted writes after: for a moment the receipt is accepted,
  // then it is disputed.
  lemma OverlapOverturnsAcceptance()
    ensures DecidedAt(Run(PLAIN, START, SETTLING + OVERLAP[..3]).rows, 0, Accepted)
    ensures Run(PLAIN, START, SETTLING + OVERLAP).rows == [With(Disputed, "late")]
  {
    SettlesFirst();
    var s, r := Run(PLAIN, START, SETTLING), SettledReceipt();
    PlainReadStep(s, 0, r, Disputed, "late");
    var s1 := Next(PLAIN, s, DISPUTING);
    PlainReadStep(s1, 1, r, Accepted, "");
    var s2 := Next(PLAIN, s1, ACCEPTING);
    PlainWriteStep(s2, 1, r);
    var s3 := Next(PLAIN, s2, WriteDecision(1, 0));
    PlainWriteStep(s3, 0, With(Accepted, "").data.value);
    FourSteps(PLAIN, s, OVERLAP, s1, s2, s3);
    RunConcat(PLAIN, START, SETTLING, OVERLAP);
    RunConcat(PLAIN, START, SETTLING, OVERLAP[..3]);
  }

  const REVERSAL: seq<Step> := [DISPUTING, WriteDecision(0, 0), ACCEPTING, WriteDecision(1, 0)]

  // A receipt whose dispute is stored can still be accepted: the accept handler does not look at the earlier
  // decision.
  lemma DisputeIsNotFinal()
    ensures Run(PLAIN, START, SETTLING + REVERSAL[..3]).rows == [With(Disputed, "late")]
    ensures DecidedAt(Run(PLAIN, START, SETTLING + REVERSAL).rows, 0, Accepted)
  {
    SettlesFirst();
    var s, r := Run(PLAIN, START, SETTLING), SettledReceipt();
    PlainReadStep(s, 0, r, Disputed, "late");
    var s1 := Next(PLAIN, s, DISPUTING);
    PlainWriteStep(s1, 0, r);
    var s2 := Next(PLAIN, s1, WriteDecision(0, 0));
    PlainReadStep(s2, 1, With(Disputed, "late").data.value, Accepted, "");
    var s3 := Next(PLAIN, s2, ACCEPTING);
    PlainWriteStep(s3, 1, With(Disputed, "late").data.value);
    FourSteps(PLAIN, s, REVERSAL, s1, s2, s3);
    RunConcat(PLAIN, START, SETTLING, REVERSAL);
    RunConcat(PLAIN, START, SETTLING, REVERSAL[..3]);
  }
}
