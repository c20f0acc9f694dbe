// Settling, timing out, accepting and disputing as one state machine over the receipts table
// (pkg/settlement/engine.go Settle, integration/agent/server.go emitSettlementTimeout, handleAccept and
// handleDispute). Calls run concurrently: each read of the table, each save and each update is one step, and
// the steps of different calls interleave freely. A decision reads the receipt in one step and writes it back
// in another, with no lock across the two.
module Protocol {
  import opened Wrappers
  import opened Receipts
  import opened ChainStores
  import opened ChainVerifier
  import opened Append

  // One executor agent with its signing key; `emitterKey` resolves an emitter's public key.
  datatype Config = Config(
    crypto: Crypto,
    key: string,
    agent: string,
    meshId: string,
    emitterKey: string -> string,
    maxAttempts: nat)

  // What a settle or timeout call wants recorded.
  datatype Order = Order(
    emitter: string,
    meshId: string,
    contractId: string,
    envelopeHash: string,
    verdict: Verdict,
    payload: string)

  datatype Phase =
    | Checking
    | Reading
    | Saving(prev: string, seen: nat)
    | Fetching
    | Answered(receipt: Receipt, own: bool)
    | Refused

  // `started` is the number of receipts of the pair when the call first looked for one; `failures` counts
  // its transient failures. `own` tells an answer the call stored itself from one that it found.
  datatype Call = Call(order: Order, phase: Phase, started: nat, failures: nat)

  // An accept or dispute handler between its read and its write: the receipt as it was read, and the decision
  // that passed all guards on it.
  datatype Pending = Pending(stored: Receipt, decision: Acceptance, reason: string, signature: string)

  datatype State = State(rows: seq<Row>, calls: map<nat, Call>, decisions: map<nat, Pending>)

  datatype Step =
    | Begin(call: nat, order: Order)
    | Advance(call: nat, receiptId: string, now: int)
    | Abort(call: nat)
    | ReadDecision(call: nat, receiptId: string, decision: Acceptance, reason: string, signature: string)
    | WriteDecision(call: nat, now: int)

  function Draft(order: Order): Receipt {
    Receipt(PROTOCOL_VERSION, order.meshId, "", order.contractId, order.envelopeHash, order.emitter, "",
            order.verdict, order.payload, "", 0, "", 0, Undecided, None, "", "")
  }

  function Attempted(cfg: Config, order: Order, prev: string, id: string, now: int): Receipt {
    Prepared(cfg.crypto, cfg.key, Draft(order), order.emitter, cfg.agent, prev, id, now)
  }

  // The next atomic action of a call: look the contract up, read the head, save, or fetch the winner.
  function CallStep(cfg: Config, rows: seq<Row>, call: Call, id: string, now: int): (seq<Row>, Call) {
    match call.phase
    case Checking =>
      (match ByContract(rows, call.order.contractId)
       case None => (rows, call.(phase := Reading))
       case Some(row) => (rows, Answer(call, row)))
    case Reading =>
      var prev := HeadHash(cfg.crypto, rows, call.order.emitter, cfg.agent);
      (rows, call.(phase := Saving(prev, PairCount(rows, call.order.emitter, cfg.agent))))
    case Saving(prev, seen) =>
      var (outcome, after, numbered) := Save(cfg.crypto, rows, Attempted(cfg, call.order, prev, id, now));
      if outcome == Saved then (after, call.(phase := Answered(numbered, true)))
      else if outcome == DuplicateContract then (after, call.(phase := Fetching))
      else if !Transient(outcome) then (after, call.(phase := Refused))
      else if call.failures + 1 >= cfg.maxAttempts then (after, call.(phase := Refused, failures := call.failures + 1))
      else (after, call.(phase := Reading, failures := call.failures + 1))
    case Fetching =>
      (match ByContract(rows, call.order.contractId)
       case None => (rows, call.(phase := Refused))
       case Some(row) => (rows, Answer(call, row)))
    case _ => (rows, call)
  }

  function Answer(call: Call, row: Row): Call {
    match Loaded(row)
    case None => call.(phase := Refused)
    case Some(r) => call.(phase := Answered(r, false))
  }

  function Candidate(p: Pending): Receipt {
    p.stored.(emitterAcceptance := p.decision, disputeReason := p.reason, emitterSignature := p.signature)
  }

  // handleAccept and handleDispute up to their write: GetReceipt and the guards, in the order of the source.
  function Admit(cfg: Config, rows: seq<Row>, id: string, decision: Acceptance, reason: string, signature: string): Option<Pending> {
    if signature == "" || decision == Undecided || (decision == Disputed && reason == "") then None
    else
      match ByReceipt(rows, id)
      case None => None
      case Some(row) =>
        match Loaded(row)
        case None => None
        case Some(stored) =>
          var p := Pending(stored, decision, if decision == Accepted then "" else reason, signature);
          if stored.meshId != cfg.meshId then None
          else if decision == Disputed && stored.emitterAcceptance != Undecided then None
          else if !ExecutorSigned(cfg.crypto, cfg.crypto.publicKey(cfg.key), stored) then None
          else if !EmitterSigned(cfg.crypto, cfg.emitterKey(stored.emitter), Candidate(p)) then None
          else Some(p)
  }

  // UpdateReceipt with the decided snapshot: the whole JSON is replaced by what the handler read and decided.
  function WriteBack(rows: seq<Row>, p: Pending, now: int): seq<Row> {
    var decided := Decided(p.stored, p.decision, p.reason, now, p.signature);
    if Valid(decided) then Rewrite(rows, decided) else rows
  }

  // A whole handler that read `before` and, others having acted since, writes into `meanwhile`.
  function Decision(cfg: Config, before: seq<Row>, meanwhile: seq<Row>, id: string, decision: Acceptance, reason: string,
                    signature: string, now: int): seq<Row> {
    match Admit(cfg, before, id, decision, reason, signature)
    case None => meanwhile
    case Some(p) => WriteBack(meanwhile, p, now)
  }

  function Next(cfg: Config, s: State, step: Step): State {
    match step
    case Begin(id, order) =>
      if id in s.calls then s
      else s.(calls := s.calls[id := Call(order, Checking, PairCount(s.rows, order.emitter, cfg.agent), 0)])
    case Advance(id, receiptId, now) =>
      if id !in s.calls then s
      else
        var (rows, call) := CallStep(cfg, s.rows, s.calls[id], receiptId, now);
        s.(rows := rows, calls := s.calls[id := call])
    case Abort(id) =>
      if id in s.calls && !s.calls[id].phase.Answered? then s.(calls := s.calls[id := s.calls[id].(phase := Refused)])
      else s
    case ReadDecision(k, id, decision, reason, signature) =>
      if k in s.decisions then s
      else
        (match Admit(cfg, s.rows, id, decision, reason, signature)
         case None => s
         case Some(p) => s.(decisions := s.decisions[k := p]))
    case WriteDecision(k, now) =>
      if k !in s.decisions then s
      else s.(rows := WriteBack(s.rows, s.decisions[k], now), decisions := s.decisions - {k})
  }

  function Run(cfg: Config, s: State, steps: seq<Step>): State {
    if steps == [] then s else Next(cfg, Run(cfg, s, steps[..|steps| - 1]), steps[|steps| - 1])
  }

  // ---- invariants

  predicate Genuine(cfg: Config, row: Row) {
    && row.data.Some?
    && row.executor == cfg.agent
    && Valid(row.data.value)
    && ExecutorSigned(cfg.crypto, cfg.crypto.publicKey(cfg.key), row.data.value)
    && DecisionOk(cfg.crypto, cfg.emitterKey(row.emitter), row.data.value)
  }

  ghost predicate StoreInv(cfg: Config, rows: seq<Row>) {
    && WellChained(cfg.crypto, rows)
    && DistinctIds(rows)
    && forall i :: 0 <= i < |rows| ==> Genuine(cfg, rows[i])
  }

  // The stored row r says what the answer says, up to the emitter's later decision.
  predicate Vouches(row: Row, order: Order, answer: Receipt) {
    && row.contractId == order.contractId && row.data.Some?
    && ExecutorContent(row.data.value) == ExecutorContent(answer)
    && row.data.value.executorSignature == answer.executorSignature
  }

  ghost predicate CallInv(cfg: Config, rows: seq<Row>, call: Call) {
    var n := PairCount(rows, call.order.emitter, cfg.agent);
    && call.started + call.failures <= n
    && match call.phase
       case Saving(prev, seen) =>
         && call.started + call.failures <= seen <= n
         && (seen == n ==> prev == HeadHash(cfg.crypto, rows, call.order.emitter, cfg.agent))
       case Fetching => ContractTaken(rows, call.order.contractId)
       case Answered(r, own) =>
         && (own ==> call.started + call.failures + 1 <= n)
         && exists i :: 0 <= i < |rows| && Vouches(rows[i], call.order, r)
       case _ => true
  }

  // A pending decision passed its guards on a receipt that is still stored, as far as the executor signed it.
  // A dispute was made on a receipt that was undecided when it was read.
  ghost predicate PendingOk(cfg: Config, rows: seq<Row>, p: Pending) {
    && (p.decision == Disputed || (p.decision == Accepted && p.reason == ""))
    && (p.decision == Disputed ==> p.stored.emitterAcceptance == Undecided)
    && EmitterSigned(cfg.crypto, cfg.emitterKey(p.stored.emitter), Candidate(p))
    && exists i :: 0 <= i < |rows| && ReadFrom(p.stored, rows[i])
  }

  ghost predicate Inv(cfg: Config, s: State) {
    && StoreInv(cfg, s.rows)
    && (forall id :: id in s.calls ==> CallInv(cfg, s.rows, s.calls[id]))
    && (forall k :: k in s.decisions ==> PendingOk(cfg, s.rows, s.decisions[k]))
  }

  // ---- one step keeps the invariants

  lemma FoundByContract(rows: seq<Row>, id: string)
    ensures ByContract(rows, id).Some? ==> exists k :: 0 <= k < |rows| && rows[k] == ByContract(rows, id).value && rows[k].contractId == id
    ensures ByContract(rows, id).None? <==> !ContractTaken(rows, id)
  {
  }

  lemma AttemptIsGenuine(cfg: Config, order: Order, prev: string, id: string, now: int, number: int)
    requires Lawful(cfg.crypto)
    ensures var r := Attempted(cfg, order, prev, id, now).(sequenceNumber := number);
      && (Valid(r) ==> Genuine(cfg, RowOf(r))) && r.receiptId == id
      && Vouches(RowOf(r), order, r)
  {
    PreparedIsSigned(cfg.crypto, cfg.key, Draft(order), order.emitter, cfg.agent, prev, id, now, number);
    var r := Attempted(cfg, order, prev, id, now).(sequenceNumber := number);
    assert r.emitterSignature == Draft(order).emitterSignature == "";
    assert r.executor == cfg.agent;
  }

  // A new row written by a call is genuine.
  lemma SaveKeepsGenuine(cfg: Config, rows: seq<Row>, order: Order, prev: string, id: string, now: int)
    requires Lawful(cfg.crypto) && StoreInv(cfg, rows)
    requires forall i :: 0 <= i < |rows| ==> rows[i].receiptId != id
    ensures StoreInv(cfg, Save(cfg.crypto, rows, Attempted(cfg, order, prev, id, now)).1)
  {
    var r := Attempted(cfg, order, prev, id, now);
    SaveKeepsStore(cfg.crypto, rows, r);
    if Save(cfg.crypto, rows, r).0 == Saved {
      SavedIsNewest(cfg.crypto, rows, r);
      var numbered := Save(cfg.crypto, rows, r).2;
      AttemptIsGenuine(cfg, order, prev, id, now, numbered.sequenceNumber);
      SavedIsValid(cfg.crypto, rows, r);
      AddGenuine(cfg, rows, RowOf(numbered));
    } else {
      UnsavedKeepsRows(cfg.crypto, rows, r);
    }
  }

  lemma SavedIsValid(c: Crypto, rows: seq<Row>, r: Receipt)
    requires Save(c, rows, r).0 == Saved
    ensures Valid(Save(c, rows, r).2)
  {
  }

  lemma UnsavedKeepsRows(c: Crypto, rows: seq<Row>, r: Receipt)
    requires Save(c, rows, r).0 != Saved
    ensures Save(c, rows, r).1 == rows
  {
  }

  lemma AddGenuine(cfg: Config, rows: seq<Row>, row: Row)
    requires StoreInv(cfg, rows) && WellChained(cfg.crypto, rows + [row]) && Genuine(cfg, row)
    requires forall i :: 0 <= i < |rows| ==> rows[i].receiptId != row.receiptId
    ensures StoreInv(cfg, rows + [row])
  {
    var after := rows + [row];
    forall i | 0 <= i < |after|
      ensures Genuine(cfg, after[i])
    {
      assert i < |rows| ==> Genuine(cfg, rows[i]);
    }
  }

  // A write rewrites the JSON of exactly one row, and only the emitter's part of it.
  lemma WriteTouchesOneRow(cfg: Config, rows: seq<Row>, p: Pending, now: int) returns (k: nat)
    requires StoreInv(cfg, rows) && PendingOk(cfg, rows, p)
    ensures k < |rows| && ReadFrom(p.stored, rows[k])
    ensures var row := rows[k].(data := Some(Decided(p.stored, p.decision, p.reason, now, p.signature)));
      WriteBack(rows, p, now) == rows[k := row] && Preserved(rows[k], row) && Genuine(cfg, row) && Faithful(row)
  {
    k :| 0 <= k < |rows| && ReadFrom(p.stored, rows[k]);
    var decided := Decided(p.stored, p.decision, p.reason, now, p.signature);
    var row := rows[k].(data := Some(decided));
    assert Faithful(rows[k]) && Genuine(cfg, rows[k]);
    SnapshotIsSigned(cfg, rows[k], p, now);
    forall i | 0 <= i < |rows| && rows[i].receiptId == decided.receiptId
      ensures i == k
    {
      assert DistinctIds(rows);
    }
    assert WriteBack(rows, p, now) == rows[k := row];
  }

  // The decided snapshot has the row's executor content and both signatures.
  lemma SnapshotIsSigned(cfg: Config, row: Row, p: Pending, now: int)
    requires Genuine(cfg, row) && Faithful(row) && ReadFrom(p.stored, row)
    requires p.decision != Undecided && EmitterSigned(cfg.crypto, cfg.emitterKey(p.stored.emitter), Candidate(p))
    ensures var later := row.(data := Some(Decided(p.stored, p.decision, p.reason, now, p.signature)));
      Valid(later.data.value) && Preserved(row, later) && Genuine(cfg, later) && Faithful(later)
  {
    var decided := Decided(p.stored, p.decision, p.reason, now, p.signature);
    ExecutorContentBlindSpots(row.data.value, p.stored);
    ExecutorContentBlindSpots(row.data.value, decided);
    assert EmitterContent(Candidate(p)) == EmitterContent(decided);
  }

  lemma OneRowKeepsStore(cfg: Config, rows: seq<Row>, k: nat, row: Row)
    requires StoreInv(cfg, rows) && k < |rows|
    requires Preserved(rows[k], row) && Genuine(cfg, row) && Faithful(row)
    ensures StoreInv(cfg, rows[k := row])
  {
    ExtendedEvolves(cfg.crypto, rows, rows);
    EvolvedIsChained(cfg.crypto, rows, rows[k := row]);
  }

  lemma WriteKeepsStore(cfg: Config, rows: seq<Row>, p: Pending, now: int)
    requires StoreInv(cfg, rows) && PendingOk(cfg, rows, p)
    ensures var after := WriteBack(rows, p, now);
      StoreInv(cfg, after) && Evolves(rows, after) && |after| == |rows|
  {
    var k := WriteTouchesOneRow(cfg, rows, p, now);
    ExtendedEvolves(cfg.crypto, rows, rows);
    OneRowKeepsStore(cfg, rows, k, rows[k].(data := Some(Decided(p.stored, p.decision, p.reason, now, p.signature))));
  }

  // What the guards establish.
  lemma AdmittedIsOk(cfg: Config, rows: seq<Row>, id: string, decision: Acceptance, reason: string, signature: string)
    requires Admit(cfg, rows, id, decision, reason, signature).Some?
    ensures var p := Admit(cfg, rows, id, decision, reason, signature).value;
      && p.decision == decision && p.signature == signature && p.reason == (if decision == Accepted then "" else reason)
    ensures StoreInv(cfg, rows) ==>
      var p := Admit(cfg, rows, id, decision, reason, signature).value;
      PendingOk(cfg, rows, p) && p.stored.receiptId == id
  {
    if StoreInv(cfg, rows) {
      var k :| 0 <= k < |rows| && rows[k] == ByReceipt(rows, id).value && rows[k].receiptId == id;
      var stored := Loaded(rows[k]).value;
      assert Faithful(rows[k]);
      ExecutorContentBlindSpots(rows[k].data.value, stored);
      assert ReadFrom(stored, rows[k]);
    }
  }

  lemma PendingIsStable(cfg: Config, a: seq<Row>, b: seq<Row>, p: Pending)
    requires PendingOk(cfg, a, p) && Evolves(a, b)
    ensures PendingOk(cfg, b, p)
  {
    var i :| 0 <= i < |a| && ReadFrom(p.stored, a[i]);
    assert Preserved(a[i], b[i]) && ReadFrom(p.stored, b[i]);
  }

  // The row of this id carries the decision, its time, its reason and a signature that binds them.
  ghost predicate DecidedAs(cfg: Config, rows: seq<Row>, id: string, decision: Acceptance, reason: string, signature: string, now: int) {
    exists k :: 0 <= k < |rows| && rows[k].receiptId == id && rows[k].data.Some?
                && rows[k].data.value.emitterAcceptance == decision && rows[k].data.value.disputeReason == reason
                && rows[k].data.value.emitterSignature == signature && rows[k].data.value.emitterAcceptanceAt == Some(now)
                && EmitterSigned(cfg.crypto, cfg.emitterKey(rows[k].emitter), rows[k].data.value)
  }

  // A handler whose guards passed on the table it read records its decision, whatever others did in between.
  lemma DecisionTakesEffect(cfg: Config, before: seq<Row>, meanwhile: seq<Row>, id: string, decision: Acceptance,
                            reason: string, signature: string, now: int)
    requires StoreInv(cfg, before) && StoreInv(cfg, meanwhile) && Evolves(before, meanwhile)
    ensures var after := Decision(cfg, before, meanwhile, id, decision, reason, signature, now);
      && StoreInv(cfg, after) && Evolves(meanwhile, after)
      && (Admit(cfg, before, id, decision, reason, signature).Some? ==>
            DecidedAs(cfg, after, id, decision, if decision == Accepted then "" else reason, signature, now))
  {
    ExtendedEvolves(cfg.crypto, meanwhile, meanwhile);
    if Admit(cfg, before, id, decision, reason, signature).Some? {
      AdmittedIsOk(cfg, before, id, decision, reason, signature);
      var p := Admit(cfg, before, id, decision, reason, signature).value;
      PendingIsStable(cfg, before, meanwhile, p);
      WriteKeepsStore(cfg, meanwhile, p, now);
      var k := WriteTouchesOneRow(cfg, meanwhile, p, now);
      var decided := Decided(p.stored, p.decision, p.reason, now, p.signature);
      assert EmitterContent(Candidate(p)) == EmitterContent(decided);
      assert WriteBack(meanwhile, p, now)[k].data == Some(decided);
    }
  }

  // What other steps do to the table never breaks what a call relies on.
  lemma CallInvIsStable(cfg: Config, a: seq<Row>, b: seq<Row>, call: Call)
    requires CallInv(cfg, a, call) && Evolves(a, b)
    requires PairCount(a, call.order.emitter, cfg.agent) <= PairCount(b, call.order.emitter, cfg.agent)
    requires PairCount(a, call.order.emitter, cfg.agent) == PairCount(b, call.order.emitter, cfg.agent) ==>
      HeadHash(cfg.crypto, a, call.order.emitter, cfg.agent) == HeadHash(cfg.crypto, b, call.order.emitter, cfg.agent)
    ensures CallInv(cfg, b, call)
  {
    match call.phase
    case Fetching =>
      var i :| 0 <= i < |a| && a[i].contractId == call.order.contractId;
      assert Preserved(a[i], b[i]);
    case Answered(r, own) =>
      var i :| 0 <= i < |a| && Vouches(a[i], call.order, r);
      assert Preserved(a[i], b[i]) && Vouches(b[i], call.order, r);
    case _ =>
  }

  lemma SaveStepKeepsInv(cfg: Config, rows: seq<Row>, call: Call, id: string, now: int)
    requires Lawful(cfg.crypto) && StoreInv(cfg, rows) && CallInv(cfg, rows, call) && call.phase.Saving?
    requires forall i :: 0 <= i < |rows| ==> rows[i].receiptId != id
    ensures var (after, later) := CallStep(cfg, rows, call, id, now);
      StoreInv(cfg, after) && CallInv(cfg, after, later) && rows <= after
  {
    var r := Attempted(cfg, call.order, call.phase.prev, id, now);
    var outcome := Save(cfg.crypto, rows, r).0;
    SaveKeepsGenuine(cfg, rows, call.order, call.phase.prev, id, now);
    if outcome == Saved {
      SavedAnswerIsVouched(cfg, rows, call, id, now);
    } else {
      RefusedSaveKeepsCall(cfg, rows, call, id, now);
    }
  }

  lemma RefusedSaveKeepsCall(cfg: Config, rows: seq<Row>, call: Call, id: string, now: int)
    requires StoreInv(cfg, rows) && CallInv(cfg, rows, call) && call.phase.Saving?
    requires Save(cfg.crypto, rows, Attempted(cfg, call.order, call.phase.prev, id, now)).0 != Saved
    ensures var (after, later) := CallStep(cfg, rows, call, id, now);
      after == rows && CallInv(cfg, rows, later)
  {
    var r := Attempted(cfg, call.order, call.phase.prev, id, now);
    UnsavedKeepsRows(cfg.crypto, rows, r);
    if Save(cfg.crypto, rows, r).0 == DuplicateContract {
      SaveDecides(cfg.crypto, rows, r);
    }
    TransientIsMatched(cfg, rows, call, id, now);
  }

  lemma SavedAnswerIsVouched(cfg: Config, rows: seq<Row>, call: Call, id: string, now: int)
    requires Lawful(cfg.crypto) && call.phase.Saving?
    requires Save(cfg.crypto, rows, Attempted(cfg, call.order, call.phase.prev, id, now)).0 == Saved
    ensures var (_, after, numbered) := Save(cfg.crypto, rows, Attempted(cfg, call.order, call.phase.prev, id, now));
      rows <= after && (exists i :: 0 <= i < |after| && Vouches(after[i], call.order, numbered))
      && PairCount(after, call.order.emitter, cfg.agent) == PairCount(rows, call.order.emitter, cfg.agent) + 1
  {
    var r := Attempted(cfg, call.order, call.phase.prev, id, now);
    SavedIsNewest(cfg.crypto, rows, r);
    var (_, after, numbered) := Save(cfg.crypto, rows, r);
    AttemptIsGenuine(cfg, call.order, call.phase.prev, id, now, numbered.sequenceNumber);
    assert after[|rows|] == RowOf(numbered);
    assert after[..|rows|] == rows;
    InsertAddsOne(RowOf(numbered), Chain(rows, call.order.emitter, cfg.agent));
  }

  // The call that takes the step.
  lemma CallStepKeepsInv(cfg: Config, rows: seq<Row>, call: Call, id: string, now: int)
    requires Lawful(cfg.crypto) && StoreInv(cfg, rows) && CallInv(cfg, rows, call)
    requires forall i :: 0 <= i < |rows| ==> rows[i].receiptId != id
    ensures var (after, later) := CallStep(cfg, rows, call, id, now);
      StoreInv(cfg, after) && CallInv(cfg, after, later) && rows <= after
  {
    if call.phase.Saving? {
      SaveStepKeepsInv(cfg, rows, call, id, now);
    } else if call.phase.Checking? || call.phase.Fetching? {
      FoundByContract(rows, call.order.contractId);
      if ByContract(rows, call.order.contractId).Some? {
        var k :| 0 <= k < |rows| && rows[k] == ByContract(rows, call.order.contractId).value
                 && rows[k].contractId == call.order.contractId;
        AnswerIsVouched(cfg, rows, call, k);
      }
    }
  }

  lemma AnswerIsVouched(cfg: Config, rows: seq<Row>, call: Call, k: nat)
    requires StoreInv(cfg, rows) && CallInv(cfg, rows, call)
    requires k < |rows| && rows[k].contractId == call.order.contractId
    ensures CallInv(cfg, rows, Answer(call, rows[k]))
  {
    assert Genuine(cfg, rows[k]);
    var r := Loaded(rows[k]).value;
    ExecutorContentBlindSpots(rows[k].data.value, r);
    assert Vouches(rows[k], call.order, r);
  }

  // Every transient failure is matched by a commit to the pair between the call's read and its save.
  lemma TransientIsMatched(cfg: Config, rows: seq<Row>, call: Call, id: string, now: int)
    requires StoreInv(cfg, rows) && CallInv(cfg, rows, call) && call.phase.Saving?
    ensures Transient(Save(cfg.crypto, rows, Attempted(cfg, call.order, call.phase.prev, id, now)).0) ==>
      PairCount(rows, call.order.emitter, cfg.agent) > call.phase.seen
  {
    var r := Attempted(cfg, call.order, call.phase.prev, id, now);
    if Valid(r) {
      SaveDecides(cfg.crypto, rows, r);
    }
  }

  // ---- runs

  ghost predicate Unused(rows: seq<Row>, step: Step) {
    step.Advance? ==> forall i :: 0 <= i < |rows| ==> rows[i].receiptId != step.receiptId
  }

  lemma GrownKeepsCalls(cfg: Config, s: State, after: seq<Row>, id: nat)
    requires id in s.calls && CallInv(cfg, s.rows, s.calls[id]) && Evolves(s.rows, after)
    requires Grows(cfg.crypto, s.rows, after, s.calls[id].order.emitter, cfg.agent)
             || |s.rows| == |after|
    ensures CallInv(cfg, after, s.calls[id])
  {
    if |s.rows| == |after| {
      EvolvedCounts(cfg.crypto, s.rows, after, s.calls[id].order.emitter, cfg.agent);
    }
    CallInvIsStable(cfg, s.rows, after, s.calls[id]);
  }

  lemma CallStepGrows(cfg: Config, rows: seq<Row>, call: Call, id: string, now: int, em: string)
    requires WellChained(cfg.crypto, rows)
    ensures Grows(cfg.crypto, rows, CallStep(cfg, rows, call, id, now).0, em, cfg.agent)
  {
    CallStepWrites(cfg, rows, call, id, now);
    if CallStep(cfg, rows, call, id, now).0 == rows {
      ExtendedEvolves(cfg.crypto, rows, rows);
    } else {
      SaveGrows(cfg.crypto, rows, Attempted(cfg, call.order, call.phase.prev, id, now), em, cfg.agent);
    }
  }

  lemma CallStepWrites(cfg: Config, rows: seq<Row>, call: Call, id: string, now: int)
    ensures var after := CallStep(cfg, rows, call, id, now).0;
      after == rows
      || (call.phase.Saving? && after == Save(cfg.crypto, rows, Attempted(cfg, call.order, call.phase.prev, id, now)).1)
  {
  }

  lemma OtherCallsKept(cfg: Config, s: State, call: Call, receiptId: string, now: int)
    requires Inv(cfg, s) && Evolves(s.rows, CallStep(cfg, s.rows, call, receiptId, now).0)
    ensures forall other :: other in s.calls ==>
      CallInv(cfg, CallStep(cfg, s.rows, call, receiptId, now).0, s.calls[other])
  {
    var after := CallStep(cfg, s.rows, call, receiptId, now).0;
    forall other | other in s.calls
      ensures CallInv(cfg, after, s.calls[other])
    {
      CallStepGrows(cfg, s.rows, call, receiptId, now, s.calls[other].order.emitter);
      GrownKeepsCalls(cfg, s, after, other);
    }
  }

  lemma AdvanceKeepsInv(cfg: Config, s: State, id: nat, receiptId: string, now: int)
    requires Lawful(cfg.crypto) && Inv(cfg, s) && Unused(s.rows, Advance(id, receiptId, now)) && id in s.calls
    ensures Inv(cfg, Next(cfg, s, Advance(id, receiptId, now)))
    ensures s.rows <= Next(cfg, s, Advance(id, receiptId, now)).rows
    ensures Evolves(s.rows, Next(cfg, s, Advance(id, receiptId, now)).rows)
  {
    var call := s.calls[id];
    assert CallInv(cfg, s.rows, call);
    assert forall i :: 0 <= i < |s.rows| ==> s.rows[i].receiptId != Advance(id, receiptId, now).receiptId;
    CallStepKeepsInv(cfg, s.rows, call, receiptId, now);
    var (after, later) := CallStep(cfg, s.rows, call, receiptId, now);
    ExtendedEvolves(cfg.crypto, s.rows, after);
    OtherCallsKept(cfg, s, call, receiptId, now);
    DecisionsKept(cfg, s, after);
    AdvanceIs(cfg, s, id, receiptId, now);
    OneCallMoves(cfg, s, after, id, later);
  }

  lemma OneCallMoves(cfg: Config, s: State, after: seq<Row>, id: nat, later: Call)
    requires StoreInv(cfg, after) && CallInv(cfg, after, later)
    requires forall other :: other in s.calls ==> CallInv(cfg, after, s.calls[other])
    requires forall k :: k in s.decisions ==> PendingOk(cfg, after, s.decisions[k])
    ensures Inv(cfg, State(after, s.calls[id := later], s.decisions))
  {
  }

  lemma AdvanceIs(cfg: Config, s: State, id: nat, receiptId: string, now: int)
    requires id in s.calls
    ensures var (after, later) := CallStep(cfg, s.rows, s.calls[id], receiptId, now);
      Next(cfg, s, Advance(id, receiptId, now)) == State(after, s.calls[id := later], s.decisions)
  {
  }

  lemma DecisionsKept(cfg: Config, s: State, after: seq<Row>)
    requires Evolves(s.rows, after) && forall k :: k in s.decisions ==> PendingOk(cfg, s.rows, s.decisions[k])
    ensures forall k :: k in s.decisions ==> PendingOk(cfg, after, s.decisions[k])
  {
    forall k | k in s.decisions
      ensures PendingOk(cfg, after, s.decisions[k])
    {
      PendingIsStable(cfg, s.rows, after, s.decisions[k]);
    }
  }

  lemma ReadKeepsInv(cfg: Config, s: State, k: nat, id: string, decision: Acceptance, reason: string, signature: string)
    requires Inv(cfg, s)
    ensures Inv(cfg, Next(cfg, s, ReadDecision(k, id, decision, reason, signature)))
    ensures Next(cfg, s, ReadDecision(k, id, decision, reason, signature)).rows == s.rows
  {
    if Admit(cfg, s.rows, id, decision, reason, signature).Some? {
      AdmittedIsOk(cfg, s.rows, id, decision, reason, signature);
      var p := Admit(cfg, s.rows, id, decision, reason, signature).value;
      AddDecision(cfg, s, k, p);
      assert Next(cfg, s, ReadDecision(k, id, decision, reason, signature)) in {s, s.(decisions := s.decisions[k := p])};
    }
  }

  lemma AddDecision(cfg: Config, s: State, k: nat, p: Pending)
    requires Inv(cfg, s) && PendingOk(cfg, s.rows, p)
    ensures Inv(cfg, s.(decisions := s.decisions[k := p]))
  {
  }

  lemma WriteKeepsInv(cfg: Config, s: State, k: nat, now: int)
    requires Inv(cfg, s) && k in s.decisions
    ensures var after := WriteBack(s.rows, s.decisions[k], now);
      Inv(cfg, State(after, s.calls, s.decisions - {k})) && Evolves(s.rows, after) && |after| == |s.rows|
  {
    var after := WriteBack(s.rows, s.decisions[k], now);
    WriteKeepsStore(cfg, s.rows, s.decisions[k], now);
    forall other | other in s.calls
      ensures CallInv(cfg, after, s.calls[other])
    {
      GrownKeepsCalls(cfg, s, after, other);
    }
    DecisionsKept(cfg, s, after);
  }

  lemma NextKeepsInv(cfg: Config, s: State, step: Step)
    requires Lawful(cfg.crypto) && Inv(cfg, s) && Unused(s.rows, step)
    ensures Inv(cfg, Next(cfg, s, step)) && Evolves(s.rows, Next(cfg, s, step).rows)
  {
    ExtendedEvolves(cfg.crypto, s.rows, s.rows);
    match step
    case Begin(id, order) => BeginKeepsInv(cfg, s, id, order);
    case Advance(id, receiptId, now) =>
      if id in s.calls {
        AdvanceKeepsInv(cfg, s, id, receiptId, now);
      }
    case ReadDecision(k, id, decision, reason, signature) => ReadKeepsInv(cfg, s, k, id, decision, reason, signature);
    case WriteDecision(k, now) =>
      if k in s.decisions {
        WriteKeepsInv(cfg, s, k, now);
      }
    case Abort(id) => AbortKeepsInv(cfg, s, id);
  }

  lemma BeginKeepsInv(cfg: Config, s: State, id: nat, order: Order)
    requires Inv(cfg, s)
    ensures Inv(cfg, Next(cfg, s, Begin(id, order))) && Next(cfg, s, Begin(id, order)).rows == s.rows
  {
  }

  lemma AbortKeepsInv(cfg: Config, s: State, id: nat)
    requires Inv(cfg, s)
    ensures Inv(cfg, Next(cfg, s, Abort(id))) && Next(cfg, s, Abort(id)).rows == s.rows
  {
  }

  // The ids drawn from crypto/rand during a run never repeat.
  ghost predicate FreshIds(rows: seq<Row>, steps: seq<Step>) {
    && (forall i :: 0 <= i < |steps| ==> Unused(rows, steps[i]))
    && (forall i, j :: 0 <= i < j < |steps| && steps[i].Advance? && steps[j].Advance? ==>
         steps[i].receiptId != steps[j].receiptId)
  }

  ghost predicate Known(rows: seq<Row>, steps: seq<Step>, id: string) {
    || (exists i :: 0 <= i < |rows| && rows[i].receiptId == id)
    || (exists i :: 0 <= i < |steps| && steps[i].Advance? && steps[i].receiptId == id)
  }

  lemma CallStepAddsOwnId(cfg: Config, rows: seq<Row>, call: Call, id: string, now: int)
    ensures var after := CallStep(cfg, rows, call, id, now).0;
      after == rows || (|after| == |rows| + 1 && after[|rows|].receiptId == id)
  {
    if call.phase.Saving? {
      var r := Attempted(cfg, call.order, call.phase.prev, id, now);
      if Save(cfg.crypto, rows, r).0 == Saved {
        SavedIsNewest(cfg.crypto, rows, r);
        AttemptIsGenuineId(cfg, call.order, call.phase.prev, id, now);
      }
    }
  }

  lemma AttemptIsGenuineId(cfg: Config, order: Order, prev: string, id: string, now: int)
    ensures Attempted(cfg, order, prev, id, now).receiptId == id
  {
  }

  // Ids in the table after a step are the old ones and the id the step drew.
  lemma IdsAfterStep(cfg: Config, s: State, step: Step, i: nat)
    requires Lawful(cfg.crypto) && Inv(cfg, s) && Unused(s.rows, step)
    requires i < |Next(cfg, s, step).rows|
    ensures i < |s.rows| ==> Next(cfg, s, step).rows[i].receiptId == s.rows[i].receiptId
    ensures i >= |s.rows| ==> step.Advance? && Next(cfg, s, step).rows[i].receiptId == step.receiptId
  {
    NextKeepsInv(cfg, s, step);
    if i < |s.rows| {
      assert Preserved(s.rows[i], Next(cfg, s, step).rows[i]);
    } else {
      OnlyAdvanceAdds(cfg, s, step);
    }
  }

  lemma OnlyAdvanceAdds(cfg: Config, s: State, step: Step)
    requires Inv(cfg, s)
    ensures var after := Next(cfg, s, step).rows;
      |after| == |s.rows| || (step.Advance? && |after| == |s.rows| + 1 && after[|s.rows|].receiptId == step.receiptId)
  {
    match step
    case Advance(id, receiptId, now) =>
      if id in s.calls {
        CallStepAddsOwnId(cfg, s.rows, s.calls[id], receiptId, now);
      }
    case WriteDecision(k, now) =>
      if k in s.decisions {
        WriteKeepsStore(cfg, s.rows, s.decisions[k], now);
      }
    case _ =>
  }

  lemma UnusedAfter(rows: seq<Row>, mid: seq<Row>, steps: seq<Step>)
    requires steps != [] && FreshIds(rows, steps)
    requires forall i :: 0 <= i < |mid| ==> Known(rows, steps[..|steps| - 1], mid[i].receiptId)
    ensures Unused(mid, steps[|steps| - 1])
  {
    var init, last := steps[..|steps| - 1], steps[|steps| - 1];
    assert Unused(rows, last);
    forall i | 0 <= i < |mid| && last.Advance?
      ensures mid[i].receiptId != last.receiptId
    {
      assert Known(rows, init, mid[i].receiptId);
      if k :| 0 <= k < |init| && init[k].Advance? && init[k].receiptId == mid[i].receiptId {
        assert steps[k] == init[k];
      }
    }
  }

  // Safety of every run: from a sound state, whatever calls, aborts and reads and writes of decisions
  // interleave, the table stays sound (numbered 1..n per pair, linked, one row per contract, genuine
  // signatures), and no row is lost or changed beyond the emitter's decision.
  lemma {:induction false} RunIsSafe(cfg: Config, s: State, steps: seq<Step>)
    requires Lawful(cfg.crypto) && Inv(cfg, s) && FreshIds(s.rows, steps)
    ensures Inv(cfg, Run(cfg, s, steps)) && Evolves(s.rows, Run(cfg, s, steps).rows)
    ensures forall i :: 0 <= i < |Run(cfg, s, steps).rows| ==> Known(s.rows, steps, Run(cfg, s, steps).rows[i].receiptId)
  {
    if steps == [] {
      ExtendedEvolves(cfg.crypto, s.rows, s.rows);
    } else {
      var init, last := steps[..|steps| - 1], steps[|steps| - 1];
      RunIsSafe(cfg, s, init);
      var mid := Run(cfg, s, init);
      UnusedAfter(s.rows, mid.rows, steps);
      NextKeepsInv(cfg, mid, last);
      var end := Next(cfg, mid, last);
      EvolvesTrans(s.rows, mid.rows, end.rows);
      forall i | 0 <= i < |end.rows|
        ensures Known(s.rows, steps, end.rows[i].receiptId)
      {
        IdsAfterStep(cfg, mid, last, i);
        if i < |mid.rows| {
          KnownGrows(s.rows, steps, mid.rows[i].receiptId);
        }
      }
    }
  }

  lemma KnownGrows(rows: seq<Row>, steps: seq<Step>, id: string)
    requires steps != [] && Known(rows, steps[..|steps| - 1], id)
    ensures Known(rows, steps, id)
  {
    var init := steps[..|steps| - 1];
    if i :| 0 <= i < |init| && init[i].Advance? && init[i].receiptId == id {
      assert steps[i].Advance? && steps[i].receiptId == id;
    }
  }

  const START := State([], map[], map[])

  // One receipt per contract and one answer: all calls answered for a contract, settle or timeout, winners
  // and losers of the race, hold the same executor-signed content with the same signature, and the table
  // holds exactly one row for it.
  lemma OneAnswerPerContract(cfg: Config, steps: seq<Step>, a: nat, b: nat)
    requires Lawful(cfg.crypto) && FreshIds([], steps)
    requires var calls := Run(cfg, START, steps).calls;
      a in calls && b in calls && calls[a].phase.Answered? && calls[b].phase.Answered?
      && calls[a].order.contractId == calls[b].order.contractId
    ensures var end := Run(cfg, START, steps);
      var x, y := end.calls[a].phase.receipt, end.calls[b].phase.receipt;
      && ExecutorContent(x) == ExecutorContent(y) && x.executorSignature == y.executorSignature
      && exists k :: 0 <= k < |end.rows| && Vouches(end.rows[k], end.calls[a].order, x)
           && forall j :: 0 <= j < |end.rows| && end.rows[j].contractId == end.rows[k].contractId ==> j == k
  {
    RunIsSafe(cfg, START, steps);
    var end := Run(cfg, START, steps);
    var i := AnswerHasRow(cfg, end, a);
    var j := AnswerHasRow(cfg, end, b);
    OneRowPerContract(cfg, end.rows, i);
  }

  // What a call stores itself is what was ordered, in this agent's name.
  predicate SaysOrder(cfg: Config, order: Order, r: Receipt) {
    && r.protocolVersion == "2" && r.executor == cfg.agent && r.emitter == order.emitter
    && r.meshId == order.meshId && r.contractId == order.contractId && r.envelopeHash == order.envelopeHash
    && r.verdict == order.verdict && r.payload == order.payload
    && r.emitterAcceptance == Undecided && r.emitterSignature == ""
  }

  lemma {:induction false} OwnAnswerSaysOrder(cfg: Config, steps: seq<Step>, id: nat)
    ensures var calls := Run(cfg, START, steps).calls;
      id in calls && calls[id].phase.Answered? && calls[id].phase.own ==>
        SaysOrder(cfg, calls[id].order, calls[id].phase.receipt)
  {
    if steps != [] {
      var init, last := steps[..|steps| - 1], steps[|steps| - 1];
      OwnAnswerSaysOrder(cfg, init, id);
      var s := Run(cfg, START, init);
      if last.Advance? && last.call == id && id in s.calls {
        OwnStepSaysOrder(cfg, s.rows, s.calls[id], last.receiptId, last.now);
      }
    }
  }

  lemma OwnStepSaysOrder(cfg: Config, rows: seq<Row>, call: Call, id: string, now: int)
    requires call.phase.Answered? && call.phase.own ==> SaysOrder(cfg, call.order, call.phase.receipt)
    ensures var next := CallStep(cfg, rows, call, id, now).1;
      next.order == call.order
      && (next.phase.Answered? && next.phase.own ==> SaysOrder(cfg, next.order, next.phase.receipt))
  {
    if call.phase.Saving? && Save(cfg.crypto, rows, Attempted(cfg, call.order, call.phase.prev, id, now)).0 == Saved {
      SavedIsNewest(cfg.crypto, rows, Attempted(cfg, call.order, call.phase.prev, id, now));
    }
  }

  // A call gives up exactly when it comes to save and the receipt would lack a field, or the head has moved for
  // the last time it may. It is answered as soon as the contract has a receipt when it looks for one, or when its
  // own is saved on the head it read; and only that save writes.
  lemma CallStepDecides(cfg: Config, rows: seq<Row>, call: Call, id: string, now: int)
    requires Lawful(cfg.crypto) && StoreInv(cfg, rows) && CallInv(cfg, rows, call)
    requires !call.phase.Refused? && !call.phase.Answered?
    ensures var (after, next) := CallStep(cfg, rows, call, id, now);
      var complete := call.phase.Saving? ==> Acceptable(Attempted(cfg, call.order, call.phase.prev, id, now));
      var stale := call.phase.Saving? && call.phase.prev != HeadHash(cfg.crypto, rows, call.order.emitter, cfg.agent);
      var taken := ContractTaken(rows, call.order.contractId);
      && (next.phase == Refused <==> !complete || (stale && call.failures + 1 >= cfg.maxAttempts))
      && (next.phase.Answered? <==>
            if call.phase.Saving? then complete && !stale && !taken else !call.phase.Reading? && taken)
      && (next.phase.Fetching? <==> call.phase.Saving? && complete && !stale && taken)
      && (next.failures == if complete && stale then call.failures + 1 else call.failures)
      && (after != rows <==> next.phase.Answered? && next.phase.own)
  {
    match call.phase
    case Saving(prev, seen) =>
      var r := Attempted(cfg, call.order, prev, id, now);
      SaveMeans(cfg.crypto, rows, r, Latest(rows, r.emitter, r.executor));
      if Acceptable(r) {
        SaveDecides(cfg.crypto, rows, r);
      }
    case _ =>
      FoundByContract(rows, call.order.contractId);
  }

  lemma AnswerHasRow(cfg: Config, s: State, id: nat) returns (i: nat)
    requires Inv(cfg, s) && id in s.calls && s.calls[id].phase.Answered?
    ensures i < |s.rows| && Vouches(s.rows[i], s.calls[id].order, s.calls[id].phase.receipt)
  {
    assert CallInv(cfg, s.rows, s.calls[id]);
    i :| 0 <= i < |s.rows| && Vouches(s.rows[i], s.calls[id].order, s.calls[id].phase.receipt);
  }

  lemma OneRowPerContract(cfg: Config, rows: seq<Row>, k: nat)
    requires StoreInv(cfg, rows) && k < |rows|
    ensures forall j :: 0 <= j < |rows| && rows[j].contractId == rows[k].contractId ==> j == k
  {
    assert DistinctContracts(rows);
  }

  // After any run the verifier marks every receipt of every chain of this executor valid.
  lemma EveryRunVerifies(cfg: Config, steps: seq<Step>, em: string)
    requires Lawful(cfg.crypto) && FreshIds([], steps)
    ensures var chain := Chain(Run(cfg, START, steps).rows, em, cfg.agent);
      && (forall i :: 0 <= i < |chain| ==> chain[i].data.Some?)
      && var records := Records(chain);
         forall i :: 0 <= i < |records| ==>
           ReceiptOk(cfg.crypto, cfg.crypto.publicKey(cfg.key), cfg.emitterKey(em), records, i)
  {
    RunIsSafe(cfg, START, steps);
    SoundChainVerifies(cfg, Run(cfg, START, steps).rows, em);
  }

  lemma SoundChainVerifies(cfg: Config, rows: seq<Row>, em: string)
    requires StoreInv(cfg, rows)
    ensures var chain := Chain(rows, em, cfg.agent);
      && (forall i :: 0 <= i < |chain| ==> chain[i].data.Some?)
      && var records := Records(chain);
         forall i :: 0 <= i < |records| ==>
           ReceiptOk(cfg.crypto, cfg.crypto.publicKey(cfg.key), cfg.emitterKey(em), records, i)
  {
    ChainIsGapFree(cfg.crypto, rows, em, cfg.agent);
    WellChainedPassesChecks(cfg.crypto, rows, em, cfg.agent);
    var chain := Chain(rows, em, cfg.agent);
    var records := Records(chain);
    forall i | 0 <= i < |records|
      ensures ReceiptOk(cfg.crypto, cfg.crypto.publicKey(cfg.key), cfg.emitterKey(em), records, i)
    {
      assert SequenceOk(records, i) && LinkOk(cfg.crypto, records, i);
      var k :| 0 <= k < |rows| && rows[k] == chain[i];
      StoredIsSigned(cfg, rows, k, records[i]);
    }
  }

  // Read back with the number of its column, a stored receipt keeps both signatures valid.
  lemma StoredIsSigned(cfg: Config, rows: seq<Row>, k: nat, r: Receipt)
    requires StoreInv(cfg, rows) && k < |rows|
    requires rows[k].data.Some? ==> r == rows[k].data.value.(sequenceNumber := r.sequenceNumber)
    ensures ExecutorSigned(cfg.crypto, cfg.crypto.publicKey(cfg.key), r)
    ensures DecisionOk(cfg.crypto, cfg.emitterKey(rows[k].emitter), r)
  {
    assert Genuine(cfg, rows[k]);
    NumberingKeepsSignatures(cfg.crypto, rows[k].data.value, r);
  }

  lemma NumberingKeepsSignatures(c: Crypto, a: Receipt, b: Receipt)
    requires b == a.(sequenceNumber := b.sequenceNumber)
    ensures ExecutorContent(a) == ExecutorContent(b) && EmitterContent(a) == EmitterContent(b)
  {
  }

  // Giving up means contention: a call that failed transiently f times saw at least f receipts of its pair
  // committed after it began, beside the one it stored itself, if it did.
  lemma FailuresAreForeignCommits(cfg: Config, steps: seq<Step>, id: nat)
    requires Lawful(cfg.crypto) && FreshIds([], steps)
    requires id in Run(cfg, START, steps).calls
    ensures var end := Run(cfg, START, steps);
      var call := end.calls[id];
      PairCount(end.rows, call.order.emitter, cfg.agent) >=
      call.started + call.failures + if call.phase.Answered? && call.phase.own then 1 else 0
  {
    RunIsSafe(cfg, START, steps);
    var end := Run(cfg, START, steps);
    assert CallInv(cfg, end.rows, end.calls[id]);
  }

  // At any later point of a run the receipts stored earlier are still there, in the same rows, with the same
  // executor-signed content and signature.
  lemma {:induction false} StoredReceiptsSurvive(cfg: Config, steps: seq<Step>, n: nat)
    requires Lawful(cfg.crypto) && FreshIds([], steps) && n <= |steps|
    ensures Evolves(Run(cfg, START, steps[..n]).rows, Run(cfg, START, steps).rows)
  {
    if n == |steps| {
      assert steps[..n] == steps;
      RunIsSafe(cfg, START, steps);
      ExtendedEvolves(cfg.crypto, Run(cfg, START, steps).rows, Run(cfg, START, steps).rows);
    } else {
      var init, last := steps[..|steps| - 1], steps[|steps| - 1];
      assert init[..n] == steps[..n];
      StoredReceiptsSurvive(cfg, init, n);
      RunIsSafe(cfg, START, init);
      var mid := Run(cfg, START, init);
      UnusedAfter([], mid.rows, steps);
      NextKeepsInv(cfg, mid, last);
      EvolvesTrans(Run(cfg, START, steps[..n]).rows, mid.rows, Next(cfg, mid, last).rows);
    }
  }
}
