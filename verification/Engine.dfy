// The settlement engine (pkg/settlement/engine.go).
module Engine {
  import opened Wrappers
  import opened Receipts
  import opened ChainStores
  import opened Append
  import opened Text

  datatype AssertionOutcome = Pass | Fail | Error

  datatype Envelope = Envelope(
    valid: bool,
    emitter: string,
    executor: string,
    meshId: string,
    envelopeId: string,
    hash: string,
    computedHash: string)

  const DEFAULT_REMEDIATION_LIMIT := 1

  predicate AllPass(results: seq<AssertionOutcome>) {
    forall i :: 0 <= i < |results| ==> results[i] == Pass
  }

  function Failing(results: seq<AssertionOutcome>): nat {
    if results == [] then 0
    else Failing(results[..|results| - 1]) + if results[|results| - 1] == Pass then 0 else 1
  }

  lemma {:induction false} FailingCounts(results: seq<AssertionOutcome>)
    ensures Failing(results) == |set i | 0 <= i < |results| && results[i] != Pass|
  {
    if results != [] {
      var n := |results| - 1;
      FailingCounts(results[..n]);
      var before := set i | 0 <= i < n && results[..n][i] != Pass;
      var all := set i | 0 <= i < |results| && results[i] != Pass;
      assert all == if results[n] == Pass then before else before + {n};
    }
  }

  method ComputeVerdict(results: seq<AssertionOutcome>) returns (verdict: Verdict, failed: nat)
    ensures verdict == if AllPass(results) then SettledClean else Failed
    ensures verdict == SettledClean <==> forall i :: 0 <= i < |results| ==> results[i] == Pass
    ensures failed == |set i | 0 <= i < |results| && results[i] != Pass|
    ensures failed == 0 <==> AllPass(results)
  {
    FailingCounts(results);
    var allPass, hasErrors := true, false;
    failed := 0;
    for i := 0 to |results|
      invariant allPass && !hasErrors <==> AllPass(results[..i])
      invariant failed == Failing(results[..i])
      invariant failed == 0 <==> AllPass(results[..i])
    {
      assert results[..i + 1][..i] == results[..i];
      match results[i] {
        case Pass =>
        case Fail =>
          allPass, failed := false, failed + 1;
        case Error =>
          hasErrors, failed := true, failed + 1;
      }
      assert AllPass(results[..i + 1]) <==> AllPass(results[..i]) && results[i] == Pass;
    }
    assert results[..|results|] == results;
    if allPass && !hasErrors {
      return SettledClean, 0;
    }
    return Failed, failed;
  }

  // `evaluations[k]` is what the evaluator reports on the k-th rerun. Stops at the first clean rerun, which
  // becomes SETTLED_WITH_REPAIR; otherwise reports failure after all of them.
  method RunRemediation(evaluations: seq<seq<AssertionOutcome>>, initialFailed: nat, limit: nat)
    returns (verdict: Verdict, used: nat, results: seq<AssertionOutcome>)
    requires 1 <= limit <= |evaluations| && initialFailed > 0
    ensures 1 <= used <= limit && results == evaluations[used - 1]
    ensures verdict == Remediated <==> AllPass(results)
    ensures verdict != Remediated ==> verdict == Failed && used == limit
    ensures forall k :: 0 <= k < used - 1 ==> !AllPass(evaluations[k])
  {
    verdict, used, results := Failed, limit, [];
    for attempt := 1 to limit + 1
      invariant attempt <= limit
      invariant forall k :: 0 <= k < attempt - 1 ==> !AllPass(evaluations[k])
    {
      var seen := evaluations[attempt - 1];
      var v, _ := ComputeVerdict(seen);
      if v == SettledClean {
        if initialFailed > 0 {
          v := Remediated;
        }
        return v, attempt, seen;
      }
      if attempt == limit {
        return Failed, attempt, seen;
      }
    }
    assert false;
  }

  // The table holds, for this contract, what the receipt says up to the emitter's decision and the number.
  ghost predicate Recorded(rows: seq<Row>, contractId: string, r: Receipt) {
    exists i :: 0 <= i < |rows| && rows[i].contractId == contractId && rows[i].data.Some?
                && ExecutorContent(rows[i].data.value) == ExecutorContent(r)
                && rows[i].data.value.executorSignature == r.executorSignature
  }

  method GetReceiptByContract(store: ChainStore, contractId: string) returns (r: Option<Receipt>)
    requires WellChained(store.crypto, store.rows)
    ensures r.None? <==> !ContractTaken(store.rows, contractId)
    ensures r.Some? ==> Recorded(store.rows, contractId, r.value)
  {
    for i := 0 to |store.rows|
      invariant forall k :: 0 <= k < i ==> store.rows[k].contractId != contractId
    {
      if store.rows[i].contractId == contractId {
        assert Faithful(store.rows[i]);
        r := Loaded(store.rows[i]);
        ExecutorContentBlindSpots(store.rows[i].data.value, r.value);
        return;
      }
    }
    return None;
  }

  lemma NewestIsRecorded(rows: seq<Row>, r: Receipt)
    requires rows != [] && rows[|rows| - 1] == RowOf(r)
    ensures Recorded(rows, r.contractId, r)
  {
    var i := |rows| - 1;
    assert rows[i].data == Some(r);
  }

  function DraftOf(env: Envelope, hash: string, verdict: Verdict, payload: string): Receipt {
    Receipt(PROTOCOL_VERSION, env.meshId, "", env.envelopeId, hash, "", "", verdict, payload, "", 0, "", 0,
            Undecided, None, "", "")
  }

  // What a caller's draft lays down, the append leaves alone.
  predicate KeepsTerms(r: Receipt, draft: Receipt) {
    && r.protocolVersion == draft.protocolVersion && r.meshId == draft.meshId
    && r.contractId == draft.contractId && r.envelopeHash == draft.envelopeHash
    && r.verdict == draft.verdict && r.payload == draft.payload
    && r.emitterAcceptance == draft.emitterAcceptance && r.emitterAcceptanceAt == draft.emitterAcceptanceAt
    && r.disputeReason == draft.disputeReason && r.emitterSignature == draft.emitterSignature
  }

  // A receipt that nobody has decided on yet, saying all this.
  predicate Says(r: Receipt, env: Envelope, executor: string, hash: string, verdict: Verdict, payload: string) {
    && r.protocolVersion == "2" && r.meshId == env.meshId
    && r.contractId == env.envelopeId && r.envelopeHash == hash
    && r.emitter == env.emitter && r.executor == executor
    && r.verdict == verdict && r.payload == payload
    && r.emitterAcceptance == Undecided && r.emitterAcceptanceAt == None
    && r.disputeReason == "" && r.emitterSignature == ""
  }

  // Nothing a receipt must carry is missing.
  predicate Recordable(env: Envelope, executor: string, hash: string, id: string) {
    TrimSpace(env.meshId) != "" && id != "" && env.envelopeId != "" && hash != "" && env.emitter != "" && executor != ""
  }

  // Without an answer, the head was lost ten times to other writers of the pair, or a field is missing.
  ghost predicate NoAnswer(first: seq<Row>, rows: seq<Row>, env: Envelope, executor: string, hash: string, ids: seq<string>) {
    || PairCount(rows, env.emitter, executor) >= PairCount(first, env.emitter, executor) + 10
    || exists id :: id in ids && !Recordable(env, executor, hash, id)
  }

  lemma CompleteMeans(env: Envelope, executor: string, hash: string, verdict: Verdict, payload: string, id: string)
    ensures Complete(DraftOf(env, hash, verdict, payload), env.emitter, executor, id) <==> Recordable(env, executor, hash, id)
  {
  }

  lemma NoAnswerFrom(first: seq<Row>, rows: seq<Row>, env: Envelope, executor: string, hash: string, verdict: Verdict,
                     payload: string, ids: seq<string>)
    requires PairCount(rows, env.emitter, executor) >= PairCount(first, env.emitter, executor) + DEFAULT_MAX_ATTEMPTS
      || exists id :: id in ids && !Complete(DraftOf(env, hash, verdict, payload), env.emitter, executor, id)
    ensures NoAnswer(first, rows, env, executor, hash, ids)
  {
    if id :| id in ids && !Complete(DraftOf(env, hash, verdict, payload), env.emitter, executor, id) {
      CompleteMeans(env, executor, hash, verdict, payload, id);
    }
  }

  // The round whose results are recorded: the first that passes whole, or the last one.
  ghost predicate Decides(evaluations: seq<seq<AssertionOutcome>>, k: int) {
    && 0 <= k < |evaluations|
    && (forall j :: 0 <= j < k ==> !AllPass(evaluations[j]))
    && (AllPass(evaluations[k]) || k == |evaluations| - 1)
  }

  // Look up, append, and on a lost race fetch the winner: the part settlement and timeout share. Whatever
  // the concurrent writers do, an answer is always the one receipt the table holds for the contract.
  method RecordOnce(store: ChainStore, key: string, em: string, ex: string, draft: Receipt, ids: seq<string>,
                    now: int, others: seq<seq<Act>>)
    returns (answer: Option<Receipt>, lostRace: bool)
    requires Lawful(store.crypto) && WellChained(store.crypto, store.rows)
    requires |ids| >= DEFAULT_MAX_ATTEMPTS && |others| >= 2 * DEFAULT_MAX_ATTEMPTS
    modifies store`rows
    ensures WellChained(store.crypto, store.rows) && Evolves(old(store.rows), store.rows)
    ensures answer.Some? ==> Recorded(store.rows, draft.contractId, answer.value)
    ensures old(ContractTaken(store.rows, draft.contractId)) ==>
      store.rows == old(store.rows) && answer.Some? && !lostRace
    ensures lostRace ==> answer.Some? && store.rows != old(store.rows)
    ensures answer.Some? && !lostRace && !old(ContractTaken(store.rows, draft.contractId)) ==>
      && store.rows[|store.rows| - 1] == RowOf(answer.value)
      && answer.value.emitter == em && answer.value.executor == ex && answer.value.receiptId in ids
      && answer.value.executorSignedAt == now && KeepsTerms(answer.value, draft)
      && ExecutorSigned(store.crypto, store.crypto.publicKey(key), answer.value)
    ensures answer.None? ==>
      || PairCount(store.rows, em, ex) >= PairCount(old(store.rows), em, ex) + DEFAULT_MAX_ATTEMPTS
      || exists id :: id in ids && !Complete(draft, em, ex, id)
    ensures !old(ContractTaken(store.rows, draft.contractId)) ==>
      WroteOnly(store.crypto, old(store.rows), others, store.rows, if lostRace then None else answer)
  {
    var existing := GetReceiptByContract(store, draft.contractId);
    if existing.Some? {
      return existing, false;
    }
    var outcome := SignAndSaveReceipt(store, key, em, ex, Some(draft), ids, now, 0, others);
    match outcome {
      case Appended(r) =>
        NewestIsRecorded(store.rows, r);
        ghost var id :| id in ids && IsFrom(draft, em, ex, id, now, r);
        return Some(r), false;
      case Permanent(DuplicateContract) =>
        var winner := GetReceiptByContract(store, draft.contractId);
        return winner, true;
      case _ =>
        return None, false;
    }
  }

  lemma TermsSay(r: Receipt, env: Envelope, hash: string, verdict: Verdict, payload: string)
    ensures KeepsTerms(r, DraftOf(env, hash, verdict, payload)) && r.emitter == env.emitter ==>
      Says(r, env, r.executor, hash, verdict, payload)
  {
  }

  // The first evaluation, and the reruns when it failed.
  method Evaluate(evaluations: seq<seq<AssertionOutcome>>, limit: nat)
    returns (verdict: Verdict, used: nat, results: seq<AssertionOutcome>)
    requires limit >= 1 && |evaluations| == limit + 1
    ensures verdict == Outcome(evaluations) && Decides(evaluations, used) && results == evaluations[used]
  {
    results := evaluations[0];
    var failedCount;
    verdict, failedCount := ComputeVerdict(results);
    used := 0;
    if verdict == Failed {
      verdict, used, results := RunRemediation(evaluations[1..], failedCount, limit);
    }
  }

  class Engine {
    const store: ChainStore
    const key: string
    const limit: nat
    var duplicateRecoveries: nat

    constructor (store: ChainStore, key: string, remediationMax: int)
      ensures this.store == store && this.key == key && duplicateRecoveries == 0
      ensures limit == if remediationMax <= 0 then DEFAULT_REMEDIATION_LIMIT else remediationMax
    {
      this.store := store;
      this.key := key;
      this.limit := if remediationMax <= 0 then DEFAULT_REMEDIATION_LIMIT else remediationMax;
      this.duplicateRecoveries := 0;
    }

    // A call that is answered holds the one receipt recorded for the contract; a call whose envelope is
    // refused, or whose contract is already recorded, changes nothing. The verdict of a fresh receipt is clean
    // exactly when the first evaluation passed and repaired exactly when a rerun within the limit did.
    // `evaluations[0]` is the first evaluation, the others are the reruns; `payloads` what the results encode to.
    method Settle(env: Envelope, emitter: string, executor: string, evaluations: seq<seq<AssertionOutcome>>,
                  encode: seq<AssertionOutcome> -> string, ids: seq<string>, now: int, others: seq<seq<Act>>)
      returns (answer: Option<Receipt>, remediationUsed: nat)
      requires Lawful(store.crypto) && WellChained(store.crypto, store.rows)
      requires limit >= 1 && |evaluations| == limit + 1
      requires |ids| >= DEFAULT_MAX_ATTEMPTS && |others| >= 2 * DEFAULT_MAX_ATTEMPTS
      modifies this`duplicateRecoveries, store`rows
      ensures WellChained(store.crypto, store.rows) && Evolves(old(store.rows), store.rows)
      ensures answer.Some? ==> Admissible(env, emitter, executor) && Recorded(store.rows, env.envelopeId, answer.value)
      ensures !Admissible(env, emitter, executor) ==> answer.None? && store.rows == old(store.rows)
      ensures Admissible(env, emitter, executor) && old(ContractTaken(store.rows, env.envelopeId)) ==>
        answer.Some? && store.rows == old(store.rows) && remediationUsed == 0
      ensures duplicateRecoveries == old(duplicateRecoveries) ||
              (duplicateRecoveries == old(duplicateRecoveries) + 1 && answer.Some? && store.rows != old(store.rows))
      ensures answer.Some? && !old(ContractTaken(store.rows, env.envelopeId))
              && duplicateRecoveries == old(duplicateRecoveries) ==>
        ExecutorSigned(store.crypto, store.crypto.publicKey(key), answer.value)
        && answer.value.receiptId in ids && answer.value.executorSignedAt == now
        && exists k :: Decides(evaluations, k) && remediationUsed == k
             && Says(answer.value, env, env.executor, env.computedHash, Outcome(evaluations), encode(evaluations[k]))
      ensures remediationUsed <= limit
      ensures Admissible(env, emitter, executor) && answer.None? ==>
        NoAnswer(old(store.rows), store.rows, env, env.executor, env.computedHash, ids)
      ensures Admissible(env, emitter, executor) && !old(ContractTaken(store.rows, env.envelopeId)) ==>
        WroteOnly(store.crypto, old(store.rows), others, store.rows,
                  if duplicateRecoveries == old(duplicateRecoveries) then answer else None)
    {
      if emitter == "" || !env.valid || env.emitter != emitter || (executor != "" && env.executor != executor) {
        return None, 0;
      }
      if env.hash != "" && env.hash != env.computedHash {
        return None, 0;
      }
      var existing := GetReceiptByContract(store, env.envelopeId);
      if existing.Some? {
        return existing, 0;
      }
      ghost var first := store.rows;
      var verdict, used, results := Evaluate(evaluations, limit);
      var lost;
      answer, lost := RecordOnce(store, key, env.emitter, env.executor,
                                 DraftOf(env, env.computedHash, verdict, encode(results)), ids, now, others);
      if lost {
        duplicateRecoveries := duplicateRecoveries + 1;
      } else if answer.Some? {
        TermsSay(answer.value, env, env.computedHash, verdict, encode(results));
      }
      if answer.None? {
        NoAnswerFrom(first, store.rows, env, env.executor, env.computedHash, verdict, encode(results), ids);
      }
      remediationUsed := if lost then 0 else used;
    }
  }

  predicate Admissible(env: Envelope, emitter: string, executor: string) {
    && emitter != "" && env.valid && env.emitter == emitter && (executor == "" || env.executor == executor)
    && (env.hash == "" || env.hash == env.computedHash)
  }

  // What makes an envelope inadmissible: a missing or another emitter, another executor than the one asked for,
  // a check it failed, or a hash that is not its own.
  lemma AdmissibleMeans(env: Envelope, emitter: string, executor: string)
    ensures Admissible(env, emitter, executor) <==>
      !(emitter == "" || !env.valid || env.emitter != emitter || (executor != "" && env.executor != executor)
        || (env.hash != "" && env.hash != env.computedHash))
  {
  }

  // The verdict a list of evaluations leads to: the first one, then up to limit reruns.
  ghost function Outcome(evaluations: seq<seq<AssertionOutcome>>): Verdict
    requires evaluations != []
  {
    if AllPass(evaluations[0]) then SettledClean
    else if exists k :: 1 <= k < |evaluations| && AllPass(evaluations[k]) then Remediated
    else Failed
  }
}
