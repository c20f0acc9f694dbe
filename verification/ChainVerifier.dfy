// VerifyChainIntegrity (pkg/receipt/chain.go) and what a verified chain says.
module ChainVerifier {
  import opened Wrappers
  import opened Receipts
  import opened ChainStores

  datatype Check = Check(
    receiptId: string,
    index: nat,
    sequenceValid: bool,
    previousHashValid: bool,
    executorValid: bool,
    emitterValid: bool,
    valid: bool)

  // The four conditions a verified receipt stands for.
  predicate SequenceOk(chain: seq<Receipt>, i: nat)
    requires i < |chain|
  {
    chain[i].sequenceNumber == i + 1
  }

  predicate LinkOk(c: Crypto, chain: seq<Receipt>, i: nat)
    requires i < |chain|
  {
    chain[i].previousReceiptHash == if i == 0 then "" else c.sha(chain[i - 1].executorSignature)
  }

  predicate DecisionOk(c: Crypto, emitterKey: string, r: Receipt) {
    r.emitterSignature == "" || EmitterSigned(c, emitterKey, r)
  }

  predicate ReceiptOk(c: Crypto, executorKey: string, emitterKey: string, chain: seq<Receipt>, i: nat)
    requires i < |chain|
  {
    && SequenceOk(chain, i)
    && LinkOk(c, chain, i)
    && ExecutorSigned(c, executorKey, chain[i])
    && DecisionOk(c, emitterKey, chain[i])
  }

  // The verdict on receipt i, in terms of the conditions above.
  function Expected(c: Crypto, executorKey: string, emitterKey: string, chain: seq<Receipt>, i: nat): Check
    requires i < |chain|
  {
    Check(chain[i].receiptId, i, SequenceOk(chain, i), LinkOk(c, chain, i),
          ExecutorSigned(c, executorKey, chain[i]), DecisionOk(c, emitterKey, chain[i]),
          ReceiptOk(c, executorKey, emitterKey, chain, i))
  }

  // None is the source's ErrReceiptNotFound for an empty chain. A receipt's executor signature is valid iff it
  // verifies over the receipt with six fields cleared, its emitter signature iff it is absent or stands for a
  // decision and verifies over the receipt with four fields cleared.
  method VerifyChainIntegrity(c: Crypto, chain: seq<Receipt>, executorKey: string, emitterKey: string)
    returns (results: Option<seq<Check>>)
    ensures results.None? <==> chain == []
    ensures results.Some? ==> |results.value| == |chain|
    ensures results.Some? ==> forall i :: 0 <= i < |chain| ==>
      results.value[i] == Expected(c, executorKey, emitterKey, chain, i)
    ensures results.Some? ==> forall i :: 0 <= i < |chain| ==>
      (results.value[i].executorValid <==>
       chain[i].executorSignature != "" &&
       c.verify(executorKey,
                c.digest(chain[i].(executorSignature := "", emitterAcceptance := Undecided, emitterAcceptanceAt := None,
                                   emitterSignature := "", disputeReason := "", sequenceNumber := 0)),
                chain[i].executorSignature))
    ensures results.Some? ==> forall i :: 0 <= i < |chain| ==>
      (results.value[i].emitterValid <==>
       chain[i].emitterSignature == "" ||
       (chain[i].emitterAcceptance != Undecided &&
        c.verify(emitterKey,
                 c.digest(chain[i].(executorSignature := "", emitterSignature := "", emitterAcceptanceAt := None,
                                    sequenceNumber := 0)),
                 chain[i].emitterSignature)))
    ensures results.Some? ==> forall i :: 0 <= i < |chain| ==>
      && (results.value[i].sequenceValid <==> chain[i].sequenceNumber == i + 1)
      && (results.value[i].previousHashValid <==>
          chain[i].previousReceiptHash == if i == 0 then "" else c.sha(chain[i - 1].executorSignature))
      && (results.value[i].valid <==>
          results.value[i].sequenceValid && results.value[i].previousHashValid
          && results.value[i].executorValid && results.value[i].emitterValid)
  {
    if |chain| == 0 {
      return None;
    }
    var checks: seq<Check> := [];
    for i := 0 to |chain|
      invariant |checks| == i
      invariant forall k :: 0 <= k < i ==> checks[k] == Expected(c, executorKey, emitterKey, chain, k)
    {
      var r := chain[i];
      var sequenceValid := r.sequenceNumber == i + 1;
      var previousHashValid;
      if i == 0 {
        previousHashValid := r.previousReceiptHash == "";
      } else {
        var hash := c.sha(chain[i - 1].executorSignature);
        previousHashValid := hash == r.previousReceiptHash;
      }
      var executorValid := false;
      if r.executorSignature != "" {
        executorValid := c.verify(executorKey, c.digest(ExecutorContent(r)), r.executorSignature);
      }
      var emitterValid;
      if r.emitterSignature != "" && r.emitterAcceptance != Undecided {
        emitterValid := c.verify(emitterKey, c.digest(EmitterContent(r)), r.emitterSignature);
      } else if r.emitterSignature != "" {
        emitterValid := false;
      } else {
        emitterValid := true;
      }
      assert sequenceValid == SequenceOk(chain, i) && previousHashValid == LinkOk(c, chain, i);
      assert executorValid == ExecutorSigned(c, executorKey, r) && emitterValid == DecisionOk(c, emitterKey, r);
      checks := checks + [Check(r.receiptId, i, sequenceValid, previousHashValid, executorValid, emitterValid,
                                sequenceValid && previousHashValid && executorValid && emitterValid)];
    }
    return Some(checks);
  }

  // One signature verifies for at most one message per key, and the digest has no collisions.
  ghost predicate Binding(c: Crypto) {
    && (forall key, m, n, signature :: c.verify(key, m, signature) && c.verify(key, n, signature) ==> m == n)
    && (forall x, y :: c.digest(x) == c.digest(y) ==> x == y)
  }

  // What no one can change in a receipt that still verifies under its executor's signature.
  predicate SameTerms(a: Receipt, b: Receipt) {
    && a.protocolVersion == b.protocolVersion && a.meshId == b.meshId
    && a.receiptId == b.receiptId && a.contractId == b.contractId && a.envelopeHash == b.envelopeHash
    && a.emitter == b.emitter && a.executor == b.executor
    && a.verdict == b.verdict && a.payload == b.payload
    && a.executorSignedAt == b.executorSignedAt && a.previousReceiptHash == b.previousReceiptHash
  }

  // Tamper evidence: two receipts that verify with one executor signature agree in every field but the two
  // signatures, the emitter's decision with its time and reason, and the number.
  lemma TamperEvident(c: Crypto, key: string, a: Receipt, b: Receipt)
    requires Binding(c) && ExecutorSigned(c, key, a) && ExecutorSigned(c, key, b)
    requires a.executorSignature == b.executorSignature
    ensures SameTerms(a, b)
  {
    assert c.digest(ExecutorContent(a)) == c.digest(ExecutorContent(b));
    ExecutorContentBlindSpots(a, b);
  }

  // Two receipts that verify with one emitter signature carry one decision and reason over the same terms.
  lemma DecisionEvident(c: Crypto, key: string, a: Receipt, b: Receipt)
    requires Binding(c) && EmitterSigned(c, key, a) && EmitterSigned(c, key, b)
    requires a.emitterSignature == b.emitterSignature
    ensures a.emitterAcceptance == b.emitterAcceptance && a.disputeReason == b.disputeReason && SameTerms(a, b)
  {
    assert c.digest(EmitterContent(a)) == c.digest(EmitterContent(b));
    EmitterMessageBindsDecision(c, a, b);
    ExecutorContentBlindSpots(a, b);
  }

  ghost predicate LinksAndNumbers(c: Crypto, chain: seq<Receipt>) {
    forall i :: 0 <= i < |chain| ==> SequenceOk(chain, i) && LinkOk(c, chain, i)
  }

  // A receipt taken from the chain with its (unsigned) number rewritten at will.
  predicate Renumbered(a: Receipt, b: Receipt) {
    a == b.(sequenceNumber := a.sequenceNumber)
  }

  ghost predicate Copied(r: Receipt, chain: seq<Receipt>) {
    exists k :: 0 <= k < |chain| && Renumbered(r, chain[k])
  }

  ghost predicate TakenFrom(t: seq<Receipt>, chain: seq<Receipt>) {
    forall i :: 0 <= i < |t| ==> Copied(t[i], chain)
  }

  ghost predicate DistinctSignatureHashes(c: Crypto, chain: seq<Receipt>) {
    forall i, j :: 0 <= i < j < |chain| ==> c.sha(chain[i].executorSignature) != c.sha(chain[j].executorSignature)
  }

  lemma {:induction false} PositionIsKept(c: Crypto, chain: seq<Receipt>, t: seq<Receipt>, n: nat)
    requires Lawful(c)
    requires LinksAndNumbers(c, chain) && DistinctSignatureHashes(c, chain)
    requires TakenFrom(t, chain) && LinksAndNumbers(c, t)
    requires n < |t|
    ensures n < |chain| && t[n] == chain[n]
  {
    assert SequenceOk(t, n) && LinkOk(c, t, n);
    var k :| 0 <= k < |chain| && Renumbered(t[n], chain[k]);
    assert SequenceOk(chain, k) && LinkOk(c, chain, k);
    if n > 0 {
      PositionIsKept(c, chain, t, n - 1);
      assert c.sha(chain[n - 1].executorSignature) == c.sha(chain[k - 1].executorSignature);
    }
    assert k == n;
  }

  lemma PrefixPasses(c: Crypto, chain: seq<Receipt>, t: seq<Receipt>)
    requires LinksAndNumbers(c, chain) && t <= chain
    ensures TakenFrom(t, chain) && LinksAndNumbers(c, t)
  {
    forall i | 0 <= i < |t|
      ensures Copied(t[i], chain) && SequenceOk(t, i) && LinkOk(c, t, i)
    {
      assert t[i] == chain[i] && Renumbered(t[i], chain[i]);
      assert SequenceOk(chain, i) && LinkOk(c, chain, i);
      assert i > 0 ==> t[i - 1] == chain[i - 1];
    }
  }

  // Deleting, reordering or repeating receipts is always detected and cutting off the tail never is: among
  // the sequences built from the receipts of a verified chain, the ones that pass the link and number checks
  // are exactly its prefixes.
  lemma VerifiedRearrangementsArePrefixes(c: Crypto, chain: seq<Receipt>, t: seq<Receipt>)
    requires Lawful(c)
    requires LinksAndNumbers(c, chain) && DistinctSignatureHashes(c, chain)
    ensures TakenFrom(t, chain) && LinksAndNumbers(c, t) <==> t <= chain
  {
    if TakenFrom(t, chain) && LinksAndNumbers(c, t) {
      forall i | 0 <= i < |t|
        ensures i < |chain| && t[i] == chain[i]
      {
        PositionIsKept(c, chain, t, i);
      }
      if |t| > |chain| {
        PositionIsKept(c, chain, t, |chain|);
      }
    }
    if t <= chain {
      PrefixPasses(c, chain, t);
    }
  }

  // The records the verifier is given: the rows of the pair in order, numbered by the seq column.
  function Records(chain: seq<Row>): (out: seq<Receipt>)
    requires forall i :: 0 <= i < |chain| ==> chain[i].data.Some?
    ensures |out| == |chain|
    ensures forall i :: 0 <= i < |chain| ==> Loaded(chain[i]) == Some(out[i])
  {
    seq(|chain|, i requires 0 <= i < |chain| => chain[i].data.value.(sequenceNumber := chain[i].number))
  }

  // Every well-chained store passes the number and link checks, for every pair.
  lemma WellChainedPassesChecks(c: Crypto, rows: seq<Row>, em: string, ex: string)
    requires WellChained(c, rows)
    ensures forall i :: 0 <= i < |Chain(rows, em, ex)| ==>
      Faithful(Chain(rows, em, ex)[i]) && Chain(rows, em, ex)[i].data.Some?
    ensures LinksAndNumbers(c, Records(Chain(rows, em, ex)))
  {
    ChainIsGapFree(c, rows, em, ex);
    var chain := Chain(rows, em, ex);
    forall i | 0 <= i < |chain|
      ensures Faithful(chain[i])
    {
      var k :| 0 <= k < |rows| && rows[k] == chain[i];
    }
  }
}
