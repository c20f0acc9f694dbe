// Settlement receipts and their two signatures (pkg/receipt/types.go, chain.go, signer.go).
module Receipts {
  import opened Wrappers

  datatype Verdict = SettledClean | Remediated | Failed | DisputedVerdict | Timeout

  datatype Acceptance = Undecided | Accepted | Disputed

  // `payload` stands for territory, assertions and remediation chain: no code modelled here looks inside.
  datatype Receipt = Receipt(
    protocolVersion: string,
    meshId: string,
    receiptId: string,
    contractId: string,
    envelopeHash: string,
    emitter: string,
    executor: string,
    verdict: Verdict,
    payload: string,
    executorSignature: string,
    executorSignedAt: int,
    previousReceiptHash: string,
    sequenceNumber: int,
    emitterAcceptance: Acceptance,
    emitterAcceptanceAt: Option<int>,
    disputeReason: string,
    emitterSignature: string)

  // SHA-256, the canonical digest of a receipt and Ed25519, as abstract functions.
  datatype Crypto = Crypto(
    sha: string -> string,
    digest: Receipt -> string,
    publicKey: string -> string,
    sign: (string, string) -> string,
    verify: (string, string, string) -> bool)

  // Hashes and signatures are never the empty string, and what a key signs its public key verifies.
  ghost predicate Lawful(c: Crypto) {
    && (forall s :: c.sha(s) != "")
    && (forall key, msg :: c.sign(key, msg) != "" && c.verify(c.publicKey(key), msg, c.sign(key, msg)))
  }

  // What the executor signs: everything but the signatures, the emitter's decision and the store's number.
  function ExecutorContent(r: Receipt): Receipt {
    r.(executorSignature := "", emitterAcceptance := Undecided, emitterAcceptanceAt := None,
    emitterSignature := "", disputeReason := "", sequenceNumber := 0)
  }

  // What the emitter signs: the decision and its reason stay in.
  function EmitterContent(r: Receipt): Receipt {
    r.(executorSignature := "", emitterSignature := "", emitterAcceptanceAt := None, sequenceNumber := 0)
  }

  predicate ExecutorSigned(c: Crypto, publicKey: string, r: Receipt) {
    r.executorSignature != "" && c.verify(publicKey, c.digest(ExecutorContent(r)), r.executorSignature)
  }

  predicate EmitterSigned(c: Crypto, publicKey: string, r: Receipt) {
    && r.emitterSignature != ""
    && r.emitterAcceptance != Undecided
    && c.verify(publicKey, c.digest(EmitterContent(r)), r.emitterSignature)
  }

  function SignedBy(c: Crypto, key: string, r: Receipt, now: int): Receipt {
    var stamped := r.(executorSignedAt := now);
    stamped.(executorSignature := c.sign(key, c.digest(ExecutorContent(stamped))))
  }

  function Decided(r: Receipt, decision: Acceptance, reason: string, now: int, signature: string): Receipt {
    r.(emitterAcceptance := decision, disputeReason := reason, emitterAcceptanceAt := Some(now),
    emitterSignature := signature)
  }

  // A receipt held by reference, as the signing functions receive it.
  class ReceiptRef {
    var value: Receipt

    constructor (r: Receipt)
      ensures value == r
    {
      value := r;
    }

    // The signature verifies under the signer's public key and covers every field the executor content keeps.
    method Sign(c: Crypto, key: string, now: int)
      modifies this
      ensures value == SignedBy(c, key, old(value), now)
      ensures value == old(value).(executorSignedAt := now, executorSignature := value.executorSignature)
      ensures Lawful(c) ==> ExecutorSigned(c, c.publicKey(key), value)
    {
      value := value.(executorSignedAt := now);
      var hash := c.digest(ExecutorContent(value));
      var signature := c.sign(key, hash);
      assert ExecutorContent(value.(executorSignature := signature)) == ExecutorContent(value);
      value := value.(executorSignature := signature);
    }

    method Accept(c: Crypto, emitterKey: string, executorSignedAt: int, now: int)
      modifies this
      ensures Lawful(c) ==> EmitterSigned(c, c.publicKey(emitterKey), value)
      ensures value.emitterAcceptance == Accepted && value.disputeReason == ""
      ensures value.emitterAcceptanceAt == Some(now)
      ensures ExecutorContent(value) == ExecutorContent(old(value)).(executorSignedAt := executorSignedAt)
      ensures value.executorSignature == old(value.executorSignature)
      ensures value.sequenceNumber == old(value.sequenceNumber)
    {
      value := value.(executorSignedAt := executorSignedAt, emitterAcceptance := Accepted, disputeReason := "",
      emitterAcceptanceAt := Some(now));
      var signature := c.sign(emitterKey, c.digest(EmitterContent(value)));
      assert EmitterContent(value.(emitterSignature := signature)) == EmitterContent(value);
      value := value.(emitterSignature := signature);
    }

    // An empty reason is refused and leaves the receipt as it was.
    method Dispute(c: Crypto, emitterKey: string, reason: string, executorSignedAt: int, now: int)
      returns (ok: bool)
      modifies this
      ensures ok == (reason != "")
      ensures !ok ==> value == old(value)
      ensures ok && Lawful(c) ==> EmitterSigned(c, c.publicKey(emitterKey), value)
      ensures ok ==> value.emitterAcceptance == Disputed && value.disputeReason == reason
      ensures ok ==> value.emitterAcceptanceAt == Some(now)
      ensures ok ==>
        ExecutorContent(value) == ExecutorContent(old(value)).(executorSignedAt := executorSignedAt)
      ensures value.executorSignature == old(value.executorSignature)
      ensures value.sequenceNumber == old(value.sequenceNumber)
    {
      if reason == "" {
        return false;
      }
      value := value.(executorSignedAt := executorSignedAt, emitterAcceptance := Disputed, disputeReason := reason,
      emitterAcceptanceAt := Some(now));
      var signature := c.sign(emitterKey, c.digest(EmitterContent(value)));
      assert EmitterContent(value.(emitterSignature := signature)) == EmitterContent(value);
      value := value.(emitterSignature := signature);
      return true;
    }
  }

  // The executor's hash is blind to exactly the emitter's fields, its own signature and the number:
  // two receipts have the same executor content iff one becomes the other by rewriting those six.
  lemma ExecutorContentBlindSpots(a: Receipt, b: Receipt)
    ensures ExecutorContent(a) == ExecutorContent(b) <==>
      b == a.(executorSignature := b.executorSignature, emitterAcceptance := b.emitterAcceptance,
      emitterAcceptanceAt := b.emitterAcceptanceAt, emitterSignature := b.emitterSignature,
      disputeReason := b.disputeReason, sequenceNumber := b.sequenceNumber)
  {
    if ExecutorContent(a) == ExecutorContent(b) {
      assert a.protocolVersion == ExecutorContent(a).protocolVersion == b.protocolVersion;
      assert a.meshId == ExecutorContent(a).meshId == b.meshId;
      assert a.receiptId == ExecutorContent(a).receiptId == b.receiptId;
      assert a.contractId == ExecutorContent(a).contractId == b.contractId;
      assert a.envelopeHash == ExecutorContent(a).envelopeHash == b.envelopeHash;
      assert a.emitter == ExecutorContent(a).emitter == b.emitter;
      assert a.executor == ExecutorContent(a).executor == b.executor;
      assert a.verdict == ExecutorContent(a).verdict == b.verdict;
      assert a.payload == ExecutorContent(a).payload == b.payload;
      assert a.executorSignedAt == ExecutorContent(a).executorSignedAt == b.executorSignedAt;
      assert a.previousReceiptHash == ExecutorContent(a).previousReceiptHash == b.previousReceiptHash;
    }
  }

  // Recording or changing the emitter's decision never invalidates the executor's signature.
  lemma DecisionKeepsExecutorSignature(c: Crypto, pk: string, r: Receipt, d: Acceptance, reason: string, now: int, sig: string, number: int)
    requires ExecutorSigned(c, pk, r)
    ensures ExecutorSigned(c, pk, Decided(r, d, reason, now, sig).(sequenceNumber := number))
    ensures ExecutorContent(Decided(r, d, reason, now, sig).(sequenceNumber := number)) == ExecutorContent(r)
  {
    ExecutorContentBlindSpots(r, Decided(r, d, reason, now, sig).(sequenceNumber := number));
  }

  // With a collision-free digest the emitter's message fixes the decision, its reason and all the
  // executor signed: no second decision or reason shares the signed hash.
  lemma EmitterMessageBindsDecision(c: Crypto, a: Receipt, b: Receipt)
    requires forall x, y :: c.digest(x) == c.digest(y) ==> x == y
    requires c.digest(EmitterContent(a)) == c.digest(EmitterContent(b))
    ensures a.emitterAcceptance == b.emitterAcceptance && a.disputeReason == b.disputeReason
    ensures ExecutorContent(a) == ExecutorContent(b)
  {
    assert EmitterContent(a) == EmitterContent(b);
    assert ExecutorContent(a) == ExecutorContent(EmitterContent(a)) == ExecutorContent(b);
    assert a.emitterAcceptance == EmitterContent(a).emitterAcceptance;
    assert a.disputeReason == EmitterContent(a).disputeReason;
  }
}
