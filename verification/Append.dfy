// The optimistic append of one receipt (pkg/receipt/append.go).
module Append {
  import opened Wrappers
  import opened Receipts
  import opened ChainStores

  const DEFAULT_MAX_ATTEMPTS := 10

  // The receipt one attempt tries to save: the caller's fields, linked to the head hash just read and signed.
  function Prepared(c: Crypto, key: string, draft: Receipt, em: string, ex: string, prev: string, id: string, now: int): Receipt {
    SignedBy(c, key, draft.(previousReceiptHash := prev, receiptId := id, emitter := em, executor := ex,
                            sequenceNumber := 0, executorSignature := ""), now)
  }

  predicate Transient(outcome: SaveOutcome) {
    outcome == SequenceConflict || outcome == InvalidPreviousHash
  }

  datatype Appended =
    | Appended(receipt: Receipt)
    | Exhausted(attempts: nat)
    | Permanent(cause: SaveOutcome)
    | BuildFailed

  // What other writers commit: saves, whatever they carry, and the accept and dispute handlers' updates, which
  // write a stored receipt back with other fields of the emitter.
  datatype Act = SaveOf(receipt: Receipt) | DecideOf(decided: Receipt)

  predicate WritesBack(rows: seq<Row>, r: Receipt) {
    forall i :: 0 <= i < |rows| && rows[i].receiptId == r.receiptId ==> ReadFrom(r, rows[i])
  }

  function Acted(c: Crypto, rows: seq<Row>, act: Act): seq<Row> {
    match act
    case SaveOf(r) => Save(c, rows, r).1
    case DecideOf(r) => if WritesBack(rows, r) then Rewrite(rows, r) else rows
  }

  // One after another.
  function Interfere(c: Crypto, rows: seq<Row>, batch: seq<Act>): (out: seq<Row>) {
    if batch == [] then rows
    else Acted(c, Interfere(c, rows, batch[..|batch| - 1]), batch[|batch| - 1])
  }

  function Flat(batches: seq<seq<Act>>): seq<Act> {
    if batches == [] then [] else Flat(batches[..|batches| - 1]) + batches[|batches| - 1]
  }

  lemma {:induction false} InterfereOn(c: Crypto, rows: seq<Row>, a: seq<Act>, b: seq<Act>)
    ensures Interfere(c, rows, a + b) == Interfere(c, Interfere(c, rows, a), b)
  {
    if b == [] {
      assert a + b == a;
    } else {
      InterfereOn(c, rows, a, b[..|b| - 1]);
      assert (a + b)[..|a + b| - 1] == a + b[..|b| - 1];
    }
  }

  lemma TwoBatches(c: Crypto, rows: seq<Row>, others: seq<seq<Act>>, n: nat)
    requires n + 2 <= |others|
    ensures Interfere(c, rows, Flat(others[..n + 2])) ==
      Interfere(c, Interfere(c, Interfere(c, rows, Flat(others[..n])), others[n]), others[n + 1])
  {
    assert others[..n + 2][..n + 1] == others[..n + 1] && others[..n + 1][..n] == others[..n];
    InterfereOn(c, rows, Flat(others[..n + 1]), others[n + 1]);
    InterfereOn(c, rows, Flat(others[..n]), others[n]);
  }

  // The table is what the first n batches of the others alone would have left, and then this call's own row.
  ghost predicate Wrote(c: Crypto, first: seq<Row>, others: seq<seq<Act>>, n: int, rows: seq<Row>, own: Option<Receipt>) {
    0 <= n <= |others| &&
    rows == Interfere(c, first, Flat(others[..n])) + if own.Some? then [RowOf(own.value)] else []
  }

  lemma WroteMore(c: Crypto, first: seq<Row>, others: seq<seq<Act>>, n: nat, mid: seq<Row>, rows: seq<Row>, own: Option<Receipt>)
    requires n + 2 <= |others| && Wrote(c, first, others, n, mid, None)
    requires rows == Interfere(c, Interfere(c, mid, others[n]), others[n + 1]) + if own.Some? then [RowOf(own.value)] else []
    ensures Wrote(c, first, others, n + 2, rows, own)
  {
    var base := Interfere(c, first, Flat(others[..n]));
    assert mid == base + [] == base;
    TwoBatches(c, first, others, n);
  }

  ghost predicate WroteOnly(c: Crypto, first: seq<Row>, others: seq<seq<Act>>, rows: seq<Row>, own: Option<Receipt>) {
    exists n :: Wrote(c, first, others, n, rows, own)
  }

  // Receipts of the pair: as receipts are never deleted, the growth of this number counts commits.
  function PairCount(rows: seq<Row>, em: string, ex: string): nat {
    |Chain(rows, em, ex)|
  }

  lemma {:induction false} InsertAddsOne(row: Row, sorted: seq<Row>)
    ensures |Insert(row, sorted)| == |sorted| + 1
  {
    if sorted != [] && !Before(row, sorted[0]) {
      InsertAddsOne(row, sorted[1..]);
    }
  }

  lemma CountGrows(rows: seq<Row>, row: Row, em: string, ex: string)
    ensures PairCount(rows + [row], em, ex) == PairCount(rows, em, ex) + if InPair(row, em, ex) then 1 else 0
  {
    assert (rows + [row])[..|rows|] == rows;
    InsertAddsOne(row, Chain(rows, em, ex));
  }

  lemma HeadChangesOnlyByCommit(c: Crypto, rows: seq<Row>, row: Row, em: string, ex: string)
    ensures !InPair(row, em, ex) ==> HeadHash(c, rows + [row], em, ex) == HeadHash(c, rows, em, ex)
  {
    assert (rows + [row])[..|rows|] == rows;
  }

  // From table a to table b: rows were only added or decided, and the pair's head moved only if its count did.
  ghost predicate Grows(c: Crypto, a: seq<Row>, b: seq<Row>, em: string, ex: string) {
    && Evolves(a, b)
    && PairCount(a, em, ex) <= PairCount(b, em, ex)
    && (PairCount(a, em, ex) == PairCount(b, em, ex) ==> HeadHash(c, a, em, ex) == HeadHash(c, b, em, ex))
  }

  lemma {:induction false} EvolvedCounts(c: Crypto, a: seq<Row>, b: seq<Row>, em: string, ex: string)
    requires |a| == |b| && Evolves(a, b)
    ensures PairCount(a, em, ex) == PairCount(b, em, ex)
    ensures Latest(a, em, ex).Some? <==> Latest(b, em, ex).Some?
    ensures Latest(a, em, ex).Some? ==> Preserved(Latest(a, em, ex).value, Latest(b, em, ex).value)
    ensures HeadHash(c, a, em, ex) == HeadHash(c, b, em, ex)
  {
    if a != [] {
      var n := |a| - 1;
      EvolvedCounts(c, a[..n], b[..n], em, ex);
      assert Preserved(a[n], b[n]);
      InsertAddsOne(a[n], Chain(a[..n], em, ex));
      InsertAddsOne(b[n], Chain(b[..n], em, ex));
    }
  }

  lemma SaveGrows(c: Crypto, rows: seq<Row>, r: Receipt, em: string, ex: string)
    requires WellChained(c, rows)
    ensures Grows(c, rows, Save(c, rows, r).1, em, ex)
  {
    SaveExtends(c, rows, r, em, ex);
    ExtendedEvolves(c, rows, Save(c, rows, r).1);
  }

  // A save adds one row or none, and moves the head of the pair it adds to only.
  lemma SaveExtends(c: Crypto, rows: seq<Row>, r: Receipt, em: string, ex: string)
    ensures var after := Save(c, rows, r).1;
      && rows <= after && PairCount(rows, em, ex) <= PairCount(after, em, ex)
      && (PairCount(rows, em, ex) == PairCount(after, em, ex) ==> HeadHash(c, rows, em, ex) == HeadHash(c, after, em, ex))
  {
    var (outcome, after, numbered) := Save(c, rows, r);
    if outcome == Saved {
      CountGrows(rows, RowOf(numbered), em, ex);
      HeadChangesOnlyByCommit(c, rows, RowOf(numbered), em, ex);
    }
  }

  // A decision written back touches the JSON of its receipt only, and there only the emitter's part.
  lemma DecisionGrows(c: Crypto, rows: seq<Row>, r: Receipt, em: string, ex: string)
    requires WellChained(c, rows) && WritesBack(rows, r)
    ensures WellChained(c, Rewrite(rows, r)) && Grows(c, rows, Rewrite(rows, r), em, ex)
  {
    var after := Rewrite(rows, r);
    forall i | 0 <= i < |rows|
      ensures Preserved(rows[i], after[i]) && Faithful(after[i])
    {
      assert Faithful(rows[i]);
      if rows[i].receiptId == r.receiptId {
        ExecutorContentBlindSpots(rows[i].data.value, r);
      }
    }
    EvolvedIsChained(c, rows, after);
    EvolvedCounts(c, rows, after, em, ex);
  }

  lemma ActGrows(c: Crypto, rows: seq<Row>, act: Act, em: string, ex: string)
    requires WellChained(c, rows)
    ensures WellChained(c, Acted(c, rows, act)) && Grows(c, rows, Acted(c, rows, act), em, ex)
  {
    match act
    case SaveOf(r) =>
      SaveKeepsStore(c, rows, r);
      SaveGrows(c, rows, r, em, ex);
    case DecideOf(r) =>
      ExtendedEvolves(c, rows, rows);
      if WritesBack(rows, r) {
        DecisionGrows(c, rows, r, em, ex);
      }
  }

  lemma GrowsOn(c: Crypto, x: seq<Row>, y: seq<Row>, z: seq<Row>, em: string, ex: string)
    requires Grows(c, x, y, em, ex) && Grows(c, y, z, em, ex)
    ensures Grows(c, x, z, em, ex)
  {
    EvolvesTrans(x, y, z);
  }

  // However the others interleave, the table stays well chained, only grows, and the head is the one seen
  // before unless someone committed to this pair.
  lemma {:induction false} InterferenceIsSafe(c: Crypto, rows: seq<Row>, batch: seq<Act>, em: string, ex: string)
    requires WellChained(c, rows)
    ensures WellChained(c, Interfere(c, rows, batch))
    ensures Grows(c, rows, Interfere(c, rows, batch), em, ex)
  {
    if batch == [] {
      ExtendedEvolves(c, rows, rows);
    } else {
      var init, last := batch[..|batch| - 1], batch[|batch| - 1];
      InterferenceIsSafe(c, rows, init, em, ex);
      ActGrows(c, Interfere(c, rows, init), last, em, ex);
      GrowsOn(c, rows, Interfere(c, rows, init), Interfere(c, rows, batch), em, ex);
    }
  }

  // The draft passes validation once the append has filled in the pair and the id.
  predicate Complete(draft: Receipt, em: string, ex: string, id: string) {
    Valid(draft.(emitter := em, executor := ex, receiptId := id))
  }

  // `r` is the caller's draft for this pair, under this id and signing time: only its link, number and signature
  // are the append's own.
  predicate IsFrom(draft: Receipt, em: string, ex: string, id: string, now: int, r: Receipt) {
    r == draft.(emitter := em, executor := ex, receiptId := id, executorSignedAt := now,
                previousReceiptHash := r.previousReceiptHash, sequenceNumber := r.sequenceNumber,
                executorSignature := r.executorSignature)
  }

  // What other writers commit meanwhile.
  method OthersCommit(store: ChainStore, em: string, ex: string, batch: seq<Act>)
    requires WellChained(store.crypto, store.rows)
    modifies store`rows
    ensures store.rows == Interfere(store.crypto, old(store.rows), batch)
    ensures WellChained(store.crypto, store.rows) && Evolves(old(store.rows), store.rows)
    ensures Grows(store.crypto, old(store.rows), store.rows, em, ex)
  {
    InterferenceIsSafe(store.crypto, store.rows, batch, em, ex);
    store.rows := Interfere(store.crypto, store.rows, batch);
  }

  // The hash the next receipt of the pair has to carry.
  method ReadHead(store: ChainStore, em: string, ex: string) returns (prev: string)
    requires WellChained(store.crypto, store.rows)
    ensures prev == HeadHash(store.crypto, store.rows, em, ex)
  {
    prev := "";
    var head := store.GetLastReceipt(em, ex);
    if Latest(store.rows, em, ex).Some? {
      HeadDecodes(store.crypto, store.rows, em, ex);
    }
    if head.Some? {
      prev := store.crypto.sha(head.value.executorSignature);
    }
  }

  // What the result of an attempt says about the table it leaves.
  ghost predicate Explains(c: Crypto, key: string, draft: Receipt, em: string, ex: string, id: string, now: int,
                           rows: seq<Row>, saved: SaveOutcome, receipt: Receipt)
  {
    && (saved == Saved ==>
          rows != [] && rows[|rows| - 1] == RowOf(receipt) && ExecutorSigned(c, c.publicKey(key), receipt)
          && IsFrom(draft, em, ex, id, now, receipt))
    && (saved == DuplicateContract ==> ContractTaken(rows, draft.contractId))
    && (saved == InvalidReceipt ==> !Complete(draft, em, ex, id))
    && saved != CorruptHead
  }

  // One attempt: read the head, let the others run, sign, save. A transient failure proves that another
  // writer committed to the pair between the read and the save.
  method Attempt(store: ChainStore, key: string, em: string, ex: string, draft: Receipt, id: string, now: int,
                 others: seq<Act>)
    returns (saved: SaveOutcome, receipt: Receipt)
    requires Lawful(store.crypto) && WellChained(store.crypto, store.rows)
    modifies store`rows
    ensures WellChained(store.crypto, store.rows) && Evolves(old(store.rows), store.rows)
    ensures PairCount(store.rows, em, ex) >= PairCount(old(store.rows), em, ex)
    ensures Explains(store.crypto, key, draft, em, ex, id, now, store.rows, saved, receipt)
    ensures Transient(saved) ==> PairCount(store.rows, em, ex) > PairCount(old(store.rows), em, ex)
    ensures store.rows == Interfere(store.crypto, old(store.rows), others) + if saved == Saved then [RowOf(receipt)] else []
  {
    var c := store.crypto;
    ghost var seen := store.rows;
    var prev := ReadHead(store, em, ex);
    OthersCommit(store, em, ex, others);
    ghost var before := store.rows;
    var r := new ReceiptRef(Prepared(c, key, draft, em, ex, prev, id, now));
    saved := store.SaveReceipt(r);
    receipt := r.value;
    AttemptSaves(c, key, em, ex, draft, id, now, seen, before);
    GrowsOn(c, seen, before, store.rows, em, ex);
  }

  lemma IncompleteIsInvalid(c: Crypto, key: string, draft: Receipt, em: string, ex: string, prev: string, id: string,
                            now: int, rows: seq<Row>)
    requires Lawful(c)
    ensures Save(c, rows, Prepared(c, key, draft, em, ex, prev, id, now)).0 == InvalidReceipt ==> !Complete(draft, em, ex, id)
  {
  }

  // What saving the prepared receipt does after the head was read from `seen` and others turned the table
  // into `before`.
  lemma AttemptSaves(c: Crypto, key: string, em: string, ex: string, draft: Receipt, id: string, now: int,
                     seen: seq<Row>, before: seq<Row>)
    requires Lawful(c) && WellChained(c, before) && Grows(c, seen, before, em, ex)
    ensures var prepared := Prepared(c, key, draft, em, ex, HeadHash(c, seen, em, ex), id, now);
      var (saved, after, receipt) := Save(c, before, prepared);
      && WellChained(c, after) && before <= after && Grows(c, before, after, em, ex)
      && Explains(c, key, draft, em, ex, id, now, after, saved, receipt)
      && (Transient(saved) ==> PairCount(before, em, ex) > PairCount(seen, em, ex))
      && after == before + if saved == Saved then [RowOf(receipt)] else []
  {
    var prev := HeadHash(c, seen, em, ex);
    IncompleteIsInvalid(c, key, draft, em, ex, prev, id, now, before);
    var prepared := Prepared(c, key, draft, em, ex, prev, id, now);
    SaveKeepsStore(c, before, prepared);
    SaveGrows(c, before, prepared, em, ex);
    AttemptDecides(c, seen, before, prepared);
    if Save(c, before, prepared).0 == Saved {
      SavedIsNewest(c, before, prepared);
      PreparedIsSigned(c, key, draft, em, ex, prev, id, now, Save(c, before, prepared).2.sequenceNumber);
    }
  }

  // One attempt with the commits of others before it.
  method Round(store: ChainStore, key: string, em: string, ex: string, draft: Receipt, id: string, now: int,
               earlier: seq<Act>, between: seq<Act>)
    returns (saved: SaveOutcome, receipt: Receipt)
    requires Lawful(store.crypto) && WellChained(store.crypto, store.rows)
    modifies store`rows
    ensures WellChained(store.crypto, store.rows) && Evolves(old(store.rows), store.rows)
    ensures PairCount(store.rows, em, ex) >= PairCount(old(store.rows), em, ex) + if Transient(saved) then 1 else 0
    ensures Explains(store.crypto, key, draft, em, ex, id, now, store.rows, saved, receipt)
    ensures var own := if saved == Saved then Some(receipt) else None;
      store.rows == Interfere(store.crypto, Interfere(store.crypto, old(store.rows), earlier), between)
                    + if own.Some? then [RowOf(own.value)] else []
  {
    OthersCommit(store, em, ex, earlier);
    ghost var before := store.rows;
    saved, receipt := Attempt(store, key, em, ex, draft, id, now, between);
    EvolvesTrans(old(store.rows), before, store.rows);
  }

  // A success is the newest row, built from the draft with one of the ids, linked and signed; a permanent failure
  // is a contract that has its receipt already, or a draft that some id does not complete.
  ghost predicate Reports(c: Crypto, key: string, draft: Receipt, em: string, ex: string, ids: seq<string>, now: int,
                          rows: seq<Row>, outcome: Appended)
  {
    && (outcome.Appended? ==>
          rows != [] && rows[|rows| - 1] == RowOf(outcome.receipt) && ExecutorSigned(c, c.publicKey(key), outcome.receipt)
          && exists id :: id in ids && IsFrom(draft, em, ex, id, now, outcome.receipt))
    && (outcome.Permanent? ==> outcome.cause in {DuplicateContract, InvalidReceipt})
    && (outcome == Permanent(DuplicateContract) ==> ContractTaken(rows, draft.contractId))
    && (outcome == Permanent(InvalidReceipt) ==> exists id :: id in ids && !Complete(draft, em, ex, id))
  }

  lemma ReportsAttempt(c: Crypto, key: string, draft: Receipt, em: string, ex: string, ids: seq<string>, k: nat, now: int,
                       rows: seq<Row>, saved: SaveOutcome, receipt: Receipt)
    requires k < |ids| && Explains(c, key, draft, em, ex, ids[k], now, rows, saved, receipt) && !Transient(saved)
    ensures Reports(c, key, draft, em, ex, ids, now, rows, if saved == Saved then Appended(receipt) else Permanent(saved))
  {
    assert ids[k] in ids;
  }

  // Attempt number `attempt` of a call that has written nothing yet: it reports, or leaves the call to go on.
  method NextRound(store: ChainStore, key: string, em: string, ex: string, draft: Receipt, ids: seq<string>, now: int,
                   attempt: nat, others: seq<seq<Act>>, ghost first: seq<Row>)
    returns (outcome: Option<Appended>)
    requires Lawful(store.crypto) && WellChained(store.crypto, store.rows)
    requires attempt < |ids| && 2 * attempt + 2 <= |others|
    requires Evolves(first, store.rows) && Wrote(store.crypto, first, others, 2 * attempt, store.rows, None)
    modifies store`rows
    ensures WellChained(store.crypto, store.rows) && Evolves(first, store.rows)
    ensures PairCount(store.rows, em, ex) >= PairCount(old(store.rows), em, ex) + if outcome.None? then 1 else 0
    ensures outcome.None? ==> Wrote(store.crypto, first, others, 2 * attempt + 2, store.rows, None)
    ensures outcome.Some? ==>
      && !outcome.value.Exhausted? && !outcome.value.BuildFailed?
      && Reports(store.crypto, key, draft, em, ex, ids, now, store.rows, outcome.value)
      && Wrote(store.crypto, first, others, 2 * attempt + 2, store.rows, OwnReceipt(outcome.value))
  {
    ghost var before := store.rows;
    var saved, receipt := Round(store, key, em, ex, draft, ids[attempt], now, others[2 * attempt], others[2 * attempt + 1]);
    EvolvesTrans(first, before, store.rows);
    WroteMore(store.crypto, first, others, 2 * attempt, before, store.rows, if saved == Saved then Some(receipt) else None);
    if Transient(saved) {
      return None;
    }
    ReportsAttempt(store.crypto, key, draft, em, ex, ids, attempt, now, store.rows, saved, receipt);
    return Some(if saved == Saved then Appended(receipt) else Permanent(saved));
  }

  function OwnReceipt(outcome: Appended): Option<Receipt> {
    if outcome.Appended? then Some(outcome.receipt) else None
  }

  // Batch 2k of the others' commits runs before attempt k reads the head, batch 2k + 1 between that read and
  // the save. Whatever they do: the table stays well chained and only grows; a success is the newest row,
  // built from the draft, linked and signed, and the call writes nothing else; giving up after m attempts means
  // that at least m receipts of this pair were committed by others; and nothing but a moved head or sequence is
  // retried.
  method SignAndSaveReceipt(store: ChainStore, key: string, em: string, ex: string, build: Option<Receipt>,
                            ids: seq<string>, now: int, maxAttempts: int, others: seq<seq<Act>>)
    returns (outcome: Appended)
    requires Lawful(store.crypto) && WellChained(store.crypto, store.rows)
    requires |ids| >= AttemptBound(maxAttempts) && |others| >= 2 * AttemptBound(maxAttempts)
    modifies store`rows
    ensures WellChained(store.crypto, store.rows) && Evolves(old(store.rows), store.rows)
    ensures outcome.BuildFailed? <==> build.None?
    ensures build.Some? ==>
      Reports(store.crypto, key, build.value, em, ex, ids[..AttemptBound(maxAttempts)], now, store.rows, outcome)
    ensures outcome.Exhausted? ==>
      && outcome.attempts == (if maxAttempts <= 0 then 10 else maxAttempts)
      && PairCount(store.rows, em, ex) >= PairCount(old(store.rows), em, ex) + outcome.attempts
    ensures WroteOnly(store.crypto, old(store.rows), others, store.rows, OwnReceipt(outcome))
  {
    var attempts := AttemptBound(maxAttempts);
    var drawn := ids[..attempts];
    ghost var first := store.rows;
    ExtendedEvolves(store.crypto, first, first);
    assert Flat(others[..0]) == [] && Wrote(store.crypto, first, others, 0, first, None);
    for attempt := 0 to attempts
      invariant WellChained(store.crypto, store.rows) && Evolves(first, store.rows)
      invariant PairCount(store.rows, em, ex) >= PairCount(first, em, ex) + attempt
      invariant attempt > 0 ==> build.Some?
      invariant Wrote(store.crypto, first, others, 2 * attempt, store.rows, None)
    {
      if build.None? {
        return BuildFailed;
      }
      var done := NextRound(store, key, em, ex, build.value, drawn, now, attempt, others, first);
      if done.Some? {
        return done.value;
      }
    }
    return Exhausted(attempts);
  }

  function AttemptBound(maxAttempts: int): nat {
    if maxAttempts <= 0 then DEFAULT_MAX_ATTEMPTS else maxAttempts
  }

  lemma AttemptDecides(c: Crypto, seen: seq<Row>, before: seq<Row>, r: Receipt)
    requires WellChained(c, before) && Grows(c, seen, before, r.emitter, r.executor)
    requires r.sequenceNumber == 0 && r.previousReceiptHash == HeadHash(c, seen, r.emitter, r.executor)
    ensures Transient(Save(c, before, r).0) ==>
      PairCount(before, r.emitter, r.executor) > PairCount(seen, r.emitter, r.executor)
    ensures Save(c, before, r).0 == DuplicateContract ==> ContractTaken(Save(c, before, r).1, r.contractId)
    ensures Save(c, before, r).0 != CorruptHead
  {
    if Valid(r) {
      SaveDecides(c, before, r);
    }
    if Latest(before, r.emitter, r.executor).Some? {
      HeadDecodes(c, before, r.emitter, r.executor);
    }
  }

  lemma SavedIsNewest(c: Crypto, rows: seq<Row>, r: Receipt)
    requires Save(c, rows, r).0 == Saved
    ensures Save(c, rows, r).1 == rows + [RowOf(Save(c, rows, r).2)]
    ensures Save(c, rows, r).2 == r.(sequenceNumber := Save(c, rows, r).2.sequenceNumber)
  {
  }

  lemma PreparedIsSigned(c: Crypto, key: string, draft: Receipt, em: string, ex: string, prev: string, id: string, now: int, number: int)
    requires Lawful(c)
    ensures ExecutorSigned(c, c.publicKey(key),
                           Prepared(c, key, draft, em, ex, prev, id, now).(sequenceNumber := number))
  {
    var r := Prepared(c, key, draft, em, ex, prev, id, now);
    var unsigned := draft.(previousReceiptHash := prev, receiptId := id, emitter := em, executor := ex,
                           sequenceNumber := 0, executorSignature := "", executorSignedAt := now);
    ExecutorContentBlindSpots(unsigned, r.(sequenceNumber := number));
  }

  lemma HeadDecodes(c: Crypto, rows: seq<Row>, em: string, ex: string)
    requires WellChained(c, rows) && Latest(rows, em, ex).Some?
    ensures Faithful(Latest(rows, em, ex).value)
  {
    var i :| 0 <= i < |rows| && rows[i] == Latest(rows, em, ex).value;
  }
}
