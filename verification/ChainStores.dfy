// The receipts table, SaveReceipt and the reads it is used with (pkg/receipt/chain.go).
module ChainStores {
  import opened Wrappers
  import opened Receipts
  import opened Text

  // One row of the receipts table. `data` is None when the JSON column does not decode.
  datatype Row = Row(
    receiptId: string,
    contractId: string,
    emitter: string,
    executor: string,
    prev: string,
    signature: string,
    signedAt: int,
    data: Option<Receipt>,
    number: int)

  predicate InPair(row: Row, em: string, ex: string) {
    row.emitter == em && row.executor == ex
  }

  predicate SamePair(a: Row, b: Row) {
    InPair(a, b.emitter, b.executor)
  }

  // ORDER BY seq, executor_signed_at
  predicate Before(a: Row, b: Row) {
    a.number < b.number || (a.number == b.number && a.signedAt < b.signedAt)
  }

  function Insert(row: Row, sorted: seq<Row>): seq<Row> {
    if sorted == [] || Before(row, sorted[0]) then [row] + sorted
    else [sorted[0]] + Insert(row, sorted[1..])
  }

  // SELECT ... WHERE emitter = em AND executor = ex ORDER BY seq ASC, executor_signed_at ASC
  function Chain(rows: seq<Row>, em: string, ex: string): seq<Row> {
    if rows == [] then []
    else
      var last, before := rows[|rows| - 1], Chain(rows[..|rows| - 1], em, ex);
      if InPair(last, em, ex) then Insert(last, before) else before
  }

  // SELECT ... ORDER BY seq DESC, executor_signed_at DESC LIMIT 1
  function Latest(rows: seq<Row>, em: string, ex: string): (r: Option<Row>)
    ensures r.None? ==> forall i :: 0 <= i < |rows| ==> !InPair(rows[i], em, ex)
    ensures r.Some? ==> r.value in rows && InPair(r.value, em, ex)
    ensures r.Some? ==> forall i :: 0 <= i < |rows| && InPair(rows[i], em, ex) ==> rows[i].number <= r.value.number
  {
    if rows == [] then None
    else
      var last, before := rows[|rows| - 1], Latest(rows[..|rows| - 1], em, ex);
      assert forall i :: 0 <= i < |rows| - 1 ==> rows[i] == rows[..|rows| - 1][i];
      if !InPair(last, em, ex) then before
      else if before.None? || Before(before.value, last) then Some(last)
      else before
  }

  // Row h is what the pair's next receipt has to follow: no row of the pair has a larger number, or its number
  // and a later signing time.
  ghost predicate IsHead(rows: seq<Row>, em: string, ex: string, h: Row) {
    && h in rows && h.emitter == em && h.executor == ex
    && forall o :: o in rows && o.emitter == em && o.executor == ex ==>
         o.number < h.number || (o.number == h.number && o.signedAt <= h.signedAt)
  }

  ghost predicate NoHead(rows: seq<Row>, em: string, ex: string) {
    forall o :: o in rows ==> o.emitter != em || o.executor != ex
  }

  predicate ContractTaken(rows: seq<Row>, contractId: string) {
    exists i :: 0 <= i < |rows| && rows[i].contractId == contractId
  }

  predicate NumberTaken(rows: seq<Row>, em: string, ex: string, number: int) {
    exists i :: 0 <= i < |rows| && InPair(rows[i], em, ex) && rows[i].number == number
  }

  // SELECT ... WHERE receipt_id = id / WHERE contract_id = id: the first row found, with its seq column.
  function ByReceipt(rows: seq<Row>, id: string): (r: Option<Row>)
    ensures r.None? ==> forall i :: 0 <= i < |rows| ==> rows[i].receiptId != id
    ensures r.Some? ==> exists i :: 0 <= i < |rows| && rows[i] == r.value && rows[i].receiptId == id
                                    && forall j :: 0 <= j < i ==> rows[j].receiptId != id
  {
    if rows == [] then None
    else if rows[0].receiptId == id then Some(rows[0])
    else ByReceipt(rows[1..], id)
  }

  function ByContract(rows: seq<Row>, id: string): (r: Option<Row>)
    ensures r.None? ==> forall i :: 0 <= i < |rows| ==> rows[i].contractId != id
    ensures r.Some? ==> exists i :: 0 <= i < |rows| && rows[i] == r.value && rows[i].contractId == id
                                    && forall j :: 0 <= j < i ==> rows[j].contractId != id
  {
    if rows == [] then None
    else if rows[0].contractId == id then Some(rows[0])
    else ByContract(rows[1..], id)
  }

  function Loaded(row: Row): Option<Receipt> {
    match row.data
    case None => None
    case Some(r) => Some(r.(sequenceNumber := row.number))
  }

  const PROTOCOL_VERSION := "2"

  predicate Valid(r: Receipt) {
    && r.protocolVersion == PROTOCOL_VERSION
    && TrimSpace(r.meshId) != ""
    && r.receiptId != "" && r.contractId != "" && r.envelopeHash != ""
    && r.emitter != "" && r.executor != ""
  }

  function RowOf(r: Receipt): Row {
    Row(r.receiptId, r.contractId, r.emitter, r.executor, r.previousReceiptHash, r.executorSignature,
        r.executorSignedAt, Some(r), r.sequenceNumber)
  }

  datatype SaveOutcome =
    | Saved
    | InvalidReceipt
    | CorruptHead
    | InvalidPreviousHash
    | SequenceConflict
    | DuplicateContract

  // What another writer of the same pair must link to.
  function HeadHash(c: Crypto, rows: seq<Row>, em: string, ex: string): string {
    match Latest(rows, em, ex)
    case None => ""
    case Some(row) => if row.data.Some? then c.sha(row.data.value.executorSignature) else ""
  }

  function NextNumber(rows: seq<Row>, em: string, ex: string): int {
    match Latest(rows, em, ex)
    case None => 1
    case Some(row) => row.number + 1
  }

  // One BEGIN IMMEDIATE ... COMMIT block of SaveReceipt: outcome, table and the caller's receipt.
  function Save(c: Crypto, rows: seq<Row>, r: Receipt): (SaveOutcome, seq<Row>, Receipt) {
    var head := Latest(rows, r.emitter, r.executor);
    if !Valid(r) then (InvalidReceipt, rows, r)
    else if head.Some? && head.value.data.None? then (CorruptHead, rows, r)
    else if r.previousReceiptHash != HeadHash(c, rows, r.emitter, r.executor) then (InvalidPreviousHash, rows, r)
    else
      var number := NextNumber(rows, r.emitter, r.executor);
      if r.sequenceNumber != 0 && r.sequenceNumber != number then (SequenceConflict, rows, r)
      else
        var numbered := r.(sequenceNumber := number);
        if NumberTaken(rows, r.emitter, r.executor, number) then (SequenceConflict, rows, numbered)
        else if ContractTaken(rows, r.contractId) then (DuplicateContract, rows, numbered)
        else (Saved, rows + [RowOf(numbered)], numbered)
  }

  // UPDATE receipts SET data = ? WHERE receipt_id = ?
  function Rewrite(rows: seq<Row>, r: Receipt): (out: seq<Row>)
    ensures |out| == |rows|
    ensures forall i :: 0 <= i < |rows| ==>
      out[i] == if rows[i].receiptId == r.receiptId then rows[i].(data := Some(r)) else rows[i]
  {
    seq(|rows|, i requires 0 <= i < |rows| =>
      if rows[i].receiptId == r.receiptId then rows[i].(data := Some(r)) else rows[i])
  }

  // The columns repeat what the JSON says.
  predicate Faithful(row: Row) {
    && row.data.Some?
    && var r := row.data.value;
       && r.receiptId == row.receiptId && r.contractId == row.contractId
       && r.emitter == row.emitter && r.executor == row.executor
       && r.previousReceiptHash == row.prev && r.executorSignature == row.signature
  }

  ghost predicate LinksTo(c: Crypto, row: Row, before: Row) {
    SamePair(before, row) && before.number == row.number - 1 && row.prev == c.sha(before.signature)
  }

  ghost predicate Anchored(c: Crypto, rows: seq<Row>, row: Row) {
    if row.number == 1 then row.prev == ""
    else exists j :: 0 <= j < |rows| && LinksTo(c, row, rows[j])
  }

  // The store invariant: positive numbers, unique within the pair, each row linked to the row one
  // number below it, contract ids unique over the whole table, columns in step with the JSON.
  ghost predicate WellChained(c: Crypto, rows: seq<Row>) {
    && (forall i :: 0 <= i < |rows| ==> rows[i].number >= 1 && Faithful(rows[i]))
    && DistinctContracts(rows)
    && DistinctNumbers(rows)
    && AllAnchored(c, rows)
  }

  ghost predicate DistinctIds(rows: seq<Row>) {
    forall i, j :: 0 <= i < j < |rows| ==> rows[i].receiptId != rows[j].receiptId
  }

  ghost predicate DistinctContracts(rows: seq<Row>) {
    forall i, j :: 0 <= i < j < |rows| ==> rows[i].contractId != rows[j].contractId
  }

  ghost predicate DistinctNumbers(rows: seq<Row>) {
    forall i, j :: 0 <= i < j < |rows| && SamePair(rows[i], rows[j]) ==> rows[i].number != rows[j].number
  }

  ghost predicate AllAnchored(c: Crypto, rows: seq<Row>) {
    forall i {:trigger Anchored(c, rows, rows[i])} :: 0 <= i < |rows| ==> Anchored(c, rows, rows[i])
  }

  // The receipt was read from this row, whatever the emitter decided since.
  predicate ReadFrom(r: Receipt, row: Row) {
    && row.receiptId == r.receiptId && row.data.Some?
    && ExecutorContent(row.data.value) == ExecutorContent(r)
    && row.data.value.executorSignature == r.executorSignature
  }

  // From one table to a later one: rows keep their place, their columns and what the executor signed.
  predicate Preserved(a: Row, b: Row) {
    && b == a.(data := b.data)
    && a.data.Some? && b.data.Some?
    && ExecutorContent(a.data.value) == ExecutorContent(b.data.value)
    && a.data.value.executorSignature == b.data.value.executorSignature
  }

  ghost predicate Evolves(a: seq<Row>, b: seq<Row>) {
    |a| <= |b| && forall i :: 0 <= i < |a| ==> Preserved(a[i], b[i])
  }

  lemma EvolvesTrans(a: seq<Row>, b: seq<Row>, c: seq<Row>)
    requires Evolves(a, b) && Evolves(b, c)
    ensures Evolves(a, c)
  {
    forall i | 0 <= i < |a|
      ensures Preserved(a[i], c[i])
    {
      assert Preserved(a[i], b[i]) && Preserved(b[i], c[i]);
    }
  }

  lemma ExtendedEvolves(c: Crypto, a: seq<Row>, b: seq<Row>)
    requires WellChained(c, a) && a <= b
    ensures Evolves(a, b)
  {
    forall i | 0 <= i < |a|
      ensures Preserved(a[i], b[i])
    {
      assert Faithful(a[i]);
    }
  }

  // New JSON in the old rows, in step with their columns, leaves the table well chained.
  lemma EvolvedIsChained(c: Crypto, a: seq<Row>, b: seq<Row>)
    requires WellChained(c, a) && |a| == |b| && Evolves(a, b)
    requires forall i :: 0 <= i < |b| ==> Faithful(b[i])
    ensures WellChained(c, b)
  {
    assert forall i :: 0 <= i < |a| ==> Preserved(a[i], b[i]);
    forall i | 0 <= i < |b|
      ensures Anchored(c, b, b[i])
    {
      assert Anchored(c, a, a[i]);
      if a[i].number != 1 {
        var j :| 0 <= j < |a| && LinksTo(c, a[i], a[j]);
        assert LinksTo(c, b[i], b[j]);
      }
    }
  }

  class ChainStore {
    const crypto: Crypto
    var rows: seq<Row>

    constructor (crypto: Crypto)
      ensures this.crypto == crypto && rows == []
    {
      this.crypto := crypto;
      rows := [];
    }

    method SaveReceipt(r: ReceiptRef) returns (outcome: SaveOutcome)
      modifies this`rows, r
      ensures (outcome, rows, r.value) == Save(crypto, old(rows), old(r.value))
    {
      var em, ex := r.value.emitter, r.value.executor;
      if !Valid(r.value) {
        return InvalidReceipt;
      }
      var expected := 1;
      match Latest(rows, em, ex) {
        case None =>
          if r.value.previousReceiptHash != "" {
            return InvalidPreviousHash;
          }
        case Some(last) =>
          if last.data.None? {
            return CorruptHead;
          }
          if r.value.previousReceiptHash != crypto.sha(last.data.value.executorSignature) {
            return InvalidPreviousHash;
          }
          expected := last.number + 1;
      }
      if r.value.sequenceNumber != 0 && r.value.sequenceNumber != expected {
        return SequenceConflict;
      }
      r.value := r.value.(sequenceNumber := expected);
      if NumberTaken(rows, em, ex, expected) {
        return SequenceConflict;
      }
      if ContractTaken(rows, r.value.contractId) {
        return DuplicateContract;
      }
      rows := rows + [RowOf(r.value)];
      return Saved;
    }

    // The first row of this id with the number of its column.
    method GetReceipt(id: string) returns (r: Option<Receipt>)
      ensures r == match ByReceipt(rows, id) case None => None case Some(row) => Loaded(row)
      ensures r.Some? ==> exists row :: ByReceipt(rows, id) == Some(row) && row.data.Some?
                            && r.value == row.data.value.(sequenceNumber := row.number)
    {
      for i := 0 to |rows|
        invariant ByReceipt(rows, id) == ByReceipt(rows[i..], id)
      {
        if rows[i].receiptId == id {
          return Loaded(rows[i]);
        }
        assert rows[i..][1..] == rows[i + 1..];
      }
      return None;
    }

    method UpdateReceipt(r: Receipt) returns (found: bool)
      modifies this`rows
      ensures found == (Valid(r) && exists i :: 0 <= i < |old(rows)| && old(rows)[i].receiptId == r.receiptId)
      ensures rows == if found then Rewrite(old(rows), r) else old(rows)
    {
      if !Valid(r) {
        return false;
      }
      found := exists i :: 0 <= i < |rows| && rows[i].receiptId == r.receiptId;
      if found {
        rows := Rewrite(rows, r);
      }
    }

    method GetLastReceipt(em: string, ex: string) returns (r: Option<Receipt>)
      ensures match Latest(rows, em, ex) case None => r == None case Some(row) => r == Loaded(row)
      ensures NoHead(rows, em, ex) ==> r.None?
      ensures r.Some? ==> exists h :: IsHead(rows, em, ex, h) && h.data.Some?
                            && r.value == h.data.value.(sequenceNumber := h.number)
    {
      LatestIsHead(rows, em, ex);
      match Latest(rows, em, ex) {
        case None => return None;
        case Some(row) => return Loaded(row);
      }
    }
  }

  // ---- what the ordered read returns

  ghost predicate Ascending(chain: seq<Row>) {
    forall i, j :: 0 <= i < j < |chain| ==> chain[i].number < chain[j].number
  }

  lemma {:induction false} InsertHolds(row: Row, sorted: seq<Row>, x: Row)
    ensures x in Insert(row, sorted) <==> x == row || x in sorted
  {
    if sorted != [] && !Before(row, sorted[0]) {
      InsertHolds(row, sorted[1..], x);
      assert x in sorted <==> x == sorted[0] || x in sorted[1..];
    }
  }

  lemma {:induction false} InsertKeepsOrder(row: Row, sorted: seq<Row>)
    requires Ascending(sorted)
    requires forall i :: 0 <= i < |sorted| ==> sorted[i].number != row.number
    ensures Ascending(Insert(row, sorted))
  {
    if sorted != [] && !Before(row, sorted[0]) {
      InsertKeepsOrder(row, sorted[1..]);
      var rest := Insert(row, sorted[1..]);
      forall k | 0 <= k < |rest|
        ensures sorted[0].number < rest[k].number
      {
        InsertHolds(row, sorted[1..], rest[k]);
      }
    }
  }

  lemma {:induction false} ChainHolds(rows: seq<Row>, em: string, ex: string)
    requires DistinctNumbers(rows)
    ensures Ascending(Chain(rows, em, ex))
    ensures forall x :: x in Chain(rows, em, ex) <==> x in rows && InPair(x, em, ex)
  {
    if rows != [] {
      var last, init := rows[|rows| - 1], rows[..|rows| - 1];
      assert rows == init + [last];
      ChainHolds(init, em, ex);
      var before := Chain(init, em, ex);
      if InPair(last, em, ex) {
        forall i | 0 <= i < |before|
          ensures before[i].number != last.number
        {
          assert before[i] in init;
          var j :| 0 <= j < |init| && init[j] == before[i];
          assert SamePair(rows[j], rows[|rows| - 1]);
        }
        InsertKeepsOrder(last, before);
        forall x
          ensures x in Insert(last, before) <==> x in before || x == last
        {
          InsertHolds(last, before, x);
        }
      }
    }
  }

  // In a well-chained store the numbers of a pair, read in order, are 1, 2, ..., n without gap, the first
  // row has no predecessor hash and every other row carries the hash of the signature just before it.
  lemma ChainIsGapFree(c: Crypto, rows: seq<Row>, em: string, ex: string)
    requires WellChained(c, rows)
    ensures var chain := Chain(rows, em, ex);
      && (forall i :: 0 <= i < |chain| ==> chain[i] in rows && InPair(chain[i], em, ex) && chain[i].number == i + 1)
      && (chain != [] ==> chain[0].prev == "")
      && (forall i :: 0 < i < |chain| ==> chain[i].prev == c.sha(chain[i - 1].signature))
      && (forall i :: 0 <= i < |rows| && InPair(rows[i], em, ex) ==> rows[i] in chain)
  {
    ChainHolds(rows, em, ex);
    GapFreeUpTo(c, rows, em, ex, |Chain(rows, em, ex)|);
  }

  lemma {:induction false} GapFreeUpTo(c: Crypto, rows: seq<Row>, em: string, ex: string, n: nat)
    requires WellChained(c, rows)
    requires n <= |Chain(rows, em, ex)|
    ensures var chain := Chain(rows, em, ex);
      && (forall i :: 0 <= i < n ==> chain[i] in rows && InPair(chain[i], em, ex) && chain[i].number == i + 1)
      && (n > 0 ==> chain[0].prev == "")
      && (forall i :: 0 < i < n ==> chain[i].prev == c.sha(chain[i - 1].signature))
  {
    if n > 0 {
      GapFreeUpTo(c, rows, em, ex, n - 1);
      NextInChain(c, rows, em, ex, n);
    }
  }

  // The n-th row of the chain is anchored to the one before it, given that those are numbered 1..n-1.
  lemma NextInChain(c: Crypto, rows: seq<Row>, em: string, ex: string, n: nat)
    requires WellChained(c, rows)
    requires 0 < n <= |Chain(rows, em, ex)|
    requires forall i :: 0 <= i < n - 1 ==> Chain(rows, em, ex)[i].number == i + 1
    ensures var chain := Chain(rows, em, ex);
      chain[n - 1] in rows && InPair(chain[n - 1], em, ex) && chain[n - 1].number == n
      && (n == 1 ==> chain[0].prev == "")
      && (n > 1 ==> chain[n - 1].prev == c.sha(chain[n - 2].signature))
  {
    ChainHolds(rows, em, ex);
    NextInListing(c, rows, em, ex, Chain(rows, em, ex), n);
  }

  lemma NextInListing(c: Crypto, rows: seq<Row>, em: string, ex: string, chain: seq<Row>, n: nat)
    requires WellChained(c, rows) && 0 < n <= |chain| && Ascending(chain)
    requires forall x :: x in chain <==> x in rows && InPair(x, em, ex)
    requires forall i :: 0 <= i < n - 1 ==> chain[i].number == i + 1
    ensures chain[n - 1] in rows && InPair(chain[n - 1], em, ex) && chain[n - 1].number == n
    ensures n == 1 ==> chain[0].prev == ""
    ensures n > 1 ==> chain[n - 1].prev == c.sha(chain[n - 2].signature)
  {
    var row := chain[n - 1];
    assert row in rows && InPair(row, em, ex);
    var i :| 0 <= i < |rows| && rows[i] == row;
    assert Anchored(c, rows, rows[i]);
    if n > 1 {
      assert chain[n - 2].number < chain[n - 1].number;
    }
    if row.number != 1 {
      var j :| 0 <= j < |rows| && LinksTo(c, row, rows[j]);
      assert rows[j] in chain;
      var k :| 0 <= k < |chain| && chain[k] == rows[j];
      assert rows[j].number >= 1;
      assert k == n - 2;
    }
  }

  // ---- what one save does to the store

  // The UNIQUE(pair, seq) violation cannot happen: the number after the largest is free.
  lemma NextNumberIsFree(rows: seq<Row>, em: string, ex: string)
    ensures !NumberTaken(rows, em, ex, NextNumber(rows, em, ex))
  {
    forall i | 0 <= i < |rows| && InPair(rows[i], em, ex)
      ensures rows[i].number != NextNumber(rows, em, ex)
    {
      assert Latest(rows, em, ex).Some?;
    }
  }

  lemma AppendKeepsAnchors(c: Crypto, rows: seq<Row>, row: Row)
    requires AllAnchored(c, rows) && Anchored(c, rows + [row], row)
    ensures AllAnchored(c, rows + [row])
  {
    var after := rows + [row];
    forall i | 0 <= i < |after|
      ensures Anchored(c, after, after[i])
    {
      if i < |rows| {
        assert Anchored(c, rows, rows[i]);
        if rows[i].number != 1 {
          var j :| 0 <= j < |rows| && LinksTo(c, rows[i], rows[j]);
          assert LinksTo(c, after[i], after[j]);
        }
      }
    }
  }

  // Appending the right row extends a well-chained store.
  lemma AppendKeepsStore(c: Crypto, rows: seq<Row>, row: Row)
    requires WellChained(c, rows) && Faithful(row)
    requires row.number == NextNumber(rows, row.emitter, row.executor)
    requires row.prev == HeadHash(c, rows, row.emitter, row.executor)
    requires !ContractTaken(rows, row.contractId)
    ensures WellChained(c, rows + [row])
  {
    var after, head := rows + [row], Latest(rows, row.emitter, row.executor);
    if head.Some? {
      var h :| 0 <= h < |rows| && rows[h] == head.value;
      assert LinksTo(c, row, after[h]);
    }
    AppendKeepsAnchors(c, rows, row);
    forall i | 0 <= i < |rows| && SamePair(rows[i], row)
      ensures rows[i].number != row.number
    {
      assert head.Some?;
    }
  }

  lemma SaveKeepsStore(c: Crypto, rows: seq<Row>, r: Receipt)
    requires WellChained(c, rows)
    ensures WellChained(c, Save(c, rows, r).1)
    ensures rows <= Save(c, rows, r).1
  {
    if Save(c, rows, r).0 == Saved {
      SavedRow(c, rows, r);
      AppendKeepsStore(c, rows, RowOf(Save(c, rows, r).2));
    }
  }

  // What a committed save adds.
  lemma SavedRow(c: Crypto, rows: seq<Row>, r: Receipt)
    requires Save(c, rows, r).0 == Saved
    ensures var row := RowOf(Save(c, rows, r).2);
      Save(c, rows, r).1 == rows + [row] && Faithful(row) && !ContractTaken(rows, row.contractId)
      && row.number == NextNumber(rows, row.emitter, row.executor)
      && row.prev == HeadHash(c, rows, row.emitter, row.executor)
  {
  }

  // Exactly when a save of an unnumbered valid receipt commits, is stale, or loses to the contract index.
  lemma SaveDecides(c: Crypto, rows: seq<Row>, r: Receipt)
    requires WellChained(c, rows) && Valid(r) && r.sequenceNumber == 0
    ensures var outcome := Save(c, rows, r).0;
      && (outcome == InvalidPreviousHash <==> r.previousReceiptHash != HeadHash(c, rows, r.emitter, r.executor))
      && (outcome == DuplicateContract <==>
          r.previousReceiptHash == HeadHash(c, rows, r.emitter, r.executor) && ContractTaken(rows, r.contractId))
      && (outcome == Saved <==>
          r.previousReceiptHash == HeadHash(c, rows, r.emitter, r.executor) && !ContractTaken(rows, r.contractId))
  {
    NextNumberIsFree(rows, r.emitter, r.executor);
    var head := Latest(rows, r.emitter, r.executor);
    if head.Some? {
      var h :| 0 <= h < |rows| && rows[h] == head.value;
      assert Faithful(rows[h]);
    }
  }

  lemma {:induction false} LatestIsHead(rows: seq<Row>, em: string, ex: string)
    ensures match Latest(rows, em, ex) case None => NoHead(rows, em, ex) case Some(h) => IsHead(rows, em, ex, h)
  {
    if rows != [] {
      LatestIsHead(rows[..|rows| - 1], em, ex);
      assert rows == rows[..|rows| - 1] + [rows[|rows| - 1]];
    }
  }

  // The ordered read lists the rows of the pair, each as often as stored, by number and then signing time.
  lemma {:induction false} ChainMeans(rows: seq<Row>, em: string, ex: string)
    ensures var chain := Chain(rows, em, ex);
      && (forall i, j :: 0 <= i < j < |chain| ==>
            chain[i].number < chain[j].number
            || (chain[i].number == chain[j].number && chain[i].signedAt <= chain[j].signedAt))
      && (forall x :: multiset(chain)[x] == if x.emitter == em && x.executor == ex then multiset(rows)[x] else 0)
  {
    if rows != [] {
      var last, init := rows[|rows| - 1], rows[..|rows| - 1];
      assert rows == init + [last];
      ChainMeans(init, em, ex);
      if InPair(last, em, ex) {
        InsertMeans(last, Chain(init, em, ex));
      }
    }
  }

  ghost predicate InReadOrder(chain: seq<Row>) {
    forall i, j :: 0 <= i < j < |chain| ==> !Before(chain[j], chain[i])
  }

  lemma {:induction false} InsertMeans(row: Row, sorted: seq<Row>)
    requires InReadOrder(sorted)
    ensures InReadOrder(Insert(row, sorted))
    ensures multiset(Insert(row, sorted)) == multiset(sorted) + multiset{row}
  {
    if sorted != [] && !Before(row, sorted[0]) {
      InsertMeans(row, sorted[1..]);
      assert sorted == [sorted[0]] + sorted[1..];
      var rest := Insert(row, sorted[1..]);
      forall k | 0 <= k < |rest|
        ensures !Before(rest[k], sorted[0])
      {
        InsertHolds(row, sorted[1..], rest[k]);
        assert rest[k] in rest;
      }
    }
  }

  // The fields a receipt must carry to be stored.
  predicate Acceptable(r: Receipt) {
    && r.protocolVersion == "2" && TrimSpace(r.meshId) != "" && r.receiptId != "" && r.contractId != ""
    && r.envelopeHash != "" && r.emitter != "" && r.executor != ""
  }

  // What a pair without rows, or with this head, asks of its next receipt.
  predicate Fits(c: Crypto, h: Option<Row>, r: Receipt) {
    match h
    case None => r.previousReceiptHash == "" && r.sequenceNumber in {0, 1}
    case Some(row) =>
      && row.data.Some?
      && r.previousReceiptHash == c.sha(row.data.value.executorSignature)
      && r.sequenceNumber in {0, row.number + 1}
  }

  // On any table and any receipt: it is stored exactly when its fields are complete, it fits the head of its
  // pair and its contract has no receipt yet; then the table gains one row, at its end, whose columns are the
  // receipt's with the next number. Every refusal leaves the table alone and is told apart in this order.
  lemma SaveMeans(c: Crypto, rows: seq<Row>, r: Receipt, h: Option<Row>)
    requires match h case None => NoHead(rows, r.emitter, r.executor)
                     case Some(row) => Latest(rows, r.emitter, r.executor) == Some(row)
    ensures var (outcome, after, out) := Save(c, rows, r);
      var number := if h.Some? then h.value.number + 1 else 1;
      var taken := exists o :: o in rows && o.contractId == r.contractId;
      && (outcome == Saved <==> Acceptable(r) && Fits(c, h, r) && !taken)
      && (outcome == Saved ==> out == r.(sequenceNumber := number))
      && (outcome == Saved ==> after == rows + [Row(r.receiptId, r.contractId, r.emitter, r.executor,
                                                    r.previousReceiptHash, r.executorSignature, r.executorSignedAt,
                                                    Some(out), number)])
      && (outcome != Saved ==> after == rows && (out == r || out == r.(sequenceNumber := number)))
      && (outcome == InvalidReceipt <==> !Acceptable(r))
      && (outcome == CorruptHead <==> Acceptable(r) && h.Some? && h.value.data.None?)
      && (outcome == SequenceConflict <==>
            Acceptable(r) && !Fits(c, h, r) && Fits(c, h, r.(sequenceNumber := 0)))
      && (outcome == DuplicateContract <==> Acceptable(r) && Fits(c, h, r) && taken)
  {
    LatestIsHead(rows, r.emitter, r.executor);
    NextNumberIsFree(rows, r.emitter, r.executor);
    TakenMeans(rows, r.contractId);
  }

  lemma TakenMeans(rows: seq<Row>, contractId: string)
    ensures ContractTaken(rows, contractId) <==> exists o :: o in rows && o.contractId == contractId
  {
    if ContractTaken(rows, contractId) {
      var i :| 0 <= i < |rows| && rows[i].contractId == contractId;
      assert rows[i] in rows;
    }
  }
}
