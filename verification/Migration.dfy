// Numbering a whole table, pair after pair, and the migration transaction around it (backfillReceiptSequences
// and migrateSeqSchema in pkg/receipt/chain.go). The updates name receipt ids, which pairs may share.
module Migration {
  import opened Wrappers
  import opened Receipts
  import opened ChainStores
  import opened Backfill

  // ---- the whole table

  // Each row is touched by the update of its own id only: position k of the order sets number k + 1 and
  // the JSON of that position.
  lemma {:induction false} RenumberHolds(rows: seq<Row>, order: seq<Row>)
    requires Decodable(order) && DistinctIds(order)
    ensures |Renumber(rows, order)| == |rows|
    ensures forall i, k :: 0 <= i < |rows| && 0 <= k < |order| && rows[i].receiptId == order[k].receiptId ==>
      Renumber(rows, order)[i] ==
      rows[i].(number := k + 1, data := Some(order[k].data.value.(sequenceNumber := k + 1)))
    ensures forall i :: 0 <= i < |rows| && rows[i].receiptId !in IdsOf(order) ==>
      Renumber(rows, order)[i] == rows[i]
  {
    if order != [] {
      var n := |order| - 1;
      var init := order[..n];
      RenumberHolds(rows, init);
      assert IdsOf(order) == IdsOf(init) + [order[n].receiptId];
      forall j | 0 <= j < n
        ensures IdsOf(init)[j] != order[n].receiptId
      {
        assert init[j] == order[j];
      }
      forall i, k | 0 <= i < |rows| && 0 <= k < |order| && rows[i].receiptId == order[k].receiptId
        ensures Renumber(rows, order)[i] ==
                rows[i].(number := k + 1, data := Some(order[k].data.value.(sequenceNumber := k + 1)))
      {
        if k < n {
          assert init[k] == order[k] && order[k].receiptId != order[n].receiptId;
        } else {
          assert Renumber(rows, init)[i] == rows[i];
        }
      }
    }
  }

  // Row `row` of the table holds place `number` in the linked order of its pair.
  ghost predicate Position(c: Crypto, rows: seq<Row>, row: Row, number: int) {
    exists order :: IsOrder(c, PairRows(rows, row.emitter, row.executor), order)
                    && 1 <= number <= |order| && order[number - 1] == row
  }

  function At(row: Row, number: int): Row
    requires row.data.Some?
  {
    row.(number := number, data := Some(row.data.value.(sequenceNumber := number)))
  }

  // `now` is row `row` numbered with its place.
  ghost predicate Placed(c: Crypto, rows: seq<Row>, row: Row, now: Row) {
    row.data.Some? && now == At(row, now.number) && Position(c, rows, row, now.number)
  }

  lemma {:induction false} PairRowsHold(rows: seq<Row>, em: string, ex: string)
    ensures forall x :: x in PairRows(rows, em, ex) <==> x in rows && InPair(x, em, ex)
  {
    if rows != [] {
      PairRowsHold(rows[..|rows| - 1], em, ex);
      assert rows == rows[..|rows| - 1] + [rows[|rows| - 1]];
    }
  }

  lemma {:induction false} NoPairNoRows(rows: seq<Row>, em: string, ex: string)
    requires forall i :: 0 <= i < |rows| ==> !InPair(rows[i], em, ex)
    ensures PairRows(rows, em, ex) == []
  {
    if rows != [] {
      NoPairNoRows(rows[..|rows| - 1], em, ex);
    }
  }

  lemma {:induction false} PairRowsDependOnPair(a: seq<Row>, b: seq<Row>, em: string, ex: string)
    requires |a| == |b|
    requires forall i :: 0 <= i < |a| ==> SamePair(a[i], b[i])
    requires forall i :: 0 <= i < |a| && InPair(a[i], em, ex) ==> a[i] == b[i]
    ensures PairRows(a, em, ex) == PairRows(b, em, ex)
  {
    if a != [] {
      PairRowsDependOnPair(a[..|a| - 1], b[..|b| - 1], em, ex);
    }
  }

  lemma OrderPlaces(c: Crypto, rows: seq<Row>, row: Row, order: seq<Row>, k: nat)
    requires IsOrder(c, PairRows(rows, row.emitter, row.executor), order) && k < |order| && order[k] == row && row.data.Some?
    ensures Placed(c, rows, row, At(row, k + 1))
  {
    assert order[k + 1 - 1] == row;
    assert Position(c, rows, row, k + 1);
  }

  // With ids unique over the table, numbering one pair places its rows and leaves every other row alone.
  lemma RenumberPlaces(c: Crypto, rows: seq<Row>, now: seq<Row>, em: string, ex: string, order: seq<Row>)
    requires DistinctIds(rows) && |now| == |rows|
    requires forall i :: 0 <= i < |rows| ==> SamePair(now[i], rows[i]) && now[i].receiptId == rows[i].receiptId
    requires forall i :: 0 <= i < |rows| && InPair(rows[i], em, ex) ==> now[i] == rows[i]
    requires IsOrder(c, PairRows(rows, em, ex), order) && Decodable(order)
    ensures |Renumber(now, order)| == |rows|
    ensures forall i :: 0 <= i < |rows| && InPair(rows[i], em, ex) ==>
      Placed(c, rows, rows[i], Renumber(now, order)[i])
    ensures forall i :: 0 <= i < |rows| && !InPair(rows[i], em, ex) ==> Renumber(now, order)[i] == now[i]
  {
    PairRowsHold(rows, em, ex);
    RenumberHolds(now, order);
    forall i | 0 <= i < |rows| && InPair(rows[i], em, ex)
      ensures Placed(c, rows, rows[i], Renumber(now, order)[i])
    {
      assert rows[i] in order;
      var k :| 0 <= k < |order| && order[k] == rows[i];
      assert Renumber(now, order)[i] == At(rows[i], k + 1);
      OrderPlaces(c, rows, rows[i], order, k);
    }
    forall i | 0 <= i < |rows| && !InPair(rows[i], em, ex)
      ensures rows[i].receiptId !in IdsOf(order)
    {
      OtherIdsAreElsewhere(c, rows, em, ex, order, i);
    }
  }

  lemma OtherIdsAreElsewhere(c: Crypto, rows: seq<Row>, em: string, ex: string, order: seq<Row>, i: nat)
    requires DistinctIds(rows) && IsOrder(c, PairRows(rows, em, ex), order)
    requires i < |rows| && !InPair(rows[i], em, ex)
    ensures rows[i].receiptId !in IdsOf(order)
  {
    PairRowsHold(rows, em, ex);
    forall k | 0 <= k < |order|
      ensures order[k].receiptId != rows[i].receiptId
    {
      assert order[k] in order;
      var j :| 0 <= j < |rows| && rows[j] == order[k];
    }
  }

  ghost predicate AllMigratable(c: Crypto, rows: seq<Row>) {
    forall em, ex :: Migratable(c, PairRows(rows, em, ex))
  }

  ghost predicate AllPlaced(c: Crypto, rows: seq<Row>, now: seq<Row>) {
    && |now| == |rows|
    && forall i {:trigger Placed(c, rows, rows[i], now[i])} :: 0 <= i < |rows| ==> Placed(c, rows, rows[i], now[i])
  }

  predicate PairIn(row: Row, pairs: set<(string, string)>) {
    (row.emitter, row.executor) in pairs
  }

  // The pairs in `done` are numbered, the other rows are as they were.
  ghost predicate Progress(c: Crypto, rows: seq<Row>, now: seq<Row>, done: set<(string, string)>) {
    && |now| == |rows|
    && (forall p :: p in done ==> Migratable(c, PairRows(rows, p.0, p.1)))
    && (forall i :: 0 <= i < |rows| && PairIn(rows[i], done) ==> Placed(c, rows, rows[i], now[i]))
    && (forall i :: 0 <= i < |rows| && !PairIn(rows[i], done) ==> now[i] == rows[i])
  }

  lemma PairNotYetTouched(c: Crypto, rows: seq<Row>, now: seq<Row>, done: set<(string, string)>, em: string, ex: string)
    requires Progress(c, rows, now, done) && (em, ex) !in done
    ensures PairRows(now, em, ex) == PairRows(rows, em, ex)
  {
    forall i | 0 <= i < |rows|
      ensures SamePair(rows[i], now[i])
    {
      assert PairIn(rows[i], done) ==> Placed(c, rows, rows[i], now[i]);
    }
    PairRowsDependOnPair(rows, now, em, ex);
  }

  lemma ProgressGrows(c: Crypto, rows: seq<Row>, now: seq<Row>, done: set<(string, string)>, em: string, ex: string, order: seq<Row>)
    requires DistinctIds(rows) && Progress(c, rows, now, done) && (em, ex) !in done
    requires Migratable(c, PairRows(rows, em, ex))
    requires IsOrder(c, PairRows(rows, em, ex), order) && Decodable(order)
    ensures Progress(c, rows, Renumber(now, order), done + {(em, ex)})
  {
    forall i | 0 <= i < |rows|
      ensures SamePair(now[i], rows[i]) && now[i].receiptId == rows[i].receiptId
    {
      assert PairIn(rows[i], done) ==> Placed(c, rows, rows[i], now[i]);
    }
    RenumberPlaces(c, rows, now, em, ex, order);
  }

  // ---- ids shared between pairs

  // An UPDATE sets the number and the JSON; no other column ever changes.
  ghost predicate SameShape(a: seq<Row>, b: seq<Row>) {
    |a| == |b| && forall i :: 0 <= i < |a| ==> b[i] == a[i].(number := b[i].number, data := b[i].data)
  }

  ghost predicate AllLinkable(c: Crypto, rows: seq<Row>) {
    forall em, ex :: Linkable(c, PairRows(rows, em, ex))
  }

  lemma {:induction false} RenumberKeeps(rows: seq<Row>, order: seq<Row>)
    requires Decodable(order)
    ensures SameShape(rows, Renumber(rows, order))
  {
    if order != [] {
      RenumberKeeps(rows, order[..|order| - 1]);
    }
  }

  lemma {:induction false} PairRowsKeep(a: seq<Row>, b: seq<Row>, em: string, ex: string)
    requires SameShape(a, b)
    ensures SameShape(PairRows(a, em, ex), PairRows(b, em, ex))
  {
    if a != [] {
      var n := |a| - 1;
      PairRowsKeep(a[..n], b[..n], em, ex);
    }
  }

  lemma {:induction false} Locate(nodes: seq<Row>, order: seq<Row>) returns (at: seq<nat>)
    requires forall x :: x in order ==> x in nodes
    ensures |at| == |order| && forall k :: 0 <= k < |order| ==> at[k] < |nodes| && nodes[at[k]] == order[k]
  {
    if order == [] {
      at := [];
    } else {
      var n := |order| - 1;
      assert order[n] in order;
      var i: nat :| i < |nodes| && nodes[i] == order[n];
      at := Locate(nodes, order[..n]);
      at := at + [i];
    }
  }

  // Whether, and how, the rows of a pair can be arranged does not depend on their numbers and JSON.
  lemma SameShapeOrder(c: Crypto, a: seq<Row>, b: seq<Row>, order: seq<Row>) returns (moved: seq<Row>)
    requires SameShape(a, b) && IsOrder(c, a, order)
    ensures IsOrder(c, b, moved) && SameShape(order, moved)
  {
    var at := Locate(a, order);
    moved := seq(|order|, k requires 0 <= k < |order| => b[at[k]]);
    assert SameShape(order, moved);
    assert forall k :: 0 <= k < |moved| ==> moved[k] in b;
    forall i, j | 0 <= i < j < |moved|
      ensures moved[i].receiptId != moved[j].receiptId
    {
      assert order[i].receiptId != order[j].receiptId;
    }
    FullVisit(b, moved);
    forall i | 0 <= i < |moved| - 1
      ensures moved[i].signature != "" && moved[i + 1].prev == c.sha(moved[i].signature)
    {
      assert order[i].signature != "" && order[i + 1].prev == c.sha(order[i].signature);
    }
  }

  lemma SameShapeLinks(c: Crypto, a: seq<Row>, b: seq<Row>)
    requires SameShape(a, b) && Linkable(c, a)
    ensures Linkable(c, b)
  {
    var order: seq<Row> :| IsOrder(c, a, order);
    var moved := SameShapeOrder(c, a, b, order);
  }

  lemma SamePairsLink(c: Crypto, rows: seq<Row>, now: seq<Row>, p: Pair)
    requires SameShape(rows, now)
    ensures Linkable(c, PairRows(rows, p.0, p.1)) <==> Linkable(c, PairRows(now, p.0, p.1))
  {
    PairRowsKeep(rows, now, p.0, p.1);
    PairRowsKeep(now, rows, p.0, p.1);
    if Linkable(c, PairRows(rows, p.0, p.1)) {
      SameShapeLinks(c, PairRows(rows, p.0, p.1), PairRows(now, p.0, p.1));
    }
    if Linkable(c, PairRows(now, p.0, p.1)) {
      SameShapeLinks(c, PairRows(now, p.0, p.1), PairRows(rows, p.0, p.1));
    }
  }

  // ---- what the listing order of the pairs decides

  type Pair = (string, string)

  // SELECT DISTINCT emitter, executor: every pair of the table once, in the order the database lists them.
  ghost predicate ListsPairs(pairs: seq<Pair>, rows: seq<Row>) {
    && (forall i, j :: 0 <= i < j < |pairs| ==> pairs[i] != pairs[j])
    && (forall i :: 0 <= i < |rows| ==> (rows[i].emitter, rows[i].executor) in pairs)
  }

  ghost predicate Has(rows: seq<Row>, p: Pair, id: string) {
    exists i :: 0 <= i < |rows| && InPair(rows[i], p.0, p.1) && rows[i].receiptId == id
  }

  // One of the first n listed pairs has a receipt of this id, so its UPDATE reached all rows of that id.
  ghost predicate Reached(rows: seq<Row>, pairs: seq<Pair>, n: int, id: string)
    requires n <= |pairs|
  {
    exists k :: 0 <= k < n && Has(rows, pairs[k], id)
  }

  // When its turn comes the pair can be numbered: its rows can be arranged, and the JSON of each decodes or
  // was put there by the UPDATE of an earlier pair.
  ghost predicate Ready(c: Crypto, rows: seq<Row>, pairs: seq<Pair>, n: int)
    requires 0 <= n < |pairs|
  {
    && Linkable(c, PairRows(rows, pairs[n].0, pairs[n].1))
    && forall i :: 0 <= i < |rows| && InPair(rows[i], pairs[n].0, pairs[n].1) ==>
         rows[i].data.Some? || Reached(rows, pairs, n, rows[i].receiptId)
  }

  ghost predicate AllReady(c: Crypto, rows: seq<Row>, pairs: seq<Pair>) {
    forall n :: 0 <= n < |pairs| ==> Ready(c, rows, pairs, n)
  }

  ghost predicate PlaceIn(c: Crypto, rows: seq<Row>, p: Pair, id: string, number: int) {
    exists order: seq<Row> :: IsOrder(c, PairRows(rows, p.0, p.1), order) && 1 <= number <= |order| && order[number - 1].receiptId == id
  }

  // The number a row of this id ends up with: its place in the last listed pair that has the id.
  ghost predicate LastPlace(c: Crypto, rows: seq<Row>, pairs: seq<Pair>, n: int, id: string, number: int)
    requires n <= |pairs|
  {
    exists k :: 0 <= k < n && PlaceIn(c, rows, pairs[k], id, number) && NotAfter(rows, pairs, k, n, id)
  }

  ghost predicate NotAfter(rows: seq<Row>, pairs: seq<Pair>, k: int, n: int, id: string)
    requires 0 <= k && n <= |pairs|
  {
    forall m :: k < m < n ==> !Has(rows, pairs[m], id)
  }

  // The table after the first n listed pairs were numbered.
  ghost predicate Stage(c: Crypto, rows: seq<Row>, now: seq<Row>, pairs: seq<Pair>, n: int)
    requires n <= |pairs|
  {
    SameShape(rows, now) && forall i :: 0 <= i < |rows| ==> RowStage(c, rows, rows[i], now[i], pairs, n)
  }

  ghost predicate RowStage(c: Crypto, rows: seq<Row>, row: Row, now: Row, pairs: seq<Pair>, n: int)
    requires n <= |pairs|
  {
    && (now.data.Some? <==> row.data.Some? || Reached(rows, pairs, n, row.receiptId))
    && (Reached(rows, pairs, n, row.receiptId) ==> LastPlace(c, rows, pairs, n, row.receiptId, now.number))
  }

  lemma OneMoreReached(rows: seq<Row>, pairs: seq<Pair>, n: nat, id: string)
    requires n < |pairs|
    ensures Reached(rows, pairs, n + 1, id) <==> Reached(rows, pairs, n, id) || Has(rows, pairs[n], id)
  {
  }

  lemma StillLastPlace(c: Crypto, rows: seq<Row>, pairs: seq<Pair>, n: nat, id: string, number: int)
    requires n < |pairs| && !Has(rows, pairs[n], id) && LastPlace(c, rows, pairs, n, id, number)
    ensures LastPlace(c, rows, pairs, n + 1, id, number)
  {
    var k :| 0 <= k < n && PlaceIn(c, rows, pairs[k], id, number) && NotAfter(rows, pairs, k, n, id);
    NotAfterGrows(rows, pairs, k, n, id);
  }

  lemma NotAfterGrows(rows: seq<Row>, pairs: seq<Pair>, k: nat, n: nat, id: string)
    requires n < |pairs| && NotAfter(rows, pairs, k, n, id) && !Has(rows, pairs[n], id)
    ensures NotAfter(rows, pairs, k, n + 1, id)
  {
    forall m | k < m < n + 1
      ensures !Has(rows, pairs[m], id)
    {
      assert m < n || m == n;
    }
  }

  // The ids of a pair's order are the ids the pair has.
  lemma OrderHasIds(c: Crypto, rows: seq<Row>, now: seq<Row>, p: Pair, order: seq<Row>, id: string)
    requires SameShape(rows, now) && IsOrder(c, PairRows(now, p.0, p.1), order)
    ensures Has(rows, p, id) <==> id in IdsOf(order)
  {
    PairRowsHold(now, p.0, p.1);
    if Has(rows, p, id) {
      var i :| 0 <= i < |rows| && InPair(rows[i], p.0, p.1) && rows[i].receiptId == id;
      assert now[i] in order;
      var k :| 0 <= k < |order| && order[k] == now[i];
      assert IdsOf(order)[k] == id;
    }
    if id in IdsOf(order) {
      var k :| 0 <= k < |order| && IdsOf(order)[k] == id;
      assert order[k] in now;
      var i :| 0 <= i < |now| && now[i] == order[k];
      assert InPair(rows[i], p.0, p.1);
    }
  }

  lemma RowStageGrows(c: Crypto, rows: seq<Row>, now: seq<Row>, pairs: seq<Pair>, n: nat, order: seq<Row>, i: nat)
    requires n < |pairs| && Stage(c, rows, now, pairs, n) && i < |rows|
    requires IsOrder(c, PairRows(now, pairs[n].0, pairs[n].1), order) && Decodable(order)
    ensures |Renumber(now, order)| == |rows|
    ensures RowStage(c, rows, rows[i], Renumber(now, order)[i], pairs, n + 1)
  {
    var id, p := rows[i].receiptId, pairs[n];
    assert RowStage(c, rows, rows[i], now[i], pairs, n) && now[i].receiptId == id;
    RenumberHolds(now, order);
    OrderHasIds(c, rows, now, p, order, id);
    OneMoreReached(rows, pairs, n, id);
    if id in IdsOf(order) {
      var k :| 0 <= k < |order| && IdsOf(order)[k] == id;
      PairRowsKeep(now, rows, p.0, p.1);
      var moved := SameShapeOrder(c, PairRows(now, p.0, p.1), PairRows(rows, p.0, p.1), order);
      assert moved[k + 1 - 1].receiptId == id;
      assert PlaceIn(c, rows, p, id, k + 1) && NotAfter(rows, pairs, n, n + 1, id);
    } else if Reached(rows, pairs, n, id) {
      StillLastPlace(c, rows, pairs, n, id, now[i].number);
    }
  }

  lemma StageGrows(c: Crypto, rows: seq<Row>, now: seq<Row>, pairs: seq<Pair>, n: nat, order: seq<Row>)
    requires n < |pairs| && Stage(c, rows, now, pairs, n)
    requires IsOrder(c, PairRows(now, pairs[n].0, pairs[n].1), order) && Decodable(order)
    ensures Stage(c, rows, Renumber(now, order), pairs, n + 1)
  {
    RenumberKeeps(now, order);
    forall i | 0 <= i < |rows|
      ensures RowStage(c, rows, rows[i], Renumber(now, order)[i], pairs, n + 1)
    {
      RowStageGrows(c, rows, now, pairs, n, order, i);
    }
  }

  // When its turn comes a pair is migratable iff it is ready.
  lemma TurnComes(c: Crypto, rows: seq<Row>, now: seq<Row>, pairs: seq<Pair>, n: nat)
    requires n < |pairs| && Stage(c, rows, now, pairs, n)
    ensures Migratable(c, PairRows(now, pairs[n].0, pairs[n].1)) <==> Ready(c, rows, pairs, n)
  {
    var p := pairs[n];
    SamePairsLink(c, rows, now, p);
    PairRowsHold(now, p.0, p.1);
    var nodes := PairRows(now, p.0, p.1);
    assert forall i :: 0 <= i < |rows| ==> RowStage(c, rows, rows[i], now[i], pairs, n);
    if Decodable(nodes) {
      forall i | 0 <= i < |rows| && InPair(rows[i], p.0, p.1)
        ensures now[i].data.Some?
      {
        assert now[i] in nodes;
      }
    }
    if Ready(c, rows, pairs, n) {
      forall j | 0 <= j < |nodes|
        ensures nodes[j].data.Some?
      {
        assert nodes[j] in now;
        var i :| 0 <= i < |now| && now[i] == nodes[j];
        assert InPair(rows[i], p.0, p.1);
      }
    }
  }

  // Migratable pairs are ready in any order.
  lemma MigratableIsReady(c: Crypto, rows: seq<Row>, pairs: seq<Pair>)
    requires AllMigratable(c, rows)
    ensures AllReady(c, rows, pairs)
  {
    forall n | 0 <= n < |pairs|
      ensures Ready(c, rows, pairs, n)
    {
      var p := pairs[n];
      assert Migratable(c, PairRows(rows, p.0, p.1));
      PairRowsHold(rows, p.0, p.1);
      forall i | 0 <= i < |rows| && InPair(rows[i], p.0, p.1)
        ensures rows[i].data.Some?
      {
        assert rows[i] in PairRows(rows, p.0, p.1);
      }
    }
  }

  // Readiness in any order needs all linked orders.
  lemma ReadyIsLinkable(c: Crypto, rows: seq<Row>, pairs: seq<Pair>)
    requires ListsPairs(pairs, rows) && AllReady(c, rows, pairs)
    ensures AllLinkable(c, rows)
  {
    forall em, ex
      ensures Linkable(c, PairRows(rows, em, ex))
    {
      if (em, ex) in pairs {
        var n :| 0 <= n < |pairs| && pairs[n] == (em, ex);
        assert Ready(c, rows, pairs, n);
      } else {
        NoPairNoRows(rows, em, ex);
        assert IsOrder(c, [], []);
      }
    }
  }

  // With ids unique over the table no pair reaches another pair's rows.
  lemma ReadyAlone(c: Crypto, rows: seq<Row>, pairs: seq<Pair>)
    requires ListsPairs(pairs, rows) && AllReady(c, rows, pairs) && DistinctIds(rows)
    ensures Decodable(rows)
  {
    forall i | 0 <= i < |rows|
      ensures rows[i].data.Some?
    {
      var n :| 0 <= n < |pairs| && pairs[n] == (rows[i].emitter, rows[i].executor);
      assert Ready(c, rows, pairs, n);
      forall k | 0 <= k < n
        ensures !Has(rows, pairs[k], rows[i].receiptId)
      {
        assert pairs[k] != pairs[n];
      }
    }
  }

  lemma DecodablePairs(c: Crypto, rows: seq<Row>)
    requires AllLinkable(c, rows) && Decodable(rows)
    ensures AllMigratable(c, rows)
  {
    forall em, ex
      ensures Migratable(c, PairRows(rows, em, ex))
    {
      assert Linkable(c, PairRows(rows, em, ex));
      PairRowsHold(rows, em, ex);
      forall i | 0 <= i < |PairRows(rows, em, ex)|
        ensures PairRows(rows, em, ex)[i].data.Some?
      {
        assert PairRows(rows, em, ex)[i] in rows;
      }
    }
  }

  ghost predicate ReadyUpTo(c: Crypto, rows: seq<Row>, pairs: seq<Pair>, n: int)
    requires n <= |pairs|
  {
    forall k :: 0 <= k < n ==> Ready(c, rows, pairs, k)
  }

  ghost function Listed(pairs: seq<Pair>, n: nat): set<Pair>
    requires n <= |pairs|
  {
    set k | 0 <= k < n :: pairs[k]
  }

  lemma PairNumbered(c: Crypto, rows: seq<Row>, now: seq<Row>, after: seq<Row>, pairs: seq<Pair>, n: nat)
    requires ListsPairs(pairs, rows) && n < |pairs| && Stage(c, rows, now, pairs, n)
    requires ReadyUpTo(c, rows, pairs, n) && Ready(c, rows, pairs, n)
    requires exists order :: IsOrder(c, PairRows(now, pairs[n].0, pairs[n].1), order) && Decodable(order) && after == Renumber(now, order)
    ensures Stage(c, rows, after, pairs, n + 1) && ReadyUpTo(c, rows, pairs, n + 1)
    ensures DistinctIds(rows) && Progress(c, rows, now, Listed(pairs, n)) ==> Progress(c, rows, after, Listed(pairs, n + 1))
  {
    var p := pairs[n];
    var order :| IsOrder(c, PairRows(now, p.0, p.1), order) && Decodable(order) && after == Renumber(now, order);
    StageGrows(c, rows, now, pairs, n, order);
    if DistinctIds(rows) && Progress(c, rows, now, Listed(pairs, n)) {
      assert Listed(pairs, n + 1) == Listed(pairs, n) + {p} && (p.0, p.1) == p;
      PairNotYetTouched(c, rows, now, Listed(pairs, n), p.0, p.1);
      SameTurn(c, rows, now, p);
      ProgressGrows(c, rows, now, Listed(pairs, n), p.0, p.1, order);
    }
  }

  lemma SameTurn(c: Crypto, rows: seq<Row>, now: seq<Row>, p: Pair)
    requires PairRows(now, p.0, p.1) == PairRows(rows, p.0, p.1)
    requires Linkable(c, PairRows(rows, p.0, p.1))
    requires exists order :: IsOrder(c, PairRows(now, p.0, p.1), order) && Decodable(order)
    ensures Migratable(c, PairRows(rows, p.0, p.1))
  {
    var nodes := PairRows(now, p.0, p.1);
    var order :| IsOrder(c, nodes, order) && Decodable(order);
    forall i | 0 <= i < |nodes|
      ensures nodes[i].data.Some?
    {
      assert nodes[i] in order;
    }
  }

  lemma FirstStage(c: Crypto, rows: seq<Row>, pairs: seq<Pair>)
    ensures Stage(c, rows, rows, pairs, 0) && ReadyUpTo(c, rows, pairs, 0) && Progress(c, rows, rows, Listed(pairs, 0))
  {
  }

  // One turn of the backfill.
  method NumberListed(store: ChainStore, ghost rows: seq<Row>, pairs: seq<Pair>, n: nat) returns (failure: Option<Error>)
    requires Lawful(store.crypto) && ListsPairs(pairs, rows) && n < |pairs|
    requires Stage(store.crypto, rows, store.rows, pairs, n) && ReadyUpTo(store.crypto, rows, pairs, n)
    modifies store`rows
    ensures failure.None? <==> Ready(store.crypto, rows, pairs, n)
    ensures failure.None? ==> Stage(store.crypto, rows, store.rows, pairs, n + 1) && ReadyUpTo(store.crypto, rows, pairs, n + 1)
    ensures failure.None? && DistinctIds(rows) && Progress(store.crypto, rows, old(store.rows), Listed(pairs, n)) ==>
      Progress(store.crypto, rows, store.rows, Listed(pairs, n + 1))
  {
    ghost var now := store.rows;
    TurnComes(store.crypto, rows, now, pairs, n);
    failure := BackfillPair(store, pairs[n].0, pairs[n].1);
    if failure.None? {
      PairNumbered(store.crypto, rows, now, store.rows, pairs, n);
    }
  }

  // The backfill of the table succeeds iff every pair is ready when its turn comes, and then every row carries
  // its place in the last listed pair that has its id.
  method BackfillAll(store: ChainStore, pairs: seq<Pair>) returns (failure: Option<Error>)
    requires Lawful(store.crypto) && ListsPairs(pairs, store.rows)
    modifies store`rows
    ensures failure.None? <==> AllReady(store.crypto, old(store.rows), pairs)
    ensures failure.None? ==> Stage(store.crypto, old(store.rows), store.rows, pairs, |pairs|)
    ensures old(DistinctIds(store.rows)) && failure.None? ==>
      AllPlaced(store.crypto, old(store.rows), store.rows)
  {
    ghost var c, rows := store.crypto, store.rows;
    FirstStage(c, rows, pairs);
    for n := 0 to |pairs|
      invariant Stage(c, rows, store.rows, pairs, n) && ReadyUpTo(c, rows, pairs, n)
      invariant DistinctIds(rows) ==> Progress(c, rows, store.rows, Listed(pairs, n))
    {
      failure := NumberListed(store, rows, pairs, n);
      if failure.Some? {
        return;
      }
    }
    if DistinctIds(rows) {
      ListedIsPlaced(c, rows, store.rows, pairs);
    }
    return None;
  }

  // Migratable pairs are ready in whatever order they are listed, and ready pairs can all be arranged. When ids
  // are unique over the table or all JSON decodes, the pairs are ready iff each is migratable on its own.
  lemma ReadyMeans(c: Crypto, rows: seq<Row>, pairs: seq<Pair>)
    requires ListsPairs(pairs, rows)
    ensures AllMigratable(c, rows) ==> AllReady(c, rows, pairs)
    ensures AllReady(c, rows, pairs) ==> AllLinkable(c, rows)
    ensures DistinctIds(rows) || Decodable(rows) ==> (AllReady(c, rows, pairs) <==> AllMigratable(c, rows))
  {
    if AllMigratable(c, rows) {
      MigratableIsReady(c, rows, pairs);
    }
    if AllReady(c, rows, pairs) {
      ReadyIsLinkable(c, rows, pairs);
      if DistinctIds(rows) {
        ReadyAlone(c, rows, pairs);
      }
      if Decodable(rows) {
        DecodablePairs(c, rows);
      }
    }
  }

  lemma ListedIsPlaced(c: Crypto, rows: seq<Row>, now: seq<Row>, pairs: seq<Pair>)
    requires ListsPairs(pairs, rows) && Progress(c, rows, now, Listed(pairs, |pairs|))
    ensures AllPlaced(c, rows, now)
  {
    forall i | 0 <= i < |rows|
      ensures Placed(c, rows, rows[i], now[i])
    {
      assert (rows[i].emitter, rows[i].executor) in pairs;
      assert PairIn(rows[i], Listed(pairs, |pairs|));
    }
  }

  // ---- the migration transaction

  // The store after a successful migration is well chained when the columns matched the JSON before.
  lemma PlacedRowsAreChained(c: Crypto, rows: seq<Row>, now: seq<Row>)
    requires Lawful(c) && DistinctIds(rows) && AllPlaced(c, rows, now)
    requires AllMigratable(c, rows) && DistinctContracts(rows)
    requires forall i :: 0 <= i < |rows| ==> Faithful(rows[i])
    ensures WellChained(c, now)
  {
    forall i | 0 <= i < |now|
      ensures now[i].number >= 1 && Faithful(now[i]) && now[i].contractId == rows[i].contractId
    {
      assert Placed(c, rows, rows[i], now[i]);
    }
    forall i, j | 0 <= i < j < |now| && SamePair(now[i], now[j])
      ensures now[i].number != now[j].number
    {
      NumbersDiffer(c, rows, now, i, j);
    }
    forall i | 0 <= i < |now|
      ensures Anchored(c, now, now[i])
    {
      PlacedIsAnchored(c, rows, now, i);
    }
  }

  // A placed row is found in the linked order of its pair at its number.
  lemma PlaceInOrder(c: Crypto, rows: seq<Row>, row: Row, now: Row, order: seq<Row>)
    requires Placed(c, rows, row, now) && DistinctLinks(PairRows(rows, row.emitter, row.executor))
    requires IsOrder(c, PairRows(rows, row.emitter, row.executor), order)
    ensures 1 <= now.number <= |order| && order[now.number - 1] == row
  {
    var nodes := PairRows(rows, row.emitter, row.executor);
    var other: seq<Row> :| IsOrder(c, nodes, other) && 1 <= now.number <= |other| && other[now.number - 1] == row;
    OrderIsUnique(c, nodes, order, other);
  }

  lemma NumbersDiffer(c: Crypto, rows: seq<Row>, now: seq<Row>, i: nat, j: nat)
    requires DistinctIds(rows) && AllPlaced(c, rows, now) && AllMigratable(c, rows)
    requires i < j < |now| && SamePair(now[i], now[j])
    ensures now[i].number != now[j].number
  {
    assert Placed(c, rows, rows[i], now[i]) && Placed(c, rows, rows[j], now[j]);
    var nodes := PairRows(rows, rows[i].emitter, rows[i].executor);
    assert Migratable(c, nodes);
    var order: seq<Row> :| IsOrder(c, nodes, order);
    PlaceInOrder(c, rows, rows[i], now[i], order);
    PlaceInOrder(c, rows, rows[j], now[j], order);
  }

  lemma PlacedIsAnchored(c: Crypto, rows: seq<Row>, now: seq<Row>, i: nat)
    requires DistinctIds(rows) && AllPlaced(c, rows, now) && AllMigratable(c, rows) && i < |now|
    ensures Anchored(c, now, now[i])
  {
    assert Placed(c, rows, rows[i], now[i]);
    var n, nodes := now[i].number, PairRows(rows, rows[i].emitter, rows[i].executor);
    assert Migratable(c, nodes);
    var order: seq<Row> :| IsOrder(c, nodes, order);
    PlaceInOrder(c, rows, rows[i], now[i], order);
    if n > 1 {
      var before := order[n - 2];
      PairRowsHold(rows, rows[i].emitter, rows[i].executor);
      assert before in order;
      var j :| 0 <= j < |rows| && rows[j] == before;
      assert Placed(c, rows, rows[j], now[j]);
      PlaceInOrder(c, rows, rows[j], now[j], order);
      assert order[n - 2 + 1].prev == c.sha(order[n - 2].signature);
      assert order[now[j].number - 1].receiptId == order[n - 2].receiptId;
      assert LinksTo(c, now[i], now[j]);
    }
  }

  // What the two unique indexes refuse.
  predicate Clash(a: Row, b: Row) {
    a.contractId == b.contractId || (SamePair(a, b) && a.number == b.number)
  }

  // Rows of one pair end up with different numbers.
  ghost predicate NumbersStayApart(c: Crypto, rows: seq<Row>, pairs: seq<Pair>) {
    forall i, j, m, n ::
      (0 <= i < j < |rows| && SamePair(rows[i], rows[j])
       && LastPlace(c, rows, pairs, |pairs|, rows[i].receiptId, m) && LastPlace(c, rows, pairs, |pairs|, rows[j].receiptId, n)) ==>
      m != n
  }

  // Two linked orders of a linkable pair are one, and ids do not repeat in it.
  lemma OnePlaceOnly(c: Crypto, rows: seq<Row>, p: Pair, id: string, m: int, n: int)
    requires Linkable(c, PairRows(rows, p.0, p.1)) && PlaceIn(c, rows, p, id, m) && PlaceIn(c, rows, p, id, n)
    ensures m == n
  {
    var nodes := PairRows(rows, p.0, p.1);
    var a: seq<Row> :| IsOrder(c, nodes, a) && 1 <= m <= |a| && a[m - 1].receiptId == id;
    var b: seq<Row> :| IsOrder(c, nodes, b) && 1 <= n <= |b| && b[n - 1].receiptId == id;
    OrderIsUnique(c, nodes, a, b);
  }

  lemma PlacedIsHad(c: Crypto, rows: seq<Row>, p: Pair, id: string, m: int)
    requires PlaceIn(c, rows, p, id, m)
    ensures Has(rows, p, id)
  {
    var order: seq<Row> :| IsOrder(c, PairRows(rows, p.0, p.1), order) && 1 <= m <= |order| && order[m - 1].receiptId == id;
    OrderHasIds(c, rows, rows, p, order, id);
    assert IdsOf(order)[m - 1] == id;
  }

  lemma OneLastPlace(c: Crypto, rows: seq<Row>, pairs: seq<Pair>, id: string, m: int, n: int)
    requires AllReady(c, rows, pairs)
    requires LastPlace(c, rows, pairs, |pairs|, id, m) && LastPlace(c, rows, pairs, |pairs|, id, n)
    ensures m == n
  {
    var j :| 0 <= j < |pairs| && PlaceIn(c, rows, pairs[j], id, m) && NotAfter(rows, pairs, j, |pairs|, id);
    var k :| 0 <= k < |pairs| && PlaceIn(c, rows, pairs[k], id, n) && NotAfter(rows, pairs, k, |pairs|, id);
    PlacedIsHad(c, rows, pairs[j], id, m);
    PlacedIsHad(c, rows, pairs[k], id, n);
    assert Ready(c, rows, pairs, j);
    OnePlaceOnly(c, rows, pairs[j], id, m, n);
  }

  // The index over pair and number takes the numbered table iff its numbers stay apart.
  lemma NumbersAre(c: Crypto, rows: seq<Row>, now: seq<Row>, pairs: seq<Pair>)
    requires ListsPairs(pairs, rows) && AllReady(c, rows, pairs) && Stage(c, rows, now, pairs, |pairs|)
    ensures DistinctNumbers(now) <==> NumbersStayApart(c, rows, pairs)
    ensures DistinctContracts(now) <==> DistinctContracts(rows)
  {
    forall i | 0 <= i < |rows|
      ensures LastPlace(c, rows, pairs, |pairs|, rows[i].receiptId, now[i].number)
    {
      assert RowStage(c, rows, rows[i], now[i], pairs, |pairs|);
      var k :| 0 <= k < |pairs| && pairs[k] == (rows[i].emitter, rows[i].executor);
      assert Has(rows, pairs[k], rows[i].receiptId);
    }
    if DistinctNumbers(now) {
      forall i, j, m, n | 0 <= i < j < |rows| && SamePair(rows[i], rows[j])
        && LastPlace(c, rows, pairs, |pairs|, rows[i].receiptId, m) && LastPlace(c, rows, pairs, |pairs|, rows[j].receiptId, n)
        ensures m != n
      {
        OneLastPlace(c, rows, pairs, rows[i].receiptId, m, now[i].number);
        OneLastPlace(c, rows, pairs, rows[j].receiptId, n, now[j].number);
        assert SamePair(now[i], now[j]);
      }
    }
    if NumbersStayApart(c, rows, pairs) {
      forall i, j | 0 <= i < j < |now| && SamePair(now[i], now[j])
        ensures now[i].number != now[j].number
      {
        assert SamePair(rows[i], rows[j]);
      }
    }
  }

  // CREATE UNIQUE INDEX (pair, seq); CREATE UNIQUE INDEX (contract).
  method IndexesClash(rows: seq<Row>) returns (clash: bool)
    ensures clash <==> !(DistinctNumbers(rows) && DistinctContracts(rows))
  {
    clash := exists i, j :: 0 <= i < j < |rows| && Clash(rows[i], rows[j]);
  }

  // BEGIN IMMEDIATE; the backfill, unless the seq column is there already; the indexes; COMMIT. Any failure
  // rolls back. A first migration succeeds exactly when
  // every pair is ready when its turn comes, no contract repeats, and the numbers of each pair stay apart. With
  // ids unique over the table that is when every pair is migratable and no contract repeats; every row then has
  // its place, and columns in step with the JSON give a well-chained store.
  method Migrate(store: ChainStore, hasColumn: bool, pairs: seq<Pair>) returns (failure: Option<Error>)
    requires Lawful(store.crypto) && ListsPairs(pairs, store.rows)
    modifies store`rows
    ensures failure.Some? || hasColumn ==> store.rows == old(store.rows)
    ensures failure.None? ==> DistinctNumbers(store.rows) && DistinctContracts(store.rows)
    ensures hasColumn ==>
      (failure.None? <==> DistinctNumbers(old(store.rows)) && DistinctContracts(old(store.rows)))
    ensures !hasColumn ==>
      (failure.None? <==> AllReady(store.crypto, old(store.rows), pairs) && DistinctContracts(old(store.rows))
                          && NumbersStayApart(store.crypto, old(store.rows), pairs))
    ensures !hasColumn && failure.None? ==>
      AllLinkable(store.crypto, old(store.rows)) && Stage(store.crypto, old(store.rows), store.rows, pairs, |pairs|)
    ensures !hasColumn && old(DistinctIds(store.rows)) ==>
      (failure.None? <==> AllMigratable(store.crypto, old(store.rows)) && DistinctContracts(old(store.rows)))
    ensures !hasColumn && old(DistinctIds(store.rows)) && failure.None? ==>
      AllPlaced(store.crypto, old(store.rows), store.rows)
    ensures !hasColumn && failure.None? && old(DistinctIds(store.rows))
            && (forall i :: 0 <= i < |old(store.rows)| ==> Faithful(old(store.rows)[i])) ==>
      WellChained(store.crypto, store.rows)
  {
    var before := store.rows;
    if !hasColumn {
      failure := BackfillAll(store, pairs);
      if failure.Some? {
        ReadyMeans(store.crypto, before, pairs);
        store.rows := before;
        return;
      }
      ReadyMeans(store.crypto, before, pairs);
      NumbersAre(store.crypto, before, store.rows, pairs);
      if DistinctIds(before) {
        PlacedGoesThrough(store.crypto, before, store.rows);
      }
    }
    var clash := IndexesClash(store.rows);
    if clash {
      store.rows := before;
      return Some(IndexViolation);
    }
    return None;
  }

  // With ids unique the indexes refuse nothing but a repeated contract.
  lemma PlacedGoesThrough(c: Crypto, before: seq<Row>, rows: seq<Row>)
    requires Lawful(c) && DistinctIds(before) && AllPlaced(c, before, rows) && AllMigratable(c, before)
    requires SameShape(before, rows)
    ensures DistinctNumbers(rows)
    ensures DistinctContracts(before) && (forall i :: 0 <= i < |before| ==> Faithful(before[i])) ==> WellChained(c, rows)
  {
    forall i, j | 0 <= i < j < |rows| && SamePair(rows[i], rows[j])
      ensures rows[i].number != rows[j].number
    {
      NumbersDiffer(c, before, rows, i, j);
    }
    if DistinctContracts(before) && forall i :: 0 <= i < |before| ==> Faithful(before[i]) {
      PlacedRowsAreChained(c, before, rows);
    }
  }

  lemma RowSurvivesIff(c: Crypto, rows: seq<Row>, em: string, ex: string, order: seq<Row>, i: nat)
    requires forall k :: 0 <= k < |rows| ==> Faithful(rows[k])
    requires IsOrder(c, PairRows(rows, em, ex), order) && Decodable(order) && i < |rows|
    ensures |Renumber(rows, order)| == |rows|
    ensures Faithful(Renumber(rows, order)[i]) <==> InPair(rows[i], em, ex) || rows[i].receiptId !in IdsOf(order)
  {
    RenumberHolds(rows, order);
    PairRowsHold(rows, em, ex);
    if rows[i].receiptId in IdsOf(order) {
      var k :| 0 <= k < |order| && IdsOf(order)[k] == rows[i].receiptId;
      assert order[k] in order;
      var m :| 0 <= m < |rows| && rows[m] == order[k];
      assert Renumber(rows, order)[i] == At(rows[i].(data := order[k].data), k + 1);
      if InPair(rows[i], em, ex) {
        assert rows[i] in order;
        var j :| 0 <= j < |order| && order[j] == rows[i];
        assert j == k;
      }
    }
  }

  // The backfill updates by receipt id alone, over all pairs, and the schema does not make ids unique. When
  // the numbering of one pair leaves the whole table in step with its JSON, exactly: no row of another pair
  // carries an id of this pair.
  lemma OtherPairsSurviveIff(c: Crypto, rows: seq<Row>, em: string, ex: string, order: seq<Row>)
    requires forall i :: 0 <= i < |rows| ==> Faithful(rows[i])
    requires IsOrder(c, PairRows(rows, em, ex), order) && Decodable(order)
    ensures (forall row :: row in Renumber(rows, order) ==> Faithful(row)) <==>
            (forall row :: row in rows && !InPair(row, em, ex) ==> row.receiptId !in IdsOf(order))
  {
    RenumberHolds(rows, order);
    var now := Renumber(rows, order);
    forall i | 0 <= i < |rows|
      ensures Faithful(now[i]) <==> InPair(rows[i], em, ex) || rows[i].receiptId !in IdsOf(order)
    {
      RowSurvivesIff(c, rows, em, ex, order, i);
    }
    if forall row :: row in now ==> Faithful(row) {
      forall row | row in rows && !InPair(row, em, ex)
        ensures row.receiptId !in IdsOf(order)
      {
        var i :| 0 <= i < |rows| && rows[i] == row;
        assert now[i] in now;
      }
    }
  }

  function FirstOf(contract: string, emitter: string): Receipt {
    Receipt("", "", "r", contract, "", emitter, "executor", SettledClean, "", "signature", 0, "", 0, Undecided, None, "", "")
  }

  // The pairs of a table of two first receipts of different emitters.
  lemma TwoPairs(c: Crypto, first: Row, second: Row, em: string, ex: string)
    requires first.prev == second.prev == "" && !SamePair(first, second)
    ensures Linkable(c, PairRows([first, second], em, ex))
    ensures first.data.Some? && second.data.Some? ==> Migratable(c, PairRows([first, second], em, ex))
    ensures InPair(first, em, ex) ==> PairRows([first, second], em, ex) == [first]
  {
    RowsOfTwo(first, second, em, ex);
    OnePlace(c, first);
    OnePlace(c, second);
    assert IsOrder(c, [], []);
  }

  lemma RowsOfTwo(first: Row, second: Row, em: string, ex: string)
    requires !SamePair(first, second)
    ensures PairRows([first, second], em, ex) ==
      if InPair(first, em, ex) then [first] else if InPair(second, em, ex) then [second] else []
  {
    var rows := [first, second];
    assert rows[..1] == [first] && [first][..0] == [];
    assert PairRows([first], em, ex) == if InPair(first, em, ex) then [first] else [];
  }

  lemma OnePlace(c: Crypto, row: Row)
    requires row.prev == ""
    ensures IsOrder(c, [row], [row]) && Linkable(c, [row])
  {
    assert IsOrder(c, [row], [row]);
  }

  // Two receipts of different emitters carry one id. Each pair alone is migratable and every row is in step
  // with its JSON; numbering the first emitter's pair puts its JSON into the second emitter's row.
  lemma SharedIdOverwrites(c: Crypto)
    ensures var first, second := RowOf(FirstOf("c", "a")), RowOf(FirstOf("d", "b"));
      && Faithful(first) && Faithful(second) && AllMigratable(c, [first, second])
      && IsOrder(c, PairRows([first, second], "a", "executor"), [first])
      && var now := Renumber([first, second], [first]);
         now == [At(first, 1), second.(number := 1, data := At(first, 1).data)] && !Faithful(now[1])
  {
    var first, second := RowOf(FirstOf("c", "a")), RowOf(FirstOf("d", "b"));
    assert first.emitter[0] == 'a' && second.emitter[0] == 'b';
    forall em, ex
      ensures Migratable(c, PairRows([first, second], em, ex))
    {
      TwoPairs(c, first, second, em, ex);
    }
    TwoPairs(c, first, second, "a", "executor");
    OnePlace(c, first);
    RenumberHolds([first, second], [first]);
  }

  // Two receipts of different emitters carry one id, and the second row holds no JSON. Listed first, the first
  // pair's UPDATE gives it some and the backfill goes through; listed second, it comes too late.
  lemma ListingOrderDecides(c: Crypto)
    ensures var rows := [RowOf(FirstOf("c", "a")), RowOf(FirstOf("d", "b")).(data := None)];
      var p, q := ("a", "executor"), ("b", "executor");
      && ListsPairs([p, q], rows) && ListsPairs([q, p], rows)
      && AllReady(c, rows, [p, q]) && !AllReady(c, rows, [q, p])
  {
    var first, second := RowOf(FirstOf("c", "a")), RowOf(FirstOf("d", "b")).(data := None);
    var rows := [first, second];
    var p, q := ("a", "executor"), ("b", "executor");
    assert first.emitter[0] == 'a' && second.emitter[0] == 'b';
    TwoPairs(c, first, second, p.0, p.1);
    TwoPairs(c, first, second, q.0, q.1);
    assert rows[0].receiptId == "r" && InPair(rows[0], p.0, p.1);
    assert Has(rows, [p, q][0], "r");
    assert Ready(c, rows, [p, q], 0);
    assert Ready(c, rows, [p, q], 1) by {
      assert Reached(rows, [p, q], 1, "r");
    }
    assert !Ready(c, rows, [q, p], 0) by {
      assert rows[1].data.None? && InPair(rows[1], [q, p][0].0, [q, p][0].1);
    }
  }
}
