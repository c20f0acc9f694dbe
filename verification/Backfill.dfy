// Rebuilding the order of one pair's unnumbered receipts from their hash links (backfillPairSequence in
// pkg/receipt/chain.go).
module Backfill {
  import opened Wrappers
  import opened Receipts
  import opened ChainStores
  import opened Sequences

  datatype Error =
    | NoRoot
    | MultipleRoots
    | Fork
    | Cycle
    | BadData
    | MissingSignature
    | BrokenLink
    | Disconnected
    | IndexViolation

  // SELECT ... WHERE emitter = em AND executor = ex
  function PairRows(rows: seq<Row>, em: string, ex: string): seq<Row> {
    if rows == [] then []
    else PairRows(rows[..|rows| - 1], em, ex)
         + if InPair(rows[|rows| - 1], em, ex) then [rows[|rows| - 1]] else []
  }

  ghost predicate DistinctLinks(rows: seq<Row>) {
    forall i, j :: 0 <= i < j < |rows| ==> rows[i].prev != rows[j].prev
  }

  ghost predicate Decodable(rows: seq<Row>) {
    forall i :: 0 <= i < |rows| ==> rows[i].data.Some?
  }

  // Every row but the first carries the hash of the non-empty signature of the row before it.
  ghost predicate Linked(c: Crypto, order: seq<Row>) {
    && (order != [] ==> order[0].prev == "")
    && forall i :: 0 <= i < |order| - 1 ==>
         order[i].signature != "" && order[i + 1].prev == c.sha(order[i].signature)
  }

  // `order` lists the rows of `nodes`, each once, linked.
  ghost predicate IsOrder(c: Crypto, nodes: seq<Row>, order: seq<Row>) {
    && |order| == |nodes| && DistinctIds(order)
    && (forall x :: x in order <==> x in nodes)
    && Linked(c, order)
  }

  // Ids and links are unambiguous, and the rows can be arranged in one linked order.
  ghost predicate Linkable(c: Crypto, nodes: seq<Row>) {
    DistinctIds(nodes) && DistinctLinks(nodes) && exists order :: IsOrder(c, nodes, order)
  }

  // When the rows of one pair can be numbered: they can be arranged, and the JSON decodes.
  ghost predicate Migratable(c: Crypto, nodes: seq<Row>) {
    Linkable(c, nodes) && Decodable(nodes)
  }

  // UPDATE receipts SET seq = number, data = doc WHERE receipt_id = id
  function SetNumber(rows: seq<Row>, id: string, number: int, doc: Receipt): (out: seq<Row>)
    ensures |out| == |rows|
    ensures forall i :: 0 <= i < |rows| ==>
      out[i] == if rows[i].receiptId == id
                then rows[i].(number := number, data := Some(doc.(sequenceNumber := number))) else rows[i]
  {
    seq(|rows|, i requires 0 <= i < |rows| =>
      if rows[i].receiptId == id
      then rows[i].(number := number, data := Some(doc.(sequenceNumber := number))) else rows[i])
  }

  // The table after the rows of `order` were numbered 1, 2, ... one UPDATE at a time.
  ghost function Renumber(rows: seq<Row>, order: seq<Row>): seq<Row>
    requires Decodable(order)
  {
    if order == [] then rows
    else
      var n := |order|;
      SetNumber(Renumber(rows, order[..n - 1]), order[n - 1].receiptId, n, order[n - 1].data.value)
  }

  // ---- facts about arrangements

  // As many distinct rows of `nodes` as there are rows are all of them, and then no id repeats.
  lemma FullVisit(nodes: seq<Row>, path: seq<Row>)
    requires DistinctIds(path) && |path| == |nodes|
    requires forall i :: 0 <= i < |path| ==> path[i] in nodes
    ensures forall x :: x in path <==> x in nodes
    ensures DistinctIds(nodes)
  {
    assert NoRepeat(path);
    FullListing(path, nodes);
    forall i, j | 0 <= i < j < |nodes|
      ensures nodes[i].receiptId != nodes[j].receiptId
    {
      assert nodes[i] in path && nodes[j] in path;
    }
  }

  // There is never a choice: with unambiguous links the linked order is the only one.
  lemma {:induction false} OrderIsUnique(c: Crypto, nodes: seq<Row>, a: seq<Row>, b: seq<Row>)
    requires DistinctLinks(nodes) && IsOrder(c, nodes, a) && IsOrder(c, nodes, b)
    ensures a == b
  {
    SameUpTo(c, nodes, a, b, |a|);
    assert a == a[..|a|] && b == b[..|a|];
  }

  lemma {:induction false} SameUpTo(c: Crypto, nodes: seq<Row>, a: seq<Row>, b: seq<Row>, n: nat)
    requires DistinctLinks(nodes) && IsOrder(c, nodes, a) && IsOrder(c, nodes, b)
    requires n <= |a|
    ensures a[..n] == b[..n]
  {
    if n > 0 {
      SameUpTo(c, nodes, a, b, n - 1);
      assert a[n - 1] in nodes && b[n - 1] in nodes;
      if n > 1 {
        assert a[n - 2] == a[..n - 1][n - 2] == b[..n - 1][n - 2] == b[n - 2];
        assert a[n - 2 + 1].prev == b[n - 2 + 1].prev;
      }
      assert a[n - 1] == b[n - 1];
      assert a[..n] == a[..n - 1] + [a[n - 1]] && b[..n] == b[..n - 1] + [b[n - 1]];
    }
  }

  // ---- the per-pair walk

  // byPrevHash[link]: the rows that claim `link` as their predecessor hash, in table order.
  function Bucket(nodes: seq<Row>, link: string): seq<Row> {
    if nodes == [] then []
    else Bucket(nodes[..|nodes| - 1], link) + if nodes[|nodes| - 1].prev == link then [nodes[|nodes| - 1]] else []
  }

  lemma {:induction false} BucketHolds(nodes: seq<Row>, link: string)
    ensures forall x :: x in Bucket(nodes, link) <==> x in nodes && x.prev == link
  {
    if nodes != [] {
      BucketHolds(nodes[..|nodes| - 1], link);
      assert nodes == nodes[..|nodes| - 1] + [nodes[|nodes| - 1]];
    }
  }

  lemma {:induction false} NoForkInBucket(nodes: seq<Row>, link: string)
    requires DistinctLinks(nodes)
    ensures |Bucket(nodes, link)| <= 1
  {
    if nodes != [] {
      var last, init := nodes[|nodes| - 1], nodes[..|nodes| - 1];
      NoForkInBucket(init, link);
      BucketHolds(init, link);
      if Bucket(init, link) != [] {
        var x := Bucket(init, link)[0];
        assert x in init;
        var i :| 0 <= i < |init| && init[i] == x;
        assert nodes[i].prev != last.prev;
      }
    }
  }

  lemma {:induction false} SmallBucketsMeanNoFork(nodes: seq<Row>)
    requires forall link :: |Bucket(nodes, link)| <= 1
    ensures DistinctLinks(nodes)
  {
    if nodes != [] {
      var last, init := nodes[|nodes| - 1], nodes[..|nodes| - 1];
      forall link
        ensures |Bucket(init, link)| <= 1
      {
        assert |Bucket(nodes, link)| <= 1;
      }
      SmallBucketsMeanNoFork(init);
      assert |Bucket(nodes, last.prev)| <= 1;
      BucketHolds(init, last.prev);
      forall i, j | 0 <= i < j < |nodes|
        ensures nodes[i].prev != nodes[j].prev
      {
        assert nodes[i] == init[i] && init[i] in init;
        assert j < |init| ==> nodes[j] == init[j];
      }
    }
  }

  method GroupByLink(nodes: seq<Row>) returns (byPrev: map<string, seq<Row>>)
    ensures forall link :: link in byPrev <==> Bucket(nodes, link) != []
    ensures forall link :: link in byPrev ==> byPrev[link] == Bucket(nodes, link)
  {
    byPrev := map[];
    for i := 0 to |nodes|
      invariant forall link :: link in byPrev <==> Bucket(nodes[..i], link) != []
      invariant forall link :: link in byPrev ==> byPrev[link] == Bucket(nodes[..i], link)
    {
      var node := nodes[i];
      var list := if node.prev in byPrev then byPrev[node.prev] else [];
      byPrev := byPrev[node.prev := list + [node]];
      assert nodes[..i + 1][..i] == nodes[..i];
    }
    assert nodes[..|nodes|] == nodes;
  }

  method FindFork(byPrev: map<string, seq<Row>>) returns (forked: bool)
    ensures forked <==> exists link :: link in byPrev && |byPrev[link]| > 1
  {
    var left := byPrev.Keys;
    while left != {}
      invariant forall link :: link in byPrev && link !in left ==> |byPrev[link]| <= 1
      invariant left <= byPrev.Keys
    {
      var link :| link in left;
      if |byPrev[link]| > 1 {
        return true;
      }
      left := left - {link};
    }
    return false;
  }

  function IdsOf(path: seq<Row>): (ids: seq<string>)
    ensures |ids| == |path| && forall i :: 0 <= i < |path| ==> ids[i] == path[i].receiptId
  {
    seq(|path|, i requires 0 <= i < |path| => path[i].receiptId)
  }

  // A linked walk through the rows from the root.
  ghost predicate Trail(c: Crypto, all: seq<Row>, trail: seq<Row>) {
    && trail != [] && Linked(c, trail)
    && forall i :: 0 <= i < |trail| ==> trail[i] in all
  }

  // Links being unambiguous, every linked order starts with the walk.
  lemma {:induction false} TrailIsPrefix(c: Crypto, all: seq<Row>, trail: seq<Row>, order: seq<Row>)
    requires DistinctLinks(all) && Trail(c, all, trail) && IsOrder(c, all, order)
    requires |trail| <= |all|
    ensures trail <= order
  {
    var n := |trail| - 1;
    var init := trail[..n];
    assert order[n] in all && trail[n] in all;
    if n > 0 {
      TrailIsPrefix(c, all, init, order);
      assert order[n - 1] == init[n - 1] == trail[n - 1];
      assert order[n - 1 + 1].prev == trail[n - 1 + 1].prev;
    }
    assert order[n].prev == trail[n].prev;
  }

  lemma CycleRefutes(c: Crypto, all: seq<Row>, path: seq<Row>, curr: Row)
    requires DistinctLinks(all) && Trail(c, all, path + [curr]) && |path| < |all|
    requires curr.receiptId in IdsOf(path)
    ensures !Migratable(c, all)
  {
    var trail := path + [curr];
    var i :| 0 <= i < |path| && IdsOf(path)[i] == curr.receiptId;
    assert trail[i].receiptId == trail[|path|].receiptId;
    if order: seq<Row> :| IsOrder(c, all, order) {
      TrailIsPrefix(c, all, trail, order);
    }
  }

  lemma TrailContinues(c: Crypto, all: seq<Row>, trail: seq<Row>, order: seq<Row>)
    requires DistinctLinks(all) && Trail(c, all, trail) && IsOrder(c, all, order) && |trail| < |all|
    ensures trail[|trail| - 1].signature != ""
    ensures order[|trail|] in all && order[|trail|].prev == c.sha(trail[|trail| - 1].signature)
  {
    TrailIsPrefix(c, all, trail, order);
    var k := |trail| - 1;
    assert order[k] == trail[k] && order[k + 1] in order;
  }

  lemma DeadEndRefutes(c: Crypto, all: seq<Row>, trail: seq<Row>)
    requires DistinctLinks(all) && Trail(c, all, trail) && |trail| < |all|
    requires var last := trail[|trail| - 1];
      last.signature == "" || forall x :: x in all ==> x.prev != c.sha(last.signature)
    ensures !Migratable(c, all)
  {
    if order: seq<Row> :| IsOrder(c, all, order) {
      TrailContinues(c, all, trail, order);
    }
  }

  lemma LinkedExtends(c: Crypto, all: seq<Row>, trail: seq<Row>, next: Row)
    requires Trail(c, all, trail) && next in all
    requires trail[|trail| - 1].signature != "" && next.prev == c.sha(trail[|trail| - 1].signature)
    ensures Trail(c, all, trail + [next])
  {
  }

  lemma ListsAll(c: Crypto, all: seq<Row>, path: seq<Row>)
    requires NoRepeat(IdsOf(path)) && |path| == |all| && Trail(c, all, path) && Decodable(path)
    requires DistinctLinks(all)
    ensures IsOrder(c, all, path) && Migratable(c, all)
  {
    forall i, j | 0 <= i < j < |path|
      ensures path[i].receiptId != path[j].receiptId
    {
      assert IdsOf(path)[i] != IdsOf(path)[j];
    }
    FullVisit(all, path);
    forall i | 0 <= i < |all|
      ensures all[i].data.Some?
    {
      assert all[i] in path;
    }
    assert IsOrder(c, all, path);
  }

  lemma OrderHasRoot(c: Crypto, all: seq<Row>, order: seq<Row>)
    requires all != []
    ensures IsOrder(c, all, order) ==> order != [] && order[0] in all && order[0].prev == ""
  {
  }

  lemma PathGrows(rows: seq<Row>, path: seq<Row>, curr: Row)
    requires NoRepeat(IdsOf(path)) && Decodable(path) && curr.receiptId !in IdsOf(path) && curr.data.Some?
    ensures var trail := path + [curr];
      && Elements(IdsOf(trail)) == Elements(IdsOf(path)) + {curr.receiptId}
      && NoRepeat(IdsOf(trail)) && Decodable(trail)
      && Renumber(rows, trail) == SetNumber(Renumber(rows, path), curr.receiptId, |path| + 1, curr.data.value)
  {
    var trail := path + [curr];
    AddElement(IdsOf(path), curr.receiptId);
    assert IdsOf(trail) == IdsOf(path) + [curr.receiptId];
    assert trail[..|path|] == path;
  }

  // The walk from the only root: follows the hash of each signature until every row has been numbered.
  method Walk(store: ChainStore, all: seq<Row>, byPrev: map<string, seq<Row>>, root: Row)
    returns (failure: Option<Error>)
    requires Lawful(store.crypto) && DistinctLinks(all)
    requires forall link :: link in byPrev <==> Bucket(all, link) != []
    requires forall link :: link in byPrev ==> byPrev[link] == Bucket(all, link)
    requires root in all && root.prev == ""
    modifies store`rows
    ensures failure.None? <==> Migratable(store.crypto, all)
    ensures failure.None? ==> exists order ::
      IsOrder(store.crypto, all, order) && Decodable(order) && store.rows == Renumber(old(store.rows), order)
    ensures failure != Some(Disconnected)
  {
    var c := store.crypto;
    var curr, visited, number := root, {}, 1;
    ghost var path: seq<Row> := [];
    while true
      invariant 1 <= number <= |all| && |path| == number - 1
      invariant visited == Elements(IdsOf(path)) && NoRepeat(IdsOf(path)) && Decodable(path)
      invariant curr in all && Trail(c, all, path + [curr])
      invariant store.rows == Renumber(old(store.rows), path)
      decreases |all| - number
    {
      if curr.receiptId in visited {
        CycleRefutes(c, all, path, curr);
        return Some(Cycle);
      }
      visited := visited + {curr.receiptId};
      if curr.data.None? {
        return Some(BadData);
      }
      store.rows := SetNumber(store.rows, curr.receiptId, number, curr.data.value);
      PathGrows(old(store.rows), path, curr);
      path := path + [curr];
      if number == |all| {
        break;
      }
      if curr.signature == "" {
        DeadEndRefutes(c, all, path);
        return Some(MissingSignature);
      }
      var nextHash := c.sha(curr.signature);
      BucketHolds(all, nextHash);
      if nextHash !in byPrev {
        assert Bucket(all, nextHash) == [];
        DeadEndRefutes(c, all, path);
        return Some(BrokenLink);
      }
      curr := byPrev[nextHash][0];
      number := number + 1;
      LinkedExtends(c, all, path, curr);
    }
    ListsAll(c, all, path);
    CountElements(IdsOf(path));
    if |visited| != |all| {
      return Some(Disconnected);
    }
    return None;
  }

  // Succeeds exactly on migratable pairs, and then has numbered the rows 1..n in their linked order. The
  // final search for unreachable rows never finds one. A failing call leaves a half-numbered table, which
  // the surrounding transaction discards.
  method BackfillPair(store: ChainStore, em: string, ex: string) returns (failure: Option<Error>)
    requires Lawful(store.crypto)
    modifies store`rows
    ensures failure.None? <==> Migratable(store.crypto, old(PairRows(store.rows, em, ex)))
    ensures failure.None? ==> exists order ::
      && IsOrder(store.crypto, old(PairRows(store.rows, em, ex)), order) && Decodable(order)
      && store.rows == Renumber(old(store.rows), order)
    ensures failure != Some(Disconnected)
  {
    var c, all := store.crypto, PairRows(store.rows, em, ex);
    var byPrev := GroupByLink(all);
    if |all| == 0 {
      assert IsOrder(c, all, []);
      return None;
    }
    BucketHolds(all, "");
    if "" !in byPrev {
      forall order: seq<Row>
        ensures !IsOrder(c, all, order)
      {
        OrderHasRoot(c, all, order);
      }
      return Some(NoRoot);
    }
    var roots := byPrev[""];
    if DistinctLinks(all) {
      NoForkInBucket(all, "");
    }
    if |roots| > 1 {
      return Some(MultipleRoots);
    }
    var forked := FindFork(byPrev);
    if forked {
      assert !DistinctLinks(all) by {
        var link :| link in byPrev && |byPrev[link]| > 1;
        if DistinctLinks(all) {
          NoForkInBucket(all, link);
        }
      }
      return Some(Fork);
    }
    SmallBucketsMeanNoFork(all);
    failure := Walk(store, all, byPrev, roots[0]);
  }
}
