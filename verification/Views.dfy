/** What loaded edges say about each other and to the accessors. */
module Views {
  import opened Wrappers
  import opened Lists
  import opened Records
  import opened Store
  import opened Queries
  import opened Nodes
  import opened Distribute
  import opened Joins
  import opened Batches
  import opened Shapes
  import opened Meaning

  /** The list has a node of the given id. */
  ghost predicate Has(list: seq<Node>, id: int)
    reads SetOf(list)
  {
    exists i :: 0 <= i < |list| && list[i].rec.id == id
  }

  /** One edge of the nodes of a query, as it has been loaded. */
  datatype Side = Side(e: Edge, k: nat, S: Tree, rows: seq<Row>, nodes: seq<Node>, sh: Shape)

  /** It was loaded from rows of the table of an entity, and no window has cut its batch. */
  ghost predicate LoadedWhole(v: Env, x: Side, entity: string)
    reads SetOf(x.nodes), NodesIn(x.sh)
  {
    && Fresh(v, x.e, x.S) && ShowsEdge(v, x.e, x.k, x.S, x.rows, x.nodes, x.sh) && EdgeUncut(v, x.e, x.S, x.rows)
    && forall row <- x.rows :: row in Table(v.db, entity)
  }

  /** Who is in the list of a node: exactly the linked and selected rows, if the node's row is served. */
  lemma ListDealt(v: Env, x: Side, entity: string, i: nat, m: Row)
    requires EnvOK(v) && LoadedWhole(v, x, entity) && !x.e.M2O? && i < |x.rows| && m in Table(v.db, x.e.target)
    requires ServedEdge(v, x.e, x.S, x.rows, i)
    ensures Has(x.nodes[i].edges[x.k].many, m.id)
       <==> Related(v.db, x.e, x.rows[i], m) && AllHold(x.S.predicates, m)
  {
    hide EnvOK, Shows, EdgeUncut, Related, AllHold, EdgeBatch, EdgeOwners;
    var list, batch := x.nodes[i].edges[x.k].many, EdgeBatch(v, x.e, x.S, x.rows);
    if IsLast(KeysOfRows(x.rows), i) {
      var at := ListPicks(v, x.e, x.k, x.S, x.rows, x.nodes, x.sh, i);
      BatchRows(v, x.e, x.S, x.rows);
      BatchComplete(v, x.e, x.S, x.rows, i);
      TableUnique(v, x.e.target);
      if p :| 0 <= p < |list| && list[p].rec.id == m.id {
        SameRow(Table(v.db, x.e.target), batch[at[p]], m);
      }
      if Related(v.db, x.e, x.rows[i], m) && AllHold(x.S.predicates, m) {
        var j :| 0 <= j < |batch| && batch[j] == m;
        var p :| 0 <= p < |at| && at[p] == j;
        assert list[p].rec.id == m.id;
      }
    } else {
      JoinedHas(v, x.e, x.rows[i], x.S, m);
    }
  }

  lemma JoinedHas(v: Env, e: Edge, owner: Row, S: Tree, m: Row)
    requires m in Table(v.db, e.target)
    ensures Related(v.db, e, owner, m) && AllHold(S.predicates, m) ==> m.id in Joined(v, e, owner, S)
  {
  }

  /** Which row the unique edge of a node has: the linked one, if it is selected. */
  lemma OneIs(v: Env, x: Side, entity: string, i: nat, m: Row)
    requires EnvOK(v) && LoadedWhole(v, x, entity) && x.e.M2O? && i < |x.rows| && m in Table(v.db, x.e.target)
    ensures var one := x.nodes[i].edges[x.k].one;
            one.Some? && one.value.rec.id == m.id <==> Related(v.db, x.e, x.rows[i], m) && AllHold(x.S.predicates, m)
  {
    hide EnvOK, Shows, EdgeUncut, AllHold;
    OneDealt(v, x.e, x.k, x.S, x.rows, x.nodes, x.sh, i);
    TableUnique(v, x.e.target);
    var one := x.nodes[i].edges[x.k].one;
    if one.Some? && one.value.rec.id == m.id {
      var r :| r in Table(v.db, x.e.target) && CellAt(x.rows[i], x.e.column) == Int(r.id) && AllHold(x.S.predicates, r);
      SameRow(Table(v.db, x.e.target), r, m);
    }
  }

  /** The two edges are the two directions of one join table. */
  predicate Inverse(e: Edge, f: Edge) {
    e.M2M? && f.M2M? && e.table == f.table && e.swapped != f.swapped
  }

  /** Loaded from either side, a join table gives the same links: b is in a's list iff a is in b's list, up to what
      the two sub-queries filter out. */
  lemma JoinViewsAgree(v: Env, x: Side, y: Side, i: nat, j: nat)
    requires EnvOK(v) && Inverse(x.e, y.e) && LoadedWhole(v, x, y.e.target) && LoadedWhole(v, y, x.e.target)
    requires i < |x.rows| && ServedEdge(v, x.e, x.S, x.rows, i)
    requires j < |y.rows| && ServedEdge(v, y.e, y.S, y.rows, j)
    ensures Has(x.nodes[i].edges[x.k].many, y.rows[j].id) && AllHold(y.S.predicates, x.rows[i])
       <==> Has(y.nodes[j].edges[y.k].many, x.rows[i].id) && AllHold(x.S.predicates, y.rows[j])
  {
    hide EnvOK, Fresh, ShowsEdge, EdgeUncut, ServedEdge, AllHold;
    ListDealt(v, x, y.e.target, i, y.rows[j]);
    ListDealt(v, y, x.e.target, j, x.rows[i]);
  }

  /** The two sides of one foreign key agree: the child is in the parent's list iff the parent is the child's unique
      edge, up to what the two sub-queries filter out. */
  lemma KeyViewsAgree(v: Env, x: Side, y: Side, i: nat, j: nat)
    requires EnvOK(v) && x.e.O2M? && y.e.M2O? && x.e.column == y.e.column
    requires LoadedWhole(v, x, y.e.target) && LoadedWhole(v, y, x.e.target)
    requires i < |x.rows| && ServedEdge(v, x.e, x.S, x.rows, i) && j < |y.rows|
    ensures var one := y.nodes[j].edges[y.k].one;
            (Has(x.nodes[i].edges[x.k].many, y.rows[j].id) && AllHold(y.S.predicates, x.rows[i])
             <==> one.Some? && one.value.rec.id == x.rows[i].id && AllHold(x.S.predicates, y.rows[j]))
  {
    hide EnvOK, Fresh, ShowsEdge, EdgeUncut, ServedEdge, AllHold;
    ListDealt(v, x, y.e.target, i, y.rows[j]);
    OneIs(v, y, x.e.target, j, x.rows[i]);
  }

  // ---- accessors ----

  /** ProxyOrErr and its siblings for unique edges. */
  function OneOrErr(slot: Slot, loaded: bool): Result<Node, Error> {
    if slot.one.Some? then Ok(slot.one.value)
    else if loaded then Err(NotFound)
    else Err(NotLoaded)
  }

  /** GroupsOrErr and its siblings for list edges. */
  function ManyOrErr(slot: Slot, loaded: bool): Result<seq<Node>, Error> {
    if loaded then Ok(slot.many) else Err(NotLoaded)
  }

  /** The key of the row names a row that the sub-query selects. */
  ghost predicate Selects(v: Env, e: Edge, row: Row, sub: Tree)
    requires e.M2O?
  {
    exists m <- Table(v.db, e.target) :: CellAt(row, e.column) == Int(m.id) && AllHold(sub.predicates, m)
  }

  /** On any loaded node, repeats of a key included, the accessor of a unique edge returns NotLoaded exactly if the edge
      was not requested, and what it returns is the row that the key names. If no window cuts the batch, it returns
      NotFound exactly when the key is nil or names no row that the sub-query selects. */
  lemma UniqueAccessor(v: Env, t: Tree, fks: bool, rows: seq<Row>, sh: Shape, k: nat, i: nat)
    requires EnvOK(v) && SubsFit(v, t) && Shows(v, t, fks, rows, sh)
    requires k < |t.subs| && v.schema[t.entity].edges[k].M2O? && i < |rows|
    ensures var e := v.schema[t.entity].edges[k];
            var n := sh.nodes[i];
            var r := OneOrErr(n.edges[k], n.loaded[k]);
            && (r == Err(NotLoaded) <==> t.subs[k].None?)
            && (r.Ok? ==> t.subs[k].Some? && Selects(v, e, rows[i], t.subs[k].value))
            && (r.Ok? ==> CellAt(rows[i], e.column) == Int(r.value.rec.id))
            && (t.subs[k].Some? && EdgeUncut(v, e, t.subs[k].value, rows) ==>
                  && (r.Ok? <==> Selects(v, e, rows[i], t.subs[k].value))
                  && (r == Err(NotFound) <==> !Selects(v, e, rows[i], t.subs[k].value)))
  {
    hide ShowsEdge, EnvOK, EdgeUncut, Selects, FitsSchema, NodeColumns;
    var e := v.schema[t.entity].edges[k];
    if t.subs[k].Some? {
      ShownEdge(v, t, fks, rows, sh, k);
      OneDealt(v, e, k, t.subs[k].value, rows, sh.nodes, sh.below[k].value, i);
    }
  }

  /** What a unique edge holds. */
  lemma OneDealt(v: Env, e: Edge, k: nat, S: Tree, rows: seq<Row>, nodes: seq<Node>, sh: Shape, i: nat)
    requires EnvOK(v) && Fresh(v, e, S) && e.M2O? && ShowsEdge(v, e, k, S, rows, nodes, sh) && i < |rows|
    ensures var one := nodes[i].edges[k].one;
            && (one.Some? ==> Selects(v, e, rows[i], S) && CellAt(rows[i], e.column) == Int(one.value.rec.id))
            && (EdgeUncut(v, e, S, rows) && Selects(v, e, rows[i], S) ==> one.Some?)
  {
    hide Shows, EnvOK, EdgeBatch, EdgeUncut, UniqueIDs, Sorted, AllHold;
    var batch, neighbors := EdgeBatch(v, e, S, rows), sh.nodes;
    var ids := KeysOfRows(batch);
    BatchRows(v, e, S, rows);
    TableUnique(v, e.target);
    ShownRead(v, S, false, batch, sh);
    ReadIDs(v, S, false, batch, neighbors);
    var key := RowKey(e.column, rows[i]);
    if key.Some? && key.value in ids {
      var q := LastIndex(ids, key.value);
      assert IDsOf(neighbors)[q] == ids[q] == batch[q].id;
    }
    if EdgeUncut(v, e, S, rows) && Selects(v, e, rows[i], S) {
      SelectedThere(v, e, S, rows, i);
    }
  }

  /** The row that a key names is in a batch that is not cut. */
  lemma SelectedThere(v: Env, e: Edge, S: Tree, rows: seq<Row>, i: nat)
    requires EnvOK(v) && Fresh(v, e, S) && e.M2O? && i < |rows|
    requires EdgeUncut(v, e, S, rows) && Selects(v, e, rows[i], S)
    ensures var key := RowKey(e.column, rows[i]);
            key.Some? && key.value in KeysOfRows(EdgeBatch(v, e, S, rows))
  {
    hide EnvOK, EdgeBatch, EdgeUncut, AllHold;
    var batch := EdgeBatch(v, e, S, rows);
    BatchComplete(v, e, S, rows, i);
    var m :| m in Table(v.db, e.target) && CellAt(rows[i], e.column) == Int(m.id) && AllHold(S.predicates, m);
    var q :| 0 <= q < |batch| && batch[q] == m;
    assert KeysOfRows(batch)[q] == m.id;
  }

  /** On any loaded node the accessor of a list edge fails exactly if the edge was not requested. Otherwise, if no
      window cuts the batch of this edge, it returns exactly the joined neighbours, once each, if and only if the node's
      row is served; if it is not, it returns no neighbours. */
  lemma ListAccessor(v: Env, t: Tree, fks: bool, rows: seq<Row>, sh: Shape, k: nat, i: nat)
    requires EnvOK(v) && SubsFit(v, t) && Shows(v, t, fks, rows, sh)
    requires k < |t.subs| && !v.schema[t.entity].edges[k].M2O? && i < |rows|
    ensures var e := v.schema[t.entity].edges[k];
            var n := sh.nodes[i];
            var r := ManyOrErr(n.edges[k], n.loaded[k]);
            && (r == Err(NotLoaded) <==> t.subs[k].None?)
            && (t.subs[k].Some? ==> r.Ok? && NoDup(IDsOf(r.value)))
            && (t.subs[k].Some? && EdgeUncut(v, e, t.subs[k].value, rows) ==>
                  var S := t.subs[k].value;
                  && (ServedEdge(v, e, S, rows, i) <==> IDsIn(r.value) == Joined(v, e, rows[i], S))
                  && (ServedEdge(v, e, S, rows, i) ==> |r.value| == |Joined(v, e, rows[i], S)|)
                  && (!ServedEdge(v, e, S, rows, i) ==> r.value == []))
  {
    hide ShowsEdge, EnvOK, EdgeUncut, FitsSchema, NodeColumns, Joined, NoDup;
    var e := v.schema[t.entity].edges[k];
    if t.subs[k].Some? {
      ShownEdge(v, t, fks, rows, sh, k);
      ManyDealt(v, e, k, t.subs[k].value, rows, sh.nodes, sh.below[k].value, i);
    }
  }

  function IDsIn(nodes: seq<Node>): set<int>
    reads SetOf(nodes)
  {
    set n | n in nodes :: n.rec.id
  }

  /** What a list edge holds. */
  lemma ManyDealt(v: Env, e: Edge, k: nat, S: Tree, rows: seq<Row>, nodes: seq<Node>, sh: Shape, i: nat)
    requires EnvOK(v) && Fresh(v, e, S) && !e.M2O? && ShowsEdge(v, e, k, S, rows, nodes, sh) && i < |rows|
    ensures var list := nodes[i].edges[k].many;
            && NoDup(IDsOf(list))
            && (EdgeUncut(v, e, S, rows) ==>
                  && (ServedEdge(v, e, S, rows, i) <==> IDsIn(list) == Joined(v, e, rows[i], S))
                  && (ServedEdge(v, e, S, rows, i) ==> |list| == |Joined(v, e, rows[i], S)|)
                  && (!ServedEdge(v, e, S, rows, i) ==> list == []))
  {
    hide EnvOK, Shows, EdgeUncut, Related, AllHold, EdgeBatch, EdgeOwners, Joined;
    var list := nodes[i].edges[k].many;
    if IsLast(KeysOfRows(rows), i) {
      var at := ListPicks(v, e, k, S, rows, nodes, sh, i);
      BatchRows(v, e, S, rows);
      if EdgeUncut(v, e, S, rows) {
        JoinedPicked(v, e, k, S, rows, nodes, sh, i, at);
      }
    }
    DistinctCount(IDsOf(list));
    assert IDsIn(list) == set x | x in IDsOf(list) by {
      SameIDs(list);
    }
  }

  lemma SameIDs(list: seq<Node>)
    ensures IDsIn(list) == set x | x in IDsOf(list)
  {
    forall x ensures x in IDsIn(list) <==> x in IDsOf(list) {
      if n :| n in list && n.rec.id == x {
        var p :| 0 <= p < |list| && list[p] == n;
        assert IDsOf(list)[p] == x;
      }
      if x in IDsOf(list) {
        var p :| 0 <= p < |list| && IDsOf(list)[p] == x;
        assert list[p] in list;
      }
    }
  }

  lemma JoinedPicked(v: Env, e: Edge, k: nat, S: Tree, rows: seq<Row>, nodes: seq<Node>, sh: Shape, i: nat,
                     at: seq<nat>)
    requires EnvOK(v) && Fresh(v, e, S) && !e.M2O? && ShowsEdge(v, e, k, S, rows, nodes, sh) && i < |rows|
    requires EdgeUncut(v, e, S, rows) && |sh.nodes| == |EdgeBatch(v, e, S, rows)|
    requires PicksOwned(sh.nodes, EdgeOwners(v, e, S, rows), rows[i].id, nodes[i].edges[k].many, at)
    requires forall p :: 0 <= p < |at| ==> nodes[i].edges[k].many[p].rec.id == EdgeBatch(v, e, S, rows)[at[p]].id
    ensures IDsIn(nodes[i].edges[k].many) == Joined(v, e, rows[i], S)
  {
    hide EnvOK, Shows, EdgeUncut, Related, AllHold, EdgeBatch, EdgeOwners;
    var list, batch := nodes[i].edges[k].many, EdgeBatch(v, e, S, rows);
    BatchRows(v, e, S, rows);
    BatchComplete(v, e, S, rows, i);
    forall id | id in Joined(v, e, rows[i], S) ensures id in IDsIn(list) {
      var m :| m in Table(v.db, e.target) && Related(v.db, e, rows[i], m) && AllHold(S.predicates, m) && m.id == id;
      var j :| 0 <= j < |batch| && batch[j] == m;
      var p :| 0 <= p < |at| && at[p] == j;
      assert list[p] in list;
    }
    forall id | id in IDsIn(list) ensures id in Joined(v, e, rows[i], S) {
      var p :| 0 <= p < |list| && list[p].rec.id == id;
    }
  }

  lemma {:induction false} DistinctCount(ids: seq<int>)
    requires NoDup(ids)
    ensures |set x | x in ids| == |ids|
  {
    if ids != [] {
      var n := |ids| - 1;
      DistinctCount(ids[..n]);
      assert ids[n] !in ids[..n];
      assert (set x | x in ids) == (set x | x in ids[..n]) + {ids[n]};
    }
  }

  // ---- conservation ----

  /** The lists of the given owners one after the other. */
  function AllShares<T>(ids: seq<int>, xs: seq<T>, owners: seq<set<int>>): seq<T>
    requires |xs| == |owners|
  {
    if ids == [] then [] else Share(xs, owners, ids[0]) + AllShares(ids[1..], xs, owners)
  }

  /** Each neighbour's only owner. */
  function Singles(keys: seq<int>): (owners: seq<set<int>>)
    ensures |owners| == |keys| && forall j :: 0 <= j < |keys| ==> owners[j] == {keys[j]}
  {
    seq(|keys|, j requires 0 <= j < |keys| => {keys[j]})
  }

  lemma {:induction false} SharesStep<T>(ids: seq<int>, xs: seq<T>, owners: seq<set<int>>, id: int)
    requires |xs| == |owners| > 0 && NoDup(ids) && owners[|xs| - 1] == {id}
    ensures var n := |xs| - 1;
            multiset(AllShares(ids, xs, owners))
            == multiset(AllShares(ids, xs[..n], owners[..n])) + (if id in ids then multiset{xs[n]} else multiset{})
  {
    if ids != [] {
      SharesStep(ids[1..], xs, owners, id);
      assert ids == [ids[0]] + ids[1..];
    }
  }

  /** An O2M hand-out loses and repeats nothing: when every neighbour's key is one of the owners, the owners' lists
      together are the neighbours, each of them once. */
  lemma {:induction false} HandOutConserves<T>(ids: seq<int>, xs: seq<T>, keys: seq<int>)
    requires |xs| == |keys| && NoDup(ids) && forall key <- keys :: key in ids
    ensures multiset(AllShares(ids, xs, Singles(keys))) == multiset(xs)
    ensures |AllShares(ids, xs, Singles(keys))| == |xs|
    decreases |xs|, 1
  {
    hide AllShares;
    if xs == [] {
      NoShares(ids, xs, Singles(keys));
    } else {
      HandOutLast(ids, xs, keys);
    }
    SameLength(AllShares(ids, xs, Singles(keys)), xs);
  }

  lemma {:induction false} HandOutLast<T>(ids: seq<int>, xs: seq<T>, keys: seq<int>)
    requires |xs| == |keys| > 0 && NoDup(ids) && forall key <- keys :: key in ids
    ensures multiset(AllShares(ids, xs, Singles(keys))) == multiset(xs)
    decreases |xs|, 0
  {
    hide AllShares;
    var n := |xs| - 1;
    assert keys[n] in keys && forall key <- keys[..n] :: key in keys;
    HandOutConserves(ids, xs[..n], keys[..n]);
    assert Singles(keys)[..n] == Singles(keys[..n]);
    SharesStep(ids, xs, Singles(keys), keys[n]);
    assert multiset(xs) == multiset(xs[..n]) + multiset{xs[n]} by {
      assert xs == xs[..n] + [xs[n]];
    }
  }

  lemma SameLength<T>(a: seq<T>, b: seq<T>)
    requires multiset(a) == multiset(b)
    ensures |a| == |b|
  {
    assert |a| == |multiset(a)| && |b| == |multiset(b)|;
  }

  lemma {:induction false} NoShares<T>(ids: seq<int>, xs: seq<T>, owners: seq<set<int>>)
    requires |xs| == |owners| == 0
    ensures AllShares(ids, xs, owners) == []
  {
    if ids != [] {
      NoShares(ids[1..], xs, owners);
    }
  }

  /** One list after the other. */
  function Concat<T>(lists: seq<seq<T>>): (all: seq<T>) {
    if lists == [] then [] else lists[0] + Concat(lists[1..])
  }

  /** The ids without repeats, each at its last occurrence. */
  function LastIDs(ids: seq<int>): seq<int> {
    if ids == [] then []
    else (if ids[0] in ids[1..] then [] else [ids[0]]) + LastIDs(ids[1..])
  }

  lemma {:induction false} LastIDsListed(ids: seq<int>)
    ensures NoDup(LastIDs(ids)) && forall id :: id in LastIDs(ids) <==> id in ids
  {
    if ids != [] {
      LastIDsListed(ids[1..]);
      assert ids == [ids[0]] + ids[1..];
    }
  }

  /** Lists that only the last of equal ids has, one after the other. */
  lemma {:induction false} ConcatShares<T>(ids: seq<int>, lists: seq<seq<T>>, xs: seq<T>, owners: seq<set<int>>)
    requires |lists| == |ids| && |xs| == |owners|
    requires forall i :: 0 <= i < |ids| ==> lists[i] == if IsLast(ids, i) then Share(xs, owners, ids[i]) else []
    ensures Concat(lists) == AllShares(LastIDs(ids), xs, owners)
  {
    hide Share, IsLast, LastIDs;
    if ids == [] {
      assert LastIDs(ids) == [] by {
        LastIDsHead(ids);
      }
    } else {
      IsLastTail(ids);
      LastIDsHead(ids);
      ConcatShares(ids[1..], lists[1..], xs, owners);
      var last := LastIDs(ids);
      if ids[0] in ids[1..] {
        assert lists[0] == [] && last == LastIDs(ids[1..]);
      } else {
        assert last[0] == ids[0] && last[1..] == LastIDs(ids[1..]);
      }
    }
  }

  lemma LastIDsHead(ids: seq<int>)
    ensures ids == [] ==> LastIDs(ids) == []
    ensures ids != [] ==> LastIDs(ids) == (if ids[0] in ids[1..] then [] else [ids[0]]) + LastIDs(ids[1..])
  {
  }

  lemma IsLastTail(ids: seq<int>)
    requires ids != []
    ensures IsLast(ids, 0) <==> ids[0] !in ids[1..]
    ensures forall i :: 0 <= i < |ids| - 1 ==> (IsLast(ids[1..], i) <==> IsLast(ids, i + 1))
  {
    if ids[0] in ids[1..] {
      var j :| 0 <= j < |ids[1..]| && ids[1..][j] == ids[0];
      assert ids[j + 1] == ids[0];
    }
    forall i | 0 <= i < |ids| - 1 ensures IsLast(ids[1..], i) <==> IsLast(ids, i + 1) {
      assert forall j :: i < j < |ids[1..]| ==> ids[1..][j] == ids[j + 1];
      assert forall j :: i + 1 < j < |ids| ==> ids[j] == ids[1..][j - 1];
    }
  }

  function ManyOf(k: nat, nodes: seq<Node>): (lists: seq<seq<Node>>)
    reads SetOf(nodes)
    ensures |lists| == |nodes|
    ensures forall i :: 0 <= i < |nodes| && k < |nodes[i].edges| ==> lists[i] == nodes[i].edges[k].many
  {
    seq(|nodes|, i requires 0 <= i < |nodes| reads SetOf(nodes) =>
          if k < |nodes[i].edges| then nodes[i].edges[k].many else [])
  }

  /** A loaded O2M edge loses and repeats nothing, however often its owners repeat: the lists of the nodes, one after
      the other, are the neighbours that the loader queried for, each of them once. */
  lemma LoadConserves(v: Env, e: Edge, k: nat, S: Tree, rows: seq<Row>, nodes: seq<Node>, sh: Shape)
    requires EnvOK(v) && Fresh(v, e, S) && e.O2M? && ShowsEdge(v, e, k, S, rows, nodes, sh)
    ensures NoDup(sh.nodes) && forall i :: 0 <= i < |nodes| ==> k < |nodes[i].edges|
    ensures multiset(Concat(ManyOf(k, nodes))) == multiset(sh.nodes)
    ensures |Concat(ManyOf(k, nodes))| == |sh.nodes|
  {
    hide Shows, EnvOK, EdgeBatch, Share, AllShares, LastIDs, UniqueIDs, Sorted, AllHold;
    var batch, ids := EdgeBatch(v, e, S, rows), KeysOfRows(rows);
    ShownRead(v, S, true, batch, sh);
    BatchRows(v, e, S, rows);
    var keys := seq(|batch|, j requires 0 <= j < |batch| => RowKey(e.column, batch[j]).value);
    assert EdgeOwners(v, e, S, rows) == Singles(keys);
    ConcatShares(ids, ManyOf(k, nodes), sh.nodes, Singles(keys));
    LastIDsListed(ids);
    HandOutConserves(LastIDs(ids), sh.nodes, keys);
  }

  /** And so every neighbour is in the list of exactly one node. */
  lemma OneParent(v: Env, e: Edge, k: nat, S: Tree, rows: seq<Row>, nodes: seq<Node>, sh: Shape, j: nat)
    returns (i: nat)
    requires EnvOK(v) && Fresh(v, e, S) && e.O2M? && ShowsEdge(v, e, k, S, rows, nodes, sh) && j < |sh.nodes|
    ensures i < |nodes| && sh.nodes[j] in nodes[i].edges[k].many
    ensures forall h :: 0 <= h < |nodes| && h != i ==> sh.nodes[j] !in nodes[h].edges[k].many
  {
    hide Shows, EnvOK, EdgeBatch, Share, UniqueIDs, Sorted, AllHold;
    var batch, ids, neighbors := EdgeBatch(v, e, S, rows), KeysOfRows(rows), sh.nodes;
    ShownRead(v, S, true, batch, sh);
    i := NeighbourOwner(v, e, S, rows, j);
    var owners := EdgeOwners(v, e, S, rows);
    SharedWith(neighbors, owners, rows[i].id, j);
    forall h | 0 <= h < |nodes| && h != i ensures neighbors[j] !in nodes[h].edges[k].many {
      if IsLast(ids, h) {
        assert ids[h] == rows[h].id && ids[i] == rows[i].id && ids[h] != ids[i];
        SharedWith(neighbors, owners, rows[h].id, j);
      }
    }
  }

  lemma SharedWith<T>(xs: seq<T>, owners: seq<set<int>>, id: int, j: nat)
    requires |xs| == |owners| && NoDup(xs) && j < |xs|
    ensures xs[j] in Share(xs, owners, id) <==> id in owners[j]
  {
    var share := Share(xs, owners, id);
    var at := ShareIndices(xs, owners, id);
    if id in owners[j] {
      var p :| 0 <= p < |at| && at[p] == j;
      assert share[p] == xs[j];
    }
    if xs[j] in share {
      var p :| 0 <= p < |share| && share[p] == xs[j];
      assert xs[at[p]] == xs[j];
    }
  }

  // ---- shared neighbours ----

  /** The positions in the batch of the neighbours that a node has. */
  lemma ListPicks(v: Env, e: Edge, k: nat, S: Tree, rows: seq<Row>, nodes: seq<Node>, sh: Shape, i: nat)
    returns (at: seq<nat>)
    requires EnvOK(v) && Fresh(v, e, S) && !e.M2O? && ShowsEdge(v, e, k, S, rows, nodes, sh)
    requires i < |nodes| && IsLast(KeysOfRows(rows), i)
    ensures |sh.nodes| == |EdgeBatch(v, e, S, rows)|
    ensures PicksOwned(sh.nodes, EdgeOwners(v, e, S, rows), rows[i].id, nodes[i].edges[k].many, at)
    ensures forall p :: 0 <= p < |at| ==> nodes[i].edges[k].many[p].rec.id == EdgeBatch(v, e, S, rows)[at[p]].id
  {
    hide Shows, EnvOK, EdgeBatch, Share, EdgeOwners;
    var batch := EdgeBatch(v, e, S, rows);
    TableUnique(v, e.target);
    ShownRead(v, S, e.O2M?, batch, sh);
    ReadIDs(v, S, e.O2M?, batch, sh.nodes);
    at := ShareIndices(sh.nodes, EdgeOwners(v, e, S, rows), rows[i].id);
    forall p | 0 <= p < |at| ensures sh.nodes[at[p]].rec.id == batch[at[p]].id {
      assert IDsOf(sh.nodes)[at[p]] == KeysOfRows(batch)[at[p]];
    }
  }

  /** However many owners a neighbour has, it is one object in all their lists. */
  lemma OneObject(v: Env, e: Edge, k: nat, S: Tree, rows: seq<Row>, nodes: seq<Node>, sh: Shape,
                  i: nat, p: nat, j: nat, q: nat)
    requires EnvOK(v) && Fresh(v, e, S) && !e.M2O? && ShowsEdge(v, e, k, S, rows, nodes, sh)
    requires i < |nodes| && p < |nodes[i].edges[k].many| && j < |nodes| && q < |nodes[j].edges[k].many|
    requires nodes[i].edges[k].many[p].rec.id == nodes[j].edges[k].many[q].rec.id
    ensures nodes[i].edges[k].many[p] == nodes[j].edges[k].many[q]
  {
    hide Shows, EnvOK, EdgeBatch, Share, Sorted, AllHold, EdgeOwners;
    BatchRows(v, e, S, rows);
    var a := ListPicks(v, e, k, S, rows, nodes, sh, i);
    var b := ListPicks(v, e, k, S, rows, nodes, sh, j);
    assert a[p] == b[q];
  }

  /** Where an id first occurs in a stream. */
  function FirstAt(ts: seq<Tuple>, id: int): (i: nat)
    requires SeenID(ts, id)
    ensures i < |ts| && ts[i].row.id == id
    ensures forall j :: 0 <= j < i ==> ts[j].row.id != id
  {
    var n := |ts| - 1;
    if SeenID(ts[..n], id) then FirstAt(ts[..n], id)
    else
      assert ts == ts[..n] + [ts[n]];
      n
  }

  /** The rows occur in the stream, the earlier ones first. */
  ghost predicate InFirstOrder(ts: seq<Tuple>, rows: seq<Row>) {
    && (forall i :: 0 <= i < |rows| ==> SeenID(ts, rows[i].id))
    && forall i, j :: 0 <= i < j < |rows| ==> FirstAt(ts, rows[i].id) < FirstAt(ts, rows[j].id)
  }

  lemma {:induction false} FirstRowsOrder(ts: seq<Tuple>)
    ensures InFirstOrder(ts, FirstRows(ts))
  {
    if ts != [] {
      hide FirstAt, SeenID, FirstRows;
      var n := |ts| - 1;
      var before := FirstRows(ts[..n]);
      FirstRowsOrder(ts[..n]);
      forall i | 0 <= i < |before|
        ensures SeenID(ts, before[i].id) && FirstAt(ts, before[i].id) == FirstAt(ts[..n], before[i].id) < n
      {
        FirstAtPrefix(ts, before[i].id);
      }
      FirstAtLast(ts);
      assert FirstRows(ts) == before + (if SeenID(ts[..n], ts[n].row.id) then [] else [ts[n].row]) by {
        FirstRowsLast(ts);
      }
    }
  }

  lemma FirstRowsLast(ts: seq<Tuple>)
    requires ts != []
    ensures var n := |ts| - 1;
            FirstRows(ts) == FirstRows(ts[..n]) + (if SeenID(ts[..n], ts[n].row.id) then [] else [ts[n].row])
  {
  }

  lemma FirstAtPrefix(ts: seq<Tuple>, id: int)
    requires ts != [] && SeenID(ts[..|ts| - 1], id)
    ensures SeenID(ts, id) && FirstAt(ts, id) == FirstAt(ts[..|ts| - 1], id)
  {
  }

  lemma FirstAtLast(ts: seq<Tuple>)
    requires ts != []
    ensures var n := |ts| - 1;
            SeenID(ts, ts[n].row.id) && (!SeenID(ts[..n], ts[n].row.id) ==> FirstAt(ts, ts[n].row.id) == n)
  {
    assert ts[|ts| - 1] in ts;
  }

  /** The list of an M2M owner, window or not: the rows that the stream pairs with it, once each and in the order of
      their first occurrence in the whole stream; nothing if a later row repeats the owner's key. */
  lemma FirstOccurrenceOrder(v: Env, e: Edge, k: nat, S: Tree, rows: seq<Row>, nodes: seq<Node>, sh: Shape, i: nat)
    requires EnvOK(v) && Fresh(v, e, S) && e.M2M? && ShowsEdge(v, e, k, S, rows, nodes, sh) && i < |nodes|
    ensures var ts, list := EdgeStream(v, e, S, rows), nodes[i].edges[k].many;
            && (!IsLast(KeysOfRows(rows), i) ==> list == [])
            && (IsLast(KeysOfRows(rows), i) ==>
                  forall id :: id in IDsOf(list) <==> exists t <- ts :: t.key == Some(rows[i].id) && t.row.id == id)
            && (forall p :: 0 <= p < |list| ==> SeenID(ts, list[p].rec.id))
            && (forall p, q :: 0 <= p < q < |list| ==> FirstAt(ts, list[p].rec.id) < FirstAt(ts, list[q].rec.id))
  {
    hide Shows, EnvOK, Share, Sorted, AllHold, EdgeStream, SeenID, FirstRows, UniqueIDs;
    var ts, batch, list := EdgeStream(v, e, S, rows), EdgeBatch(v, e, S, rows), nodes[i].edges[k].many;
    if IsLast(KeysOfRows(rows), i) {
      var at := ListPicks(v, e, k, S, rows, nodes, sh, i);
      FirstRowsOrder(ts);
      forall id ensures id in IDsOf(list) <==> exists t <- ts :: t.key == Some(rows[i].id) && t.row.id == id {
        PairedIDs(ts, rows[i].id, id, batch, StreamOwnerIDs(ts), at);
        assert forall p :: 0 <= p < |list| ==> IDsOf(list)[p] == batch[at[p]].id;
      }
    }
  }

  /** The owned positions are those of the ids paired with the owner. */
  lemma PairedIDs(ts: seq<Tuple>, owner: int, id: int, batch: seq<Row>, owners: seq<set<int>>, at: seq<nat>)
    requires batch == FirstRows(ts) && owners == StreamOwnerIDs(ts)
    requires forall p :: 0 <= p < |at| ==> at[p] < |batch| && owner in owners[at[p]]
    requires forall x: nat :: x < |batch| && owner in owners[x] ==> x in at
    ensures (exists p :: 0 <= p < |at| && batch[at[p]].id == id) <==>
        exists t <- ts :: t.key == Some(owner) && t.row.id == id
  {
    hide FirstRows;
    if t :| t in ts && t.key == Some(owner) && t.row.id == id {
      FirstRowsCover(ts, id);
      var r :| r in FirstRows(ts) && r.id == id;
      var x :| 0 <= x < |batch| && batch[x] == r;
      assert owner in owners[x];
      var p :| 0 <= p < |at| && at[p] == x;
    }
  }
}
