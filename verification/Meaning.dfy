/** Batched loading against the nested-loop join: when what is in memory is exactly what the joins call for. */
module Meaning {
  import opened Wrappers
  import opened Lists
  import opened Records
  import opened Store
  import opened Queries
  import opened Nodes
  import opened Distribute
  import opened Joins
  import opened Batches
  import opened Shapes

  /** The window of the edge's builder drops nothing of the batch that belongs to the given rows. */
  ghost predicate EdgeUncut(v: Env, e: Edge, S: Tree, rows: seq<Row>)
    requires S.entity in v.schema
  {
    Uncut(v.db, AllStatement(v.schema[S.entity], RunOf(e, S, rows)))
  }

  /** No window drops anything, at any depth, of what belongs to the rows. */
  ghost predicate Whole(v: Env, t: Tree, rows: seq<Row>)
    decreases t
  {
    && t.entity in v.schema
    && (rows != [] ==>
          forall k :: 0 <= k < |t.subs| && k < |v.schema[t.entity].edges| && t.subs[k].Some? ==>
            && t.subs[k].value.entity in v.schema
            && EdgeUncut(v, v.schema[t.entity].edges[k], t.subs[k].value, rows)
            && Whole(v, t.subs[k].value, EdgeBatch(v, v.schema[t.entity].edges[k], t.subs[k].value, rows)))
  }

  ghost predicate AllCarry(v: Env, t: Tree, fks: bool, rows: seq<Row>, nodes: seq<Node>, R: set<Node>)
    reads SetOf(nodes), R
  {
    |nodes| == |rows| && forall i :: 0 <= i < |rows| ==> Carries(v, nodes[i], rows[i], t, fks, R)
  }

  // ---- a whole batch gives every owner its edge ----

  lemma BatchOK(v: Env, e: Edge, S: Tree, rows: seq<Row>, neighbors: seq<Node>, R: set<Node>)
    requires EnvOK(v) && Fresh(v, e, S) && SetOf(neighbors) <= R
    requires Read(v, S, e.O2M?, EdgeBatch(v, e, S, rows), neighbors)
    requires AllCarry(v, S, e.O2M?, EdgeBatch(v, e, S, rows), neighbors, R)
    ensures Batch(v, e, S, EdgeBatch(v, e, S, rows), neighbors, R)
  {
    hide Carries, EdgeBatch;
    var batch := EdgeBatch(v, e, S, rows);
    BatchRows(v, e, S, rows);
    ReadIDs(v, S, e.O2M?, batch, neighbors);
    forall j | 0 <= j < |batch| ensures neighbors[j] in R && neighbors[j].rec.id == batch[j].id {
      assert neighbors[j] in SetOf(neighbors);
      assert IDsOf(neighbors)[j] == KeysOfRows(batch)[j];
    }
  }

  /** Nothing that belongs to one of the rows is missing from a batch that is not cut. */
  lemma BatchComplete(v: Env, e: Edge, S: Tree, rows: seq<Row>, i: nat)
    requires EnvOK(v) && Fresh(v, e, S) && EdgeUncut(v, e, S, rows) && i < |rows|
    ensures Complete(v, e, rows[i], S, EdgeBatch(v, e, S, rows))
    ensures !e.M2O? ==> forall j :: 0 <= j < |EdgeBatch(v, e, S, rows)| ==>
              (rows[i].id in EdgeOwners(v, e, S, rows)[j] <==> Related(v.db, e, rows[i], EdgeBatch(v, e, S, rows)[j]))
  {
    hide EnvOK, Run, Unwindowed, AllStatement, AllHold, Paired, FirstRows;
    var run, ts, batch := RunOf(e, S, rows), EdgeStream(v, e, S, rows), EdgeBatch(v, e, S, rows);
    RunNarrowed(v, e, S, rows);
    assert KeysOfRows(rows)[i] == rows[i].id;
    if e.M2M? {
      JoinedBatch(v, e, S, KeysOfRows(rows), run);
      TableUnique(v, e.target);
      StreamComplete(v, e, S, KeysOfRows(rows), ts, rows[i]);
      forall j | 0 <= j < |batch|
        ensures rows[i].id in EdgeOwners(v, e, S, rows)[j] <==> Related(v.db, e, rows[i], batch[j])
      {
        StreamOwners(v, e, S, KeysOfRows(rows), ts, rows[i], batch[j]);
      }
    } else {
      FilteredBatch(v, e, S, NarrowedBy(e, rows), run);
      if e.M2O? {
        FirstKeysListed(RowKeys(e.column, rows));
        assert RowKeys(e.column, rows)[i] == RowKey(e.column, rows[i]);
      }
    }
  }

  lemma TableUnique(v: Env, entity: string)
    requires EnvOK(v)
    ensures UniqueIDs(Table(v.db, entity)) && (entity in v.schema ==> EntityOK(v.schema[entity]))
  {
  }

  /** When nothing is cut and the neighbours carry what they should, exactly the served owners have their edge. */
  lemma EdgeServed(v: Env, e: Edge, k: nat, S: Tree, rows: seq<Row>, nodes: seq<Node>, neighbors: seq<Node>,
                   R: set<Node>, i: nat)
    requires EnvOK(v) && Fresh(v, e, S) && SetOf(neighbors) <= R && EdgeUncut(v, e, S, rows) && i < |rows|
    requires Read(v, S, e.O2M?, EdgeBatch(v, e, S, rows), neighbors)
    requires AllCarry(v, S, e.O2M?, EdgeBatch(v, e, S, rows), neighbors, R)
    requires Dealt(v, e, k, S, rows, nodes, neighbors)
    ensures EdgeOK(v, e, rows[i], S, nodes[i].edges[k], R) <==> ServedEdge(v, e, S, rows, i)
  {
    hide Carries, EdgeBatch, EdgeOwners, EnvOK, Complete, ListOK, OneOK, AllCarry;
    var batch := EdgeBatch(v, e, S, rows);
    BatchOK(v, e, S, rows, neighbors, R);
    BatchComplete(v, e, S, rows, i);
    TableUnique(v, e.target);
    if e.M2O? {
      hide Batch;
      forall m: Row ensures Related(v.db, e, rows[i], m) <==> RowKey(e.column, rows[i]) == Some(m.id) {
      }
      BatchIDs(v, e, S, batch, neighbors, R);
      OneFromBatch(v, e, rows[i], S, batch, neighbors, KeysOfRows(batch), RowKey(e.column, rows[i]), R);
    } else {
      var owners := EdgeOwners(v, e, S, rows);
      BatchIDs(v, e, S, batch, neighbors, R);
      hide Batch;
      ListFromBatch(v, e, rows[i], S, batch, neighbors, owners, R);
      if Joined(v, e, rows[i], S) == {} {
        NothingJoined(v, e, rows[i], S, nodes[i].edges[k].many, R);
      } else if !IsLast(KeysOfRows(rows), i) {
        EmptyMisses(v, e, rows[i], S, R);
      }
    }
  }

  lemma BatchIDs(v: Env, e: Edge, S: Tree, batch: seq<Row>, neighbors: seq<Node>, R: set<Node>)
    requires Batch(v, e, S, batch, neighbors, R)
    ensures |batch| == |neighbors|
  {
  }

  lemma NothingJoined(v: Env, e: Edge, owner: Row, S: Tree, list: seq<Node>, R: set<Node>)
    requires Joined(v, e, owner, S) == {}
    ensures ListOK(v, e, owner, S, list, R) <==> list == []
  {
    if list != [] && list[0].rec.id in Joined(v, e, owner, S) {
      assert false;
    }
  }

  lemma EmptyMisses(v: Env, e: Edge, owner: Row, S: Tree, R: set<Node>)
    requires Joined(v, e, owner, S) != {}
    ensures !ListOK(v, e, owner, S, [], R)
  {
    var id :| id in Joined(v, e, owner, S);
  }

  // ---- when every owner has its edge, the batch was whole ----

  ghost predicate AllEdgesOK(v: Env, e: Edge, k: nat, S: Tree, rows: seq<Row>, nodes: seq<Node>, R: set<Node>)
    reads SetOf(nodes), R
  {
    && |nodes| == |rows|
    && forall i :: 0 <= i < |rows| ==> k < |nodes[i].edges| && EdgeOK(v, e, rows[i], S, nodes[i].edges[k], R)
  }

  /** A neighbour of a row whose edge is right is in the batch, and for a list edge the row owns it there. */
  lemma NeighbourDealt(v: Env, e: Edge, k: nat, S: Tree, rows: seq<Row>, nodes: seq<Node>, neighbors: seq<Node>,
                       R: set<Node>,
                       i: nat, m: Row) returns (q: nat)
    requires EnvOK(v) && Fresh(v, e, S) && i < |rows|
    requires Read(v, S, e.O2M?, EdgeBatch(v, e, S, rows), neighbors)
    requires Dealt(v, e, k, S, rows, nodes, neighbors) && EdgeOK(v, e, rows[i], S, nodes[i].edges[k], R)
    requires m in Table(v.db, e.target) && Related(v.db, e, rows[i], m) && AllHold(S.predicates, m)
    ensures q < |EdgeBatch(v, e, S, rows)| && EdgeBatch(v, e, S, rows)[q] == m
    ensures !e.M2O? ==> rows[i].id in EdgeOwners(v, e, S, rows)[q]
  {
    hide Carries, EdgeBatch, EdgeOwners, EnvOK, AllHold, Sorted, NodeColumns;
    var batch := EdgeBatch(v, e, S, rows);
    TableUnique(v, e.target);
    BatchRows(v, e, S, rows);
    ReadIDs(v, S, e.O2M?, batch, neighbors);
    assert m.id in Joined(v, e, rows[i], S);
    if e.M2O? {
      q := LastIndex(KeysOfRows(batch), RowKey(e.column, rows[i]).value);
    } else {
      var list := nodes[i].edges[k].many;
      assert ListOK(v, e, rows[i], S, list, R);
      var p :| 0 <= p < |list| && list[p].rec.id == m.id;
      var at := ShareIndices(neighbors, EdgeOwners(v, e, S, rows), rows[i].id);
      q := at[p];
    }
    assert IDsOf(neighbors)[q] == KeysOfRows(batch)[q];
    SameRow(Table(v.db, e.target), m, batch[q]);
  }

  lemma OwnersUncut(v: Env, e: Edge, k: nat, S: Tree, rows: seq<Row>, nodes: seq<Node>, neighbors: seq<Node>,
                    R: set<Node>)
    requires EnvOK(v) && Fresh(v, e, S)
    requires Read(v, S, e.O2M?, EdgeBatch(v, e, S, rows), neighbors)
    requires Dealt(v, e, k, S, rows, nodes, neighbors) && AllEdgesOK(v, e, k, S, rows, nodes, R)
    ensures EdgeUncut(v, e, S, rows)
  {
    hide EdgeOK, EnvOK, Run, Unwindowed, AllStatement, Read, Dealt, FirstRows, Related, AllHold, EdgeBatch;
    var run := RunOf(e, S, rows);
    RunNarrowed(v, e, S, rows);
    var full, ts := Unwindowed(v.db, AllStatement(v.schema[S.entity], run)), EdgeStream(v, e, S, rows);
    forall t | t in full ensures t in ts {
      if e.M2M? {
        JoinedBatch(v, e, S, KeysOfRows(rows), run);
        var i := PairOwner(v, e, S, rows, t);
        var q := NeighbourDealt(v, e, k, S, rows, nodes, neighbors, R, i, t.row);
        PairThere(v, e, S, rows, q, t);
      } else {
        OpenBatch(v, e, S, NarrowedBy(e, rows), run);
        var i := FilterOwner(v, e, S, rows, t.row);
        var q := NeighbourDealt(v, e, k, S, rows, nodes, neighbors, R, i, t.row);
        RowThere(v, e, S, rows, q, t);
      }
    }
  }

  lemma PairOwner(v: Env, e: Edge, S: Tree, rows: seq<Row>, t: Tuple) returns (i: nat)
    requires e.M2M? && Paired(v, e, S, KeysOfRows(rows), t)
    ensures i < |rows| && t.key == Some(rows[i].id) && Related(v.db, e, rows[i], t.row)
    ensures t.row in Table(v.db, e.target) && AllHold(S.predicates, t.row)
  {
    hide AllHold;
    i :| 0 <= i < |rows| && KeysOfRows(rows)[i] == t.key.value;
  }

  lemma PairThere(v: Env, e: Edge, S: Tree, rows: seq<Row>, q: nat, t: Tuple)
    requires EnvOK(v) && Fresh(v, e, S) && e.M2M? && Paired(v, e, S, KeysOfRows(rows), t)
    requires q < |EdgeBatch(v, e, S, rows)| && EdgeBatch(v, e, S, rows)[q] == t.row
    requires t.key.value in EdgeOwners(v, e, S, rows)[q]
    ensures t in EdgeStream(v, e, S, rows)
  {
    hide AllHold, EnvOK, Run, Unwindowed, AllStatement;
    var ts := EdgeStream(v, e, S, rows);
    RunNarrowed(v, e, S, rows);
    JoinedBatch(v, e, S, KeysOfRows(rows), RunOf(e, S, rows));
    TableUnique(v, e.target);
    assert t.key.value in OwnerIDs(ts, t.row.id);
    var u :| u in ts && u.row.id == t.row.id && u.key == Some(t.key.value);
    PairedRow(v, e, S, KeysOfRows(rows), u);
    SameRow(Table(v.db, e.target), t.row, u.row);
  }

  lemma FilterOwner(v: Env, e: Edge, S: Tree, rows: seq<Row>, m: Row) returns (i: nat)
    requires !e.M2M? && Holds(NarrowedBy(e, rows), m)
    ensures i < |rows| && Related(v.db, e, rows[i], m)
  {
    if e.M2O? {
      FirstKeysListed(RowKeys(e.column, rows));
      i :| 0 <= i < |rows| && RowKeys(e.column, rows)[i] == Some(m.id);
    } else {
      i :| 0 <= i < |rows| && KeysOfRows(rows)[i] == CellAt(m, e.column).i;
    }
  }

  lemma RowThere(v: Env, e: Edge, S: Tree, rows: seq<Row>, q: nat, t: Tuple)
    requires EnvOK(v) && Fresh(v, e, S) && !e.M2M? && t.key == None
    requires q < |EdgeBatch(v, e, S, rows)| && EdgeBatch(v, e, S, rows)[q] == t.row
    ensures t in EdgeStream(v, e, S, rows)
  {
    hide AllHold, EnvOK, Run, Unwindowed, AllStatement, Holds;
    var ts := EdgeStream(v, e, S, rows);
    RunNarrowed(v, e, S, rows);
    FilteredBatch(v, e, S, NarrowedBy(e, rows), RunOf(e, S, rows));
    assert ts[q] in ts;
  }

  /** Some row of the query owns neighbour j, and it is the last one of its key. */
  lemma NeighbourOwner(v: Env, e: Edge, S: Tree, rows: seq<Row>, j: nat) returns (i: nat)
    requires EnvOK(v) && Fresh(v, e, S) && j < |EdgeBatch(v, e, S, rows)|
    ensures i < |rows|
    ensures if e.M2O? then RowKey(e.column, rows[i]) == Some(EdgeBatch(v, e, S, rows)[j].id)
            else IsLast(KeysOfRows(rows), i) && rows[i].id in EdgeOwners(v, e, S, rows)[j]
  {
    hide AllHold, EnvOK, Run, Unwindowed, AllStatement, UniqueIDs, Sorted;
    var batch := EdgeBatch(v, e, S, rows);
    BatchRows(v, e, S, rows);
    if e.M2M? {
      var ts := EdgeStream(v, e, S, rows);
      RunNarrowed(v, e, S, rows);
      JoinedBatch(v, e, S, KeysOfRows(rows), RunOf(e, S, rows));
      FirstRowsFrom(ts, batch[j]);
      var p :| 0 <= p < |ts| && ts[p].row == batch[j];
      assert ts[p] in ts;
      PairedRow(v, e, S, KeysOfRows(rows), ts[p]);
      i := LastIndex(KeysOfRows(rows), ts[p].key.value);
    } else if e.M2O? {
      FirstKeysListed(RowKeys(e.column, rows));
      i :| 0 <= i < |rows| && RowKeys(e.column, rows)[i] == Some(batch[j].id);
    } else {
      i := LastIndex(KeysOfRows(rows), CellAt(batch[j], e.column).i);
    }
  }

  lemma OwnersCarry(v: Env, e: Edge, k: nat, S: Tree, rows: seq<Row>, nodes: seq<Node>, neighbors: seq<Node>,
                    R: set<Node>)
    requires EnvOK(v) && Fresh(v, e, S)
    requires Read(v, S, e.O2M?, EdgeBatch(v, e, S, rows), neighbors)
    requires Dealt(v, e, k, S, rows, nodes, neighbors) && AllEdgesOK(v, e, k, S, rows, nodes, R)
    ensures AllCarry(v, S, e.O2M?, EdgeBatch(v, e, S, rows), neighbors, R)
  {
    hide EnvOK, EdgeBatch, EdgeOwners, Carries, ListOK, AllHold, Sorted;
    var batch := EdgeBatch(v, e, S, rows);
    BatchRows(v, e, S, rows);
    TableUnique(v, e.target);
    ReadIDs(v, S, e.O2M?, batch, neighbors);
    forall j | 0 <= j < |batch| ensures Carries(v, neighbors[j], batch[j], S, e.O2M?, R) {
      var i := NeighbourOwner(v, e, S, rows, j);
      assert IDsOf(neighbors)[j] == KeysOfRows(batch)[j] == batch[j].id;
      LookupIs(Table(v.db, e.target), batch[j]);
      if e.M2O? {
        FoundCarries(v, e, rows[i], S, KeysOfRows(batch), neighbors, RowKey(e.column, rows[i]), j, R);
      } else {
        SharedCarries(v, e, rows[i], S, neighbors, EdgeOwners(v, e, S, rows), j, R);
      }
    }
  }

  lemma FoundCarries(v: Env, e: Edge, owner: Row, S: Tree, ids: seq<int>, neighbors: seq<Node>, key: Option<int>,
                     j: nat,
                     R: set<Node>)
    requires |ids| == |neighbors| && j < |ids| && key == Some(ids[j]) && neighbors[j].rec.id == ids[j]
    requires forall i, j :: 0 <= i < j < |ids| ==> ids[i] != ids[j]
    requires OneOK(v, e, owner, S, Find(ids, neighbors, key), R)
    ensures Carries(v, neighbors[j], Lookup(Table(v.db, e.target), ids[j]), S, false, R)
  {
    assert LastIndex(ids, ids[j]) == j;
  }

  lemma SharedCarries(v: Env, e: Edge, owner: Row, S: Tree, neighbors: seq<Node>, owners: seq<set<int>>, j: nat,
                      R: set<Node>)
    requires |owners| == |neighbors| && j < |owners| && owner.id in owners[j]
    requires ListOK(v, e, owner, S, Share(neighbors, owners, owner.id), R)
    ensures Carries(v, neighbors[j], Lookup(Table(v.db, e.target), neighbors[j].rec.id), S, e.O2M?, R)
  {
    hide ListOK;
    var at := ShareIndices(neighbors, owners, owner.id);
    var p :| 0 <= p < |at| && at[p] == j;
    Listed(v, e, owner, S, Share(neighbors, owners, owner.id), R, p);
  }

  lemma Listed(v: Env, e: Edge, owner: Row, S: Tree, list: seq<Node>, R: set<Node>, p: nat)
    requires ListOK(v, e, owner, S, list, R) && p < |list|
    ensures Carries(v, list[p], Lookup(Table(v.db, e.target), list[p].rec.id), S, e.O2M?, R)
  {
  }

  // ---- the whole tree ----

  ghost predicate AllServed(v: Env, t: Tree, rows: seq<Row>)
    requires t.entity in v.schema
  {
    forall i :: 0 <= i < |rows| ==> Served(v, t, rows, i)
  }

  /** One edge as its loader deals it out. When no window drops anything, a node's edge is complete to every depth if
      and only if the node's row is served; and the edges of all nodes are complete if and only if no window drops
      anything and all rows are served. */
  lemma {:induction false} EdgeMeans(v: Env, e: Edge, k: nat, S: Tree, rows: seq<Row>, nodes: seq<Node>, sh: Shape,
                                     R: set<Node>)
    requires EnvOK(v) && Fresh(v, e, S) && SubsFit(v, S) && NodesIn(sh) <= R
    requires ShowsEdge(v, e, k, S, rows, nodes, sh)
    ensures var whole := EdgeUncut(v, e, S, rows) && Whole(v, S, EdgeBatch(v, e, S, rows));
            && (whole ==> forall i :: 0 <= i < |rows| ==>
                  (EdgeOK(v, e, rows[i], S, nodes[i].edges[k], R) <==> ServedEdge(v, e, S, rows, i)))
            && (AllEdgesOK(v, e, k, S, rows, nodes, R) <==>
                  whole && forall i :: 0 <= i < |rows| ==> ServedEdge(v, e, S, rows, i))
    decreases sh, 1
  {
    hide Shows, SubsFit, EnvOK, EdgeUncut, Whole, AllCarry, EdgeOK, ServedEdge, EdgeBatch, Read, Fresh, NodesIn;
    var batch, neighbors := EdgeBatch(v, e, S, rows), sh.nodes;
    ShownRead(v, S, e.O2M?, batch, sh);
    TreeMeans(v, S, e.O2M?, batch, sh, R);
    BatchServed(v, e, S, rows);
    if EdgeUncut(v, e, S, rows) && AllCarry(v, S, e.O2M?, batch, neighbors, R) {
      forall i | 0 <= i < |rows|
        ensures EdgeOK(v, e, rows[i], S, nodes[i].edges[k], R) <==> ServedEdge(v, e, S, rows, i)
      {
        EdgeServed(v, e, k, S, rows, nodes, neighbors, R, i);
      }
    }
    if AllEdgesOK(v, e, k, S, rows, nodes, R) {
      OwnersUncut(v, e, k, S, rows, nodes, neighbors, R);
      OwnersCarry(v, e, k, S, rows, nodes, neighbors, R);
    }
  }

  lemma BatchServed(v: Env, e: Edge, S: Tree, rows: seq<Row>)
    requires EnvOK(v) && Fresh(v, e, S)
    ensures AllServed(v, S, EdgeBatch(v, e, S, rows))
  {
    hide Served;
    BatchRows(v, e, S, rows);
    forall i | 0 <= i < |EdgeBatch(v, e, S, rows)| ensures Served(v, S, EdgeBatch(v, e, S, rows), i) {
      UniqueServed(v, S, EdgeBatch(v, e, S, rows), i);
    }
  }

  /** Eager loading against nested-loop joins. When no window drops anything, a node carries exactly what its query
      asks for, at every depth, if and only if its row is served; and all nodes do if and only if no window drops
      anything and all rows are served. */
  lemma {:induction false} TreeMeans(v: Env, t: Tree, fks: bool, rows: seq<Row>, sh: Shape, R: set<Node>)
    requires EnvOK(v) && SubsFit(v, t) && NodesIn(sh) <= R && Shows(v, t, fks, rows, sh)
    ensures Whole(v, t, rows) ==> forall i :: 0 <= i < |rows| ==>
              (Carries(v, sh.nodes[i], rows[i], t, fks, R) <==> Served(v, t, rows, i))
    ensures AllCarry(v, t, fks, rows, sh.nodes, R) <==> Whole(v, t, rows) && AllServed(v, t, rows)
    decreases sh, 0
  {
    hide EnvOK, EdgeUncut, EdgeOK, ServedEdge, EdgeBatch, NodesIn;
    if rows != [] {
      var es := v.schema[t.entity].edges;
      forall k | 0 <= k < |es| && t.subs[k].Some?
        ensures var S := t.subs[k].value;
                var whole := EdgeUncut(v, es[k], S, rows) && Whole(v, S, EdgeBatch(v, es[k], S, rows));
                && (whole ==> forall i :: 0 <= i < |rows| ==>
                      (EdgeOK(v, es[k], rows[i], S, sh.nodes[i].edges[k], R) <==> ServedEdge(v, es[k], S, rows, i)))
                && (AllEdgesOK(v, es[k], k, S, rows, sh.nodes, R) <==>
                      whole && forall i :: 0 <= i < |rows| ==> ServedEdge(v, es[k], S, rows, i))
      {
        EdgeMeans(v, es[k], k, t.subs[k].value, rows, sh.nodes, sh.below[k].value, R);
      }
    }
  }

  /** Edge by edge, whatever the other edges of the query and of the node are like. */
  lemma NodeEdge(v: Env, t: Tree, fks: bool, rows: seq<Row>, sh: Shape, k: nat, i: nat)
    requires EnvOK(v) && SubsFit(v, t) && Shows(v, t, fks, rows, sh)
    requires k < |t.subs| && t.subs[k].Some? && i < |rows|
    ensures var e, S := v.schema[t.entity].edges[k], t.subs[k].value;
            && S.entity in v.schema && |sh.nodes| == |rows| && k < |sh.nodes[i].edges|
            && (EdgeUncut(v, e, S, rows) && Whole(v, S, EdgeBatch(v, e, S, rows)) ==>
                  (EdgeOK(v, e, rows[i], S, sh.nodes[i].edges[k], NodesIn(sh)) <==> ServedEdge(v, e, S, rows, i)))
  {
    hide EnvOK, FitsSchema, EdgeUncut, Whole, EdgeBatch, EdgeOK, ServedEdge;
    ShownEdge(v, t, fks, rows, sh, k);
    EdgeMeans(v, v.schema[t.entity].edges[k], k, t.subs[k].value, rows, sh.nodes, sh.below[k].value, NodesIn(sh));
  }

  /** When no key is repeated, windows are the only thing that can keep a node from carrying what is asked for. */
  lemma UniqueCarry(v: Env, t: Tree, fks: bool, rows: seq<Row>, sh: Shape, R: set<Node>)
    requires EnvOK(v) && SubsFit(v, t) && NodesIn(sh) <= R && Shows(v, t, fks, rows, sh) && UniqueIDs(rows)
    ensures AllCarry(v, t, fks, rows, sh.nodes, R) <==> Whole(v, t, rows)
  {
    hide EnvOK, SubsFit, Shows, AllCarry, Whole, Served, NodesIn;
    ShownRead(v, t, fks, rows, sh);
    TreeMeans(v, t, fks, rows, sh, R);
    forall i | 0 <= i < |rows| ensures Served(v, t, rows, i) {
      UniqueServed(v, t, rows, i);
    }
  }
}
