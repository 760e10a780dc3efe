/** What a load puts into memory, exactly: the batches that the loaders query for and how they are dealt out, whatever
    the windows of the sub-queries and however often the rows repeat. */
module Shapes {
  import opened Wrappers
  import opened Lists
  import opened Records
  import opened Store
  import opened Queries
  import opened Nodes
  import opened Distribute
  import opened Joins
  import opened Batches

  /** The rows that the query of a builder returns. */
  ghost function Stream(v: Env, t: Tree): seq<Tuple>
    requires t.entity in v.schema
  {
    Run(v.db, AllStatement(v.schema[t.entity], t))
  }

  /** The foreign key of a row. */
  function RowKey(column: string, row: Row): Option<int> {
    var c := CellAt(row, column);
    if c.Int? then Some(c.i) else None
  }

  function RowKeys(column: string, rows: seq<Row>): (keys: seq<Option<int>>)
    ensures |keys| == |rows| && forall i :: 0 <= i < |rows| ==> keys[i] == RowKey(column, rows[i])
  {
    seq(|rows|, i requires 0 <= i < |rows| => RowKey(column, rows[i]))
  }

  // ---- the one query of a loader ----

  /** The predicate that the loader adds to the builder of its edge. */
  function NarrowedBy(e: Edge, rows: seq<Row>): Predicate {
    match e
    case M2M(_, _, table, swapped) => JoinIn(table, swapped, KeysOfRows(rows))
    case O2M(_, _, column) => ColumnIn(column, KeysOfRows(rows))
    case M2O(_, _, column) => IDIn(FirstKeys(RowKeys(column, rows)))
  }

  /** The builder, in state S, as the loader runs it. */
  function RunOf(e: Edge, S: Tree, rows: seq<Row>): Tree {
    S.(predicates := S.predicates + [NarrowedBy(e, rows)], withFKs := S.withFKs || e.O2M?)
  }

  ghost function EdgeStream(v: Env, e: Edge, S: Tree, rows: seq<Row>): seq<Tuple>
    requires S.entity in v.schema
  {
    Stream(v, RunOf(e, S, rows))
  }

  /** The neighbour rows that become nodes. */
  ghost function EdgeBatch(v: Env, e: Edge, S: Tree, rows: seq<Row>): seq<Row>
    requires S.entity in v.schema
  {
    NodeRows(e.M2M?, EdgeStream(v, e, S, rows))
  }

  /** The owners of each distinct neighbour of a joined stream. */
  function StreamOwnerIDs(ts: seq<Tuple>): (owners: seq<set<int>>)
    ensures |owners| == |FirstRows(ts)|
    ensures forall j :: 0 <= j < |owners| ==> owners[j] == OwnerIDs(ts, FirstRows(ts)[j].id)
  {
    seq(|FirstRows(ts)|, j requires 0 <= j < |FirstRows(ts)| => OwnerIDs(ts, FirstRows(ts)[j].id))
  }

  /** The parent of each row of an O2M batch. */
  function RowOwners(column: string, batch: seq<Row>): (owners: seq<set<int>>)
    ensures |owners| == |batch|
    ensures forall j :: 0 <= j < |batch| ==>
              owners[j] == if RowKey(column, batch[j]).Some? then {RowKey(column, batch[j]).value} else {}
  {
    seq(|batch|, j requires 0 <= j < |batch| =>
          if RowKey(column, batch[j]).Some? then {RowKey(column, batch[j]).value} else {})
  }

  /** Which owners the neighbours go to. */
  ghost function EdgeOwners(v: Env, e: Edge, S: Tree, rows: seq<Row>): (owners: seq<set<int>>)
    requires S.entity in v.schema && !e.M2O?
    ensures |owners| == |EdgeBatch(v, e, S, rows)|
  {
    if e.M2M? then StreamOwnerIDs(EdgeStream(v, e, S, rows)) else RowOwners(e.column, EdgeBatch(v, e, S, rows))
  }

  /** The slot of row i: for a list edge the neighbours it owns, in batch order, if it is the last row of its key; for
      a unique edge the neighbour that its key names. */
  ghost function SlotFor(v: Env, e: Edge, S: Tree, rows: seq<Row>, i: nat, neighbors: seq<Node>): Slot
    requires S.entity in v.schema && i < |rows| && |neighbors| == |EdgeBatch(v, e, S, rows)|
  {
    if e.M2O? then Slot([], Find(KeysOfRows(EdgeBatch(v, e, S, rows)), neighbors, RowKey(e.column, rows[i])))
    else Slot(if IsLast(KeysOfRows(rows), i) then Share(neighbors, EdgeOwners(v, e, S, rows), rows[i].id) else [], None)
  }

  // ---- what is in memory ----

  /** The nodes of one query, and for each edge what its loader has loaded for them. */
  datatype Shape = Shape(nodes: seq<Node>, below: seq<Option<Shape>>)

  ghost function NodesIn(sh: Shape): (all: set<Node>)
    ensures SetOf(sh.nodes) <= all
    ensures forall k :: 0 <= k < |sh.below| && sh.below[k].Some? ==> NodesIn(sh.below[k].value) <= all
  {
    SetOf(sh.nodes)
    + set k, n | 0 <= k < |sh.below| && sh.below[k].Some? && n in NodesIn(sh.below[k].value) :: n
  }

  ghost function NodesBelow(below: seq<Option<Shape>>): set<Node> {
    NodesIn(Shape([], below))
  }

  /** One node a row, with the row's data; every requested edge as its loader deals it out, and nothing on the others.
      A query without rows loads no edges. */
  ghost predicate Shows(v: Env, t: Tree, fks: bool, rows: seq<Row>, sh: Shape)
    reads NodesIn(sh)
    decreases sh, 1
  {
    && t.entity in v.schema && Read(v, t, fks, rows, sh.nodes)
    && var e := v.schema[t.entity];
       (rows != [] ==>
          && |sh.below| == |t.subs| == |e.edges|
          && forall k :: 0 <= k < |t.subs| ==>
               if t.subs[k].Some? then
                 sh.below[k].Some? && ShowsEdge(v, e.edges[k], k, t.subs[k].value, rows, sh.nodes, sh.below[k].value)
               else sh.below[k].None? && NoEdge(k, sh.nodes))
  }

  /** The nodes hold the data of their rows and the flags of the requested edges. */
  ghost predicate Read(v: Env, t: Tree, fks: bool, rows: seq<Row>, nodes: seq<Node>)
    requires t.entity in v.schema
    reads SetOf(nodes)
  {
    var e := v.schema[t.entity];
    && |nodes| == |rows| && NoDup(nodes)
    && forall i :: 0 <= i < |rows| ==>
         && nodes[i].rec == RecordOf(e, NodeColumns(e, t, fks), rows[i])
         && nodes[i].loaded == Requested(t.subs) && |nodes[i].edges| == |t.subs| == |e.edges|
  }

  ghost predicate NoEdge(k: nat, nodes: seq<Node>)
    reads SetOf(nodes)
  {
    forall i :: 0 <= i < |nodes| ==> k < |nodes[i].edges| && nodes[i].edges[k] == EMPTY_SLOT
  }

  /** Edge k of the nodes, requested with the builder in state S, as its loader deals it out. */
  ghost predicate ShowsEdge(v: Env, e: Edge, k: nat, S: Tree, rows: seq<Row>, nodes: seq<Node>, sh: Shape)
    reads SetOf(nodes), NodesIn(sh)
    decreases sh, 2
  {
    && S.entity == e.target && e.target in v.schema
    && Shows(v, S, e.O2M?, EdgeBatch(v, e, S, rows), sh)
    && Dealt(v, e, k, S, rows, nodes, sh.nodes)
  }

  ghost predicate Dealt(v: Env, e: Edge, k: nat, S: Tree, rows: seq<Row>, nodes: seq<Node>, neighbors: seq<Node>)
    requires S.entity in v.schema
    reads SetOf(nodes)
  {
    && |nodes| == |rows| && |neighbors| == |EdgeBatch(v, e, S, rows)|
    && forall i :: 0 <= i < |rows| ==> k < |nodes[i].edges| && nodes[i].edges[k] == SlotFor(v, e, S, rows, i, neighbors)
  }

  // ---- what the batches hold ----

  /** A fresh builder of an eager-loaded edge, as a value. */
  ghost predicate Fresh(v: Env, e: Edge, S: Tree) {
    S.entity == e.target && e.target in v.schema && JoinOf(S.predicates) == None && S.path == None && S.sql == None
  }

  lemma RunNarrowed(v: Env, e: Edge, S: Tree, rows: seq<Row>)
    requires Fresh(v, e, S)
    ensures Narrowed(S, NarrowedBy(e, rows), RunOf(e, S, rows))
  {
  }

  /** Every neighbour row is a row of the neighbour table, selected by the sub-query, and appears once. */
  lemma BatchRows(v: Env, e: Edge, S: Tree, rows: seq<Row>)
    requires EnvOK(v) && Fresh(v, e, S)
    ensures var batch := EdgeBatch(v, e, S, rows);
            && UniqueIDs(batch) && Sorted(v.db.rank, S.order, batch)
            && forall j :: 0 <= j < |batch| ==>
                 && batch[j] in Table(v.db, e.target) && AllHold(S.predicates, batch[j])
                 && (!e.M2M? ==> Holds(NarrowedBy(e, rows), batch[j]))
  {
    hide EnvOK, NodeColumns, Holds, AllHold, Run, Unwindowed, AllStatement, Paired;
    var p, run, ts, batch := NarrowedBy(e, rows), RunOf(e, S, rows), EdgeStream(v, e, S, rows),
        EdgeBatch(v, e, S, rows);
    RunNarrowed(v, e, S, rows);
    if e.M2M? {
      JoinedBatch(v, e, S, KeysOfRows(rows), run);
      FirstRowsUnique(ts);
      FirstRowsSorted(v.db.rank, S.order, ts);
      forall j | 0 <= j < |batch| ensures batch[j] in Table(v.db, e.target) && AllHold(S.predicates, batch[j]) {
        FirstRowsFrom(ts, batch[j]);
        var i :| 0 <= i < |ts| && ts[i].row == batch[j];
        assert ts[i] in ts;
        PairedRow(v, e, S, KeysOfRows(rows), ts[i]);
      }
    } else {
      FilteredBatch(v, e, S, p, run);
      forall j | 0 <= j < |batch|
        ensures batch[j] in Table(v.db, e.target) && AllHold(S.predicates, batch[j]) && Holds(p, batch[j])
      {
        assert ts[j] in ts && batch[j] == ts[j].row;
      }
    }
  }

  lemma PairedRow(v: Env, e: Edge, S: Tree, ids: seq<int>, t: Tuple)
    requires e.M2M? && Paired(v, e, S, ids, t)
    ensures t.row in Table(v.db, e.target) && AllHold(S.predicates, t.row)
    ensures t.key.Some? && t.key.value in ids
  {
  }

  /** Row keys are read into the foreign keys of the nodes. */
  lemma KeyRead(e: Entity, columns: seq<string>, c: string, row: Row)
    requires EntityOK(e) && Readable(e, row) && c in columns && c in e.foreignKeys
    ensures KeyOf(c, RecordOf(e, columns, row)) == RowKey(c, row)
  {
    assert Fits(e.decode, e.scanTag(c), CellAt(row, c));
    assert RecordOf(e, columns, row).fks == KeysOf(e, columns, row);
  }

  /** An O2M batch read with its foreign keys: every neighbour names a parent among the rows. */
  lemma NeighboursKeyed(v: Env, e: Edge, S: Tree, rows: seq<Row>, neighbors: seq<Node>)
    requires EnvOK(v) && e.O2M? && Fresh(v, e, S) && e.column in v.schema[e.target].foreignKeys
    requires Read(v, S, true, EdgeBatch(v, e, S, rows), neighbors)
    ensures KeyOwners(e.column, RecsOf(neighbors)) == EdgeOwners(v, e, S, rows)
    ensures forall n <- neighbors :: e.column in n.rec.fks && n.rec.fks[e.column] in KeysOfRows(rows)
  {
    hide EdgeBatch, Run;
    var te, batch := v.schema[e.target], EdgeBatch(v, e, S, rows);
    BatchRows(v, e, S, rows);
    forall j | 0 <= j < |batch|
      ensures KeyOf(e.column, neighbors[j].rec) == RowKey(e.column, batch[j])
      ensures RowKey(e.column, batch[j]).Some? && RowKey(e.column, batch[j]).value in KeysOfRows(rows)
    {
      KeyRead(te, NodeColumns(te, S, true), e.column, batch[j]);
    }
    forall n | n in neighbors ensures e.column in n.rec.fks && n.rec.fks[e.column] in KeysOfRows(rows) {
      var j :| 0 <= j < |neighbors| && neighbors[j] == n;
    }
  }

  lemma RecordID(e: Entity, t: Tree, fks: bool, row: Row)
    requires EntityOK(e)
    ensures RecordOf(e, NodeColumns(e, t, fks), row).id == row.id
  {
    IDFirstAndOnce(e, t.fields);
    assert NodeColumns(e, t, fks)[0] == "id";
  }

  lemma ReadIDs(v: Env, t: Tree, fks: bool, rows: seq<Row>, nodes: seq<Node>)
    requires t.entity in v.schema && EntityOK(v.schema[t.entity]) && Read(v, t, fks, rows, nodes)
    ensures IDsOf(nodes) == KeysOfRows(rows)
  {
    forall i | 0 <= i < |rows| ensures nodes[i].rec.id == rows[i].id {
      RecordID(v.schema[t.entity], t, fks, rows[i]);
    }
  }

  lemma ShownRead(v: Env, t: Tree, fks: bool, rows: seq<Row>, sh: Shape)
    requires Shows(v, t, fks, rows, sh)
    ensures t.entity in v.schema && Read(v, t, fks, rows, sh.nodes) && SetOf(sh.nodes) <= NodesIn(sh)
  {
  }

  /** What is shown of one requested edge. */
  lemma ShownEdge(v: Env, t: Tree, fks: bool, rows: seq<Row>, sh: Shape, k: nat)
    requires SubsFit(v, t) && Shows(v, t, fks, rows, sh) && rows != [] && k < |t.subs| && t.subs[k].Some?
    ensures k < |sh.below| && sh.below[k].Some? && Fresh(v, v.schema[t.entity].edges[k], t.subs[k].value)
    ensures SubsFit(v, t.subs[k].value)
    ensures ShowsEdge(v, v.schema[t.entity].edges[k], k, t.subs[k].value, rows, sh.nodes, sh.below[k].value)
  {
    hide ShowsEdge;
    assert FitsSchema(v, t.subs[k].value);
  }

  /** What the narrowed builder shows is what the edge's builder shows: the filter and the flag matter for the
      statement only. */
  lemma NarrowedShows(v: Env, e: Edge, S: Tree, rows: seq<Row>, batch: seq<Row>, sh: Shape)
    requires Shows(v, RunOf(e, S, rows), false, batch, sh)
    ensures Shows(v, S, e.O2M?, batch, sh)
  {
    var run := RunOf(e, S, rows);
    assert NodeColumns(v.schema[S.entity], run, false) == NodeColumns(v.schema[S.entity], S, e.O2M?);
  }
}
