/** The nested-loop meaning of an eager-load query tree: what every loaded node must carry, whatever the loaders do. */
module Joins {
  import opened Wrappers
  import opened Lists
  import opened Records
  import opened Store
  import opened Queries
  import opened Nodes
  import opened Distribute

  datatype Env = Env(schema: map<string, Entity>, db: DB)

  /** Generated schemas are closed under edges, their foreign keys exist, and stored rows have the column types. */
  ghost predicate EnvOK(v: Env) {
    && DBOK(v.db)
    && forall name <- v.schema ::
         && EntityOK(v.schema[name])
         && (forall row <- Table(v.db, name) :: Readable(v.schema[name], row))
         && forall k :: 0 <= k < |v.schema[name].edges| ==>
              var e := v.schema[name].edges[k];
              && e.target in v.schema
              && (e.O2M? ==> e.column in v.schema[e.target].foreignKeys)
              && (e.M2O? ==> e.column in v.schema[name].foreignKeys)
  }

  /** The owner row and the neighbour row are linked by the edge. */
  predicate Related(db: DB, e: Edge, owner: Row, m: Row) {
    match e
    case M2M(_, _, table, swapped) => Link(swapped, owner.id, m.id) in Pairs(db, table)
    case O2M(_, _, column) => CellAt(m, column) == Int(owner.id)
    case M2O(_, _, column) => CellAt(owner, column) == Int(m.id)
  }

  /** The ids of the neighbours of one row: the inner loop of a nested-loop join, with the sub-query's filter. */
  ghost function Joined(v: Env, e: Edge, owner: Row, sub: Tree): set<int> {
    set m | m in Table(v.db, e.target) && Related(v.db, e, owner, m) && AllHold(sub.predicates, m) :: m.id
  }

  /** The row with the given key. */
  ghost function Lookup(rows: seq<Row>, id: int): (row: Row)
    ensures (exists r <- rows :: r.id == id) ==> row in rows && row.id == id
  {
    if r :| r in rows && r.id == id then r else Row(id, map[])
  }

  lemma LookupIs(rows: seq<Row>, r: Row)
    requires UniqueIDs(rows) && r in rows
    ensures Lookup(rows, r.id) == r
  {
    var i :| 0 <= i < |rows| && rows[i] == r;
    var j :| 0 <= j < |rows| && rows[j] == Lookup(rows, r.id);
  }

  predicate NeedsFKs(e: Entity, subs: seq<Option<Tree>>) {
    exists k :: 0 <= k < |subs| && k < |e.edges| && subs[k].Some? && e.edges[k].M2O?
  }

  /** The columns that sqlAll selects. */
  function NodeColumns(e: Entity, t: Tree, fks: bool): seq<string> {
    SpecColumns(e, t.fields) + (if fks || t.withFKs || NeedsFKs(e, t.subs) then e.foreignKeys else [])
  }

  function Requested(subs: seq<Option<Tree>>): seq<bool> {
    seq(|subs|, k requires 0 <= k < |subs| => subs[k].Some?)
  }

  /** A query tree that fits the schema. The builders of eager-loaded edges are fresh: no traversal path, no
      source, and no join appended by an earlier execution. */
  ghost predicate FitsSchema(v: Env, t: Tree)
    decreases t, 1
  {
    JoinOf(t.predicates) == None && SubsFit(v, t)
  }

  ghost predicate SubsFit(v: Env, t: Tree)
    decreases t, 0
  {
    && t.entity in v.schema && |t.subs| == |v.schema[t.entity].edges|
    && forall k :: 0 <= k < |t.subs| && t.subs[k].Some? ==>
         && t.subs[k].value.entity == v.schema[t.entity].edges[k].target
         && t.subs[k].value.path == None && t.subs[k].value.sql == None
         && FitsSchema(v, t.subs[k].value)
  }

  /** Every selected field, at any depth, is a column of its entity. */
  ghost predicate AllFieldsValid(v: Env, t: Tree)
    decreases t, 1
  {
    t.entity in v.schema && FieldsValid(v.schema[t.entity], t.fields) && SubFieldsValid(v, t)
  }

  ghost predicate SubFieldsValid(v: Env, t: Tree)
    decreases t, 0
  {
    forall k :: 0 <= k < |t.subs| && t.subs[k].Some? ==> AllFieldsValid(v, t.subs[k].value)
  }

  /** A list edge of one owner: exactly its neighbours, once each, in the sub-query's order, each of them carrying
      in turn what the sub-query asks for. */
  ghost predicate ListOK(v: Env, e: Edge, owner: Row, sub: Tree, list: seq<Node>, R: set<Node>)
    reads R
    decreases sub, 2
  {
    var rows := Table(v.db, e.target);
    && (forall i :: 0 <= i < |list| ==> list[i] in R)
    && (forall i, j :: 0 <= i < j < |list| ==> list[i].rec.id != list[j].rec.id)
    && (forall i :: 0 <= i < |list| ==> list[i].rec.id in Joined(v, e, owner, sub))
    && (forall id <- Joined(v, e, owner, sub) :: exists i :: 0 <= i < |list| && list[i].rec.id == id)
    && (forall i, j :: 0 <= i < j < |list| ==>
          !Before(v.db.rank, sub.order, Lookup(rows, list[j].rec.id), Lookup(rows, list[i].rec.id)))
    && (forall i :: 0 <= i < |list| ==> Carries(v, list[i], Lookup(rows, list[i].rec.id), sub, e.O2M?, R))
  }

  /** A unique edge of one owner: its neighbour, if there is one that the sub-query selects. */
  ghost predicate OneOK(v: Env, e: Edge, owner: Row, sub: Tree, one: Option<Node>, R: set<Node>)
    reads R
    decreases sub, 2
  {
    match one
    case None => Joined(v, e, owner, sub) == {}
    case Some(n) =>
      && n in R && Joined(v, e, owner, sub) == {n.rec.id}
      && Carries(v, n, Lookup(Table(v.db, e.target), n.rec.id), sub, false, R)
  }

  ghost predicate EdgeOK(v: Env, e: Edge, owner: Row, sub: Tree, slot: Slot, R: set<Node>)
    reads R
    decreases sub, 3
  {
    if e.M2O? then OneOK(v, e, owner, sub, slot.one, R) else ListOK(v, e, owner, sub, slot.many, R)
  }

  /** Node n holds the row, under the selected columns, every requested edge holds its joined neighbours, and the
      other edges hold nothing. */
  ghost predicate Carries(v: Env, n: Node, row: Row, t: Tree, fks: bool, R: set<Node>)
    reads n, R
    decreases t, 1
  {
    && t.entity in v.schema
    && var e := v.schema[t.entity];
    && n.rec == RecordOf(e, NodeColumns(e, t, fks), row)
    && n.loaded == Requested(t.subs)
    && |n.edges| == |t.subs| == |e.edges|
    && forall k :: 0 <= k < |t.subs| ==>
         if t.subs[k].Some? then EdgeOK(v, e.edges[k], row, t.subs[k].value, n.edges[k], R)
         else n.edges[k] == EMPTY_SLOT
  }

  // ---- repeated rows ----

  /** The i-th of several rows of an owner gets the owner's neighbours: for a unique edge always, for a list edge
      if it is the last row of its key (or if there is nothing to get). */
  ghost predicate ServedEdge(v: Env, e: Edge, sub: Tree, rows: seq<Row>, i: nat)
    requires i < |rows|
  {
    e.M2O? || IsLast(KeysOfRows(rows), i) || Joined(v, e, rows[i], sub) == {}
  }

  ghost predicate Served(v: Env, t: Tree, rows: seq<Row>, i: nat)
    requires i < |rows| && t.entity in v.schema
  {
    forall k :: 0 <= k < |t.subs| && k < |v.schema[t.entity].edges| && t.subs[k].Some? ==>
      ServedEdge(v, v.schema[t.entity].edges[k], t.subs[k].value, rows, i)
  }

  lemma UniqueServed(v: Env, t: Tree, rows: seq<Row>, i: nat)
    requires i < |rows| && t.entity in v.schema && UniqueIDs(rows)
    ensures Served(v, t, rows, i)
  {
    assert IsLast(KeysOfRows(rows), i);
  }

  // ---- from one batch to every owner's edge ----

  /** A batch of neighbours that belongs to a set of owners: rows and nodes side by side, each row once, in order,
      all of them selected by the sub-query, each node carrying its row. */
  ghost predicate Batch(v: Env, e: Edge, sub: Tree, batch: seq<Row>, neighbors: seq<Node>, R: set<Node>)
    reads R
  {
    && |batch| == |neighbors| && UniqueIDs(batch) && Sorted(v.db.rank, sub.order, batch)
    && forall j :: 0 <= j < |batch| ==>
         && batch[j] in Table(v.db, e.target) && AllHold(sub.predicates, batch[j])
         && neighbors[j] in R && neighbors[j].rec.id == batch[j].id
         && Carries(v, neighbors[j], batch[j], sub, e.O2M?, R)
  }

  /** Nothing that belongs to the owner is missing from the batch. */
  ghost predicate Complete(v: Env, e: Edge, owner: Row, sub: Tree, batch: seq<Row>) {
    forall m <- Table(v.db, e.target) :: Related(v.db, e, owner, m) && AllHold(sub.predicates, m) ==> m in batch
  }

  lemma ListFromBatch(v: Env, e: Edge, owner: Row, sub: Tree, batch: seq<Row>, neighbors: seq<Node>,
                      owners: seq<set<int>>, R: set<Node>)
    requires UniqueIDs(Table(v.db, e.target))
    requires Batch(v, e, sub, batch, neighbors, R) && Complete(v, e, owner, sub, batch)
    requires |owners| == |batch|
    requires forall j :: 0 <= j < |batch| ==> (owner.id in owners[j] <==> Related(v.db, e, owner, batch[j]))
    ensures ListOK(v, e, owner, sub, Share(neighbors, owners, owner.id), R)
  {
    var at := ShareIndices(neighbors, owners, owner.id);
    ListFromIndices(v, e, owner, sub, batch, neighbors, Share(neighbors, owners, owner.id), at, R);
  }

  /** The list picks out of the batch, in order, exactly the positions related to the owner. */
  lemma ListFromIndices(v: Env, e: Edge, owner: Row, sub: Tree, batch: seq<Row>, neighbors: seq<Node>,
                        list: seq<Node>, at: seq<nat>, R: set<Node>)
    requires UniqueIDs(Table(v.db, e.target))
    requires Batch(v, e, sub, batch, neighbors, R) && Complete(v, e, owner, sub, batch)
    requires |at| == |list|
    requires forall p :: 0 <= p < |at| ==>
        at[p] < |batch| && Related(v.db, e, owner, batch[at[p]]) && list[p] == neighbors[at[p]]
    requires forall p, q :: 0 <= p < q < |at| ==> at[p] < at[q]
    requires forall j :: 0 <= j < |batch| && Related(v.db, e, owner, batch[j]) ==> j in at
    ensures ListOK(v, e, owner, sub, list, R)
  {
    var rows := Table(v.db, e.target);
    forall p | 0 <= p < |list|
      ensures list[p] in R && list[p].rec.id == batch[at[p]].id
      ensures Lookup(rows, list[p].rec.id) == batch[at[p]]
      ensures Carries(v, list[p], batch[at[p]], sub, e.O2M?, R)
    {
      LookupIs(rows, batch[at[p]]);
    }
    forall id | id in Joined(v, e, owner, sub) ensures exists i :: 0 <= i < |list| && list[i].rec.id == id {
      var m :| m in rows && Related(v.db, e, owner, m) && AllHold(sub.predicates, m) && m.id == id;
      var j :| 0 <= j < |batch| && batch[j] == m;
      var p :| 0 <= p < |at| && at[p] == j;
      assert list[p].rec.id == id;
    }
    forall p, q | 0 <= p < q < |list|
      ensures list[p].rec.id != list[q].rec.id
      ensures !Before(v.db.rank, sub.order, Lookup(rows, list[q].rec.id), Lookup(rows, list[p].rec.id))
    {
      assert at[p] < at[q];
    }
  }

  /** The same for a unique edge. */
  lemma OneFromBatch(v: Env, e: Edge, owner: Row, sub: Tree, batch: seq<Row>, neighbors: seq<Node>, ids: seq<int>,
                     key: Option<int>, R: set<Node>)
    requires e.M2O? && UniqueIDs(Table(v.db, e.target))
    requires Batch(v, e, sub, batch, neighbors, R) && Complete(v, e, owner, sub, batch)
    requires |ids| == |batch| && forall j :: 0 <= j < |ids| ==> ids[j] == batch[j].id
    requires forall m: Row :: Related(v.db, e, owner, m) <==> key == Some(m.id)
    ensures OneOK(v, e, owner, sub, Find(ids, neighbors, key), R)
  {
    var rows := Table(v.db, e.target);
    forall m | m in rows && Related(v.db, e, owner, m) && AllHold(sub.predicates, m)
      ensures key == Some(m.id) && m.id in ids
    {
      var j :| 0 <= j < |batch| && batch[j] == m;
      assert ids[j] == m.id;
    }
    if key.Some? && key.value in ids {
      LookupIs(rows, batch[LastIndex(ids, key.value)]);
    }
  }
}
