/** What the one batched query of each loader returns. */
module Batches {
  import opened Wrappers
  import opened Records
  import opened Store
  import opened Queries
  import opened Nodes
  import opened Joins

  /** The statement that sqlAll runs. */
  function AllStatement(e: Entity, t: Tree): Statement {
    NodeStatement(SpecOf(e, t).(columns := NodeColumns(e, t, false)))
  }

  lemma {:induction false} JoinOfAppend(ps: seq<Predicate>, p: Predicate)
    requires JoinOf(ps) == None
    ensures JoinOf(ps + [p]) == if p.JoinIn? then Some(p) else None
  {
    if ps == [] {
      assert [] + [p] == [p];
      assert [p][1..] == [];
    } else {
      assert !ps[0].JoinIn?;
      JoinOfAppend(ps[1..], p);
      assert (ps + [p])[1..] == ps[1..] + [p];
    }
  }

  lemma AllHoldAppend(ps: seq<Predicate>, p: Predicate, row: Row)
    ensures AllHold(ps + [p], row) <==> AllHold(ps, row) && Holds(p, row)
  {
    assert (ps + [p])[|ps|] == p;
    assert forall i :: 0 <= i < |ps| ==> (ps + [p])[i] == ps[i];
  }

  /** The sub-query as a loader runs it. */
  ghost predicate Narrowed(sub: Tree, p: Predicate, run: Tree) {
    && run == sub.(predicates := sub.predicates + [p], withFKs := run.withFKs)
    && sub.path == None && sub.sql == None && JoinOf(sub.predicates) == None
  }

  lemma StatementHasID(e: Entity, t: Tree)
    requires EntityOK(e)
    ensures |AllStatement(e, t).columns| > 0 && AllStatement(e, t).columns[0] == "id"
    ensures "id" in AllStatement(e, t).columns
  {
    IDFirstAndOnce(e, t.fields);
    var columns := AllStatement(e, t).columns;
    assert columns == NodeColumns(e, t, false);
    assert columns[0] == "id";
  }

  /** The statement without its window. */
  function Open(st: Statement): Statement {
    st.(offset := 0, limit := None)
  }

  lemma OpenRun(db: DB, st: Statement)
    ensures Run(db, Open(st)) == Unwindowed(db, st) == Unwindowed(db, Open(st))
    ensures Matches(db, Open(st)) == Matches(db, st)
    ensures Run(db, st) == Window(st.offset, st.limit, Unwindowed(db, st))
  {
  }

  /** The rows that an O2M or M2O loader queries for: before the window exactly the selected rows that satisfy the IN
      filter, once each and sorted; after it some of them, or all of them if the window drops none. */
  lemma FilteredBatch(v: Env, e: Edge, sub: Tree, p: Predicate, run: Tree)
    requires EnvOK(v) && e.target in v.schema && sub.entity == e.target && !p.JoinIn? && Narrowed(sub, p, run)
    ensures var st := AllStatement(v.schema[e.target], run);
            var full, ts := Unwindowed(v.db, st), Run(v.db, st);
            && UniqueIDs(RowsOf(full)) && UniqueIDs(RowsOf(ts)) && Sorted(v.db.rank, sub.order, RowsOf(ts))
            && (forall m :: m in RowsOf(full) <==>
                m in Table(v.db, e.target) && AllHold(sub.predicates, m) && Holds(p, m))
            && (forall t <- ts :: t in full && t.key == None && t.row in Table(v.db, e.target))
            && (forall t <- ts :: AllHold(sub.predicates, t.row) && Holds(p, t.row))
            && (Uncut(v.db, st) ==>
                  forall m <- Table(v.db, e.target) :: AllHold(sub.predicates, m) && Holds(p, m) ==> m in RowsOf(ts))
  {
    hide EnvOK, Unwindowed, Matches, Holds, AllHold, NodeColumns;
    var st := AllStatement(v.schema[e.target], run);
    var full, ts := Unwindowed(v.db, st), Run(v.db, st);
    OpenBatch(v, e, sub, p, run);
    WindowRows(v.db.rank, sub.order, st.offset, st.limit, full);
    forall m ensures m in RowsOf(full) <==> Tuple(None, m) in full {
      RowInTuples(full, m);
    }
    if Uncut(v.db, st) {
      forall m | m in RowsOf(full) ensures m in RowsOf(ts) {
        assert Tuple(None, m) in ts;
        var i :| 0 <= i < |ts| && ts[i] == Tuple(None, m);
        assert RowsOf(ts)[i] == m;
      }
    }
  }

  lemma RowInTuples(ts: seq<Tuple>, m: Row)
    requires forall t <- ts :: t.key == None
    ensures m in RowsOf(ts) <==> Tuple(None, m) in ts
  {
    if m in RowsOf(ts) {
      var i :| 0 <= i < |ts| && RowsOf(ts)[i] == m;
      assert ts[i] in ts && ts[i] == Tuple(None, m);
    }
    if Tuple(None, m) in ts {
      var i :| 0 <= i < |ts| && ts[i] == Tuple(None, m);
      assert RowsOf(ts)[i] == m;
    }
  }

  lemma OpenBatch(v: Env, e: Edge, sub: Tree, p: Predicate, run: Tree)
    requires EnvOK(v) && e.target in v.schema && sub.entity == e.target && !p.JoinIn? && Narrowed(sub, p, run)
    ensures var full := Unwindowed(v.db, AllStatement(v.schema[e.target], run));
            && UniqueIDs(RowsOf(full)) && Sorted(v.db.rank, sub.order, RowsOf(full))
            && (forall t :: t in full <==>
                  t.key == None && t.row in Table(v.db, e.target) && AllHold(sub.predicates, t.row) && Holds(p, t.row))
  {
    hide Unwindowed, Matches, Run, Holds, NodeColumns;
    var st := AllStatement(v.schema[e.target], run);
    JoinOfAppend(sub.predicates, p);
    StatementHasID(v.schema[e.target], run);
    OpenRun(v.db, st);
    RunTable(v.db, Open(st));
    forall t ensures t in Matches(v.db, st) <==>
                       t.key == None && t.row in Table(v.db, e.target) && AllHold(sub.predicates, t.row) &&
                           Holds(p, t.row)
    {
      MatchesMember(v.db, st, t);
      AllHoldAppend(sub.predicates, p, t.row);
    }
  }

  /** The batch of an M2M loader: the pairs of the join table whose owner is asked for and whose neighbour is
      selected. */
  ghost predicate Paired(v: Env, e: Edge, sub: Tree, ids: seq<int>, t: Tuple)
    requires e.M2M?
  {
    && t.key.Some? && t.key.value in ids && t.row in Table(v.db, e.target) && AllHold(sub.predicates, t.row)
    && Link(e.swapped, t.key.value, t.row.id) in Pairs(v.db, e.table)
  }

  lemma JoinedMatches(v: Env, e: Edge, sub: Tree, ids: seq<int>, run: Tree, t: Tuple)
    requires e.M2M? && e.target in v.schema && sub.entity == e.target
    requires Narrowed(sub, JoinIn(e.table, e.swapped, ids), run)
    ensures t in Matches(v.db, AllStatement(v.schema[e.target], run)) <==> Paired(v, e, sub, ids, t)
  {
    var p := JoinIn(e.table, e.swapped, ids);
    JoinOfAppend(sub.predicates, p);
    MatchesMember(v.db, AllStatement(v.schema[e.target], run), t);
    AllHoldAppend(sub.predicates, p, t.row);
  }

  /** The pairs that an M2M loader queries for: before the window exactly the pairs of asked-for owners and selected
      neighbours; after it some of them, or all of them if the window drops none. */
  lemma JoinedBatch(v: Env, e: Edge, sub: Tree, ids: seq<int>, run: Tree)
    requires EnvOK(v) && e.M2M? && e.target in v.schema && sub.entity == e.target
    requires Narrowed(sub, JoinIn(e.table, e.swapped, ids), run)
    ensures var st := AllStatement(v.schema[e.target], run);
            var full, ts := Unwindowed(v.db, st), Run(v.db, st);
            && (forall t :: t in full <==> Paired(v, e, sub, ids, t))
            && Sorted(v.db.rank, sub.order, RowsOf(ts)) && (forall t <- ts :: t in full)
            && (Uncut(v.db, st) ==> PairStream(v, e, sub, ids, ts))
  {
    hide Unwindowed, Paired, NodeColumns;
    var st := AllStatement(v.schema[e.target], run);
    var full := Unwindowed(v.db, st);
    JoinOfAppend(sub.predicates, JoinIn(e.table, e.swapped, ids));
    OpenRun(v.db, st);
    assert DBOK(v.db);
    RunJoin(v.db, Open(st));
    forall t ensures t in Matches(v.db, st) <==> Paired(v, e, sub, ids, t) {
      JoinedMatches(v, e, sub, ids, run, t);
    }
    WindowRows(v.db.rank, sub.order, st.offset, st.limit, full);
  }

  /** A stream of exactly the paired rows, sorted. */
  ghost predicate PairStream(v: Env, e: Edge, sub: Tree, ids: seq<int>, ts: seq<Tuple>)
    requires e.M2M?
  {
    && Sorted(v.db.rank, sub.order, RowsOf(ts))
    && (forall t <- ts :: Paired(v, e, sub, ids, t))
    && (forall t :: Paired(v, e, sub, ids, t) ==> t in ts)
  }

  /** The owners of a neighbour are those related to it. */
  lemma StreamOwners(v: Env, e: Edge, sub: Tree, ids: seq<int>, ts: seq<Tuple>, owner: Row, r: Row)
    requires e.M2M? && PairStream(v, e, sub, ids, ts) && owner.id in ids && r in FirstRows(ts)
    ensures r in Table(v.db, e.target) && AllHold(sub.predicates, r)
    ensures owner.id in OwnerIDs(ts, r.id) <==> Related(v.db, e, owner, r)
  {
    FirstRowsFrom(ts, r);
    var i :| 0 <= i < |ts| && ts[i].row == r;
    assert Paired(v, e, sub, ids, ts[i]);
    if Related(v.db, e, owner, r) {
      assert Paired(v, e, sub, ids, Tuple(Some(owner.id), r));
    }
  }

  /** No neighbour is missing. */
  lemma StreamComplete(v: Env, e: Edge, sub: Tree, ids: seq<int>, ts: seq<Tuple>, owner: Row)
    requires e.M2M? && PairStream(v, e, sub, ids, ts) && owner.id in ids && UniqueIDs(Table(v.db, e.target))
    ensures Complete(v, e, owner, sub, FirstRows(ts))
  {
    var rows := Table(v.db, e.target);
    var batch := FirstRows(ts);
    forall m | m in rows && Related(v.db, e, owner, m) && AllHold(sub.predicates, m) ensures m in batch {
      assert Paired(v, e, sub, ids, Tuple(Some(owner.id), m));
      FirstRowsCover(ts, m.id);
      var r :| r in batch && r.id == m.id;
      FirstRowsFrom(ts, r);
      var i :| 0 <= i < |ts| && ts[i].row == r;
      assert Paired(v, e, sub, ids, ts[i]);
      SameRow(rows, r, m);
    }
  }

  lemma SameRow(rows: seq<Row>, a: Row, b: Row)
    requires UniqueIDs(rows) && a in rows && b in rows && a.id == b.id
    ensures a == b
  {
    var i :| 0 <= i < |rows| && rows[i] == a;
    var j :| 0 <= j < |rows| && rows[j] == b;
  }
}
