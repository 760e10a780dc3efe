/** IDs and what is built on it: the second compilation of the builder agrees with the first. */
module IDQueries {
  import opened Wrappers
  import opened Records
  import opened Store
  import opened Queries
  import opened Joins
  import opened Batches
  import opened EagerLoad
  import opened Terminals

  /** The state of the builder after IDs has set it up: distinct for a traversal that left it open, and "id"
      selected. */
  function IDTree(t: Tree): Tree {
    t.(unique := if t.unique.None? && t.path.Some? then Some(true) else t.unique, fields := t.fields + ["id"])
  }

  /** The rows that IDs reads. */
  ghost function IDRows(v: Env, t: Tree): seq<Row>
    requires t.entity in v.schema
  {
    RowsOf(Run(v.db, SelectorOf(v.schema[t.entity], Prepared(IDTree(t), v.db))))
  }

  /** IDs runs the selector of the builder and scans a single integer column; a builder that already has selected
      fields selects more than one column, which a slice of integers cannot hold. */
  method IDs(v: Env, q: Query, ghost S: Tree) returns (r: Result<seq<int>, Error>)
    requires q.Valid() && S == q.Snapshot() && S.entity in v.schema && EntityOK(v.schema[S.entity])
    modifies q`unique, q`fields, q`sql
    ensures q.Valid() && q.Repr == old(q.Repr)
    ensures q.fields == S.fields + ["id"] && q.unique == IDTree(S).unique
    ensures r.Ok? <==> S.fields == []
    ensures r.Ok? ==> r.value == KeysOfRows(IDRows(v, S))
    ensures r.Err? ==> r.error.InvalidField? || r.error == ValueCount
  {
    hide Run;
    if q.unique.None? && q.path.Some? {
      q.unique := Some(true);
    }
    q.fields := q.fields + ["id"];
    assert q.Snapshot() == IDTree(S) by {
      assert q.Snapshot().subs == S.subs;
    }
    var e := v.schema[q.entity];
    var err := q.PrepareQuery(e, v.db);
    if err.Some? {
      return Err(err.value);
    }
    var selector := q.SqlQuery(e);
    if |selector.columns| != 1 {
      return Err(ValueCount);
    }
    assert S.fields == [] && selector.columns == ["id"];
    var ids := ScanInts(v.db, selector);
    return Ok(ids);
  }

  /** ScanSlice into integers. */
  method ScanInts(db: DB, selector: Statement) returns (ids: seq<int>)
    requires selector.columns == ["id"]
    ensures ids == KeysOfRows(RowsOf(Run(db, selector)))
  {
    var ts := Run(db, selector);
    ids := [];
    for i := 0 to |ts|
      invariant |ids| == i && forall j :: 0 <= j < i ==> ids[j] == ts[j].row.id
    {
      ids := ids + [IntOf(Project(selector.columns, ts[i].row)[0])];
    }
  }

  // ---- the two compilations ----

  /** DISTINCT on any columns that include the key is DISTINCT on the key. */
  lemma {:induction false} DistinctOnKey(columns: seq<string>, ts: seq<Tuple>, table: seq<Row>)
    requires "id" in columns && UniqueIDs(table) && forall t <- ts :: t.row in table
    ensures Distinct(columns, ts) == Distinct(["id"], ts)
  {
    if ts != [] {
      var n := |ts| - 1;
      DistinctOnKey(columns, ts[..n], table);
      forall t | t in ts[..n]
        ensures Project(columns, t.row) == Project(columns, ts[n].row) <==>
            Project(["id"], t.row) == Project(["id"], ts[n].row)
      {
        if Project(columns, t.row) == Project(columns, ts[n].row) {
          ProjectsKey(columns, t.row, ts[n].row);
        }
        if Project(["id"], t.row) == Project(["id"], ts[n].row) {
          ProjectsKey(["id"], t.row, ts[n].row);
          SameRow(table, t.row, ts[n].row);
        }
      }
    }
  }

  /** Up to offset and limit, IDs and All read the same rows in the same order. */
  lemma SameBeforeWindow(v: Env, t: Tree)
    requires Executable(v, t) && t.fields == []
    ensures var e := v.schema[t.entity];
            (Unwindowed(v.db, SelectorOf(e, Prepared(IDTree(t), v.db)))
             == Unwindowed(v.db, AllStatement(e, Prepared(t, v.db))))
  {
    hide SubsFit, NodeColumns, SpecColumns;
    var e := v.schema[t.entity];
    var a, b := AllStatement(e, Prepared(t, v.db)), SelectorOf(e, Prepared(IDTree(t), v.db));
    EnvEntity(v, t.entity);
    StatementHasID(e, Prepared(t, v.db));
    assert t.fields + ["id"] == ["id"];
    assert b.columns == ["id"];
    assert Matches(v.db, a) == Matches(v.db, b);
    var ts := v.db.arrange(a.order, Matches(v.db, a));
    forall tu | tu in ts ensures tu.row in Table(v.db, t.entity) {
      assert tu in multiset(ts);
      MatchesMember(v.db, a, tu);
    }
    DistinctOnKey(a.columns, ts, Table(v.db, t.entity));
  }

  /** The number of rows that remain after the offset. */
  ghost function RestCount(v: Env, t: Tree): nat
    requires t.entity in v.schema
  {
    var all := |Unwindowed(v.db, AllStatement(v.schema[t.entity], Prepared(t, v.db)))|;
    all - Min(if t.offset.Some? then t.offset.value else 0, all)
  }

  /** The two compilations window alike, except that a limit of zero is no limit for All and no rows for IDs, and
      that an offset without a limit caps IDs. */
  ghost predicate SameWindow(v: Env, t: Tree)
    requires t.entity in v.schema
  {
    && (t.limit == Some(0) ==> RestCount(v, t) == 0)
    && (t.limit == None && t.offset.Some? ==> RestCount(v, t) <= MAX_INT32)
  }

  /** IDs returns the ids of the nodes of All, duplicates of a traversal and all, exactly when the windows agree. */
  lemma IDsAreKeysOfAll(v: Env, t: Tree)
    requires Executable(v, t) && t.fields == []
    ensures KeysOfRows(IDRows(v, t)) == KeysOfRows(AllRows(v, t)) <==> SameWindow(v, t)
  {
    hide SubsFit, Unwindowed, NodeColumns, EnvOK;
    var e := v.schema[t.entity];
    SameBeforeWindow(v, t);
    var a, b := AllStatement(e, Prepared(t, v.db)), SelectorOf(e, Prepared(IDTree(t), v.db));
    var x := Unwindowed(v.db, a);
    var rest := x[Min(a.offset, |x|)..];
    assert a.offset == b.offset;
    assert |AllRows(v, t)| == |Window(a.offset, a.limit, x)|;
    assert |IDRows(v, t)| == |Window(b.offset, b.limit, x)|;
    if SameWindow(v, t) {
      assert Window(a.offset, a.limit, x) == Window(b.offset, b.limit, x);
    } else {
      assert |Window(a.offset, a.limit, x)| != |Window(b.offset, b.limit, x)|;
    }
  }

  lemma LimitedIDs(v: Env, t: Tree, n: nat)
    requires Executable(v, t) && t.fields == [] && n > 0
    ensures KeysOfRows(IDRows(v, t.(limit := Some(n))))
         == KeysOfRows(AllRows(v, Unlimit(t)))[..Min(n, |AllRows(v, Unlimit(t))|)]
  {
    hide Executable, AllRows, IDRows;
    LimitedTree(v, t, n);
    IDsAreKeysOfAll(v, t.(limit := Some(n)));
    LimitedRows(v, t, n);
  }

  /** FirstID is the id of what First returns, and NotFound together with it. */
  method FirstID(v: Env, q: Query, ghost S: Tree) returns (r: Result<int, Error>)
    requires q.Valid() && S == q.Snapshot() && Executable(v, S)
    modifies q`unique, q`fields, q`sql, q`limit
    ensures q.Valid() && q.Repr == old(q.Repr)
    ensures S.fields == [] ==>
              && (r.Ok? <==> AllRows(v, Unlimit(S)) != [])
              && (r.Ok? ==> r.value == AllRows(v, Unlimit(S))[0].id)
              && (r.Err? ==> r == Err(NotFound))
    ensures S.fields != [] ==> r.Err? && r != Err(NotFound)
  {
    hide Executable, AllRows, IDRows;
    ghost var L := S.(limit := Some(1));
    q.limit := Some(1);
    assert q.Snapshot() == L by {
      assert q.Snapshot().subs == S.subs;
    }
    LimitedTree(v, S, 1);
    var ids := IDs(v, q, L);
    if S.fields == [] {
      LimitedIDs(v, S, 1);
    }
    if ids.Err? {
      return Err(ids.error);
    }
    if |ids.value| == 0 {
      return Err(NotFound);
    }
    return Ok(ids.value[0]);
  }

  /** Exist is true exactly when the query has a row, whatever limit it had. */
  method Exist(v: Env, q: Query, ghost S: Tree) returns (r: Result<bool, Error>)
    requires q.Valid() && S == q.Snapshot() && Executable(v, S)
    modifies q`unique, q`fields, q`sql, q`limit
    ensures S.fields == [] ==> r == Ok(AllRows(v, Unlimit(S)) != [])
    ensures S.fields != [] ==> r.Err?
  {
    hide Executable, AllRows;
    var id := FirstID(v, q, S);
    if id == Err(NotFound) {
      return Ok(false);
    } else if id.Err? {
      return Err(id.error);
    } else {
      return Ok(true);
    }
  }
}
