/** The methods that execute a query: All, First, Only, IDs, FirstID and Exist. */
module Terminals {
  import opened Wrappers
  import opened Records
  import opened Store
  import opened Queries
  import opened Nodes
  import opened Distribute
  import opened Joins
  import opened Batches
  import opened Shapes
  import opened Meaning
  import opened EagerLoad

  /** A query that a caller may execute: it fits the schema, and a traversal yields rows of the table. */
  ghost predicate Executable(v: Env, t: Tree) {
    && EnvOK(v) && t.entity in v.schema && SubsFit(v, t) && JoinOf(t.predicates) == None
    && (t.sql == None || t.path.Some?)
    && (t.path.Some? ==> forall r <- t.path.value(v.db) :: r in Table(v.db, t.entity))
  }

  /** The rows of a query when its limit is lifted. */
  ghost function Unlimit(t: Tree): Tree {
    t.(limit := None)
  }

  lemma RunnableRoot(v: Env, t: Tree)
    requires Executable(v, t)
    ensures Runnable(v, Prepared(t, v.db), None)
    ensures SubFieldsValid(v, t) <==> SubFieldsValid(v, Prepared(t, v.db))
  {
    hide FitsSchema;
    var p := Prepared(t, v.db);
    var st := AllStatement(v.schema[t.entity], p);
    forall tu | tu in Stream(v, p) ensures tu.row in Table(v.db, t.entity) && tu.key == None {
      RunMember(v.db, st, tu);
      MatchesMember(v.db, st, tu);
    }
    SameSubs(v, t, p);
  }

  /** The rows that All returns for a builder in state t. */
  ghost function AllRows(v: Env, t: Tree): seq<Row>
    requires t.entity in v.schema
  {
    RowsOf(Stream(v, Prepared(t, v.db)))
  }

  /** What is in memory after the rows of t have been loaded. */
  ghost predicate Loads(v: Env, t: Tree, sh: Shape)
    requires t.entity in v.schema
    reads NodesIn(sh)
  {
    Shows(v, Prepared(t, v.db), false, AllRows(v, t), sh)
  }

  method All(v: Env, q: Query, ghost S: Tree) returns (r: Result<seq<Node>, Error>, ghost sh: Shape)
    requires q.Valid() && S == q.Snapshot() && Executable(v, S)
    modifies q.Repr - {q}, q`sql
    ensures q.Valid() && q.Repr == old(q.Repr) && fresh(NodesIn(sh))
    ensures AllFieldsValid(v, S) ==> r.Ok?
    ensures r.Ok? ==> sh.nodes == r.value && Loads(v, S, sh)
  {
    hide SubsFit, AllFieldsValid, SubFieldsValid, Stream, Recorded, EnvOK, Runnable, Shows;
    FieldsOf(v, S);
    sh := Shape([], []);
    var err := q.PrepareQuery(v.schema[q.entity], v.db);
    if err.Some? {
      return Err(err.value), sh;
    }
    RunnableRoot(v, S);
    var nids;
    r, nids, sh := SqlAll(v, q, None, Prepared(S, v.db));
  }

  /** What a query loads against what it means. When no window on the builder of an edge drops anything, a node carries
      exactly what the query asks for, at every depth, if and only if its row is served; and all nodes do if and only
      if no such window drops anything and all rows are served. */
  lemma LoadMeans(v: Env, t: Tree, sh: Shape)
    requires Executable(v, t) && Loads(v, t, sh)
    ensures var p, rows, R := Prepared(t, v.db), AllRows(v, t), NodesIn(sh);
            && |sh.nodes| == |rows|
            && (Whole(v, p, rows) ==> forall i :: 0 <= i < |rows| ==>
                  (Carries(v, sh.nodes[i], rows[i], p, false, R) <==> Served(v, p, rows, i)))
            && (AllCarry(v, p, false, rows, sh.nodes, R) <==> Whole(v, p, rows) && AllServed(v, p, rows))
  {
    hide SubsFit, Shows, EnvOK, Carries, Served, Whole, AllCarry, AllServed, AllRows;
    var p := Prepared(t, v.db);
    SameSubs(v, t, p);
    ShownRead(v, p, false, AllRows(v, t), sh);
    TreeMeans(v, p, false, AllRows(v, t), sh, NodesIn(sh));
  }

  // ---- limits ----

  /** A positive limit keeps a prefix of the rows that the query has without a limit. */
  lemma LimitedRows(v: Env, t: Tree, n: nat)
    requires t.entity in v.schema && n > 0
    ensures AllRows(v, t.(limit := Some(n))) == AllRows(v, Unlimit(t))[..Min(n, |AllRows(v, Unlimit(t))|)]
  {
    var e := v.schema[t.entity];
    var a, b := Prepared(t.(limit := Some(n)), v.db), Prepared(Unlimit(t), v.db);
    assert Unwindowed(v.db, AllStatement(e, a)) == Unwindowed(v.db, AllStatement(e, b));
  }

  lemma LimitedTree(v: Env, t: Tree, n: nat)
    requires Executable(v, t)
    ensures t.entity in v.schema && EntityOK(v.schema[t.entity]) && Executable(v, t.(limit := Some(n)))
    ensures AllFieldsValid(v, t) <==> AllFieldsValid(v, t.(limit := Some(n)))
  {
    hide SubsFit, SubFieldsValid, AllFieldsValid, EnvOK;
    EnvEntity(v, t.entity);
    var u := t.(limit := Some(n));
    SameSubs(v, t, u);
    FieldsOf(v, t);
    FieldsOf(v, u);
  }

  /** The nodes are those of the first n rows. */
  ghost predicate FirstOf(rows: seq<Row>, n: nat, nodes: seq<Node>)
    reads SetOf(nodes)
  {
    |nodes| == Min(n, |rows|) && forall i :: 0 <= i < |nodes| ==> nodes[i].rec.id == rows[i].id
  }

  /** Limit(n).All(): at most n nodes, the first of the rows that the query has without a limit. */
  method Limited(v: Env, q: Query, n: nat, ghost S: Tree) returns (r: Result<seq<Node>, Error>, ghost sh: Shape)
    requires q.Valid() && S == q.Snapshot() && Executable(v, S) && n > 0
    modifies q.Repr - {q}, q`sql, q`limit
    ensures q.Valid() && q.Repr == old(q.Repr) && fresh(NodesIn(sh)) && q.limit == Some(n)
    ensures AllFieldsValid(v, S) ==> r.Ok?
    ensures r.Ok? ==> sh.nodes == r.value && Loads(v, S.(limit := Some(n)), sh)
    ensures r.Ok? ==> FirstOf(AllRows(v, Unlimit(S)), n, r.value)
  {
    hide Executable, AllFieldsValid, Loads, Stream, AllRows, Run;
    ghost var L := S.(limit := Some(n));
    q.limit := Some(n);
    assert q.Snapshot() == L by {
      assert q.Snapshot().subs == S.subs;
    }
    LimitedTree(v, S, n);
    LimitedRows(v, S, n);
    r, sh := All(v, q, L);
    if r.Ok? {
      LoadsIDs(v, L, sh);
    }
  }

  lemma LoadsIDs(v: Env, t: Tree, sh: Shape)
    requires t.entity in v.schema && EntityOK(v.schema[t.entity]) && Loads(v, t, sh)
    ensures |sh.nodes| == |AllRows(v, t)|
    ensures forall i :: 0 <= i < |sh.nodes| ==> sh.nodes[i].rec.id == AllRows(v, t)[i].id
  {
    hide AllRows, NodeColumns, Shows, EntityOK;
    var p := Prepared(t, v.db);
    ShownRead(v, p, false, AllRows(v, t), sh);
    ReadIDs(v, p, false, AllRows(v, t), sh.nodes);
    assert forall i :: 0 <= i < |sh.nodes| ==> IDsOf(sh.nodes)[i] == KeysOfRows(AllRows(v, t))[i];
  }

  /** First is decided by the rows that the query has without its limit: their first, or NotFound if there is none. */
  method First(v: Env, q: Query, ghost S: Tree) returns (r: Result<Node, Error>, ghost sh: Shape)
    requires q.Valid() && S == q.Snapshot() && Executable(v, S)
    modifies q.Repr - {q}, q`sql, q`limit
    ensures q.Valid() && q.Repr == old(q.Repr) && fresh(NodesIn(sh)) && q.limit == Some(1)
    ensures AllFieldsValid(v, S) ==>
              && (AllRows(v, Unlimit(S)) == [] <==> r == Err(NotFound))
              && (AllRows(v, Unlimit(S)) != [] <==> r.Ok?)
    ensures r.Ok? ==> AllRows(v, Unlimit(S)) != []
    ensures r.Ok? ==> r.value.rec.id == AllRows(v, Unlimit(S))[0].id
    ensures r.Ok? ==> sh.nodes == [r.value] && Loads(v, S.(limit := Some(1)), sh)
  {
    hide Executable, AllFieldsValid, Loads, AllRows;
    var nodes;
    nodes, sh := Limited(v, q, 1, S);
    if nodes.Err? {
      return Err(nodes.error), sh;
    }
    if |nodes.value| == 0 {
      return Err(NotFound), sh;
    }
    assert nodes.value == [nodes.value[0]];
    return Ok(nodes.value[0]), sh;
  }

  /** Only is decided by the rows that the query has without its limit, of which it fetches two: a single row is
      returned, no row is NotFound, more than one is NotSingular. */
  method Only(v: Env, q: Query, ghost S: Tree) returns (r: Result<Node, Error>, ghost sh: Shape)
    requires q.Valid() && S == q.Snapshot() && Executable(v, S)
    modifies q.Repr - {q}, q`sql, q`limit
    ensures q.Valid() && q.Repr == old(q.Repr) && fresh(NodesIn(sh)) && q.limit == Some(2)
    ensures AllFieldsValid(v, S) ==>
              && (|AllRows(v, Unlimit(S))| == 0 <==> r == Err(NotFound))
              && (|AllRows(v, Unlimit(S))| == 1 <==> r.Ok?)
              && (|AllRows(v, Unlimit(S))| >= 2 <==> r == Err(NotSingular))
    ensures r.Ok? ==> sh.nodes == [r.value] && Loads(v, S.(limit := Some(2)), sh)
  {
    hide Executable, AllFieldsValid, Loads, AllRows;
    var nodes;
    nodes, sh := Limited(v, q, 2, S);
    if nodes.Err? {
      return Err(nodes.error), sh;
    }
    if |nodes.value| == 1 {
      assert nodes.value == [nodes.value[0]];
      return Ok(nodes.value[0]), sh;
    } else if |nodes.value| == 0 {
      return Err(NotFound), sh;
    } else {
      return Err(NotSingular), sh;
    }
  }
}
