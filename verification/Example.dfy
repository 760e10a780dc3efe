/** A small database, to show that the assumptions on databases and schemas can be met and where eager loading and
    IDs do not give what their callers may expect. */
module Example {
  import opened Wrappers
  import opened Lists
  import opened Records
  import opened Store
  import opened Queries
  import opened Nodes
  import opened Joins
  import opened Batches
  import opened Shapes
  import opened Meaning
  import opened Terminals
  import opened IDQueries
  import opened EagerLoad
  import Rows

  // ---- a database that sorts ----

  function Insert(rank: Cell -> int, order: seq<SortTerm>, t: Tuple, ts: seq<Tuple>): seq<Tuple> {
    if ts == [] then [t]
    else if Before(rank, order, ts[0].row, t.row) then [ts[0]] + Insert(rank, order, t, ts[1..])
    else [t] + ts
  }

  function InsertionSort(rank: Cell -> int, order: seq<SortTerm>, ts: seq<Tuple>): seq<Tuple> {
    if ts == [] then [] else Insert(rank, order, ts[0], InsertionSort(rank, order, ts[1..]))
  }

  /** ORDER BY is a weak order. */
  lemma {:induction false} BeforeWeak(rank: Cell -> int, order: seq<SortTerm>, a: Row, b: Row, c: Row)
    ensures !Before(rank, order, b, a) && !Before(rank, order, c, b) ==> !Before(rank, order, c, a)
    ensures Before(rank, order, a, b) ==> !Before(rank, order, b, a)
  {
    if order != [] {
      BeforeWeak(rank, order[1..], a, b, c);
    }
  }

  /** No row of ts sorts before x. */
  ghost predicate NoneBefore(rank: Cell -> int, order: seq<SortTerm>, x: Row, ts: seq<Tuple>) {
    forall t <- ts :: !Before(rank, order, t.row, x)
  }

  lemma SortedHead(rank: Cell -> int, order: seq<SortTerm>, ts: seq<Tuple>)
    requires ts != [] && Sorted(rank, order, RowsOf(ts))
    ensures Sorted(rank, order, RowsOf(ts[1..])) && NoneBefore(rank, order, ts[0].row, ts[1..])
  {
    hide Before;
    assert forall i :: 0 <= i < |ts| - 1 ==> RowsOf(ts[1..])[i] == RowsOf(ts)[i + 1];
    forall t | t in ts[1..] ensures !Before(rank, order, t.row, ts[0].row) {
      var i :| 0 <= i < |ts| - 1 && ts[1..][i] == t;
      assert RowsOf(ts)[i + 1] == t.row;
      assert !Before(rank, order, RowsOf(ts)[i + 1], RowsOf(ts)[0]);
    }
  }

  lemma SortedCons(rank: Cell -> int, order: seq<SortTerm>, t: Tuple, ts: seq<Tuple>)
    requires Sorted(rank, order, RowsOf(ts)) && NoneBefore(rank, order, t.row, ts)
    ensures Sorted(rank, order, RowsOf([t] + ts))
  {
    hide Before;
    var rows := RowsOf([t] + ts);
    forall i, j | 0 <= i < j < |rows| ensures !Before(rank, order, rows[j], rows[i]) {
      assert rows[j] == RowsOf(ts)[j - 1] && rows[j] == ts[j - 1].row;
      if i > 0 {
        assert rows[i] == RowsOf(ts)[i - 1];
      }
    }
  }

  lemma {:induction false} InsertKeeps(rank: Cell -> int, order: seq<SortTerm>, t: Tuple, ts: seq<Tuple>)
    ensures multiset(Insert(rank, order, t, ts)) == multiset(ts) + multiset{t}
    ensures forall x :: x in Insert(rank, order, t, ts) <==> x == t || x in ts
  {
    hide Before;
    if ts != [] {
      assert ts == [ts[0]] + ts[1..];
      InsertKeeps(rank, order, t, ts[1..]);
    }
  }

  lemma {:induction false} InsertSorts(rank: Cell -> int, order: seq<SortTerm>, t: Tuple, ts: seq<Tuple>)
    requires Sorted(rank, order, RowsOf(ts))
    ensures Sorted(rank, order, RowsOf(Insert(rank, order, t, ts)))
  {
    hide Before, Sorted;
    if ts == [] {
      assert Sorted(rank, order, RowsOf([])) by {
        assert RowsOf(ts) == RowsOf([]);
      }
      SortedCons(rank, order, t, []);
      assert [t] + [] == [t];
    } else {
      SortedHead(rank, order, ts);
      if Before(rank, order, ts[0].row, t.row) {
        InsertSorts(rank, order, t, ts[1..]);
        InsertKeeps(rank, order, t, ts[1..]);
        BeforeWeak(rank, order, ts[0].row, t.row, t.row);
        SortedCons(rank, order, ts[0], Insert(rank, order, t, ts[1..]));
      } else {
        forall u | u in ts ensures !Before(rank, order, u.row, t.row) {
          assert ts == [ts[0]] + ts[1..];
          BeforeWeak(rank, order, t.row, ts[0].row, u.row);
        }
        SortedCons(rank, order, t, ts);
      }
    }
  }

  lemma {:induction false} SortSorts(rank: Cell -> int, order: seq<SortTerm>, ts: seq<Tuple>)
    ensures Sorted(rank, order, RowsOf(InsertionSort(rank, order, ts)))
    ensures multiset(InsertionSort(rank, order, ts)) == multiset(ts)
  {
    if ts != [] {
      SortSorts(rank, order, ts[1..]);
      InsertSorts(rank, order, ts[0], InsertionSort(rank, order, ts[1..]));
      InsertKeeps(rank, order, ts[0], InsertionSort(rank, order, ts[1..]));
      assert ts == [ts[0]] + ts[1..];
    }
  }

  /** Any tables with unique keys, any join tables and any collation make up a database as the model assumes it. */
  lemma DatabasesExist(tables: map<string, seq<Row>>, joins: map<string, seq<(int, int)>>, rank: Cell -> int)
    requires forall name <- tables :: UniqueIDs(tables[name])
    ensures DBOK(DB(tables, joins, rank, (order, ts) => InsertionSort(rank, order, ts)))
  {
    forall order, ts
      ensures Sorted(rank, order, RowsOf(InsertionSort(rank, order, ts)))
      ensures multiset(InsertionSort(rank, order, ts)) == multiset(ts)
    {
      SortSorts(rank, order, ts);
    }
  }

  // ---- one parent with two children ----

  const PARENT := Row(1, map[])
  const FIRST_CHILD := Row(10, map["parent" := Int(1)])
  const SECOND_CHILD := Row(11, map["parent" := Int(1)])
  const CHILDREN: Edge := O2M("children", "children", "parent")

  function Family(): Env {
    var tag := (c: string) => if c == "id" || c == "parent" then NullInt64 else UnknownType;
    var assign := (c: string) => if c == "id" || c == "parent" then Some(NullInt64) else None;
    Env(map["parents" := Entity(["id"], [], [CHILDREN], tag, assign, _ => None),
            "children" := Entity(["id"], ["parent"], [], tag, assign, _ => None)],
        DB(map["parents" := [PARENT], "children" := [FIRST_CHILD, SECOND_CHILD]], map[], _ => 0,
           (order, ts) => InsertionSort(_ => 0, order, ts)))
  }

  function Builder(entity: string, subs: seq<Option<Tree>>): Tree {
    Tree(entity, [], None, None, None, [], [], subs, false, None, None)
  }

  lemma FamilyDB()
    ensures DBOK(Family().db)
  {
    hide InsertionSort, Sorted, RowsOf;
    var db := Family().db;
    forall order, ts
      ensures multiset(db.arrange(order, ts)) == multiset(ts) && Sorted(db.rank, order, RowsOf(db.arrange(order, ts)))
    {
      SortSorts(_ => 0, order, ts);
      assert db.arrange(order, ts) == InsertionSort(_ => 0, order, ts);
    }
  }

  lemma FamilyEntities()
    ensures EntityOK(Family().schema["parents"]) && EntityOK(Family().schema["children"])
  {
    hide InsertionSort;
  }

  lemma FamilyRows()
    ensures Readable(Family().schema["parents"], PARENT)
    ensures Readable(Family().schema["children"], FIRST_CHILD) && Readable(Family().schema["children"], SECOND_CHILD)
  {
    hide InsertionSort;
  }

  lemma FamilyOK()
    ensures EnvOK(Family())
  {
    hide DBOK, InsertionSort, EntityOK, Readable;
    FamilyDB();
    FamilyEntities();
    FamilyRows();
  }

  /** A limit of zero is no limit for All, but IDs returns nothing: on this database the two differ. */
  lemma ZeroLimitHidesIDs()
    ensures var t := Builder("parents", [None]).(limit := Some(0));
            && Executable(Family(), t)
            && KeysOfRows(IDRows(Family(), t)) == []
            && 1 in KeysOfRows(AllRows(Family(), t))
  {
    hide EnvOK, Unwindowed, InsertionSort, DBOK;
    FamilyOK();
    var v := Family();
    var t := Builder("parents", [None]).(limit := Some(0));
    var e := v.schema["parents"];
    var st := AllStatement(e, Prepared(t, v.db));
    assert DBOK(v.db) by {
      EnvParts(v);
    }
    MatchesMember(v.db, st, Tuple(None, PARENT));
    RunTable(v.db, st);
    var i :| 0 <= i < |Run(v.db, st)| && Run(v.db, st)[i] == Tuple(None, PARENT);
    assert KeysOfRows(AllRows(v, t))[i] == 1;
    assert SelectorOf(e, Prepared(IDTree(t), v.db)).limit == Some(0);
  }

  lemma EnvParts(v: Env)
    requires EnvOK(v)
    ensures DBOK(v.db)
  {
  }

  /** Parents with at most one child. */
  function OneChild(): Tree {
    Builder("parents", [Some(Builder("children", []).(limit := Some(1)))])
  }

  lemma OneChildExecutes()
    ensures Executable(Family(), OneChild()) && AllRows(Family(), OneChild()) == [PARENT]
  {
    hide EnvOK, InsertionSort, Run, Matches;
    FamilyOK();
    var v := Family();
    EnvParts(v);
    OneRow(v.db, AllStatement(v.schema["parents"], Prepared(OneChild(), v.db)), PARENT);
  }

  lemma OneRow(db: DB, st: Statement, row: Row)
    requires DBOK(db) && Source(db, st) == [row] && st.preds == []
    requires !st.distinct && st.offset == 0 && st.limit == None
    ensures RowsOf(Run(db, st)) == [row]
  {
    KeepAll(Unjoined([row]));
    var ts := Run(db, st);
    assert multiset(ts) == multiset(Unjoined([row]));
    assert |ts| == |multiset(ts)| == |multiset(Unjoined([row]))| == 1;
    assert ts[0] in multiset(Unjoined([row]));
  }

  /** A limit of one on the builder of an edge is one for all owners together, and not one each: here the only parent,
      with two children, is left with one of them at most. */
  lemma LimitIsNotPerOwner(sh: Shape)
    requires Loads(Family(), OneChild(), sh)
    ensures |sh.nodes| == 1 && |sh.nodes[0].edges| == 1 && |sh.nodes[0].edges[0].many| <= 1
    ensures {10, 11} <= Joined(Family(), CHILDREN, PARENT, OneChild().subs[0].value)
    ensures !Carries(Family(), sh.nodes[0], PARENT, OneChild(), false, NodesIn(sh))
  {
    hide EnvOK, InsertionSort, Run, NodesIn, AllRows, ListOK;
    var v, t, rows := Family(), OneChild(), [PARENT];
    var S := t.subs[0].value;
    FamilyOK();
    OneChildExecutes();
    BothJoined(S);
    ShownEdge(v, t, false, rows, sh, 0);
    assert ShowsEdge(v, CHILDREN, 0, S, rows, sh.nodes, sh.below[0].value);
    AtMostOne(v, CHILDREN, S, rows);
    ShareShort(sh.below[0].value.nodes, EdgeOwners(v, CHILDREN, S, rows), 1);
    TooShort(v, CHILDREN, PARENT, S, sh.nodes[0].edges[0].many, NodesIn(sh));
  }

  lemma BothJoined(S: Tree)
    requires S.predicates == []
    ensures {10, 11} <= Joined(Family(), CHILDREN, PARENT, S)
  {
    hide InsertionSort;
    assert FIRST_CHILD in Table(Family().db, "children") && SECOND_CHILD in Table(Family().db, "children");
  }

  lemma AtMostOne(v: Env, e: Edge, S: Tree, rows: seq<Row>)
    requires S.entity in v.schema && S.limit == Some(1) && !e.M2M?
    ensures |EdgeBatch(v, e, S, rows)| <= 1
  {
  }

  lemma {:induction false} ShareShort<T>(xs: seq<T>, owners: seq<set<int>>, id: int)
    requires |xs| == |owners|
    ensures |Share(xs, owners, id)| <= |xs|
  {
    if xs != [] {
      ShareShort(xs[..|xs| - 1], owners[..|xs| - 1], id);
    }
  }

  lemma TooShort(v: Env, e: Edge, owner: Row, S: Tree, list: seq<Node>, R: set<Node>)
    requires {10, 11} <= Joined(v, e, owner, S) && |list| <= 1
    ensures !ListOK(v, e, owner, S, list, R)
  {
    hide Carries, Joined;
    if forall id <- Joined(v, e, owner, S) :: exists i :: 0 <= i < |list| && list[i].rec.id == id {
      var i :| 0 <= i < |list| && list[i].rec.id == 10;
      var j :| 0 <= j < |list| && list[j].rec.id == 11;
      assert false;
    }
  }

  /** A traversal that reaches the parent twice, loaded with its children: the second node gets both of them,
      the first one none. */
  lemma EarlierRepeatMisses(sh: Shape)
    requires Loads(Family(), Twice(), sh)
    ensures |sh.nodes| == 2 && |sh.nodes[0].edges| == 1 && sh.nodes[0].edges[0].many == []
    ensures !Carries(Family(), sh.nodes[0], PARENT, Prepared(Twice(), Family().db), false, NodesIn(sh))
    ensures Carries(Family(), sh.nodes[1], PARENT, Prepared(Twice(), Family().db), false, NodesIn(sh))
  {
    hide Carries, AllRows, EnvOK, InsertionSort, Joined, NodesIn, Whole, Executable;
    var v, t, rows := Family(), Prepared(Twice(), Family().db), [PARENT, PARENT];
    FamilyOK();
    TwiceExecutes();
    LastOfTwo(KeysOfRows(rows));
    BothJoined(t.subs[0].value);
    assert 10 in Joined(v, CHILDREN, PARENT, t.subs[0].value);
    LoadMeans(v, Twice(), sh);
    TwiceWhole();
    assert !ServedEdge(v, CHILDREN, t.subs[0].value, rows, 0) && Served(v, t, rows, 1);
    TwiceShown(sh);
  }

  lemma TwiceShown(sh: Shape)
    requires Loads(Family(), Twice(), sh)
    ensures |sh.nodes| == 2 && |sh.nodes[0].edges| == 1 && sh.nodes[0].edges[0].many == []
  {
    hide AllRows, InsertionSort, NodesIn, Run;
    TwiceExecutes();
    var v, t, rows := Family(), Prepared(Twice(), Family().db), [PARENT, PARENT];
    ShownEdge(v, t, false, rows, sh, 0);
    assert ShowsEdge(v, CHILDREN, 0, t.subs[0].value, rows, sh.nodes, sh.below[0].value);
    LastOfTwo(KeysOfRows(rows));
  }

  lemma LastOfTwo(ids: seq<int>)
    requires |ids| == 2 && ids[0] == ids[1]
    ensures !IsLast(ids, 0) && IsLast(ids, 1)
  {
  }

  lemma TwiceWhole()
    ensures Whole(Family(), Prepared(Twice(), Family().db), [PARENT, PARENT])
  {
    hide InsertionSort, Unwindowed;
  }

  function Twice(): Tree {
    Builder("parents", [Some(Builder("children", []))]).(path := Some(_ => [PARENT, PARENT]), unique := Some(false))
  }

  lemma TwiceExecutes()
    ensures Executable(Family(), Twice()) && AllRows(Family(), Twice()) == [PARENT, PARENT]
  {
    hide EnvOK, InsertionSort, Run, Matches;
    FamilyOK();
    var v := Family();
    EnvParts(v);
    var st := AllStatement(v.schema["parents"], Prepared(Twice(), v.db));
    assert st.from == Some([PARENT, PARENT]);
    TwoRows(v.db, st, PARENT);
  }

  lemma TwoRows(db: DB, st: Statement, row: Row)
    requires DBOK(db) && st.from == Some([row, row]) && st.preds == []
    requires !st.distinct && st.offset == 0 && st.limit == None
    ensures RowsOf(Run(db, st)) == [row, row]
  {
    var both := Unjoined([row, row]);
    KeepAll(both);
    var ts := Run(db, st);
    assert multiset(ts) == multiset(both);
    assert |ts| == |multiset(ts)| == |multiset(both)| == 2;
    forall i | 0 <= i < 2 ensures ts[i].row == row {
      assert ts[i] in multiset(both);
    }
  }

  lemma {:induction false} KeepAll(ts: seq<Tuple>)
    ensures KeepMatching([], ts) == ts
  {
    if ts != [] {
      KeepAll(ts[1..]);
    }
  }

  /** The same traversal when nothing is said about repeats: the parent is there once, and Only returns it. */
  lemma TraversalOnce()
    ensures var t := Twice().(unique := None);
            Executable(Family(), t) && AllRows(Family(), Unlimit(t)) == [PARENT]
  {
    hide EnvOK, InsertionSort, AllRows, SubsFit;
    var v, t := Family(), Twice().(unique := None);
    FamilyOK();
    TwiceExecutes();
    SameSubs(v, Twice(), t);
    Rows.RowsBeforeWindow(v, t);
    assert Rows.Unwindow(t) == Unlimit(t);
    var rows := AllRows(v, Unlimit(t));
    assert PARENT in Rows.StartRows(v, t) && Rows.PassesAll(t.predicates, PARENT);
    assert PARENT in rows && forall row <- rows :: row == PARENT;
    AllTheSame(rows, PARENT);
  }

  lemma AllTheSame(rows: seq<Row>, row: Row)
    requires UniqueIDs(rows) && row in rows && forall r <- rows :: r == row
    ensures rows == [row]
  {
    if |rows| > 1 {
      FirstTwo(rows);
      assert false;
    }
  }

  lemma FirstTwo(rows: seq<Row>)
    requires UniqueIDs(rows) && |rows| > 1
    ensures rows[0] in rows && rows[1] in rows && rows[0] != rows[1]
  {
  }
}
