/** Which rows an executed query reads, in which order and how often each. */
module Rows {
  import opened Wrappers
  import opened Records
  import opened Store
  import opened Queries
  import opened Joins
  import opened Batches
  import opened Meaning
  import opened Terminals
  import opened IDQueries

  // ---- the order of rows ----

  /** The rows are alike in the first k terms. */
  ghost predicate Ties(rank: Cell -> int, order: seq<SortTerm>, k: nat, a: Row, b: Row)
    requires k <= |order|
  {
    forall l :: 0 <= l < k ==> rank(CellAt(a, order[l].column)) == rank(CellAt(b, order[l].column))
  }

  /** Row a may stand before row b: it ascends or descends, as the term says, wherever the earlier terms tie. */
  ghost predicate MayPrecede(rank: Cell -> int, order: seq<SortTerm>, a: Row, b: Row) {
    forall k :: 0 <= k < |order| && Ties(rank, order, k, a, b) ==>
      match order[k]
      case Asc(c) => rank(CellAt(a, c)) <= rank(CellAt(b, c))
      case Desc(c) => rank(CellAt(a, c)) >= rank(CellAt(b, c))
  }

  ghost predicate InOrder(rank: Cell -> int, order: seq<SortTerm>, rows: seq<Row>) {
    forall i, j :: 0 <= i < j < |rows| ==> MayPrecede(rank, order, rows[i], rows[j])
  }

  lemma TiesTail(rank: Cell -> int, order: seq<SortTerm>, k: nat, a: Row, b: Row)
    requires 0 < k <= |order|
    ensures Ties(rank, order, k, a, b) <==>
              rank(CellAt(a, order[0].column)) == rank(CellAt(b, order[0].column)) &&
                  Ties(rank, order[1..], k - 1, a, b)
  {
    assert forall l :: 0 <= l < k - 1 ==> order[1..][l] == order[l + 1];
    if rank(CellAt(a, order[0].column)) == rank(CellAt(b, order[0].column)) && Ties(rank, order[1..], k - 1, a, b) {
      forall l | 0 <= l < k ensures rank(CellAt(a, order[l].column)) == rank(CellAt(b, order[l].column)) {
        if l > 0 {
          assert order[1..][l - 1] == order[l];
        }
      }
    }
  }

  lemma {:induction false} BeforeIs(rank: Cell -> int, order: seq<SortTerm>, a: Row, b: Row)
    ensures MayPrecede(rank, order, a, b) <==> !Before(rank, order, b, a)
  {
    hide Ties;
    if order != [] {
      var rest := order[1..];
      BeforeIs(rank, rest, a, b);
      NoTerms(rank, order, a, b);
      if rank(CellAt(a, order[0].column)) == rank(CellAt(b, order[0].column)) {
        TailPrecedes(rank, order, a, b);
      } else {
        forall k | 0 < k < |order| ensures !Ties(rank, order, k, a, b) {
          TiesTail(rank, order, k, a, b);
        }
      }
    }
  }

  lemma NoTerms(rank: Cell -> int, order: seq<SortTerm>, a: Row, b: Row)
    ensures Ties(rank, order, 0, a, b)
  {
  }

  lemma TailPrecedes(rank: Cell -> int, order: seq<SortTerm>, a: Row, b: Row)
    requires order != [] && rank(CellAt(a, order[0].column)) == rank(CellAt(b, order[0].column))
    ensures MayPrecede(rank, order, a, b) <==> MayPrecede(rank, order[1..], a, b)
  {
  }

  /** Sorted as a database sorts: by the first term, then where it ties by the second, and so on. */
  lemma SortedIs(rank: Cell -> int, order: seq<SortTerm>, rows: seq<Row>)
    ensures Sorted(rank, order, rows) <==> InOrder(rank, order, rows)
  {
    hide MayPrecede, Before;
    forall i, j | 0 <= i < j < |rows|
      ensures MayPrecede(rank, order, rows[i], rows[j]) <==> !Before(rank, order, rows[j], rows[i])
    {
      BeforeIs(rank, order, rows[i], rows[j]);
    }
  }

  // ---- the rows that a query asks for ----

  /** The row passes the test, has one of the keys, or names one of them. */
  ghost predicate Passes(p: Predicate, row: Row) {
    && (p.Where? ==> p.test(row))
    && (p.IDIn? ==> exists k :: 0 <= k < |p.ids| && row.id == p.ids[k])
    && (p.ColumnIn? ==> exists k :: 0 <= k < |p.ids| && CellAt(row, p.column) == Int(p.ids[k]))
  }

  ghost predicate PassesAll(ps: seq<Predicate>, row: Row) {
    forall i :: 0 <= i < |ps| ==> Passes(ps[i], row)
  }

  lemma HoldsIs(p: Predicate, row: Row)
    ensures Holds(p, row) <==> Passes(p, row)
  {
  }

  lemma AllHoldIs(ps: seq<Predicate>, row: Row)
    ensures AllHold(ps, row) <==> PassesAll(ps, row)
  {
    hide Holds, Passes;
    forall i | 0 <= i < |ps| ensures Holds(ps[i], row) <==> Passes(ps[i], row) {
      HoldsIs(ps[i], row);
    }
  }

  // ---- repeats ----

  ghost predicate Unkeyed(ts: seq<Tuple>) {
    forall t <- ts :: t.key == None
  }

  /** How often a row is among the results. */
  lemma {:induction false} CountRow(ts: seq<Tuple>, row: Row)
    requires Unkeyed(ts)
    ensures multiset(RowsOf(ts))[row] == multiset(ts)[Tuple(None, row)]
  {
    if ts == [] {
      assert RowsOf(ts) == [];
    } else {
      assert ts == [ts[0]] + ts[1..] && RowsOf(ts) == [ts[0].row] + RowsOf(ts[1..]);
      assert ts[0] in ts && forall t <- ts[1..] :: t in ts;
      CountRow(ts[1..], row);
    }
  }

  lemma {:induction false} CountMatching(ps: seq<Predicate>, rows: seq<Row>, row: Row)
    ensures multiset(KeepMatching(ps, Unjoined(rows)))[Tuple(None, row)]
         == if AllHold(ps, row) then multiset(rows)[row] else 0
  {
    hide AllHold;
    if rows != [] {
      assert rows == [rows[0]] + rows[1..];
      assert Unjoined(rows)[0] == Tuple(None, rows[0]) && Unjoined(rows)[1..] == Unjoined(rows[1..]);
      CountMatching(ps, rows[1..], row);
    }
  }

  lemma RowThere(ts: seq<Tuple>, row: Row)
    ensures row in RowsOf(ts) <==> exists t <- ts :: t.row == row
  {
    if row in RowsOf(ts) {
      var i :| 0 <= i < |ts| && RowsOf(ts)[i] == row;
      assert ts[i] in ts;
    }
    if t :| t in ts && t.row == row {
      var i :| 0 <= i < |ts| && ts[i] == t;
      assert RowsOf(ts)[i] == row;
    }
  }

  lemma SeenIsThere(columns: seq<string>, ts: seq<Tuple>, row: Row, table: seq<Row>)
    requires "id" in columns && UniqueIDs(table) && row in table && forall t <- ts :: t.row in table
    ensures SeenLike(columns, ts, row) <==> row in RowsOf(ts)
  {
    hide Project, UniqueIDs;
    RowThere(ts, row);
    forall t | t in ts && Project(columns, t.row) == Project(columns, row) ensures t.row == row {
      ProjectsKey(columns, t.row, row);
      SameRow(table, t.row, row);
    }
  }

  lemma RowsMore(ts: seq<Tuple>, t: Tuple)
    ensures RowsOf(ts + [t]) == RowsOf(ts) + [t.row]
  {
  }

  lemma OneMoreID(rows: seq<Row>, row: Row, table: seq<Row>)
    requires UniqueIDs(rows) && UniqueIDs(table) && row in table && row !in rows && forall r <- rows :: r in table
    ensures UniqueIDs(rows + [row])
  {
    forall i | 0 <= i < |rows| ensures rows[i].id != row.id {
      if rows[i].id == row.id {
        SameRow(table, rows[i], row);
      }
    }
  }

  /** DISTINCT on columns with the key: keys do not repeat and no row is lost. */
  lemma {:induction false} DistinctRows(columns: seq<string>, ts: seq<Tuple>, table: seq<Row>)
    requires "id" in columns && UniqueIDs(table) && forall t <- ts :: t.row in table
    ensures UniqueIDs(RowsOf(Distinct(columns, ts)))
    ensures forall row :: row in RowsOf(Distinct(columns, ts)) <==> row in RowsOf(ts)
  {
    hide SeenLike, UniqueIDs, RowsOf;
    if ts == [] {
      NoRows();
    } else {
      var n := |ts| - 1;
      var few, last := ts[..n], ts[n];
      assert few + [last] == ts;
      DistinctRows(columns, few, table);
      SeenIsThere(columns, few, last.row, table);
      RowsMore(few, last);
      if SeenLike(columns, few, last.row) {
        assert Distinct(columns, ts) == Distinct(columns, few);
      } else {
        assert Distinct(columns, ts) == Distinct(columns, few) + [last];
        RowsMore(Distinct(columns, few), last);
        AllInTable(few, table);
        OneMoreID(RowsOf(Distinct(columns, few)), last.row, table);
      }
    }
  }

  lemma NoRows()
    ensures RowsOf([]) == [] && UniqueIDs(RowsOf([]))
  {
  }

  lemma AllInTable(ts: seq<Tuple>, table: seq<Row>)
    requires forall t <- ts :: t.row in table
    ensures forall row <- RowsOf(ts) :: row in table
  {
    forall row | row in RowsOf(ts) ensures row in table {
      RowThere(ts, row);
    }
  }

  /** DISTINCT keeps the order. */
  lemma {:induction false} DistinctSorted(rank: Cell -> int, order: seq<SortTerm>, columns: seq<string>, ts: seq<Tuple>)
    requires Sorted(rank, order, RowsOf(ts))
    ensures Sorted(rank, order, RowsOf(Distinct(columns, ts)))
  {
    hide SeenLike, Before, RowsOf;
    if ts == [] {
      NoRows();
    } else {
      var n := |ts| - 1;
      var few, last := ts[..n], ts[n];
      assert few + [last] == ts;
      RowsMore(few, last);
      SortedPrefix(rank, order, RowsOf(few), last.row);
      DistinctSorted(rank, order, columns, few);
      RowsMore(Distinct(columns, few), last);
      forall row | row in RowsOf(Distinct(columns, few)) ensures row in RowsOf(few) {
        DistinctFrom(columns, few, row);
      }
      SortedMore(rank, order, RowsOf(Distinct(columns, few)), last.row);
    }
  }

  lemma DistinctFrom(columns: seq<string>, ts: seq<Tuple>, row: Row)
    requires row in RowsOf(Distinct(columns, ts))
    ensures row in RowsOf(ts)
  {
    hide SeenLike;
    RowThere(Distinct(columns, ts), row);
    RowThere(ts, row);
    var t :| t in Distinct(columns, ts) && t.row == row;
    DistinctMember(columns, ts, t);
  }

  lemma SortedPrefix(rank: Cell -> int, order: seq<SortTerm>, rows: seq<Row>, last: Row)
    requires Sorted(rank, order, rows + [last])
    ensures Sorted(rank, order, rows) && forall row <- rows :: !Before(rank, order, last, row)
  {
    hide Before;
    var all := rows + [last];
    forall i | 0 <= i < |rows| ensures !Before(rank, order, last, rows[i]) {
      assert all[i] == rows[i] && all[|rows|] == last;
    }
    forall i, j | 0 <= i < j < |rows| ensures !Before(rank, order, rows[j], rows[i]) {
      assert all[i] == rows[i] && all[j] == rows[j];
    }
  }

  lemma SortedMore(rank: Cell -> int, order: seq<SortTerm>, rows: seq<Row>, last: Row)
    requires Sorted(rank, order, rows) && forall row <- rows :: !Before(rank, order, last, row)
    ensures Sorted(rank, order, rows + [last])
  {
    hide Before;
  }

  // ---- before the window ----

  /** The rows come from the source rows that pass the predicates: each key once, or each row as often as there. */
  ghost predicate Reads(source: seq<Row>, ps: seq<Predicate>, once: bool, rows: seq<Row>) {
    if once then UniqueIDs(rows) && forall row :: row in rows <==> row in source && PassesAll(ps, row)
    else forall row :: multiset(rows)[row] == if PassesAll(ps, row) then multiset(source)[row] else 0
  }

  lemma ArrangedRows(db: DB, st: Statement)
    requires DBOK(db) && JoinOf(st.preds) == None
    ensures var ts := db.arrange(st.order, Matches(db, st));
            && Sorted(db.rank, st.order, RowsOf(ts)) && Unkeyed(ts)
            && forall row :: multiset(RowsOf(ts))[row] == if AllHold(st.preds, row) then multiset(Source(db, st))[row]
                else 0
  {
    hide AllHold, KeepMatching, Sorted, UniqueIDs;
    var ts := db.arrange(st.order, Matches(db, st));
    assert multiset(ts) == multiset(Matches(db, st));
    forall t | t in ts ensures t.key == None {
      assert t in multiset(ts) && t in Matches(db, st);
      MatchesMember(db, st, t);
    }
    forall row
      ensures multiset(RowsOf(ts))[row] == if AllHold(st.preds, row) then multiset(Source(db, st))[row] else 0
    {
      CountRow(ts, row);
      CountMatching(st.preds, Source(db, st), row);
    }
  }

  lemma UnwindowedRows(db: DB, st: Statement, table: seq<Row>)
    requires DBOK(db) && JoinOf(st.preds) == None && "id" in st.columns
    requires UniqueIDs(table) && forall row <- Source(db, st) :: row in table
    ensures Reads(Source(db, st), st.preds, st.distinct, RowsOf(Unwindowed(db, st)))
    ensures InOrder(db.rank, st.order, RowsOf(Unwindowed(db, st)))
  {
    hide AllHold, PassesAll, Matches, DBOK, InOrder, Sorted, UniqueIDs;
    var source, ts := Source(db, st), db.arrange(st.order, Matches(db, st));
    ArrangedRows(db, st);
    forall row ensures AllHold(st.preds, row) <==> PassesAll(st.preds, row) {
      AllHoldIs(st.preds, row);
    }
    forall row ensures row in RowsOf(ts) <==> row in source && PassesAll(st.preds, row) {
      assert row in RowsOf(ts) <==> multiset(RowsOf(ts))[row] > 0;
      assert row in source <==> multiset(source)[row] > 0;
    }
    forall t | t in ts ensures t.row in table {
      RowThere(ts, t.row);
    }
    if st.distinct {
      DistinctRows(st.columns, ts, table);
      DistinctSorted(db.rank, st.order, st.columns, ts);
    }
    SortedIs(db.rank, st.order, RowsOf(Unwindowed(db, st)));
  }

  /** The rows that a query starts from: those that its path leads to, or its table. */
  ghost function StartRows(v: Env, t: Tree): seq<Row> {
    if t.path.Some? then t.path.value(v.db) else if t.entity in v.db.tables then v.db.tables[t.entity] else []
  }

  /** The query is distinct, or leaves that open and is a traversal. */
  predicate Once(t: Tree) {
    t.unique == Some(true) || (t.unique == None && t.path.Some?)
  }

  /** The query without limit and offset. */
  function Unwindow(t: Tree): Tree {
    t.(limit := None, offset := None)
  }

  /** The statement of a query without a window. */
  lemma StatementOf(v: Env, t: Tree)
    requires t.entity in v.schema && JoinOf(t.predicates) == None && (t.sql == None || t.path.Some?)
    ensures var st := AllStatement(v.schema[t.entity], Prepared(Unwindow(t), v.db));
            && Open(st) == st && st.distinct == Once(t) && st.preds == t.predicates && st.order == t.order
            && Source(v.db, st) == StartRows(v, t)
  {
    hide NodeColumns;
  }

  /** What All reads before its window. When the query is distinct, or leaves that open and is a traversal, every row
      that is reached and passes the predicates comes once; otherwise as often as it is reached. The rows ascend or
      descend as the order terms say. */
  lemma RowsBeforeWindow(v: Env, t: Tree)
    requires Executable(v, t)
    ensures t.entity in v.schema
    ensures Reads(StartRows(v, t), t.predicates, Once(t), AllRows(v, Unwindow(t)))
    ensures InOrder(v.db.rank, t.order, AllRows(v, Unwindow(t)))
  {
    TableUnique(v, t.entity);
    hide SubsFit, NodeColumns, Unwindowed, Reads, InOrder, DBOK, UniqueIDs, EntityOK, Readable, AllStatement, Once,
      JoinOf;
    var w := Prepared(Unwindow(t), v.db);
    var st := AllStatement(v.schema[t.entity], w);
    StatementHasID(v.schema[t.entity], w);
    StatementOf(v, t);
    OpenRun(v.db, st);
    UnwindowedRows(v.db, st, Table(v.db, t.entity));
  }

  // ---- the window ----

  /** What is left of n rows after the offset. */
  function After(t: Tree, n: nat): nat {
    if t.offset == None then 0 else if t.offset.value < n then t.offset.value else n
  }

  function UpTo<T>(most: Option<nat>, s: seq<T>): seq<T> {
    if most.Some? && most.value < |s| then s[..most.value] else s
  }

  lemma WindowIs<T>(offset: nat, limit: Option<nat>, s: seq<T>)
    ensures Window(offset, limit, s) == UpTo(limit, s[if offset < |s| then offset else |s|..])
  {
  }

  lemma WindowOfRows(offset: nat, limit: Option<nat>, ts: seq<Tuple>)
    ensures RowsOf(Window(offset, limit, ts)) == Window(offset, limit, RowsOf(ts))
  {
  }

  lemma WindowOfKeys(offset: nat, limit: Option<nat>, rows: seq<Row>)
    ensures KeysOfRows(Window(offset, limit, rows)) == Window(offset, limit, KeysOfRows(rows))
  {
  }

  /** All returns the rows after the offset, and no more than the limit unless that is zero. */
  lemma RowsInWindow(v: Env, t: Tree)
    requires t.entity in v.schema
    ensures var all := AllRows(v, Unwindow(t));
            AllRows(v, t) == UpTo(if t.limit == Some(0) then None else t.limit, all[After(t, |all|)..])
  {
    hide Unwindowed, Window;
    var st, open := AllStatement(v.schema[t.entity], Prepared(t, v.db)),
                    AllStatement(v.schema[t.entity], Prepared(Unwindow(t), v.db));
    assert Open(st) == open;
    OpenRun(v.db, st);
    WindowOfRows(st.offset, st.limit, Unwindowed(v.db, st));
    WindowIs(st.offset, st.limit, AllRows(v, Unwindow(t)));
  }

  /** IDs returns the keys of the same rows in the same order, but a limit of zero leaves none of them, and an offset
      without a limit leaves at most 2147483647. */
  lemma IDsInWindow(v: Env, t: Tree)
    requires Executable(v, t) && t.fields == []
    ensures t.entity in v.schema
    ensures var ids := KeysOfRows(AllRows(v, Unwindow(t)));
            var most := if t.limit == None && t.offset.Some? then Some(2147483647) else t.limit;
            KeysOfRows(IDRows(v, t)) == UpTo(most, ids[After(t, |ids|)..])
  {
    hide SubsFit, Unwindowed, EnvOK, Window;
    SameBeforeWindow(v, t);
    var e := v.schema[t.entity];
    var a, b := AllStatement(e, Prepared(t, v.db)), SelectorOf(e, Prepared(IDTree(t), v.db));
    assert Open(a) == AllStatement(e, Prepared(Unwindow(t), v.db));
    OpenRun(v.db, a);
    WindowOfRows(b.offset, b.limit, Unwindowed(v.db, a));
    WindowOfKeys(b.offset, b.limit, AllRows(v, Unwindow(t)));
    WindowIs(b.offset, b.limit, KeysOfRows(AllRows(v, Unwindow(t))));
  }

  // ---- one row or many ----

  function KeySet(rows: seq<Row>): set<int> {
    set row | row in rows :: row.id
  }

  lemma {:induction false} CountKeys(rows: seq<Row>)
    requires UniqueIDs(rows)
    ensures |KeySet(rows)| == |rows|
  {
    if rows != [] {
      CountKeys(rows[1..]);
      assert rows == [rows[0]] + rows[1..];
      assert KeySet(rows) == {rows[0].id} + KeySet(rows[1..]);
      assert rows[0].id !in KeySet(rows[1..]);
    }
  }

  /** The keys of the rows that a query reaches and that pass its predicates. */
  ghost function Reached(v: Env, t: Tree): set<int> {
    set row | row in StartRows(v, t) && PassesAll(t.predicates, row) :: row.id
  }

  /** A distinct query without a window has one row a key: Only finds a row that is reached twice. */
  lemma DistinctCount(v: Env, t: Tree)
    requires Executable(v, t) && t.offset == None && Once(t)
    ensures |AllRows(v, Unlimit(t))| == |Reached(v, t)|
  {
    hide Executable, AllRows, UniqueIDs, PassesAll, StartRows;
    RowsBeforeWindow(v, t);
    assert Unlimit(t) == Unwindow(t);
    var rows := AllRows(v, Unwindow(t));
    CountKeys(rows);
    assert KeySet(rows) == Reached(v, t);
  }
}
