/** Tables and the meaning of the SELECT statements that the generated code builds.
    The text of the statements and the driver are not modelled, only which rows come back. */
module Store {
  import opened Wrappers
  import opened Lists
  import opened Records

  /** One result row; key is the join column that an M2M loader puts in front of the row. */
  datatype Tuple = Tuple(key: Option<int>, row: Row)

  datatype SortTerm = Asc(column: string) | Desc(column: string)

  datatype Predicate =
    | Where(test: Row -> bool)
    | IDIn(ids: seq<int>)
    | ColumnIn(column: string, ids: seq<int>)
    | JoinIn(table: string, swapped: bool, ids: seq<int>)

  /** The database: entity tables, join tables, the collation of cells, and the order in which
      matching rows come back, which is the database's own choice among those ORDER BY allows. */
  datatype DB = DB(
    tables: map<string, seq<Row>>,
    joins: map<string, seq<(int, int)>>,
    rank: Cell -> int,
    arrange: (seq<SortTerm>, seq<Tuple>) -> seq<Tuple>)

  function Table(db: DB, entity: string): seq<Row> {
    if entity in db.tables then db.tables[entity] else []
  }

  function Pairs(db: DB, table: string): seq<(int, int)> {
    if table in db.joins then db.joins[table] else []
  }

  ghost predicate UniqueIDs(rows: seq<Row>) {
    forall i, j :: 0 <= i < j < |rows| ==> rows[i].id != rows[j].id
  }

  /** Row a sorts strictly before row b. */
  function Before(rank: Cell -> int, order: seq<SortTerm>, a: Row, b: Row): bool {
    if order == [] then false
    else
      var x, y := rank(CellAt(a, order[0].column)), rank(CellAt(b, order[0].column));
      if x == y then Before(rank, order[1..], a, b)
      else if order[0].Asc? then x < y else y < x
  }

  ghost predicate Sorted(rank: Cell -> int, order: seq<SortTerm>, rows: seq<Row>) {
    forall i, j :: 0 <= i < j < |rows| ==> !Before(rank, order, rows[j], rows[i])
  }

  function RowsOf(ts: seq<Tuple>): (rows: seq<Row>)
    ensures |rows| == |ts|
    ensures forall i :: 0 <= i < |ts| ==> rows[i] == ts[i].row
  {
    seq(|ts|, i requires 0 <= i < |ts| => ts[i].row)
  }

  function KeysOfRows(rows: seq<Row>): (ids: seq<int>)
    ensures |ids| == |rows|
    ensures forall i :: 0 <= i < |rows| ==> ids[i] == rows[i].id
  {
    seq(|rows|, i requires 0 <= i < |rows| => rows[i].id)
  }

  /** The primary keys are unique, and arrange sorts without losing, inventing or repeating rows. */
  ghost predicate DBOK(db: DB) {
    && (forall entity <- db.tables :: UniqueIDs(db.tables[entity]))
    && (forall order, ts ::
          && multiset(db.arrange(order, ts)) == multiset(ts)
          && Sorted(db.rank, order, RowsOf(db.arrange(order, ts))))
  }

  // ---- WHERE and JOIN ----

  predicate Holds(p: Predicate, row: Row) {
    match p
    case Where(test) => test(row)
    case IDIn(ids) => row.id in ids
    case ColumnIn(column, ids) => var c := CellAt(row, column); c.Int? && c.i in ids
    case JoinIn(_, _, _) => true
  }

  predicate AllHold(ps: seq<Predicate>, row: Row) {
    forall i :: 0 <= i < |ps| ==> Holds(ps[i], row)
  }

  /** The join that a loader has appended to the predicates, if any. */
  function JoinOf(ps: seq<Predicate>): (j: Option<Predicate>)
    ensures j.Some? ==> j.value.JoinIn?
    ensures j.None? <==> forall i :: 0 <= i < |ps| ==> !ps[i].JoinIn?
  {
    if ps == [] then None
    else if ps[0].JoinIn? then Some(ps[0])
    else JoinOf(ps[1..])
  }

  function Near(swapped: bool, pair: (int, int)): int {
    if swapped then pair.1 else pair.0
  }

  function Far(swapped: bool, pair: (int, int)): int {
    if swapped then pair.0 else pair.1
  }

  /** The pair that links owner to neighbour. */
  function Link(swapped: bool, owner: int, neighbour: int): (int, int) {
    if swapped then (neighbour, owner) else (owner, neighbour)
  }

  function JoinRow(row: Row, pairs: seq<(int, int)>, swapped: bool, ids: seq<int>): seq<Tuple> {
    if pairs == [] then []
    else
      (if Far(swapped, pairs[0]) == row.id && Near(swapped, pairs[0]) in ids
       then [Tuple(Some(Near(swapped, pairs[0])), row)] else [])
      + JoinRow(row, pairs[1..], swapped, ids)
  }

  function JoinRows(rows: seq<Row>, pairs: seq<(int, int)>, swapped: bool, ids: seq<int>): seq<Tuple> {
    if rows == [] then []
    else JoinRow(rows[0], pairs, swapped, ids) + JoinRows(rows[1..], pairs, swapped, ids)
  }

  lemma {:induction false} JoinRowMember(row: Row, pairs: seq<(int, int)>, swapped: bool, ids: seq<int>, t: Tuple)
    ensures t in JoinRow(row, pairs, swapped, ids)
       <==> t.row == row && t.key.Some? && t.key.value in ids && Link(swapped, t.key.value, row.id) in pairs
  {
    if pairs != [] {
      JoinRowMember(row, pairs[1..], swapped, ids, t);
      assert pairs == [pairs[0]] + pairs[1..];
    }
  }

  lemma {:induction false} JoinRowsMember(rows: seq<Row>, pairs: seq<(int, int)>, swapped: bool, ids: seq<int>,
                                          t: Tuple)
    ensures t in JoinRows(rows, pairs, swapped, ids)
       <==> t.row in rows && t.key.Some? && t.key.value in ids && Link(swapped, t.key.value, t.row.id) in pairs
  {
    if rows != [] {
      JoinRowMember(rows[0], pairs, swapped, ids, t);
      JoinRowsMember(rows[1..], pairs, swapped, ids, t);
      assert rows == [rows[0]] + rows[1..];
    }
  }

  function Unjoined(rows: seq<Row>): seq<Tuple> {
    seq(|rows|, i requires 0 <= i < |rows| => Tuple(None, rows[i]))
  }

  function KeepMatching(ps: seq<Predicate>, ts: seq<Tuple>): seq<Tuple> {
    if ts == [] then []
    else (if AllHold(ps, ts[0].row) then [ts[0]] else []) + KeepMatching(ps, ts[1..])
  }

  lemma {:induction false} KeepMatchingMember(ps: seq<Predicate>, ts: seq<Tuple>, t: Tuple)
    ensures t in KeepMatching(ps, ts) <==> t in ts && AllHold(ps, t.row)
  {
    if ts != [] {
      KeepMatchingMember(ps, ts[1..], t);
      assert ts == [ts[0]] + ts[1..];
    }
  }

  lemma {:induction false} KeepMatchingNoDup(ps: seq<Predicate>, ts: seq<Tuple>)
    requires NoDup(ts)
    ensures NoDup(KeepMatching(ps, ts))
  {
    if ts != [] {
      KeepMatchingNoDup(ps, ts[1..]);
      var rest := KeepMatching(ps, ts[1..]);
      KeepMatchingMember(ps, ts[1..], ts[0]);
      assert ts[0] !in ts[1..];
      assert ts[0] !in rest;
    }
  }

  /** A SELECT statement. */
  datatype Statement = Statement(
    entity: string,
    columns: seq<string>,
    from: Option<seq<Row>>,
    distinct: bool,
    preds: seq<Predicate>,
    order: seq<SortTerm>,
    offset: nat,
    limit: Option<nat>)

  function Source(db: DB, st: Statement): seq<Row> {
    if st.from.Some? then st.from.value else Table(db, st.entity)
  }

  /** The rows that satisfy FROM, JOIN and WHERE. */
  function Matches(db: DB, st: Statement): seq<Tuple> {
    var rows := Source(db, st);
    var j := JoinOf(st.preds);
    KeepMatching(st.preds,
                 if j.None? then Unjoined(rows)
                 else JoinRows(rows, Pairs(db, j.value.table), j.value.swapped, j.value.ids))
  }

  lemma MatchesMember(db: DB, st: Statement, t: Tuple)
    ensures t in Matches(db, st) <==>
      && t.row in Source(db, st) && AllHold(st.preds, t.row)
      && match JoinOf(st.preds)
         case None => t.key == None
         case Some(j) => && t.key.Some? && t.key.value in j.ids
                         && Link(j.swapped, t.key.value, t.row.id) in Pairs(db, j.table)
  {
    var rows := Source(db, st);
    var j := JoinOf(st.preds);
    if j.None? {
      KeepMatchingMember(st.preds, Unjoined(rows), t);
      if t.row in rows && t.key == None {
        var i :| 0 <= i < |rows| && rows[i] == t.row;
        assert Unjoined(rows)[i] == t;
      }
    } else {
      var js := JoinRows(rows, Pairs(db, j.value.table), j.value.swapped, j.value.ids);
      KeepMatchingMember(st.preds, js, t);
      JoinRowsMember(rows, Pairs(db, j.value.table), j.value.swapped, j.value.ids, t);
    }
  }

  // ---- DISTINCT, LIMIT and OFFSET ----

  function Project(columns: seq<string>, row: Row): seq<Cell> {
    seq(|columns|, i requires 0 <= i < |columns| => CellAt(row, columns[i]))
  }

  predicate SeenLike(columns: seq<string>, ts: seq<Tuple>, row: Row) {
    exists t <- ts :: Project(columns, t.row) == Project(columns, row)
  }

  /** The first row of each projection. */
  function Distinct(columns: seq<string>, ts: seq<Tuple>): seq<Tuple> {
    if ts == [] then []
    else
      var n := |ts| - 1;
      Distinct(columns, ts[..n]) + (if SeenLike(columns, ts[..n], ts[n].row) then [] else [ts[n]])
  }

  function Min(a: nat, b: nat): nat {
    if a < b then a else b
  }

  function Window<T>(offset: nat, limit: Option<nat>, s: seq<T>): seq<T> {
    var rest := s[Min(offset, |s|)..];
    match limit
    case None => rest
    case Some(n) => rest[..Min(n, |rest|)]
  }

  lemma WindowAt<T>(offset: nat, limit: Option<nat>, s: seq<T>, i: nat)
    requires i < |Window(offset, limit, s)|
    ensures Min(offset, |s|) + i < |s| && Window(offset, limit, s)[i] == s[Min(offset, |s|) + i]
  {
  }

  /** A window keeps an order and the absence of repeats. */
  lemma WindowRows(rank: Cell -> int, order: seq<SortTerm>, offset: nat, limit: Option<nat>, ts: seq<Tuple>)
    ensures Sorted(rank, order, RowsOf(ts)) ==> Sorted(rank, order, RowsOf(Window(offset, limit, ts)))
    ensures UniqueIDs(RowsOf(ts)) ==> UniqueIDs(RowsOf(Window(offset, limit, ts)))
    ensures forall t <- Window(offset, limit, ts) :: t in ts
  {
    var w := Window(offset, limit, ts);
    var start := Min(offset, |ts|);
    forall i | 0 <= i < |w| ensures start + i < |ts| && RowsOf(w)[i] == RowsOf(ts)[start + i] && w[i] == ts[start + i] {
      WindowAt(offset, limit, ts, i);
    }
  }

  function Unwindowed(db: DB, st: Statement): seq<Tuple> {
    var ts := db.arrange(st.order, Matches(db, st));
    if st.distinct then Distinct(st.columns, ts) else ts
  }

  /** The rows of a statement, in result order. */
  function Run(db: DB, st: Statement): seq<Tuple> {
    Window(st.offset, st.limit, Unwindowed(db, st))
  }

  /** The window of the statement drops no row. */
  ghost predicate Uncut(db: DB, st: Statement) {
    forall t <- Unwindowed(db, st) :: t in Run(db, st)
  }

  lemma {:induction false} DistinctMember(columns: seq<string>, ts: seq<Tuple>, t: Tuple)
    requires t in Distinct(columns, ts)
    ensures t in ts
  {
    var n := |ts| - 1;
    if t in Distinct(columns, ts[..n]) {
      DistinctMember(columns, ts[..n], t);
    }
  }

  lemma PrefixUnique(ts: seq<Tuple>, n: nat)
    requires n <= |ts| && UniqueIDs(RowsOf(ts))
    ensures UniqueIDs(RowsOf(ts[..n]))
  {
    assert forall i :: 0 <= i < n ==> RowsOf(ts[..n])[i] == RowsOf(ts)[i];
  }

  lemma NotSeenBefore(columns: seq<string>, ts: seq<Tuple>, n: nat)
    requires n < |ts| && UniqueIDs(RowsOf(ts)) && "id" in columns
    ensures !SeenLike(columns, ts[..n], ts[n].row)
  {
    hide Project;
    forall t | t in ts[..n] ensures Project(columns, t.row) != Project(columns, ts[n].row) {
      var i :| 0 <= i < n && ts[i] == t;
      assert RowsOf(ts)[i].id != RowsOf(ts)[n].id;
      OtherKeyProjects(columns, t.row, ts[n].row);
    }
  }

  /** Without repeated rows DISTINCT does nothing, as long as the key is selected. */
  lemma {:induction false} DistinctIdle(columns: seq<string>, ts: seq<Tuple>)
    requires UniqueIDs(RowsOf(ts)) && "id" in columns
    ensures Distinct(columns, ts) == ts
  {
    hide SeenLike, UniqueIDs, RowsOf, Distinct;
    if ts == [] {
      DistinctNone(columns);
    } else {
      var n := |ts| - 1;
      PrefixUnique(ts, n);
      DistinctIdle(columns, ts[..n]);
      NotSeenBefore(columns, ts, n);
      DistinctLast(columns, ts);
      assert ts[..n] + [ts[n]] == ts;
    }
  }

  lemma DistinctNone(columns: seq<string>)
    ensures Distinct(columns, []) == []
  {
  }

  lemma DistinctLast(columns: seq<string>, ts: seq<Tuple>)
    requires ts != [] && !SeenLike(columns, ts[..|ts| - 1], ts[|ts| - 1].row)
    ensures Distinct(columns, ts) == Distinct(columns, ts[..|ts| - 1]) + [ts[|ts| - 1]]
  {
    hide SeenLike;
  }

  lemma OtherKeyProjects(columns: seq<string>, a: Row, b: Row)
    requires "id" in columns && a.id != b.id
    ensures Project(columns, a) != Project(columns, b)
  {
    var k :| 0 <= k < |columns| && columns[k] == "id";
    assert Project(columns, a)[k] == Int(a.id) && Project(columns, b)[k] == Int(b.id);
  }

  lemma ProjectsKey(columns: seq<string>, a: Row, b: Row)
    requires "id" in columns && Project(columns, a) == Project(columns, b)
    ensures a.id == b.id
  {
    var k :| 0 <= k < |columns| && columns[k] == "id";
    assert Project(columns, a)[k] == Int(a.id) && Project(columns, b)[k] == Int(b.id);
  }

  /** Every returned row is a matching row. */
  lemma RunMember(db: DB, st: Statement, t: Tuple)
    requires DBOK(db) && t in Run(db, st)
    ensures t in Matches(db, st)
  {
    var ts := db.arrange(st.order, Matches(db, st));
    assert t in Unwindowed(db, st);
    if st.distinct {
      DistinctMember(st.columns, ts, t);
    }
    assert t in multiset(ts);
  }

  lemma UnjoinedNoDup(rows: seq<Row>)
    requires UniqueIDs(rows)
    ensures NoDup(Unjoined(rows))
  {
  }

  lemma {:induction false} NoDupUniqueIDs(ts: seq<Tuple>, rows: seq<Row>)
    requires NoDup(ts) && UniqueIDs(rows)
    requires forall t <- ts :: t.key == None && t.row in rows
    ensures UniqueIDs(RowsOf(ts))
  {
    forall i, j | 0 <= i < j < |ts| ensures RowsOf(ts)[i].id != RowsOf(ts)[j].id {
      assert ts[i] != ts[j];
      assert ts[i] in ts && ts[j] in ts;
      var p :| 0 <= p < |rows| && rows[p] == ts[i].row;
      var q :| 0 <= q < |rows| && rows[q] == ts[j].row;
      assert p != q;
    }
  }

  /** A join-free statement over a table returns, when it has no window, exactly the matching rows, once each,
      sorted. */
  lemma RunTable(db: DB, st: Statement)
    requires DBOK(db) && st.from == None && JoinOf(st.preds) == None
    requires st.offset == 0 && st.limit == None && "id" in st.columns
    ensures UniqueIDs(RowsOf(Run(db, st)))
    ensures Sorted(db.rank, st.order, RowsOf(Run(db, st)))
    ensures forall t :: t in Run(db, st) <==> t in Matches(db, st)
  {
    var rows := Table(db, st.entity);
    var ms := Matches(db, st);
    var ts := db.arrange(st.order, ms);
    assert UniqueIDs(rows);
    UnjoinedNoDup(rows);
    KeepMatchingNoDup(st.preds, Unjoined(rows));
    assert multiset(ms) == multiset(ts);
    NoDupRearranged(ms, ts);
    forall t ensures t in ms <==> t in ts {
      assert t in multiset(ms) <==> t in multiset(ts);
    }
    forall t | t in ts ensures t.key == None && t.row in rows {
      MatchesMember(db, st, t);
    }
    NoDupUniqueIDs(ts, rows);
    DistinctIdle(st.columns, ts);
    assert Run(db, st) == ts;
  }

  /** A joined statement without DISTINCT or window returns exactly the matching pairs, sorted. */
  lemma RunJoin(db: DB, st: Statement)
    requires DBOK(db) && !st.distinct && st.offset == 0 && st.limit == None
    ensures Sorted(db.rank, st.order, RowsOf(Run(db, st)))
    ensures forall t :: t in Run(db, st) <==> t in Matches(db, st)
  {
    var ms := Matches(db, st);
    var ts := db.arrange(st.order, ms);
    assert Run(db, st) == ts;
    forall t ensures t in ms <==> t in ts {
      assert t in multiset(ms) <==> t in multiset(ts);
    }
  }
}
