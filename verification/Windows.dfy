/** Limits and offsets on the builder of an eager-loaded edge cut the batch of all owners together. */
module Windows {
  import opened Wrappers
  import opened Lists
  import opened Records
  import opened Store
  import opened Queries
  import opened Nodes
  import opened Joins
  import opened Batches
  import opened Shapes
  import opened Meaning
  import opened Terminals

  /** The window keeps all of n rows. */
  predicate KeepsAll(offset: nat, limit: Option<nat>, n: nat) {
    n == 0 || (offset == 0 && (limit == None || n <= limit.value))
  }

  /** A window that does not keep everything loses some position. */
  lemma LostPosition<T>(offset: nat, limit: Option<nat>, s: seq<T>) returns (p: nat)
    requires !KeepsAll(offset, limit, |s|)
    ensures p < |s|
    ensures p < Min(offset, |s|) || p >= Min(offset, |s|) + |Window(offset, limit, s)|
  {
    p := if offset > 0 then 0 else |s| - 1;
  }

  lemma WindowAll<T>(offset: nat, limit: Option<nat>, s: seq<T>)
    requires KeepsAll(offset, limit, |s|)
    ensures Window(offset, limit, s) == s
  {
  }

  /** When no row is repeated, a window drops nothing exactly if it keeps all positions. */
  lemma UncutIsKept(db: DB, st: Statement)
    requires NoDup(Unwindowed(db, st))
    ensures Uncut(db, st) <==> KeepsAll(st.offset, st.limit, |Unwindowed(db, st)|)
  {
    hide Window, Unwindowed;
    var full := Unwindowed(db, st);
    if KeepsAll(st.offset, st.limit, |full|) {
      WindowAll(st.offset, st.limit, full);
      assert Run(db, st) == full;
    } else {
      var p := LostPosition(st.offset, st.limit, full);
      var w := Window(st.offset, st.limit, full);
      forall i | 0 <= i < |w| ensures w[i] != full[p] {
        WindowAt(st.offset, st.limit, full, i);
      }
      assert full[p] in full && full[p] !in w && Run(db, st) == w;
    }
  }

  // ---- no loader queries for a row twice ----

  lemma {:induction false} JoinRowNoDup(row: Row, pairs: seq<(int, int)>, swapped: bool, ids: seq<int>)
    requires NoDup(pairs)
    ensures NoDup(JoinRow(row, pairs, swapped, ids))
  {
    if pairs != [] {
      JoinRowNoDup(row, pairs[1..], swapped, ids);
      var rest := JoinRow(row, pairs[1..], swapped, ids);
      var t := Tuple(Some(Near(swapped, pairs[0])), row);
      assert pairs[0] !in pairs[1..];
      JoinRowMember(row, pairs[1..], swapped, ids, t);
      if Far(swapped, pairs[0]) == row.id {
        assert Link(swapped, t.key.value, row.id) == pairs[0];
        assert t !in rest;
      }
    }
  }

  lemma NoDupConcat<T>(a: seq<T>, b: seq<T>)
    requires NoDup(a) && NoDup(b) && forall x <- a :: x !in b
    ensures NoDup(a + b)
  {
    forall i, j | 0 <= i < j < |a + b| ensures (a + b)[i] != (a + b)[j] {
      if i < |a| <= j {
        assert a[i] in a && b[j - |a|] in b;
      }
    }
  }

  lemma {:induction false} JoinRowsNoDup(rows: seq<Row>, pairs: seq<(int, int)>, swapped: bool, ids: seq<int>)
    requires NoDup(pairs) && UniqueIDs(rows)
    ensures NoDup(JoinRows(rows, pairs, swapped, ids))
  {
    if rows != [] {
      JoinRowsNoDup(rows[1..], pairs, swapped, ids);
      JoinRowNoDup(rows[0], pairs, swapped, ids);
      forall t | t in JoinRow(rows[0], pairs, swapped, ids) ensures t !in JoinRows(rows[1..], pairs, swapped, ids) {
        JoinRowMember(rows[0], pairs, swapped, ids, t);
        JoinRowsMember(rows[1..], pairs, swapped, ids, t);
        assert forall r <- rows[1..] :: r.id != rows[0].id;
      }
      NoDupConcat(JoinRow(rows[0], pairs, swapped, ids), JoinRows(rows[1..], pairs, swapped, ids));
    }
  }

  /** Without its window, the joined query returns every pair once, if the join table holds it once. */
  lemma OpenPairs(v: Env, e: Edge, S: Tree, ids: seq<int>, run: Tree)
    requires EnvOK(v) && e.M2M? && e.target in v.schema && S.entity == e.target && NoDup(Pairs(v.db, e.table))
    requires Narrowed(S, JoinIn(e.table, e.swapped, ids), run)
    ensures NoDup(Unwindowed(v.db, AllStatement(v.schema[e.target], run)))
  {
    hide NodeColumns;
    var st := AllStatement(v.schema[e.target], run);
    JoinOfAppend(S.predicates, JoinIn(e.table, e.swapped, ids));
    var ms := Matches(v.db, st);
    var full := Unwindowed(v.db, st);
    JoinRowsNoDup(Table(v.db, e.target), Pairs(v.db, e.table), e.swapped, ids);
    KeepMatchingNoDup(st.preds, JoinRows(Table(v.db, e.target), Pairs(v.db, e.table), e.swapped, ids));
    assert multiset(ms) == multiset(full);
    NoDupRearranged(ms, full);
  }

  lemma OpenOnce(v: Env, e: Edge, S: Tree, rows: seq<Row>)
    requires EnvOK(v) && Fresh(v, e, S) && (e.M2M? ==> NoDup(Pairs(v.db, e.table)))
    ensures NoDup(Unwindowed(v.db, AllStatement(v.schema[e.target], RunOf(e, S, rows))))
  {
    hide EnvOK, Unwindowed, AllStatement, Holds, AllHold;
    var run := RunOf(e, S, rows);
    RunNarrowed(v, e, S, rows);
    if e.M2M? {
      OpenPairs(v, e, S, KeysOfRows(rows), run);
    } else {
      OpenBatch(v, e, S, NarrowedBy(e, rows), run);
      var full := Unwindowed(v.db, AllStatement(v.schema[e.target], run));
      forall i, j | 0 <= i < j < |full| ensures full[i] != full[j] {
        assert RowsOf(full)[i].id != RowsOf(full)[j].id;
      }
    }
  }

  /** Without a limit and an offset nothing is cut. */
  lemma NoWindowUncut(v: Env, e: Edge, S: Tree, rows: seq<Row>)
    requires S.entity in v.schema && S.limit in {None, Some(0)} && S.offset in {None, Some(0)}
    ensures EdgeUncut(v, e, S, rows)
  {
    hide Unwindowed;
    var st := AllStatement(v.schema[S.entity], RunOf(e, S, rows));
    assert Run(v.db, st) == Unwindowed(v.db, st);
  }

  // ---- what a window does to the loaded nodes ----

  /** The window on the builder of the edge keeps the whole batch of the rows. */
  ghost predicate KeepsEdge(v: Env, e: Edge, S: Tree, rows: seq<Row>)
    requires S.entity in v.schema
  {
    var st := AllStatement(v.schema[S.entity], RunOf(e, S, rows));
    KeepsAll(st.offset, st.limit, |Unwindowed(v.db, st)|)
  }

  lemma UncutEdgeIsKept(v: Env, e: Edge, S: Tree, rows: seq<Row>)
    requires EnvOK(v) && Fresh(v, e, S) && (e.M2M? ==> NoDup(Pairs(v.db, e.table)))
    ensures EdgeUncut(v, e, S, rows) <==> KeepsEdge(v, e, S, rows)
  {
    hide EnvOK, Unwindowed, AllStatement, NoDup;
    OpenOnce(v, e, S, rows);
    UncutIsKept(v.db, AllStatement(v.schema[S.entity], RunOf(e, S, rows)));
  }

  /** A window on the builder of an edge is one for all owners together: once loaded, every node has its edge,
      complete to every depth, exactly when the window keeps the whole batch, the windows below do so too, and every
      row is served. */
  lemma WindowCutsTheEdge(v: Env, e: Edge, k: nat, S: Tree, rows: seq<Row>, nodes: seq<Node>, sh: Shape)
    requires EnvOK(v) && Fresh(v, e, S) && SubsFit(v, S) && (e.M2M? ==> NoDup(Pairs(v.db, e.table)))
    requires ShowsEdge(v, e, k, S, rows, nodes, sh)
    ensures AllEdgesOK(v, e, k, S, rows, nodes, NodesIn(sh)) <==>
              && KeepsEdge(v, e, S, rows) && Whole(v, S, EdgeBatch(v, e, S, rows))
              && forall i :: 0 <= i < |rows| ==> ServedEdge(v, e, S, rows, i)
  {
    hide EnvOK, Fresh, SubsFit, NoDup, AllEdgesOK, KeepsEdge, EdgeUncut, Whole, ServedEdge, ShowsEdge, EdgeBatch;
    UncutEdgeIsKept(v, e, S, rows);
    EdgeMeans(v, e, k, S, rows, nodes, sh, NodesIn(sh));
  }

  /** The primary key of a join table. */
  ghost predicate PairsOnce(db: DB) {
    forall table <- db.joins :: NoDup(db.joins[table])
  }

  /** Every window, at every depth, keeps the whole batch of the rows above it. */
  ghost predicate AllKept(v: Env, t: Tree, rows: seq<Row>)
    decreases t
  {
    && t.entity in v.schema
    && (rows != [] ==>
          forall k :: 0 <= k < |t.subs| && k < |v.schema[t.entity].edges| && t.subs[k].Some? ==>
            && t.subs[k].value.entity in v.schema
            && KeepsEdge(v, v.schema[t.entity].edges[k], t.subs[k].value, rows)
            && AllKept(v, t.subs[k].value, EdgeBatch(v, v.schema[t.entity].edges[k], t.subs[k].value, rows)))
  }

  lemma {:induction false} WholeIsKept(v: Env, t: Tree, rows: seq<Row>)
    requires EnvOK(v) && SubsFit(v, t) && PairsOnce(v.db)
    ensures Whole(v, t, rows) <==> AllKept(v, t, rows)
    decreases t
  {
    hide EdgeUncut, KeepsEdge, EdgeBatch, NoDup;
    var es := v.schema[t.entity].edges;
    forall k | 0 <= k < |es| && t.subs[k].Some?
      ensures EdgeUncut(v, es[k], t.subs[k].value, rows) <==> KeepsEdge(v, es[k], t.subs[k].value, rows)
      ensures var batch := EdgeBatch(v, es[k], t.subs[k].value, rows);
              Whole(v, t.subs[k].value, batch) <==> AllKept(v, t.subs[k].value, batch)
    {
      NoPairsTwice(v.db, es[k]);
      UncutEdgeIsKept(v, es[k], t.subs[k].value, rows);
      WholeIsKept(v, t.subs[k].value, EdgeBatch(v, es[k], t.subs[k].value, rows));
    }
  }

  lemma NoPairsTwice(db: DB, e: Edge)
    requires PairsOnce(db)
    ensures e.M2M? ==> NoDup(Pairs(db, e.table))
  {
  }

  /** All nodes of a query carry exactly what it asks for, at every depth, if and only if every window below keeps its
      whole batch and every row is served. */
  lemma WindowsDecide(v: Env, t: Tree, sh: Shape)
    requires Executable(v, t) && PairsOnce(v.db) && Loads(v, t, sh)
    ensures AllCarry(v, Prepared(t, v.db), false, AllRows(v, t), sh.nodes, NodesIn(sh)) <==>
              AllKept(v, Prepared(t, v.db), AllRows(v, t)) && AllServed(v, Prepared(t, v.db), AllRows(v, t))
  {
    hide SubsFit, EnvOK, PairsOnce, Loads, AllCarry, Whole, AllKept, AllServed, AllRows, NodesIn;
    LoadMeans(v, t, sh);
    SameFit(v, t);
    WholeIsKept(v, Prepared(t, v.db), AllRows(v, t));
  }

  lemma SameFit(v: Env, t: Tree)
    requires SubsFit(v, t)
    ensures SubsFit(v, Prepared(t, v.db))
  {
  }
}
