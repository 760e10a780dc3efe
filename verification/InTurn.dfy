/** A bulk create against creating the builders one after the other, and one addition against two. */
module InTurn {
  import opened Wrappers
  import opened Records
  import opened Runs
  import opened Soundness
  import Effects

  /** A state in which only the first n of the new rows are there. */
  function Trunc(b: State, name: string, base: seq<Row>, next: int, qs: seq<Patch>, n: nat): State
    requires n <= |qs|
  {
    State(b.tables[name := base + NewRows(next, qs[..n])], next + n)
  }

  /** The new rows of a bulk create are in the state, after those that were there. */
  ghost predicate HasNew(b: State, name: string, base: seq<Row>, next: int, qs: seq<Patch>) {
    name in b.tables && b.tables[name] == base + NewRows(next, qs) && b.next == next + |qs|
  }

  lemma TruncRows(b: State, name: string, base: seq<Row>, next: int, qs: seq<Patch>, n: nat)
    requires n <= |qs| && HasNew(b, name, base, next, qs)
    ensures var few := Trunc(b, name, base, next, qs, n);
            && (forall other: string :: other != name ==> RowsIn(few, other) == RowsIn(b, other))
            && |RowsIn(few, name)| <= |RowsIn(b, name)|
            && (forall i :: 0 <= i < |RowsIn(few, name)| ==> RowsIn(few, name)[i] == RowsIn(b, name)[i])
            && (forall i :: 0 <= i < |base| ==> RowsIn(few, name)[i] == base[i])
            && |RowsIn(few, name)| == |base| + n
            && (forall i :: |base| <= i < |base| + n ==> RowsIn(few, name)[i].id == next + (i - |base|))
  {
    hide NewRow;
    forall k: nat | k < n
      ensures NewRows(next, qs[..n])[k] == NewRows(next, qs)[k] && NewRows(next, qs)[k].id == next + k
    {
      NewID(next + k, qs[k]);
    }
  }

  lemma NewID(id: int, q: Patch)
    ensures NewRow(id, q).id == id
  {
  }

  /** One more row breaks no reference that all the rows would not break. */
  lemma TruncMore(schema: Schema, b: State, name: string, base: seq<Row>, next: int, qs: seq<Patch>, n: nat)
    requires SchemaOK(schema) && n < |qs| && HasNew(b, name, base, next, qs) && Accepted(schema, b)
    requires Referential(schema, Trunc(b, name, base, next, qs, n))
    ensures Accepted(schema, Trunc(b, name, base, next, qs, n + 1))
  {
    hide NewRow, RulesOK, NewRows;
    var few, more := Trunc(b, name, base, next, qs, n), Trunc(b, name, base, next, qs, n + 1);
    TruncRows(b, name, base, next, qs, n);
    TruncRows(b, name, base, next, qs, n + 1);
    forall k | 0 <= k < |schema.references| ensures Refers(more, schema.references[k]) {
      var r := schema.references[k];
      assert r in schema.references && Refers(few, r) && Refers(b, r);
      if r.target == name {
        MoreTargets(few, more, r);
      } else {
        FewerRows(b, more, r);
      }
    }
    FewerNulls(schema, b, more);
  }

  lemma MoreTargets(s: State, t: State, r: Reference)
    requires Refers(s, r) && RowsIn(t, r.table) == RowsIn(s, r.table) && |RowsIn(s, r.target)| <= |RowsIn(t, r.target)|
    requires forall i :: 0 <= i < |RowsIn(s, r.target)| ==> RowsIn(t, r.target)[i].id == RowsIn(s, r.target)[i].id
    ensures Refers(t, r)
  {
  }

  lemma FewerRows(s: State, t: State, r: Reference)
    requires Refers(s, r) && RowsIn(t, r.target) == RowsIn(s, r.target) && |RowsIn(t, r.table)| <= |RowsIn(s, r.table)|
    requires forall i :: 0 <= i < |RowsIn(t, r.table)| ==> RowsIn(t, r.table)[i] == RowsIn(s, r.table)[i]
    ensures Refers(t, r)
  {
  }

  lemma FewerNulls(schema: Schema, s: State, t: State)
    requires NoNulls(schema, s)
    requires forall table: string ::
               && |RowsIn(t, table)| <= |RowsIn(s, table)|
               && forall i :: 0 <= i < |RowsIn(t, table)| ==> RowsIn(t, table)[i] == RowsIn(s, table)[i]
    ensures NoNulls(schema, t)
  {
    forall at, row | at in schema.notNull && row in RowsIn(t, at.0) ensures !CellAt(row, at.1).Null? {
      assert row in RowsIn(s, at.0);
    }
  }

  /** Linking rows to one of the first n new rows does not depend on the later ones. */
  lemma LinkedTrunc(schema: Schema, b: State, inv: Inverse, owner: int, name: string, base: seq<Row>, next: int,
                    qs: seq<Patch>, n: nat)
    requires SchemaOK(schema) && n <= |qs| && HasNew(b, name, base, next, qs) && next <= owner < next + n
    requires inv.table != name && inv.column != "id" && Accepted(schema, Linked(b, inv, owner)) && AllFree(b, inv)
    requires Referential(schema, Trunc(b, name, base, next, qs, n))
    ensures var few, t := Trunc(b, name, base, next, qs, n), Linked(b, inv, owner);
            && HasNew(t, name, base, next, qs)
            && Linked(few, inv, owner) == Trunc(t, name, base, next, qs, n)
            && AllFree(few, inv) && Accepted(schema, Linked(few, inv, owner))
  {
    hide NewRow, RulesOK, NewRows, UpdateRows, Patched;
    var few, t := Trunc(b, name, base, next, qs, n), Linked(b, inv, owner);
    TruncRows(b, name, base, next, qs, n);
    TruncRows(t, name, base, next, qs, n);
    var after := Linked(few, inv, owner);
    assert after.tables == Trunc(t, name, base, next, qs, n).tables;
    forall k | 0 <= k < |schema.references| ensures Refers(after, schema.references[k]) {
      var r := schema.references[k];
      assert r in schema.references && Refers(few, r) && Refers(t, r);
      if r.target == name {
        assert RowsIn(few, name)[|base| + (owner - next)].id == owner;
        LinkedRefers(few, inv, owner, r, |base| + (owner - next));
      } else {
        FewerRows(t, after, r);
      }
    }
    FewerNulls(schema, t, after);
  }

  lemma LinkedRefers(s: State, inv: Inverse, owner: int, r: Reference, at: nat)
    requires Refers(s, r) && inv.table != r.target && inv.column != "id"
    requires at < |RowsIn(s, r.target)| && RowsIn(s, r.target)[at].id == owner
    ensures Refers(Linked(s, inv, owner), r)
  {
    hide Patched;
    var t := Linked(s, inv, owner);
    forall i | 0 <= i < |RowsIn(t, r.table)| && CellAt(RowsIn(t, r.table)[i], r.column).Int?
      ensures exists j :: 0 <= j < |RowsIn(t, r.target)|
                          && RowsIn(t, r.target)[j].id == CellAt(RowsIn(t, r.table)[i], r.column).i
    {
      if r.table == inv.table {
        RelinkedAt(s, inv.table, inv.column, (row: Row) => Links(inv, row), Some(owner), i, r.column);
      }
      if CellAt(RowsIn(t, r.table)[i], r.column) == Int(owner) {
        assert RowsIn(t, r.target)[at].id == owner;
      } else {
        assert CellAt(RowsIn(s, r.table)[i], r.column) == CellAt(RowsIn(t, r.table)[i], r.column);
        var j :| 0 <= j < |RowsIn(s, r.target)|
                 && RowsIn(s, r.target)[j].id == CellAt(RowsIn(s, r.table)[i], r.column).i;
        assert RowsIn(t, r.target)[j].id == RowsIn(s, r.target)[j].id;
      }
    }
  }

  /** All edges of one builder. */
  lemma {:induction false} LinkAllTrunc(schema: Schema, b: State, invs: seq<Inverse>, owner: int,
                                        name: string, base: seq<Row>, next: int, qs: seq<Patch>, n: nat)
    requires SchemaOK(schema) && n <= |qs| && HasNew(b, name, base, next, qs) && next <= owner < next + n
    requires (forall inv <- invs :: inv.table != name && inv.column != "id") && Accepted(schema, b)
    requires Referential(schema, Trunc(b, name, base, next, qs, n)) && LinkAll(schema, b, invs, owner).Ok?
    ensures var u := LinkAll(schema, b, invs, owner).value;
            && HasNew(u, name, base, next, qs) && Accepted(schema, u)
            && LinkAll(schema, Trunc(b, name, base, next, qs, n), invs, owner) == Ok(Trunc(u, name, base, next, qs, n))
            && Referential(schema, Trunc(u, name, base, next, qs, n))
    decreases |invs|
  {
    hide SchemaOK, HasNew, Linked, Referential, NoNulls, AllFree, Trunc;
    if invs != [] {
      assert invs[0] in invs && forall inv <- invs[1..] :: inv in invs;
      LinkedTrunc(schema, b, invs[0], owner, name, base, next, qs, n);
      LinkAllTrunc(schema, Linked(b, invs[0], owner), invs[1..], owner, name, base, next, qs, n);
    }
  }

  function Creates(entity: string, ps: seq<Patch>): (ops: seq<Op>)
    ensures |ops| == |ps| && forall i :: 0 <= i < |ps| ==> ops[i] == Create(entity, ps[i], None)
  {
    seq(|ps|, i requires 0 <= i < |ps| => Create(entity, ps[i], None))
  }

  /** A bulk create that succeeds: what is there after its insert, and after the O2M edges of the first n builders. */
  ghost predicate Bulk(schema: Schema, s: State, name: string, ps: seq<Patch>, qs: seq<Patch>) {
    && SchemaOK(schema) && name in schema.rules && Referential(schema, s) && |ps| == |qs|
    && (forall i :: 0 <= i < |ps| ==>
          && qs[i] == WithDefaults(schema.rules[name].createDefaults, ps[i])
          && Checked(schema.rules[name].onCreate, qs[i], true) == None && InversesOK(schema, name, ps[i]))
    && Accepted(schema, Inserted(s, name, qs)) && LinkNew(schema, Inserted(s, name, qs), s.next, qs).Ok?
  }

  lemma {:induction false} LinkNewPrefix(schema: Schema, t: State, next: int, qs: seq<Patch>, n: nat)
    requires n <= |qs| && LinkNew(schema, t, next, qs).Ok?
    ensures LinkNew(schema, t, next, qs[..n]).Ok?
  {
    hide LinkAll;
    if n < |qs| {
      LinkNewPrefix(schema, t, next, qs[..|qs| - 1], n);
      assert qs[..|qs| - 1][..n] == qs[..n];
    } else {
      assert qs[..n] == qs;
    }
  }

  /** The state after n builders of the bulk create. */
  function After(schema: Schema, s: State, name: string, qs: seq<Patch>, n: nat): State
    requires n <= |qs| && LinkNew(schema, Inserted(s, name, qs), s.next, qs).Ok?
  {
    LinkNewPrefix(schema, Inserted(s, name, qs), s.next, qs, n);
    LinkNew(schema, Inserted(s, name, qs), s.next, qs[..n]).value
  }

  lemma AfterMore(schema: Schema, s: State, name: string, qs: seq<Patch>, n: nat)
    requires n < |qs| && LinkNew(schema, Inserted(s, name, qs), s.next, qs).Ok?
    ensures LinkAll(schema, After(schema, s, name, qs, n), qs[n].inverses, s.next + n) ==
        Ok(After(schema, s, name, qs, n + 1))
  {
    hide LinkAll, Inserted;
    LinkNewPrefix(schema, Inserted(s, name, qs), s.next, qs, n + 1);
    assert qs[..n + 1][..n] == qs[..n] && qs[..n + 1][n] == qs[n];
  }

  /** The next builder, on top of the first n ones. */
  lemma CreateNext(schema: Schema, s: State, name: string, ps: seq<Patch>, qs: seq<Patch>, n: nat, now: State)
    requires Bulk(schema, s, name, ps, qs) && n < |qs|
    requires var b, base := After(schema, s, name, qs, n), RowsIn(s, name);
             && HasNew(b, name, base, s.next, qs) && Accepted(schema, b)
             && Referential(schema, Trunc(b, name, base, s.next, qs, n))
             && Inserted(now, name, [qs[n]]) == Trunc(b, name, base, s.next, qs, n + 1) && now.next == s.next + n
    ensures var u, base := After(schema, s, name, qs, n + 1), RowsIn(s, name);
            && Step(schema, now, Create(name, ps[n], None)) == (Trunc(u, name, base, s.next, qs, n + 1), None)
            && HasNew(u, name, base, s.next, qs) && Accepted(schema, u)
            && Referential(schema, Trunc(u, name, base, s.next, qs, n + 1))
  {
    hide SchemaOK, HasNew, Referential, NoNulls, LinkAll, Trunc, Checked, After, Inserted, InverseOK;
    var b, base := After(schema, s, name, qs, n), RowsIn(s, name);
    TruncMore(schema, b, name, base, s.next, qs, n);
    AfterMore(schema, s, name, qs, n);
    forall inv | inv in qs[n].inverses ensures inv.table != name && inv.column != "id" {
      assert inv in ps[n].inverses;
      InverseForeign(schema, name, inv);
      ForeignColumn(schema, inv.table, inv.column);
    }
    LinkAllTrunc(schema, b, qs[n].inverses, s.next + n, name, base, s.next, qs, n + 1);
    assert [qs[n]][..0] == [];
    assert LinkNew(schema, Inserted(now, name, [qs[n]]), now.next, [qs[n]][..0]) == Ok(Inserted(now, name, [qs[n]]));
  }

  lemma FirstInsert(schema: Schema, s: State, name: string, ps: seq<Patch>, qs: seq<Patch>)
    requires Bulk(schema, s, name, ps, qs) && qs != []
    ensures var b, base := After(schema, s, name, qs, 0), RowsIn(s, name);
            && HasNew(b, name, base, s.next, qs) && Accepted(schema, b)
            && Referential(schema, Trunc(b, name, base, s.next, qs, 0))
            && Inserted(s, name, [qs[0]]) == Trunc(b, name, base, s.next, qs, 1)
  {
    hide SchemaOK, LinkAll, Accepted, NewRow, InverseOK, Checked;
    var b, base := After(schema, s, name, qs, 0), RowsIn(s, name);
    assert b == Inserted(s, name, qs);
    var none := Trunc(b, name, base, s.next, qs, 0);
    assert NewRows(s.next, qs[..0]) == [] && base + [] == base;
    assert forall table: string :: RowsIn(none, table) == RowsIn(s, table);
    SameReferential(schema, s, none);
    assert qs[..1] == [qs[0]];
  }

  lemma SameReferential(schema: Schema, s: State, t: State)
    requires Referential(schema, s) && forall table: string :: RowsIn(t, table) == RowsIn(s, table)
    ensures Referential(schema, t)
  {
    forall k | 0 <= k < |schema.references| ensures Refers(t, schema.references[k]) {
      assert Refers(s, schema.references[k]);
    }
  }

  lemma NextInsert(b: State, name: string, base: seq<Row>, next: int, qs: seq<Patch>, n: nat)
    requires n < |qs|
    ensures Inserted(Trunc(b, name, base, next, qs, n), name, [qs[n]]) == Trunc(b, name, base, next, qs, n + 1)
  {
    hide NewRow;
    assert NewRows(next, qs[..n + 1]) == NewRows(next, qs[..n]) + NewRows(next + n, [qs[n]]);
    assert (base + NewRows(next, qs[..n])) + NewRows(next + n, [qs[n]]) == base + NewRows(next, qs[..n + 1]);
  }

  lemma {:induction false} FirstCreates(schema: Schema, s: State, name: string, ps: seq<Patch>, qs: seq<Patch>, n: nat)
    requires Bulk(schema, s, name, ps, qs) && 1 <= n <= |ps|
    ensures var u, base := After(schema, s, name, qs, n), RowsIn(s, name);
            && RunAll(schema, s, Creates(name, ps)[..n]) == Trunc(u, name, base, s.next, qs, n)
            && HasNew(u, name, base, s.next, qs) && Accepted(schema, u)
            && Referential(schema, Trunc(u, name, base, s.next, qs, n))
  {
    hide HasNew, Accepted, Referential, Trunc, After, Inserted, Step, LinkNew;
    var ops := Creates(name, ps);
    if n == 1 {
      FirstInsert(schema, s, name, ps, qs);
      CreateNext(schema, s, name, ps, qs, 0, s);
      assert ops[..1] == [ops[0]] && [ops[0]][..0] == [];
    } else {
      FirstCreates(schema, s, name, ps, qs, n - 1);
      var b := After(schema, s, name, qs, n - 1);
      NextInsert(b, name, RowsIn(s, name), s.next, qs, n - 1);
      TruncNext(b, name, RowsIn(s, name), s.next, qs, n - 1);
      CreateNext(schema, s, name, ps, qs, n - 1, Trunc(b, name, RowsIn(s, name), s.next, qs, n - 1));
      assert ops[..n][..n - 1] == ops[..n - 1];
    }
  }

  lemma TruncNext(b: State, name: string, base: seq<Row>, next: int, qs: seq<Patch>, n: nat)
    requires n <= |qs|
    ensures Trunc(b, name, base, next, qs, n).next == next + n
  {
  }

  /** A successful bulk create has the effect of creating the builders one after the other, O2M edges included. */
  lemma BulkIsCreatesInTurn(schema: Schema, s: State, name: string, ps: seq<Patch>)
    requires SchemaOK(schema) && name in schema.rules && Referential(schema, s)
    requires forall i :: 0 <= i < |ps| ==> InversesOK(schema, name, ps[i])
    requires Step(schema, s, CreateBulk(name, ps, None)).1 == None
    ensures RunAll(schema, s, Creates(name, ps)) == Step(schema, s, CreateBulk(name, ps, None)).0
  {
    hide SchemaOK, Referential, NoNulls, Inserted, Checked, CheckedAll, LinkNew, InversesOK, HasNew, Trunc, After;
    var rules := schema.rules[name];
    var qs := AllWithDefaults(rules.createDefaults, ps);
    AllChecked(rules.onCreate, qs);
    if ps != [] {
      FirstCreates(schema, s, name, ps, qs, |ps|);
      assert Creates(name, ps)[..|ps|] == Creates(name, ps);
      AllThere(schema, s, name, qs);
    }
  }

  lemma AllThere(schema: Schema, s: State, name: string, qs: seq<Patch>)
    requires LinkNew(schema, Inserted(s, name, qs), s.next, qs).Ok?
    requires HasNew(After(schema, s, name, qs, |qs|), name, RowsIn(s, name), s.next, qs)
    ensures Trunc(After(schema, s, name, qs, |qs|), name, RowsIn(s, name), s.next, qs, |qs|)
         == LinkNew(schema, Inserted(s, name, qs), s.next, qs).value
  {
    hide LinkNew, Inserted, NewRow;
    assert qs[..|qs|] == qs;
  }

  // ---- additions ----

  /** An update that only adds, with what the builder sets by default. */
  function Adding(defaults: Fields, add: Fields): Patch {
    Patch(defaults, add, {}, map[], [])
  }

  /** The cells hold nothing, or a number of the type that is added to them. */
  ghost predicate Numbers(row: Row, add: Fields) {
    forall c <- add :: var cell := CellAt(row, c);
      && c != "id" && (add[c].Int? || add[c].Float?)
      && (cell.Null? || (cell.Int? && add[c].Int?) || (cell.Float? && add[c].Float?))
  }

  /** Column by column, what a and b add together. */
  ghost predicate Total(a: Fields, b: Fields, both: Fields) {
    && both.Keys == a.Keys + b.Keys
    && (forall c <- a :: c !in b ==> both[c] == a[c])
    && (forall c <- b :: c !in a ==> both[c] == b[c])
    && (forall c <- a :: c in b ==> (a[c].Int? <==> b[c].Int?) && Effects.Sum(a[c], b[c], both[c]))
  }

  lemma AddedCell(row: Row, defaults: Fields, a: Fields, b: Fields, both: Fields, c: string)
    requires Numbers(row, a) && Numbers(row, b) && Total(a, b, both) && defaults.Keys !! both.Keys
    ensures NewCell(Patched(row, Adding(defaults, a)), c, Adding(defaults, b)) ==
        NewCell(row, c, Adding(defaults, both))
  {
    hide Patched;
    PatchedCell(row, c, Adding(defaults, a));
  }

  lemma PatchedKeys(row: Row, p: Patch)
    ensures var keys := Patched(row, p).cells.Keys;
            && keys == row.cells.Keys + p.given.Keys + p.add.Keys + p.cleared + p.links.Keys
            && forall c <- keys :: Patched(row, p).cells[c] == NewCell(row, c, p)
  {
    hide NewCell;
  }

  lemma AddedRow(row: Row, defaults: Fields, a: Fields, b: Fields, both: Fields)
    requires Numbers(row, a) && Numbers(row, b) && Total(a, b, both) && defaults.Keys !! both.Keys
    ensures Patched(Patched(row, Adding(defaults, a)), Adding(defaults, b)) == Patched(row, Adding(defaults, both))
  {
    hide NewCell, Numbers, Patched;
    assert both.Keys == a.Keys + b.Keys;
    hide Total;
    var mid := Patched(row, Adding(defaults, a));
    var twice, once := Patched(mid, Adding(defaults, b)), Patched(row, Adding(defaults, both));
    PatchedKeys(row, Adding(defaults, a));
    PatchedKeys(mid, Adding(defaults, b));
    PatchedKeys(row, Adding(defaults, both));
    assert twice.cells.Keys == once.cells.Keys;
    forall c | c in once.cells.Keys ensures twice.cells[c] == once.cells[c] {
      AddedCell(row, defaults, a, b, both, c);
    }
    assert twice.cells == once.cells;
    PatchedID(row, Adding(defaults, both));
    PatchedID(row, Adding(defaults, a));
    PatchedID(mid, Adding(defaults, b));
  }

  lemma AddedRows(s: State, table: string, where: Row -> bool, defaults: Fields, a: Fields, b: Fields, both: Fields)
    requires forall x: Row, y: Row :: x.id == y.id ==> where(x) == where(y)
    requires forall row <- RowsIn(s, table) :: where(row) ==> Numbers(row, a) && Numbers(row, b)
    requires Total(a, b, both) && defaults.Keys !! both.Keys
    ensures Updated(Updated(s, table, where, Adding(defaults, a)), table, where, Adding(defaults, b))
         == Updated(s, table, where, Adding(defaults, both))
  {
    hide Patched, Numbers, Total, Adding;
    var rows := RowsIn(s, table);
    var mid := UpdateRows(rows, where, Adding(defaults, a));
    forall i | 0 <= i < |rows|
      ensures UpdateRows(mid, where, Adding(defaults, b))[i] == UpdateRows(rows, where, Adding(defaults, both))[i]
    {
      if where(rows[i]) {
        assert rows[i] in rows;
        PatchedCell(rows[i], "id", Adding(defaults, a));
        AddedRow(rows[i], defaults, a, b, both);
      }
    }
    assert UpdateRows(mid, where, Adding(defaults, b)) == UpdateRows(rows, where, Adding(defaults, both));
  }

  /** The checks do not look at additions. */
  lemma {:induction false} AddsUnchecked(rules: seq<Rule>, defaults: Fields, a: Fields, b: Fields)
    ensures Checked(rules, Adding(defaults, a), false) == Checked(rules, Adding(defaults, b), false)
  {
    if rules != [] {
      AddsUnchecked(rules[1..], defaults, a, b);
    }
  }

  lemma NoEdgesChange(schema: Schema, s: State, table: string, where: Row -> bool, defaults: Fields, a: Fields)
    ensures var t := Updated(s, table, where, Adding(defaults, a));
            Change(schema, s, table, where, Adding(defaults, a), None)
            == if Accepted(schema, t) then (t, None) else (s, Some(ConstraintViolated))
  {
    hide Accepted, UpdateRows;
  }

  /** Update().Where(..) with additions and nothing else. */
  function AddOp(entity: string, where: Row -> bool, add: Fields): Op {
    Update(entity, where, Adding(map[], add), None)
  }

  /** Two additions in turn have the effect of adding their sum once: in every row that is updated, for integers and
      reals, in columns that hold a number or NULL. */
  lemma AdditionsInTurn(schema: Schema, s: State, entity: string, where: Row -> bool, a: Fields, b: Fields,
                        both: Fields)
    requires entity in schema.rules && schema.rules[entity].updateDefaults.Keys !! both.Keys && Total(a, b, both)
    requires forall x: Row, y: Row :: x.id == y.id ==> where(x) == where(y)
    requires forall row <- RowsIn(s, entity) :: where(row) ==> Numbers(row, a) && Numbers(row, b)
    requires Step(schema, s, AddOp(entity, where, a)).1 == None
    ensures var twice, once := Step(schema, Step(schema, s, AddOp(entity, where, a)).0, AddOp(entity, where, b)),
                              Step(schema, s, AddOp(entity, where, both));
            twice.1 == once.1 && (once.1 == None ==> twice.0 == once.0)
  {
    hide Checked, Change, Numbers, Total, UpdateRows;
    var defaults := schema.rules[entity].updateDefaults;
    forall add: Fields ensures WithDefaults(defaults, Adding(map[], add)) == Adding(defaults, add) {
      assert defaults + map[] == defaults;
    }
    AddsUnchecked(schema.rules[entity].onUpdate, defaults, a, b);
    AddsUnchecked(schema.rules[entity].onUpdate, defaults, a, both);
    NoEdgesChange(schema, s, entity, where, defaults, a);
    NoEdgesChange(schema, s, entity, where, defaults, both);
    NoEdgesChange(schema, Step(schema, s, AddOp(entity, where, a)).0, entity, where, defaults, b);
    AddedRows(s, entity, where, defaults, a, b, both);
  }
}
