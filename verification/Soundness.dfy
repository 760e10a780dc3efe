/** What every stored row keeps satisfying over all runs of the create, update and delete builders. */
module Soundness {
  import opened Wrappers
  import opened Records
  import opened Store
  import opened Runs

  // ---- what every stored row satisfies ----

  /** The validated fields of the row are valid. */
  ghost predicate FieldsSound(rules: Rules, row: Row) {
    forall rule <- rules.onCreate :: rule.Validated? ==> rule.test(CellAt(row, rule.field))
  }

  /** The row has its required edges. */
  ghost predicate EdgesSound(rules: Rules, row: Row) {
    forall rule <- rules.onCreate :: rule.RequiredEdge? ==> CellAt(row, rule.column).Int?
  }

  /** What is generated of a schema: validated fields are required ones, and updates check what creation checks. */
  ghost predicate RulesOK(rules: Rules) {
    && "id" !in rules.foreignKeys
    && (forall rule <- rules.onCreate :: rule.Validated? ==>
          && rule in rules.onUpdate && Required(rule.field) in rules.onCreate
          && rule.field != "id" && rule.field !in rules.foreignKeys)
    && (forall rule <- rules.onCreate :: rule.RequiredEdge? ==>
        rule in rules.onUpdate && rule.column in rules.foreignKeys)
    && (forall f <- rules.createDefaults :: f !in rules.foreignKeys)
    && (forall f <- rules.updateDefaults :: f !in rules.foreignKeys)
  }

  /** Required edges are the NOT NULL columns, no reference clears them behind the builders' back, no table refers to
      itself, and a column refers to one table. */
  ghost predicate SchemaOK(schema: Schema) {
    && (forall name <- schema.rules :: RulesOK(schema.rules[name]))
    && (forall r <- schema.references :: r.table != r.target && r.column != "id" && (r.table in schema.rules ==>
          && r.column in schema.rules[r.table].foreignKeys
          && (r.onDelete.SetNull? ==> RequiredEdge(r.column) !in schema.rules[r.table].onCreate)))
    && (forall name <- schema.rules, rule <- schema.rules[name].onCreate ::
          rule.RequiredEdge? ==> (name, rule.column) in schema.notNull)
    && (forall at <- schema.notNull :: at.0 in schema.rules && RequiredEdge(at.1) in schema.rules[at.0].onCreate)
    && (forall i, j :: 0 <= i < j < |schema.references| ==>
          schema.references[i].table != schema.references[j].table ||
              schema.references[i].column != schema.references[j].column)
  }

  /** What the setters of the builders can put into a mutation: links on foreign keys, values on fields, and only
      optional fields can be cleared. */
  ghost predicate Typed(rules: Rules, p: Patch) {
    && (forall c <- p.links :: c in rules.foreignKeys)
    && (forall c <- rules.foreignKeys :: c !in p.given && c !in p.add && c !in p.cleared)
    && (forall rule <- rules.onCreate :: rule.Validated? ==> rule.field !in p.cleared)
  }

  ghost predicate NoAdds(rules: Rules, p: Patch) {
    forall rule <- rules.onCreate :: rule.Validated? ==> rule.field !in p.add
  }

  /** What is added to validated fields of the row keeps them valid. */
  ghost predicate AddsStayValid(rules: Rules, row: Row, p: Patch) {
    forall rule <- rules.onCreate :: rule.Validated? && rule.field in p.add ==>
      rule.test(Plus(if rule.field in p.given then p.given[rule.field] else CellAt(row, rule.field), p.add[rule.field]))
  }

  /** The O2M edge of an entity is the other end of a foreign key. */
  ghost predicate InverseOK(schema: Schema, entity: string, inv: Inverse) {
    exists r <- schema.references :: r.table == inv.table && r.column == inv.column && r.target == entity
  }

  ghost predicate InversesOK(schema: Schema, entity: string, p: Patch) {
    forall inv <- p.inverses :: InverseOK(schema, entity, inv)
  }

  lemma CreatedSound(rules: Rules, id: int, p: Patch)
    requires RulesOK(rules) && Typed(rules, p) && Checked(rules.onCreate, p, true) == None
    ensures FieldsSound(rules, NewRow(id, p)) && EdgesSound(rules, NewRow(id, p))
  {
    CheckedNone(rules.onCreate, p, true);
    forall rule | rule in rules.onCreate
      ensures rule.Validated? ==> rule.test(CellAt(NewRow(id, p), rule.field))
      ensures rule.RequiredEdge? ==> CellAt(NewRow(id, p), rule.column).Int?
    {
      assert !Broken(rule, p, true);
      if rule.Validated? {
        assert !Broken(Required(rule.field), p, true);
      }
    }
  }

  /** A checked update keeps the required edges, and keeps validated fields valid exactly when what it adds to them
      does: additions are not checked, everything else is. */
  lemma PatchedSound(rules: Rules, row: Row, p: Patch)
    requires RulesOK(rules) && Typed(rules, p) && Checked(rules.onUpdate, p, false) == None
    requires FieldsSound(rules, row) && EdgesSound(rules, row)
    ensures FieldsSound(rules, Patched(row, p)) <==> AddsStayValid(rules, row, p)
    ensures EdgesSound(rules, Patched(row, p))
  {
    CheckedNone(rules.onUpdate, p, false);
    forall rule | rule in rules.onCreate
      ensures rule.Validated? && rule.field !in p.add ==> rule.test(CellAt(Patched(row, p), rule.field))
      ensures rule.Validated? && rule.field in p.add ==>
                CellAt(Patched(row, p), rule.field)
                == Plus(if rule.field in p.given then p.given[rule.field]
                    else CellAt(row, rule.field), p.add[rule.field])
      ensures rule.RequiredEdge? ==> CellAt(Patched(row, p), rule.column).Int?
    {
      if rule.Validated? {
        PatchedCell(row, rule.field, p);
        assert !Broken(rule, p, false);
      }
      if rule.RequiredEdge? {
        PatchedCell(row, rule.column, p);
        assert !Broken(rule, p, false);
      }
    }
  }

  ghost predicate TableFields(schema: Schema, s: State) {
    forall name <- schema.rules, row <- RowsIn(s, name) :: FieldsSound(schema.rules[name], row)
  }

  ghost predicate TableEdges(schema: Schema, s: State) {
    forall name <- schema.rules, row <- RowsIn(s, name) :: EdgesSound(schema.rules[name], row)
  }

  /** Keys are unique and below the next one. */
  ghost predicate KeysSound(s: State) {
    forall name <- s.tables :: UniqueIDs(s.tables[name]) && forall row <- s.tables[name] :: row.id < s.next
  }

  /** The whole database is sound. */
  ghost predicate Sound(schema: Schema, s: State) {
    TableFields(schema, s) && TableEdges(schema, s) && KeysSound(s) && Referential(schema, s)
  }

  ghost predicate TypedOp(schema: Schema, op: Op)
    requires op.entity in schema.rules
  {
    var rules := schema.rules[op.entity];
    match op
    case Create(_, p, _) => Typed(rules, WithDefaults(rules.createDefaults, p)) && InversesOK(schema, op.entity, p)
    case CreateBulk(_, ps, _) =>
      forall i :: 0 <= i < |ps| ==>
          Typed(rules, WithDefaults(rules.createDefaults, ps[i])) && InversesOK(schema, op.entity, ps[i])
    case Update(_, _, p, _) => Typed(rules, WithDefaults(rules.updateDefaults, p)) && InversesOK(schema, op.entity, p)
    case UpdateOne(_, _, _, p, _) => Typed(rules, WithDefaults(rules.updateDefaults, p)) &&
        InversesOK(schema, op.entity, p)
    case Delete(_, _, _) => true
  }

  ghost predicate NoAddsOp(schema: Schema, op: Op)
    requires op.entity in schema.rules
  {
    match op
    case Update(_, _, p, _) => NoAdds(schema.rules[op.entity], p)
    case UpdateOne(_, _, _, p, _) => NoAdds(schema.rules[op.entity], p)
    case _ => true
  }

  lemma {:induction false} AllChecked(rules: seq<Rule>, ps: seq<Patch>)
    ensures CheckedAll(rules, ps) == None <==> forall i :: 0 <= i < |ps| ==> Checked(rules, ps[i], true) == None
  {
    if ps != [] {
      AllChecked(rules, ps[1..]);
      assert ps == [ps[0]] + ps[1..];
    }
  }

  lemma NewRowsSound(rules: Rules, next: int, ps: seq<Patch>)
    requires RulesOK(rules)
    requires forall i :: 0 <= i < |ps| ==> Typed(rules, ps[i]) && Checked(rules.onCreate, ps[i], true) == None
    ensures forall row <- NewRows(next, ps) :: FieldsSound(rules, row) && EdgesSound(rules, row)
    ensures forall row <- NewRows(next, ps) :: next <= row.id < next + |ps|
    ensures UniqueIDs(NewRows(next, ps))
  {
    hide FieldsSound, EdgesSound, Typed, Checked, RulesOK;
    var rows := NewRows(next, ps);
    forall i | 0 <= i < |ps|
      ensures FieldsSound(rules, rows[i]) && EdgesSound(rules, rows[i]) && next <= rows[i].id < next + |ps|
    {
      CreatedSound(rules, next + i, ps[i]);
    }
  }

  lemma InsertedSound(schema: Schema, s: State, name: string, ps: seq<Patch>)
    requires SchemaOK(schema) && name in schema.rules && TableFields(schema, s) && TableEdges(schema, s) && KeysSound(s)
    requires forall i :: 0 <= i < |ps| ==>
               Typed(schema.rules[name], ps[i]) && Checked(schema.rules[name].onCreate, ps[i], true) == None
    ensures var t := Inserted(s, name, ps);
            TableFields(schema, t) && TableEdges(schema, t) && KeysSound(t)
  {
    hide FieldsSound, EdgesSound, Typed, Checked, RulesOK, NewRows;
    NewRowsSound(schema.rules[name], s.next, ps);
    var t := Inserted(s, name, ps);
    forall other, row | other in schema.rules && row in RowsIn(t, other)
      ensures FieldsSound(schema.rules[other], row) && EdgesSound(schema.rules[other], row)
    {
      assert other != name ==> row in RowsIn(s, other);
    }
    AppendedKeys(RowsIn(s, name), NewRows(s.next, ps), s.next);
  }

  lemma AppendedKeys(rows: seq<Row>, more: seq<Row>, next: int)
    requires UniqueIDs(rows) && UniqueIDs(more)
    requires (forall row <- rows :: row.id < next) && (forall row <- more :: next <= row.id)
    ensures UniqueIDs(rows + more)
  {
    forall i, j | 0 <= i < j < |rows + more| ensures (rows + more)[i].id != (rows + more)[j].id {
      if i < |rows| <= j {
        assert rows[i] in rows && more[j - |rows|] in more;
      }
    }
  }

  lemma UpdatedSound(schema: Schema, s: State, name: string, where: Row -> bool, p: Patch)
    requires SchemaOK(schema) && name in schema.rules && TableFields(schema, s) && TableEdges(schema, s) && KeysSound(s)
    requires Typed(schema.rules[name], p) && Checked(schema.rules[name].onUpdate, p, false) == None
    ensures var t := Updated(s, name, where, p);
            && KeysSound(t) && TableEdges(schema, t)
            && (TableFields(schema, t) <==>
                  forall row <- RowsIn(s, name) :: where(row) ==> AddsStayValid(schema.rules[name], row, p))
  {
    hide FieldsSound, EdgesSound, Typed, Checked, RulesOK, AddsStayValid;
    var t := Updated(s, name, where, p);
    forall i | 0 <= i < |RowsIn(s, name)|
      ensures RowsIn(t, name)[i].id == RowsIn(s, name)[i].id && EdgesSound(schema.rules[name], RowsIn(t, name)[i])
      ensures where(RowsIn(s, name)[i]) ==>
                (FieldsSound(schema.rules[name], RowsIn(t, name)[i]) <==>
                    AddsStayValid(schema.rules[name], RowsIn(s, name)[i], p))
    {
      if where(RowsIn(s, name)[i]) {
        PatchedSound(schema.rules[name], RowsIn(s, name)[i], p);
      }
    }
  }

  // ---- writing one foreign key ----

  /** The column may be written without touching a field. */
  ghost predicate Foreign(schema: Schema, table: string, column: string) {
    column != "id" && (table in schema.rules ==> column in schema.rules[table].foreignKeys)
  }

  /** Setting a foreign key, or clearing it, touches nothing else. */
  lemma RelinkedRow(row: Row, column: string, dest: Option<int>, c: string)
    requires column != "id"
    ensures Patched(row, Relinked(column, dest)).id == row.id
    ensures CellAt(Patched(row, Relinked(column, dest)), c)
         == if c == column then (if dest.Some? then Int(dest.value) else Null) else CellAt(row, c)
  {
    PatchedCell(row, c, Relinked(column, dest));
  }

  /** What writing a foreign key keeps: keys, the validity of fields, and required edges unless it clears one. */
  lemma RelinkedTable(schema: Schema, s: State, table: string, column: string, where: Row -> bool, dest: Option<int>)
    requires SchemaOK(schema) && Foreign(schema, table, column) && KeysSound(s)
    ensures var t := Updated(s, table, where, Relinked(column, dest));
            && KeysSound(t) && (TableFields(schema, t) <==> TableFields(schema, s))
            && (TableEdges(schema, s) ==>
                  (TableEdges(schema, t) <==>
                     (dest.None? && (table, column) in schema.notNull ==>
                         forall row <- RowsIn(s, table) :: !where(row))))
            && (TableEdges(schema, t) && dest.None? ==> TableEdges(schema, s))
  {
    hide FieldsSound, EdgesSound, RulesOK, Patched;
    var t := Updated(s, table, where, Relinked(column, dest));
    forall i | 0 <= i < |RowsIn(s, table)|
      ensures RowsIn(t, table)[i].id == RowsIn(s, table)[i].id
      ensures table in schema.rules ==>
                && (FieldsSound(schema.rules[table], RowsIn(t, table)[i]) <==>
                    FieldsSound(schema.rules[table], RowsIn(s, table)[i]))
                && (EdgesSound(schema.rules[table], RowsIn(s, table)[i]) ==>
                      (EdgesSound(schema.rules[table], RowsIn(t, table)[i]) <==>
                         !(where(RowsIn(s, table)[i]) && dest.None? && (table, column) in schema.notNull)))
                && (EdgesSound(schema.rules[table], RowsIn(t, table)[i]) && dest.None? ==>
                      EdgesSound(schema.rules[table], RowsIn(s, table)[i]))
    {
      if where(RowsIn(s, table)[i]) {
        if table in schema.rules {
          RelinkedSound(schema, table, RowsIn(s, table)[i], column, dest);
        }
        RelinkedRow(RowsIn(s, table)[i], column, dest, "id");
      }
    }
  }

  lemma RelinkedSound(schema: Schema, table: string, row: Row, column: string, dest: Option<int>)
    requires SchemaOK(schema) && table in schema.rules && Foreign(schema, table, column)
    ensures var rules, after := schema.rules[table], Patched(row, Relinked(column, dest));
            && (FieldsSound(rules, after) <==> FieldsSound(rules, row))
            && (EdgesSound(rules, row) ==>
                (EdgesSound(rules, after) <==> !(dest.None? && (table, column) in schema.notNull)))
            && (EdgesSound(rules, after) && dest.None? ==> EdgesSound(rules, row))
  {
    hide Patched;
    var rules, after := schema.rules[table], Patched(row, Relinked(column, dest));
    assert RulesOK(rules);
    forall rule | rule in rules.onCreate
      ensures rule.Validated? ==> CellAt(after, rule.field) == CellAt(row, rule.field)
      ensures rule.RequiredEdge? && rule.column != column ==> CellAt(after, rule.column) == CellAt(row, rule.column)
      ensures rule.RequiredEdge? ==> (table, rule.column) in schema.notNull
    {
      if rule.Validated? {
        RelinkedRow(row, column, dest, rule.field);
      }
      if rule.RequiredEdge? {
        RelinkedRow(row, column, dest, rule.column);
      }
    }
    RelinkedRow(row, column, dest, column);
  }

  // ---- clearing O2M edges ----

  /** Clearing the edge would leave a row without a required edge. */
  ghost predicate HitsRequired(schema: Schema, s: State, inv: Inverse, owners: seq<int>) {
    (inv.table, inv.column) in schema.notNull && exists row <- RowsIn(s, inv.table) :: Unlinks(inv, owners, row)
  }

  ghost predicate NoneHits(schema: Schema, s: State, invs: seq<Inverse>, owners: seq<int>) {
    forall inv <- invs :: !HitsRequired(schema, s, inv, owners)
  }

  /** What the Clear list does if nothing refuses it. */
  function Cleared(s: State, invs: seq<Inverse>, owners: seq<int>): State
    decreases |invs|
  {
    if invs == [] then s else Cleared(Unlinked(s, invs[0], owners), invs[1..], owners)
  }

  lemma InverseForeign(schema: Schema, entity: string, inv: Inverse)
    requires SchemaOK(schema) && InverseOK(schema, entity, inv)
    ensures Foreign(schema, inv.table, inv.column) && inv.table != entity
  {
    hide RulesOK;
  }

  /** One row of a table after a foreign key has been written. */
  lemma RelinkedAt(s: State, table: string, column: string, where: Row -> bool, dest: Option<int>, i: nat, c: string)
    requires column != "id" && i < |RowsIn(s, table)|
    ensures var t := Updated(s, table, where, Relinked(column, dest));
            var row := RowsIn(s, table)[i];
            && |RowsIn(t, table)| == |RowsIn(s, table)| && RowsIn(t, table)[i].id == row.id
            && CellAt(RowsIn(t, table)[i], c)
               == if where(row) && c == column then (if dest.Some? then Int(dest.value) else Null) else CellAt(row, c)
  {
    RelinkedRow(RowsIn(s, table)[i], column, dest, c);
  }

  lemma UnlinkedReferential(schema: Schema, s: State, inv: Inverse, owners: seq<int>)
    requires Referential(schema, s) && inv.column != "id"
    ensures Referential(schema, Unlinked(s, inv, owners))
  {
    hide Patched;
    var t := Unlinked(s, inv, owners);
    var where := (row: Row) => Unlinks(inv, owners, row);
    forall k | 0 <= k < |schema.references| ensures Refers(t, schema.references[k]) {
      var r := schema.references[k];
      assert Refers(s, r);
      forall i | 0 <= i < |RowsIn(t, r.table)| && CellAt(RowsIn(t, r.table)[i], r.column).Int?
        ensures exists j :: 0 <= j < |RowsIn(t, r.target)|
                            && RowsIn(t, r.target)[j].id == CellAt(RowsIn(t, r.table)[i], r.column).i
      {
        if r.table == inv.table {
          RelinkedAt(s, inv.table, inv.column, where, None, i, r.column);
        }
        assert CellAt(RowsIn(s, r.table)[i], r.column) == CellAt(RowsIn(t, r.table)[i], r.column);
        var j :| 0 <= j < |RowsIn(s, r.target)|
                 && RowsIn(s, r.target)[j].id == CellAt(RowsIn(s, r.table)[i], r.column).i;
        if r.target == inv.table {
          RelinkedAt(s, inv.table, inv.column, where, None, j, "id");
        }
        assert RowsIn(t, r.target)[j].id == RowsIn(s, r.target)[j].id;
      }
    }
  }

  /** Clearing an edge that hits no required row does not change whom another clear hits. */
  lemma UnlinkedHits(schema: Schema, s: State, inv: Inverse, other: Inverse, owners: seq<int>)
    requires inv.column != "id" && !HitsRequired(schema, s, inv, owners)
    ensures HitsRequired(schema, Unlinked(s, inv, owners), other, owners) <==> HitsRequired(schema, s, other, owners)
  {
    hide Patched;
    var t := Unlinked(s, inv, owners);
    var where := (row: Row) => Unlinks(inv, owners, row);
    if (other.table, other.column) in schema.notNull && other.table == inv.table {
      forall i | 0 <= i < |RowsIn(s, inv.table)|
        ensures Unlinks(other, owners, RowsIn(t, inv.table)[i]) <==> Unlinks(other, owners, RowsIn(s, inv.table)[i])
      {
        assert RowsIn(s, inv.table)[i] in RowsIn(s, inv.table);
        RelinkedAt(s, inv.table, inv.column, where, None, i, other.column);
      }
      SameHits(RowsIn(s, inv.table), RowsIn(t, inv.table), other, owners);
    }
  }

  lemma SameHits(a: seq<Row>, b: seq<Row>, inv: Inverse, owners: seq<int>)
    requires |a| == |b| && forall i :: 0 <= i < |a| ==> (Unlinks(inv, owners, b[i]) <==> Unlinks(inv, owners, a[i]))
    ensures (exists row <- a :: Unlinks(inv, owners, row)) <==> (exists row <- b :: Unlinks(inv, owners, row))
  {
    hide Unlinks;
    if row :| row in a && Unlinks(inv, owners, row) {
      var i :| 0 <= i < |a| && a[i] == row;
      assert b[i] in b;
    }
    if row :| row in b && Unlinks(inv, owners, row) {
      var i :| 0 <= i < |b| && b[i] == row;
      assert a[i] in a;
    }
  }

  /** Rows with their required edges have no NULL where it is not allowed. */
  lemma EdgesNoNulls(schema: Schema, s: State)
    requires SchemaOK(schema) && TableEdges(schema, s)
    ensures NoNulls(schema, s)
  {
    hide RulesOK;
    forall at, row | at in schema.notNull && row in RowsIn(s, at.0) ensures !CellAt(row, at.1).Null? {
      assert EdgesSound(schema.rules[at.0], row);
    }
  }

  lemma NullRefused(schema: Schema, s: State, inv: Inverse, owners: seq<int>)
    requires HitsRequired(schema, s, inv, owners) && inv.column != "id"
    ensures !NoNulls(schema, Unlinked(s, inv, owners))
  {
    hide Patched;
    var t := Unlinked(s, inv, owners);
    var row :| row in RowsIn(s, inv.table) && Unlinks(inv, owners, row);
    var i :| 0 <= i < |RowsIn(s, inv.table)| && RowsIn(s, inv.table)[i] == row;
    RelinkedAt(s, inv.table, inv.column, (r: Row) => Unlinks(inv, owners, r), None, i, inv.column);
    assert RowsIn(t, inv.table)[i] in RowsIn(t, inv.table);
  }

  /** Clearing never gives a row back its edge. */
  lemma {:induction false} ClearedOnly(schema: Schema, entity: string, s: State, invs: seq<Inverse>, owners: seq<int>)
    requires SchemaOK(schema) && KeysSound(s) && forall inv <- invs :: InverseOK(schema, entity, inv)
    ensures TableEdges(schema, Cleared(s, invs, owners)) ==> TableEdges(schema, s)
    decreases |invs|
  {
    hide SchemaOK, TableFields, TableEdges, KeysSound, Foreign;
    if invs != [] {
      assert invs[0] in invs && forall inv <- invs[1..] :: inv in invs;
      InverseForeign(schema, entity, invs[0]);
      RelinkedTable(schema, s, invs[0].table, invs[0].column, (row: Row) => Unlinks(invs[0], owners, row), None);
      ClearedOnly(schema, entity, Unlinked(s, invs[0], owners), invs[1..], owners);
    }
  }

  /** Clearing the O2M edges of a sound database leaves a row without a required edge exactly when a row with a required
      edge refers to one of the owners and is cleared or removed; nothing in the builders prevents that, the NOT NULL
      columns do: the Clear list is refused in exactly these cases. */
  lemma {:induction false} ClearRestsOnNotNull(schema: Schema, entity: string, s: State, invs: seq<Inverse>,
                                               owners: seq<int>)
    requires SchemaOK(schema) && TableEdges(schema, s) && KeysSound(s) && Referential(schema, s)
    requires forall inv <- invs :: InverseOK(schema, entity, inv)
    ensures TableEdges(schema, Cleared(s, invs, owners)) <==> NoneHits(schema, s, invs, owners)
    ensures UnlinkAll(schema, s, invs, owners)
         == if NoneHits(schema, s, invs, owners) then Ok(Cleared(s, invs, owners)) else Err(ConstraintViolated)
    ensures NoneHits(schema, s, invs, owners) ==>
              var t := Cleared(s, invs, owners);
              KeysSound(t) && Referential(schema, t) && (TableFields(schema, t) <==> TableFields(schema, s))
    decreases |invs|
  {
    hide SchemaOK, TableFields, TableEdges, KeysSound, Foreign, Referential, NoNulls, HitsRequired, Unlinked;
    if invs != [] {
      var inv, rest := invs[0], invs[1..];
      var t := Unlinked(s, inv, owners);
      assert inv in invs && invs == [inv] + rest;
      ClearOne(schema, entity, s, inv, owners);
      if HitsRequired(schema, s, inv, owners) {
        ClearedOnly(schema, entity, t, rest, owners);
      } else {
        EdgesNoNulls(schema, t);
        ClearRestsOnNotNull(schema, entity, t, rest, owners);
        forall other | other in rest
          ensures HitsRequired(schema, t, other, owners) <==> HitsRequired(schema, s, other, owners)
        {
          InverseForeign(schema, entity, inv);
          assert inv.column != "id" by { ForeignColumn(schema, inv.table, inv.column); }
          UnlinkedHits(schema, s, inv, other, owners);
        }
        assert NoneHits(schema, t, rest, owners) <==> NoneHits(schema, s, invs, owners);
      }
    }
  }

  lemma ForeignColumn(schema: Schema, table: string, column: string)
    requires Foreign(schema, table, column)
    ensures column != "id"
  {
  }

  lemma ClearOne(schema: Schema, entity: string, s: State, inv: Inverse, owners: seq<int>)
    requires SchemaOK(schema) && TableEdges(schema, s) && KeysSound(s) && Referential(schema, s)
    requires InverseOK(schema, entity, inv)
    ensures var t := Unlinked(s, inv, owners);
            && KeysSound(t) && (TableFields(schema, t) <==> TableFields(schema, s)) && Referential(schema, t)
            && (TableEdges(schema, t) <==> !HitsRequired(schema, s, inv, owners))
            && (HitsRequired(schema, s, inv, owners) ==> !NoNulls(schema, t))
  {
    hide SchemaOK, TableFields, TableEdges, KeysSound, Referential, NoNulls, Unlinks, Patched;
    InverseForeign(schema, entity, inv);
    RelinkedTable(schema, s, inv.table, inv.column, (row: Row) => Unlinks(inv, owners, row), None);
    UnlinkedReferential(schema, s, inv, owners);
    if HitsRequired(schema, s, inv, owners) {
      NullRefused(schema, s, inv, owners);
    }
  }

  /** Adding rows to O2M edges keeps the rows sound. */
  lemma {:induction false} LinkAllSound(schema: Schema, entity: string, s: State, invs: seq<Inverse>, owner: int)
    requires SchemaOK(schema) && TableEdges(schema, s) && KeysSound(s) && Referential(schema, s)
    requires forall inv <- invs :: InverseOK(schema, entity, inv)
    ensures var r := LinkAll(schema, s, invs, owner);
            r.Ok? ==> && TableEdges(schema, r.value) && KeysSound(r.value) && Referential(schema, r.value)
                      && (TableFields(schema, r.value) <==> TableFields(schema, s))
    decreases |invs|
  {
    hide SchemaOK, TableFields, TableEdges, KeysSound, Foreign, Referential, NoNulls, AllFree;
    if invs != [] {
      assert invs[0] in invs && forall inv <- invs[1..] :: inv in invs;
      InverseForeign(schema, entity, invs[0]);
      RelinkedTable(schema, s, invs[0].table, invs[0].column, (row: Row) => Links(invs[0], row), Some(owner));
      if LinkAll(schema, s, invs, owner).Ok? {
        LinkAllSound(schema, entity, Linked(s, invs[0], owner), invs[1..], owner);
      }
    }
  }

  lemma RelinkSound(schema: Schema, entity: string, s: State, invs: seq<Inverse>, owners: seq<int>)
    requires SchemaOK(schema) && TableEdges(schema, s) && KeysSound(s) && Referential(schema, s)
    requires forall inv <- invs :: InverseOK(schema, entity, inv)
    ensures var r := Relink(schema, s, invs, owners);
            r.Ok? ==> && TableEdges(schema, r.value) && KeysSound(r.value) && Referential(schema, r.value)
                      && (TableFields(schema, r.value) <==> TableFields(schema, s))
  {
    hide SchemaOK, TableFields, TableEdges, KeysSound, Referential, UnlinkAll, LinkAll, NoneHits, InverseOK, Cleared;
    ClearRestsOnNotNull(schema, entity, s, invs, owners);
    if NoneHits(schema, s, invs, owners) && |owners| == 1 {
      LinkAllSound(schema, entity, Cleared(s, invs, owners), invs, owners[0]);
    }
  }

  lemma {:induction false} LinkNewSound(schema: Schema, entity: string, s: State, next: int, ps: seq<Patch>)
    requires SchemaOK(schema) && TableEdges(schema, s) && KeysSound(s) && Referential(schema, s)
    requires forall i :: 0 <= i < |ps| ==> InversesOK(schema, entity, ps[i])
    ensures var r := LinkNew(schema, s, next, ps);
            r.Ok? ==> && TableEdges(schema, r.value) && KeysSound(r.value) && Referential(schema, r.value)
                      && (TableFields(schema, r.value) <==> TableFields(schema, s))
  {
    hide SchemaOK, TableFields, TableEdges, KeysSound, Referential, LinkAll, InverseOK;
    if ps != [] {
      var n := |ps| - 1;
      LinkNewSound(schema, entity, s, next, ps[..n]);
      if LinkNew(schema, s, next, ps[..n]).Ok? {
        LinkAllSound(schema, entity, LinkNew(schema, s, next, ps[..n]).value, ps[n].inverses, next + n);
      }
    }
  }
  // ---- deletions ----

  lemma {:induction false} WithoutSome(rows: seq<Row>, gone: Row -> bool)
    ensures forall row :: row in Without(rows, gone) <==> row in rows && !gone(row)
    ensures UniqueIDs(rows) ==> UniqueIDs(Without(rows, gone))
  {
    if rows != [] {
      WithoutSome(rows[1..], gone);
      assert rows == [rows[0]] + rows[1..];
      if UniqueIDs(rows) {
        assert forall row <- rows[1..] :: row.id != rows[0].id;
        AppendedFirst(rows[0], Without(rows[1..], gone));
      }
    }
  }

  lemma AppendedFirst(row: Row, rows: seq<Row>)
    requires UniqueIDs(rows) && forall r <- rows :: r.id != row.id
    ensures UniqueIDs([row] + rows)
  {
    forall j | 0 <= j < |rows| ensures rows[j].id != row.id {
      assert rows[j] in rows;
    }
  }

  lemma FollowedSound(schema: Schema, s: State, r: Reference, ids: set<int>)
    requires SchemaOK(schema) && r in schema.references && TableFields(schema, s) && TableEdges(schema, s)
    requires KeysSound(s)
    ensures var t := Followed(s, r, ids);
            TableFields(schema, t) && TableEdges(schema, t) && KeysSound(t)
  {
    hide FieldsSound, EdgesSound, RulesOK, Patched;
    var dangling := (row: Row) => CellAt(row, r.column).Int? && CellAt(row, r.column).i in ids;
    if r.onDelete.Cascade? {
      WithoutSome(RowsIn(s, r.table), dangling);
    }
    if r.onDelete.SetNull? {
      RelinkedTable(schema, s, r.table, r.column, dangling, None);
    }
  }

  lemma {:induction false} FollowedAllSound(schema: Schema, s: State, references: seq<Reference>, table: string,
                                            ids: set<int>)
    requires SchemaOK(schema) && (forall r <- references :: r in schema.references)
    requires TableFields(schema, s) && TableEdges(schema, s) && KeysSound(s)
    ensures var t := FollowedAll(s, references, table, ids);
            TableFields(schema, t) && TableEdges(schema, t) && KeysSound(t)
    decreases |references|
  {
    hide SchemaOK, TableFields, TableEdges, KeysSound;
    if references != [] {
      assert references[0] in references && forall r <- references[1..] :: r in references;
      if references[0].target == table {
        FollowedSound(schema, s, references[0], ids);
        FollowedAllSound(schema, Followed(s, references[0], ids), references[1..], table, ids);
      } else {
        FollowedAllSound(schema, s, references[1..], table, ids);
      }
    }
  }

  lemma DeletedSound(schema: Schema, s: State, table: string, where: Row -> bool)
    requires SchemaOK(schema) && TableFields(schema, s) && TableEdges(schema, s) && KeysSound(s)
    ensures var t := Deleted(schema, s, table, where);
            TableFields(schema, t) && TableEdges(schema, t) && KeysSound(t)
  {
    hide FieldsSound, EdgesSound, RulesOK, SchemaOK;
    var rows := RowsIn(s, table);
    WithoutSome(rows, where);
    FollowedAllSound(schema, s.(tables := s.tables[table := Without(rows, where)]), schema.references, table,
                     set i | 0 <= i < |rows| && where(rows[i]) :: rows[i].id);
  }

  // ---- runs ----

  /** The rows that an operation updates get nothing added that makes a validated field invalid. */
  ghost predicate AddsStayValidOp(schema: Schema, s: State, op: Op)
    requires op.entity in schema.rules
  {
    var rules := schema.rules[op.entity];
    match op
    case Update(_, where, p, _) =>
      forall row <- RowsIn(s, op.entity) :: where(row) ==>
          AddsStayValid(rules, row, WithDefaults(rules.updateDefaults, p))
    case UpdateOne(_, id, where, p, _) =>
      forall row <- RowsIn(s, op.entity) :: id.Some? && Match(id.value, where, row) ==>
        AddsStayValid(rules, row, WithDefaults(rules.updateDefaults, p))
    case _ => true
  }

  /** The checks of the builders suffice for the rows that an operation writes itself: no NOT NULL column of theirs
      lacks a value. */
  lemma ChecksSuffice(schema: Schema, s: State, name: string, qs: seq<Patch>, where: Row -> bool, q: Patch)
    requires SchemaOK(schema) && name in schema.rules && Sound(schema, s)
    requires forall i :: 0 <= i < |qs| ==> Typed(schema.rules[name], qs[i])
    requires Typed(schema.rules[name], q)
    ensures CheckedAll(schema.rules[name].onCreate, qs) == None ==> NoNulls(schema, Inserted(s, name, qs))
    ensures Checked(schema.rules[name].onUpdate, q, false) == None ==> NoNulls(schema, Updated(s, name, where, q))
  {
    hide SchemaOK, TableFields, TableEdges, KeysSound, Referential, Inserted, Updated, Typed, Checked, CheckedAll,
        NoNulls;
    AllChecked(schema.rules[name].onCreate, qs);
    if CheckedAll(schema.rules[name].onCreate, qs) == None {
      InsertedSound(schema, s, name, qs);
      EdgesNoNulls(schema, Inserted(s, name, qs));
    }
    if Checked(schema.rules[name].onUpdate, q, false) == None {
      UpdatedSound(schema, s, name, where, q);
      EdgesNoNulls(schema, Updated(s, name, where, q));
    }
  }

  /** The rows that an update matches: the owners of the O2M edges that it changes. */
  function Owners(s: State, op: Op): seq<int>
    requires op.Update? || op.UpdateOne?
  {
    var where := if op.Update? then op.where else (row: Row) => op.id.Some? && Match(op.id.value, op.where, row);
    KeysOfRows(Chosen(RowsIn(s, op.entity), where))
  }

  lemma ChangeKeeps(schema: Schema, s: State, name: string, where: Row -> bool, q: Patch, refusal: Option<Error>)
    requires SchemaOK(schema) && name in schema.rules && Sound(schema, s)
    requires Typed(schema.rules[name], q) && Checked(schema.rules[name].onUpdate, q, false) == None
    requires InversesOK(schema, name, q)
    ensures var r := Change(schema, s, name, where, q, refusal);
            && (r.1.Some? ==> r.0 == s)
            && (r.1.None? ==> (Sound(schema, r.0) <==>
                  forall row <- RowsIn(s, name) :: where(row) ==> AddsStayValid(schema.rules[name], row, q)))
  {
    hide SchemaOK, TableFields, TableEdges, KeysSound, Referential, Relink, Updated, AddsStayValid, Typed, Checked,
        NoNulls, InverseOK;
    var t := Updated(s, name, where, q);
    UpdatedSound(schema, s, name, where, q);
    if Referential(schema, t) {
      RelinkSound(schema, name, t, q.inverses, KeysOfRows(Chosen(RowsIn(s, name), where)));
    }
  }

  lemma InsertKeeps(schema: Schema, s: State, name: string, qs: seq<Patch>, refusal: Option<Error>)
    requires SchemaOK(schema) && name in schema.rules && Sound(schema, s)
    requires forall i :: 0 <= i < |qs| ==>
               && Typed(schema.rules[name], qs[i]) && Checked(schema.rules[name].onCreate, qs[i], true) == None
               && InversesOK(schema, name, qs[i])
    ensures var r := Insert(schema, s, name, qs, refusal);
            && (r.1.Some? ==> r.0 == s) && (r.1.None? ==> Sound(schema, r.0))
  {
    hide SchemaOK, TableFields, TableEdges, KeysSound, Referential, LinkNew, Inserted, Typed, Checked, NoNulls,
        InversesOK;
    var t := Inserted(s, name, qs);
    InsertedSound(schema, s, name, qs);
    if Referential(schema, t) {
      LinkNewSound(schema, name, t, s.next, qs);
    }
  }

  /** An operation keeps the database sound if it fails; if it succeeds, exactly when what it adds stays valid. */
  lemma StepKeeps(schema: Schema, s: State, op: Op)
    requires SchemaOK(schema) && op.entity in schema.rules && TypedOp(schema, op) && Sound(schema, s)
    ensures Step(schema, s, op).1.Some? ==> Step(schema, s, op).0 == s
    ensures Step(schema, s, op).1.None? ==> (Sound(schema, Step(schema, s, op).0) <==> AddsStayValidOp(schema, s, op))
  {
    hide Typed, Checked, CheckedAll, AddsStayValid, Referential, NoNulls, Insert, Change, Deleted, TableFields,
        TableEdges,
         KeysSound, SchemaOK, InverseOK;
    var rules := schema.rules[op.entity];
    match op
    case Create(name, p, refusal) =>
      var q := WithDefaults(rules.createDefaults, p);
      if Checked(rules.onCreate, q, true) == None {
        InsertKeeps(schema, s, name, [q], refusal);
      }
    case CreateBulk(name, ps, refusal) =>
      var qs := AllWithDefaults(rules.createDefaults, ps);
      AllChecked(rules.onCreate, qs);
      if CheckedAll(rules.onCreate, qs) == None {
        InsertKeeps(schema, s, name, qs, refusal);
      }
    case Update(name, where, p, refusal) =>
      var q := WithDefaults(rules.updateDefaults, p);
      if Checked(rules.onUpdate, q, false) == None {
        ChangeKeeps(schema, s, name, where, q, refusal);
      }
    case UpdateOne(name, id, where, p, refusal) =>
      var q := WithDefaults(rules.updateDefaults, p);
      if Checked(rules.onUpdate, q, false) == None && id.Some? {
        ChangeKeeps(schema, s, name, (row: Row) => Match(id.value, where, row), q, refusal);
      }
    case Delete(name, where, _) =>
      DeletedSound(schema, s, name, where);
  }

  /** An update whose O2M changes would leave a row without a required edge is refused. No check of a builder is about
      these rows: what refuses it is that the column is NOT NULL. */
  lemma RequiredClearRefused(schema: Schema, s: State, op: Op)
    requires SchemaOK(schema) && op.entity in schema.rules && TypedOp(schema, op) && Sound(schema, s)
    requires (op.Update? || op.UpdateOne?) && !NoneHits(schema, s, op.p.inverses, Owners(s, op))
    ensures Step(schema, s, op).1.Some? && Step(schema, s, op).0 == s
  {
    hide SchemaOK, TableFields, TableEdges, KeysSound, Referential, NoNulls, Checked, Typed, Match, InverseOK, NoneHits;
    var rules := schema.rules[op.entity];
    var q := WithDefaults(rules.updateDefaults, op.p);
    if Checked(rules.onUpdate, q, false) == None {
      if op.Update? {
        ChangeRefused(schema, s, op.entity, op.where, q, op.refusal);
      } else if op.id.Some? {
        var where, with := (row: Row) => Match(op.id.value, op.where, row),
                           (row: Row) => op.id.Some? && Match(op.id.value, op.where, row);
        SameChosen(RowsIn(s, op.entity), where, with);
        ChangeRefused(schema, s, op.entity, where, q, op.refusal);
      }
    }
  }

  lemma {:induction false} SameChosen(rows: seq<Row>, a: Row -> bool, b: Row -> bool)
    requires forall row <- rows :: a(row) <==> b(row)
    ensures Chosen(rows, a) == Chosen(rows, b)
  {
    if rows != [] {
      assert rows[0] in rows && forall row <- rows[1..] :: row in rows;
      SameChosen(rows[1..], a, b);
      ChosenFirst(rows, a);
      ChosenFirst(rows, b);
    }
  }

  lemma ChosenFirst(rows: seq<Row>, where: Row -> bool)
    requires rows != []
    ensures Chosen(rows, where) == (if where(rows[0]) then [rows[0]] else []) + Chosen(rows[1..], where)
  {
  }

  lemma ChangeRefused(schema: Schema, s: State, name: string, where: Row -> bool, q: Patch, refusal: Option<Error>)
    requires SchemaOK(schema) && name in schema.rules && Sound(schema, s)
    requires Typed(schema.rules[name], q) && Checked(schema.rules[name].onUpdate, q, false) == None
    requires InversesOK(schema, name, q)
    requires !NoneHits(schema, s, q.inverses, KeysOfRows(Chosen(RowsIn(s, name), where)))
    ensures Change(schema, s, name, where, q, refusal).1.Some? && Change(schema, s, name, where, q, refusal).0 == s
  {
    hide SchemaOK, TableFields, TableEdges, KeysSound, Referential, NoNulls, Checked, Typed, InverseOK, UpdateRows,
        Chosen, UnlinkAll,
         HitsRequired, Cleared;
    var t, owners := Updated(s, name, where, q), KeysOfRows(Chosen(RowsIn(s, name), where));
    UpdatedSound(schema, s, name, where, q);
    forall inv | inv in q.inverses
      ensures HitsRequired(schema, t, inv, owners) <==> HitsRequired(schema, s, inv, owners)
      ensures HitsRequired(schema, s, inv, owners) ==> owners != []
    {
      InverseForeign(schema, name, inv);
      OtherTable(schema, s, t, inv, owners);
    }
    if Referential(schema, t) {
      ClearRestsOnNotNull(schema, name, t, q.inverses, owners);
    }
  }

  lemma OtherTable(schema: Schema, s: State, t: State, inv: Inverse, owners: seq<int>)
    requires RowsIn(t, inv.table) == RowsIn(s, inv.table)
    ensures HitsRequired(schema, t, inv, owners) <==> HitsRequired(schema, s, inv, owners)
    ensures HitsRequired(schema, s, inv, owners) ==> owners != []
  {
  }

  function RunAll(schema: Schema, s: State, ops: seq<Op>): State
    requires forall op <- ops :: op.entity in schema.rules
  {
    if ops == [] then s else Step(schema, RunAll(schema, s, ops[..|ops| - 1]), ops[|ops| - 1]).0
  }

  /** After any run of operations that add nothing to validated fields, every stored row has its required edges, its
      validated fields are valid, and its references are not dangling. */
  lemma {:induction false} RunsKeep(schema: Schema, s: State, ops: seq<Op>)
    requires SchemaOK(schema) && Sound(schema, s)
    requires forall op <- ops :: op.entity in schema.rules && TypedOp(schema, op) && NoAddsOp(schema, op)
    ensures Sound(schema, RunAll(schema, s, ops))
  {
    hide Sound, SchemaOK, Step, TypedOp, NoAddsOp;
    if ops != [] {
      var earlier := ops[..|ops| - 1];
      assert forall op <- earlier :: op in ops;
      assert ops[|ops| - 1] in ops;
      RunsKeep(schema, s, earlier);
      NoAddsStay(schema, RunAll(schema, s, earlier), ops[|ops| - 1]);
      StepKeeps(schema, RunAll(schema, s, earlier), ops[|ops| - 1]);
    }
  }

  lemma NoAddsStay(schema: Schema, s: State, op: Op)
    requires op.entity in schema.rules && NoAddsOp(schema, op)
    ensures AddsStayValidOp(schema, s, op)
  {
  }
}
