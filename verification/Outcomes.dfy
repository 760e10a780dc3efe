/** When an operation succeeds, and with which error it fails. */
module Outcomes {
  import opened Wrappers
  import opened Records
  import opened Store
  import opened Runs
  import opened Soundness
  import opened Effects

  // ---- the checks ----

  /** A create whose mutation, with the defaults under what is set, breaks a rule: nothing is stored, and the error is
      that of the first rule that fails. */
  lemma CreateFails(schema: Schema, s: State, op: Op, e: Error)
    requires op.Create? && op.entity in schema.rules
    ensures var rules := schema.rules[op.entity];
            FirstFails(rules.onCreate, op.p.(given := rules.createDefaults + op.p.given), true, e) ==>
              Step(schema, s, op) == (s, Some(e))
  {
    hide Insert;
    CheckedFirst(schema.rules[op.entity].onCreate,
                 op.p.(given := schema.rules[op.entity].createDefaults + op.p.given), true);
  }

  lemma UpdateFails(schema: Schema, s: State, op: Op, e: Error)
    requires (op.Update? || op.UpdateOne?) && op.entity in schema.rules
    ensures var rules := schema.rules[op.entity];
            FirstFails(rules.onUpdate, op.p.(given := rules.updateDefaults + op.p.given), false, e) ==>
              Step(schema, s, op) == (s, Some(e))
  {
    hide Change;
    CheckedFirst(schema.rules[op.entity].onUpdate,
                 op.p.(given := schema.rules[op.entity].updateDefaults + op.p.given), false);
  }

  /** The first builder that breaks a rule, and the first rule that it breaks. */
  ghost predicate FirstOfAll(rules: Rules, ps: seq<Patch>, e: Error) {
    exists k :: 0 <= k < |ps|
      && FirstFails(rules.onCreate, ps[k].(given := rules.createDefaults + ps[k].given), true, e)
      && forall j :: 0 <= j < k ==>
           NoneFails(rules.onCreate, ps[j].(given := rules.createDefaults + ps[j].given), true)
  }

  /** A bulk create stores nothing if any of its builders breaks a rule, and reports the first builder that does. */
  lemma CreateBulkFails(schema: Schema, s: State, op: Op, e: Error)
    requires op.CreateBulk? && op.entity in schema.rules
    ensures FirstOfAll(schema.rules[op.entity], op.ps, e) ==> Step(schema, s, op) == (s, Some(e))
  {
    hide Insert, Checked, FirstFails, NoneFails;
    var rules := schema.rules[op.entity];
    var qs := AllWithDefaults(rules.createDefaults, op.ps);
    if FirstOfAll(rules, op.ps, e) {
      var k :| 0 <= k < |op.ps| && FirstFails(rules.onCreate, qs[k], true, e)
               && forall j :: 0 <= j < k ==> NoneFails(rules.onCreate, qs[j], true);
      FirstChecked(rules.onCreate, qs, k, e);
    }
  }

  lemma {:induction false} FirstChecked(rules: seq<Rule>, qs: seq<Patch>, k: nat, e: Error)
    requires k < |qs| && FirstFails(rules, qs[k], true, e)
    requires forall j :: 0 <= j < k ==> NoneFails(rules, qs[j], true)
    ensures CheckedAll(rules, qs) == Some(e)
    decreases k
  {
    hide Checked, FirstFails, NoneFails;
    CheckedFirst(rules, qs[0], true);
    if k > 0 {
      FirstChecked(rules, qs[1..], k - 1, e);
    }
  }

  // ---- references ----

  ghost predicate Stored(s: State, table: string, id: int) {
    exists row <- RowsIn(s, table) :: row.id == id
  }

  /** The reference of the row is NULL or names a stored row. */
  ghost predicate Leads(s: State, r: Reference, row: Row) {
    CellAt(row, r.column).Int? ==> Stored(s, r.target, CellAt(row, r.column).i)
  }

  lemma RefersAll(s: State, r: Reference)
    ensures Refers(s, r) <==> forall row <- RowsIn(s, r.table) :: Leads(s, r, row)
  {
    var rows, parents := RowsIn(s, r.table), RowsIn(s, r.target);
    if Refers(s, r) {
      forall row | row in rows ensures Leads(s, r, row) {
        var i :| 0 <= i < |rows| && rows[i] == row;
        if CellAt(row, r.column).Int? {
          var j :| 0 <= j < |parents| && parents[j].id == CellAt(row, r.column).i;
          assert parents[j] in parents;
        }
      }
    }
    if forall row <- rows :: Leads(s, r, row) {
      forall i | 0 <= i < |rows| && CellAt(rows[i], r.column).Int?
        ensures exists j :: 0 <= j < |parents| && parents[j].id == CellAt(rows[i], r.column).i
      {
        assert Leads(s, r, rows[i]);
        var parent :| parent in parents && parent.id == CellAt(rows[i], r.column).i;
        var j :| 0 <= j < |parents| && parents[j] == parent;
      }
    }
  }

  /** Every unique edge that the mutation sets leads to a stored row. */
  ghost predicate LinksLead(schema: Schema, s: State, table: string, p: Patch) {
    forall r <- schema.references ::
      r.table == table && r.column in p.links && p.links[r.column].dest.Some? ==>
        Stored(s, r.target, p.links[r.column].dest.value)
  }

  lemma NewRowLeads(schema: Schema, s: State, name: string, id: int, q: Patch)
    requires SchemaOK(schema) && name in schema.rules && Typed(schema.rules[name], q)
    ensures LinksLead(schema, s, name, q) <==>
              forall r <- schema.references :: r.table == name ==> Leads(s, r, NewRow(id, q))
  {
    hide RulesOK, Stored;
    forall r | r in schema.references && r.table == name
      ensures CellAt(NewRow(id, q), r.column)
           == if r.column in q.links && q.links[r.column].dest.Some? then Int(q.links[r.column].dest.value) else Null
    {
      assert r.column != "id" && r.column !in q.given;
    }
  }

  lemma InsertedReferential(schema: Schema, s: State, name: string, q: Patch)
    requires SchemaOK(schema) && name in schema.rules && Typed(schema.rules[name], q) && Referential(schema, s)
    ensures Referential(schema, Inserted(s, name, [q])) <==> LinksLead(schema, s, name, q)
  {
    hide RulesOK, Typed, NewRow, Leads, LinksLead, Refers;
    var t, row := Inserted(s, name, [q]), NewRow(s.next, q);
    NewRowLeads(schema, s, name, s.next, q);
    assert RowsIn(t, name) == RowsIn(s, name) + [row];
    forall k | 0 <= k < |schema.references|
      ensures Refers(t, schema.references[k]) <==>
                (schema.references[k].table == name ==> Leads(s, schema.references[k], row))
    {
      var r := schema.references[k];
      assert r in schema.references && Refers(s, r);
      RefersAll(s, r);
      RefersAll(t, r);
      assert row in RowsIn(t, name);
      MoreLead(s, t, r);
    }
    forall r | r in schema.references ensures exists k :: 0 <= k < |schema.references| && schema.references[k] == r {
    }
  }

  lemma MoreLead(s: State, t: State, r: Reference)
    requires forall row <- RowsIn(s, r.target) :: row in RowsIn(t, r.target)
    ensures forall row :: Leads(s, r, row) ==> Leads(t, r, row)
    ensures RowsIn(s, r.target) == RowsIn(t, r.target) ==> forall row :: Leads(t, r, row) ==> Leads(s, r, row)
  {
  }

  lemma PatchedLeads(schema: Schema, s: State, name: string, row: Row, q: Patch, r: Reference)
    requires SchemaOK(schema) && name in schema.rules && Typed(schema.rules[name], q)
    requires r in schema.references && r.table == name && Leads(s, r, row)
    ensures Leads(s, r, Patched(row, q)) <==>
              (r.column in q.links && q.links[r.column].dest.Some? ==>
                  Stored(s, r.target, q.links[r.column].dest.value))
  {
    hide RulesOK, Stored, Patched;
    assert r.column !in q.given && r.column !in q.add && r.column !in q.cleared;
    PatchedCell(row, r.column, q);
  }

  lemma UpdatedReferential(schema: Schema, s: State, name: string, where: Row -> bool, q: Patch)
    requires SchemaOK(schema) && name in schema.rules && Typed(schema.rules[name], q) && Referential(schema, s)
    ensures Referential(schema, Updated(s, name, where, q)) <==>
              ((exists row <- RowsIn(s, name) :: where(row)) ==> LinksLead(schema, s, name, q))
  {
    hide RulesOK, Typed, Patched, Leads, Refers, Stored;
    var t, rows := Updated(s, name, where, q), RowsIn(s, name);
    forall k | 0 <= k < |schema.references|
      ensures Refers(t, schema.references[k]) <==>
                (schema.references[k].table == name ==>
                   forall row <- rows :: where(row) ==> Leads(s, schema.references[k], Patched(row, q)))
    {
      var r := schema.references[k];
      assert r in schema.references && Refers(s, r);
      RefersAll(s, r);
      RefersAll(t, r);
      UpdatedLeads(s, name, where, q, r);
    }
    forall r | r in schema.references ensures exists k :: 0 <= k < |schema.references| && schema.references[k] == r {
    }
    forall r, row | r in schema.references && r.table == name && row in rows
      ensures Leads(s, r, Patched(row, q)) <==>
                (r.column in q.links && q.links[r.column].dest.Some? ==>
                   Stored(s, r.target, q.links[r.column].dest.value))
    {
      var k :| 0 <= k < |schema.references| && schema.references[k] == r;
      assert Refers(s, schema.references[k]);
      RefersAll(s, r);
      PatchedLeads(schema, s, name, row, q, r);
    }
  }

  lemma UpdatedLeads(s: State, name: string, where: Row -> bool, q: Patch, r: Reference)
    requires forall row <- RowsIn(s, r.table) :: Leads(s, r, row)
    ensures var t := Updated(s, name, where, q);
            (forall row <- RowsIn(t, r.table) :: Leads(t, r, row)) <==>
              (r.table == name ==> forall row <- RowsIn(s, name) :: where(row) ==> Leads(s, r, Patched(row, q)))
  {
    hide Patched, Leads;
    var t, rows := Updated(s, name, where, q), RowsIn(s, name);
    forall i | 0 <= i < |rows| ensures RowsIn(t, name)[i].id == rows[i].id {
      PatchedID(rows[i], q);
    }
    SameKeysLead(s, t, r);
    if r.table == name {
      forall row | row in rows && where(row) ensures Patched(row, q) in RowsIn(t, name) {
        var i :| 0 <= i < |rows| && rows[i] == row;
        assert RowsIn(t, name)[i] == Patched(row, q);
      }
      forall after | after in RowsIn(t, name)
        ensures exists row <- rows :: after == if where(row) then Patched(row, q) else row
      {
        var i :| 0 <= i < |rows| && RowsIn(t, name)[i] == after;
        assert rows[i] in rows;
      }
    } else {
      assert RowsIn(t, r.table) == RowsIn(s, r.table);
    }
  }

  /** Whether a reference leads anywhere depends on the keys of its target only. */
  lemma SameKeysLead(s: State, t: State, r: Reference)
    requires |RowsIn(t, r.target)| == |RowsIn(s, r.target)|
    requires forall i :: 0 <= i < |RowsIn(s, r.target)| ==> RowsIn(t, r.target)[i].id == RowsIn(s, r.target)[i].id
    ensures forall row :: Leads(t, r, row) <==> Leads(s, r, row)
  {
    forall id ensures Stored(t, r.target, id) <==> Stored(s, r.target, id) {
      SameKeysStored(s, t, r.target, id);
    }
  }

  lemma SameKeysStored(s: State, t: State, table: string, id: int)
    requires |RowsIn(t, table)| == |RowsIn(s, table)|
    requires forall i :: 0 <= i < |RowsIn(s, table)| ==> RowsIn(t, table)[i].id == RowsIn(s, table)[i].id
    ensures Stored(t, table, id) <==> Stored(s, table, id)
  {
    if row :| row in RowsIn(s, table) && row.id == id {
      var i :| 0 <= i < |RowsIn(s, table)| && RowsIn(s, table)[i] == row;
      assert RowsIn(t, table)[i] in RowsIn(t, table);
    }
    if row :| row in RowsIn(t, table) && row.id == id {
      var i :| 0 <= i < |RowsIn(t, table)| && RowsIn(t, table)[i] == row;
      assert RowsIn(s, table)[i] in RowsIn(s, table);
    }
  }

  // ---- O2M edges ----

  lemma LinkedAccepted(schema: Schema, entity: string, s: State, inv: Inverse, owner: int)
    requires SchemaOK(schema) && InverseOK(schema, entity, inv) && Accepted(schema, s) && Stored(s, entity, owner)
    ensures Accepted(schema, Linked(s, inv, owner)) && Stored(Linked(s, inv, owner), entity, owner)
  {
    hide RulesOK, Patched, Leads, Refers, Stored, NoNulls;
    var t := Linked(s, inv, owner);
    InverseForeign(schema, entity, inv);
    LinkedRows(s, inv, owner);
    assert RowsIn(t, entity) == RowsIn(s, entity);
    SameKeysStored(s, t, entity, owner);
    forall k | 0 <= k < |schema.references| ensures Refers(t, schema.references[k]) {
      var r := schema.references[k];
      assert r in schema.references && Refers(s, r);
      RefersAll(s, r);
      RefersAll(t, r);
      SameKeysLead(s, t, r);
      LinkedLeads(schema, entity, s, inv, owner, r);
    }
    LinkedNoNulls(schema, s, inv, owner);
  }

  /** The rows before and after an addition. */
  ghost predicate OnlyLinked(a: seq<Row>, b: seq<Row>, inv: Inverse, owner: int, here: bool) {
    |b| == |a| && forall i :: 0 <= i < |a| ==>
      && b[i].id == a[i].id
      && forall c: string ::
           CellAt(b[i], c) == if here && c == inv.column && Links(inv, a[i]) then Int(owner) else CellAt(a[i], c)
  }

  lemma LinkedRows(s: State, inv: Inverse, owner: int)
    requires inv.column != "id"
    ensures forall table: string ::
              OnlyLinked(RowsIn(s, table), RowsIn(Linked(s, inv, owner), table), inv, owner, table == inv.table)
  {
    hide Patched, Links;
    var t := Linked(s, inv, owner);
    forall i, c: string | 0 <= i < |RowsIn(s, inv.table)|
      ensures RowsIn(t, inv.table)[i].id == RowsIn(s, inv.table)[i].id
      ensures CellAt(RowsIn(t, inv.table)[i], c)
           == if c == inv.column && Links(inv, RowsIn(s, inv.table)[i]) then Int(owner)
              else CellAt(RowsIn(s, inv.table)[i], c)
    {
      RelinkedAt(s, inv.table, inv.column, (row: Row) => Links(inv, row), Some(owner), i, c);
    }
    forall i | 0 <= i < |RowsIn(s, inv.table)| ensures RowsIn(t, inv.table)[i].id == RowsIn(s, inv.table)[i].id {
      RelinkedAt(s, inv.table, inv.column, (row: Row) => Links(inv, row), Some(owner), i, "id");
    }
    assert OnlyLinked(RowsIn(s, inv.table), RowsIn(t, inv.table), inv, owner, true);
    forall table: string | table != inv.table ensures RowsIn(t, table) == RowsIn(s, table) {
    }
  }

  lemma LinkedLeads(schema: Schema, entity: string, s: State, inv: Inverse, owner: int, r: Reference)
    requires SchemaOK(schema) && InverseOK(schema, entity, inv) && inv.column != "id" && r in schema.references
    requires Stored(s, entity, owner) && forall row <- RowsIn(s, r.table) :: Leads(s, r, row)
    ensures forall row <- RowsIn(Linked(s, inv, owner), r.table) :: Leads(s, r, row)
  {
    hide RulesOK, Stored, Patched;
    var t := Linked(s, inv, owner);
    LinkedRows(s, inv, owner);
    if r.table == inv.table && r.column == inv.column {
      assert r.target == entity;
    }
    forall row | row in RowsIn(t, r.table) ensures Leads(s, r, row) {
      var i :| 0 <= i < |RowsIn(t, r.table)| && RowsIn(t, r.table)[i] == row;
      assert RowsIn(s, r.table)[i] in RowsIn(s, r.table) && Leads(s, r, RowsIn(s, r.table)[i]);
    }
  }

  lemma LinkedNoNulls(schema: Schema, s: State, inv: Inverse, owner: int)
    requires inv.column != "id" && NoNulls(schema, s)
    ensures NoNulls(schema, Linked(s, inv, owner))
  {
    hide Patched;
    var t := Linked(s, inv, owner);
    LinkedRows(s, inv, owner);
    forall at, row | at in schema.notNull && row in RowsIn(t, at.0) ensures !CellAt(row, at.1).Null? {
      var i :| 0 <= i < |RowsIn(t, at.0)| && RowsIn(t, at.0)[i] == row;
      assert RowsIn(s, at.0)[i] in RowsIn(s, at.0);
    }
  }

  /** An addition to one edge frees nothing on another one, and takes nothing from it. */
  lemma LinkedFree(s: State, inv: Inverse, owner: int, other: Inverse)
    requires inv.column != "id" && (other.table != inv.table || other.column != inv.column)
    ensures AllFree(Linked(s, inv, owner), other) <==> AllFree(s, other)
  {
    hide Patched;
    var t := Linked(s, inv, owner);
    LinkedRows(s, inv, owner);
    forall i | 0 <= i < |RowsIn(s, other.table)|
      ensures Links(other, RowsIn(t, other.table)[i]) <==> Links(other, RowsIn(s, other.table)[i])
    {
    }
    SameFree(s, t, other);
  }

  lemma SameFree(s: State, t: State, inv: Inverse)
    requires |RowsIn(t, inv.table)| == |RowsIn(s, inv.table)|
    requires forall i :: 0 <= i < |RowsIn(s, inv.table)| ==>
               && RowsIn(t, inv.table)[i].id == RowsIn(s, inv.table)[i].id
               && (Links(inv, RowsIn(t, inv.table)[i]) <==> Links(inv, RowsIn(s, inv.table)[i]))
    ensures AllFree(t, inv) <==> AllFree(s, inv)
  {
    hide Links;
    FreeRows(s, inv);
    FreeRows(t, inv);
  }

  ghost predicate FreeAt(rows: seq<Row>, inv: Inverse, id: int) {
    exists i :: 0 <= i < |rows| && rows[i].id == id && Links(inv, rows[i])
  }

  lemma FreeRows(s: State, inv: Inverse)
    ensures AllFree(s, inv) <==> forall id <- inv.change.added :: FreeAt(RowsIn(s, inv.table), inv, id)
  {
    hide Links;
    var rows := RowsIn(s, inv.table);
    forall id | id in inv.change.added
      ensures (exists row <- rows :: row.id == id && Links(inv, row)) <==> FreeAt(rows, inv, id)
    {
      if row :| row in rows && row.id == id && Links(inv, row) {
        var i :| 0 <= i < |rows| && rows[i] == row;
      }
    }
  }

  /** The Add list succeeds exactly if every row that is added is free. */
  lemma {:induction false} LinkAllSucceeds(schema: Schema, entity: string, s: State, invs: seq<Inverse>, owner: int)
    requires SchemaOK(schema) && (forall inv <- invs :: InverseOK(schema, entity, inv)) && Effects.Distinct(invs)
    requires Accepted(schema, s) && Stored(s, entity, owner)
    ensures LinkAll(schema, s, invs, owner).Ok? <==> forall inv <- invs :: AllFree(s, inv)
    decreases |invs|
  {
    hide SchemaOK, Accepted, InverseOK, Stored, AllFree, Linked, Effects.Distinct;
    if invs != [] {
      var inv, rest := invs[0], invs[1..];
      assert inv in invs && invs == [inv] + rest;
      InverseForeign(schema, entity, inv);
      ForeignColumn(schema, inv.table, inv.column);
      LinkedAccepted(schema, entity, s, inv, owner);
      DistinctTail(invs);
      LinkAllSucceeds(schema, entity, Linked(s, inv, owner), rest, owner);
      forall other | other in rest ensures AllFree(Linked(s, inv, owner), other) <==> AllFree(s, other) {
        LinkedFree(s, inv, owner, other);
      }
    }
  }

  /** Every row that is added is stored and has no owner. */
  ghost predicate Unowned(s: State, inv: Inverse) {
    forall id <- inv.change.added :: exists row <- RowsIn(s, inv.table) :: row.id == id && CellAt(row, inv.column).Null?
  }

  lemma UnownedFree(s: State, inv: Inverse)
    ensures Unowned(s, inv) <==> AllFree(s, inv)
  {
    forall id | id in inv.change.added
      ensures (exists row <- RowsIn(s, inv.table) :: row.id == id && CellAt(row, inv.column).Null?) <==>
              (exists row <- RowsIn(s, inv.table) :: row.id == id && Links(inv, row))
    {
    }
  }

  lemma OtherRowsFree(s: State, t: State, inv: Inverse)
    requires RowsIn(t, inv.table) == RowsIn(s, inv.table)
    ensures AllFree(t, inv) <==> Unowned(s, inv)
  {
    UnownedFree(s, inv);
  }

  // ---- creation ----

  /** When a creation on a sound database succeeds: no rule fails, every unique edge that it sets leads to a stored row,
      every row that it adds to an O2M edge is stored and has no owner, and nothing else refuses it. */
  lemma CreateSucceeds(schema: Schema, s: State, op: Op)
    requires SchemaOK(schema) && op.Create? && op.entity in schema.rules && TypedOp(schema, op) && Sound(schema, s)
    requires Effects.Distinct(op.p.inverses)
    ensures var rules := schema.rules[op.entity];
            Step(schema, s, op).1 == None <==>
              && op.refusal == None
              && NoneFails(rules.onCreate, op.p.(given := rules.createDefaults + op.p.given), true)
              && LinksLead(schema, s, op.entity, op.p)
              && forall inv <- op.p.inverses :: Unowned(s, inv)
  {
    hide SchemaOK, Sound, Typed, Checked, NoneFails, FirstFails, Accepted, InverseOK, Unowned, LinksLead, Inserted,
      Effects.Distinct, LinkAll;
    var rules := schema.rules[op.entity];
    var q := WithDefaults(rules.createDefaults, op.p);
    CheckedFirst(rules.onCreate, q, true);
    if Checked(rules.onCreate, q, true) == None {
      InsertSucceeds(schema, s, op.entity, q, op.refusal);
      SameLinks(schema, s, op.entity, q, op.p);
    }
  }

  lemma SameLinks(schema: Schema, s: State, table: string, q: Patch, p: Patch)
    requires q.links == p.links
    ensures LinksLead(schema, s, table, q) <==> LinksLead(schema, s, table, p)
  {
  }

  lemma InsertSucceeds(schema: Schema, s: State, name: string, q: Patch, refusal: Option<Error>)
    requires SchemaOK(schema) && name in schema.rules && Sound(schema, s) && Typed(schema.rules[name], q)
    requires Checked(schema.rules[name].onCreate, q, true) == None
    requires InversesOK(schema, name, q) && Effects.Distinct(q.inverses)
    ensures Insert(schema, s, name, [q], refusal).1 == None <==>
              refusal == None && LinksLead(schema, s, name, q) && forall inv <- q.inverses :: Unowned(s, inv)
  {
    hide SchemaOK, Sound, Typed, Checked, InverseOK, Unowned, LinksLead, Effects.Distinct, LinkAll, Inserted,
      NewRows, NoNulls, Referential, AllFree;
    var t := Inserted(s, name, [q]);
    assert [q][..0] == [];
    assert LinkNew(schema, t, s.next, [q][..0]) == Ok(t);
    assert LinkNew(schema, t, s.next, [q]) == LinkAll(schema, t, q.inverses, s.next);
    InsertedAccepted(schema, s, name, q);
    if LinksLead(schema, s, name, q) {
      InsertedHas(s, name, q);
      LinkAllSucceeds(schema, name, t, q.inverses, s.next);
      forall inv | inv in q.inverses ensures AllFree(t, inv) <==> Unowned(s, inv) {
        InverseForeign(schema, name, inv);
        InsertedElsewhere(s, name, q, inv.table);
        OtherRowsFree(s, t, inv);
      }
    }
  }

  lemma InsertedAccepted(schema: Schema, s: State, name: string, q: Patch)
    requires SchemaOK(schema) && name in schema.rules && Sound(schema, s) && Typed(schema.rules[name], q)
    requires Checked(schema.rules[name].onCreate, q, true) == None
    ensures Accepted(schema, Inserted(s, name, [q])) <==> LinksLead(schema, s, name, q)
  {
    hide SchemaOK, Typed, LinksLead, Inserted, NoNulls, Referential, TableFields, TableEdges, KeysSound;
    InsertedReferential(schema, s, name, q);
    assert CheckedAll(schema.rules[name].onCreate, [q]) == None;
    ChecksSuffice(schema, s, name, [q], _ => false, q);
  }

  lemma InsertedHas(s: State, name: string, q: Patch)
    ensures Stored(Inserted(s, name, [q]), name, s.next)
  {
    var t := Inserted(s, name, [q]);
    assert RowsIn(t, name)[|RowsIn(s, name)|] == NewRow(s.next, q);
    assert NewRow(s.next, q) in RowsIn(t, name);
  }

  lemma InsertedElsewhere(s: State, name: string, q: Patch, other: string)
    requires other != name
    ensures RowsIn(Inserted(s, name, [q]), other) == RowsIn(s, other)
  {
  }

  // ---- updates ----

  /** Every row that is added is stored and has no owner, or loses it by what the same update clears or removes. */
  ghost predicate Freed(s: State, inv: Inverse, owners: seq<int>) {
    forall id <- inv.change.added :: exists row <- RowsIn(s, inv.table) :: row.id == id && Frees(inv, owners, row)
  }

  ghost predicate Frees(inv: Inverse, owners: seq<int>, row: Row) {
    var c := CellAt(row, inv.column);
    c.Null? || (c.Int? && c.i in owners && (inv.change.cleared || row.id in inv.change.removed))
  }

  /** A row before and after the Clear list. */
  ghost predicate Freer(a: seq<Row>, b: seq<Row>, inv: Inverse, owners: seq<int>) {
    |b| == |a| && forall i :: 0 <= i < |a| ==>
      b[i].id == a[i].id &&
          CellAt(b[i], inv.column) == if Unlinks(inv, owners, a[i]) then Null else CellAt(a[i], inv.column)
  }

  lemma UnlinkedFreer(s: State, inv: Inverse, owners: seq<int>)
    requires inv.column != "id"
    ensures Freer(RowsIn(s, inv.table), RowsIn(Unlinked(s, inv, owners), inv.table), inv, owners)
  {
    hide Patched, Unlinks;
    var t := Unlinked(s, inv, owners);
    forall i | 0 <= i < |RowsIn(s, inv.table)|
      ensures RowsIn(t, inv.table)[i].id == RowsIn(s, inv.table)[i].id
      ensures CellAt(RowsIn(t, inv.table)[i], inv.column)
           == if Unlinks(inv, owners, RowsIn(s, inv.table)[i]) then Null
               else CellAt(RowsIn(s, inv.table)[i], inv.column)
    {
      RelinkedAt(s, inv.table, inv.column, (row: Row) => Unlinks(inv, owners, row), None, i, inv.column);
    }
  }

  lemma {:induction false} ClearedOnlyEdges(s: State, invs: seq<Inverse>, owners: seq<int>)
    requires NoKeys(invs)
    ensures OnlyEdges(s, Cleared(s, invs, owners), invs)
    decreases |invs|
  {
    hide OnlyEdges, SameBut, Patched;
    if invs == [] {
      NothingDiffers(s);
    } else {
      assert invs[0] in invs && forall inv <- invs[1..] :: inv in invs;
      WrittenOnly(s, invs[0].table, invs[0].column, (row: Row) => Unlinks(invs[0], owners, row), None);
      ClearedOnlyEdges(Unlinked(s, invs[0], owners), invs[1..], owners);
      EdgesThen(s, Unlinked(s, invs[0], owners), Cleared(s, invs, owners), invs);
    }
  }

  /** What edges that are about other columns leave alone. */
  lemma FreerThen(s: State, t: State, u: State, rest: seq<Inverse>, inv: Inverse, owners: seq<int>)
    requires OnlyEdges(t, u, rest) && !About(rest, inv.table, inv.column)
    requires Freer(RowsIn(s, inv.table), RowsIn(t, inv.table), inv, owners)
    ensures Freer(RowsIn(s, inv.table), RowsIn(u, inv.table), inv, owners)
  {
    hide Unlinks;
    assert SameBut(RowsIn(t, inv.table), RowsIn(u, inv.table), Columns(rest, inv.table));
    assert inv.column !in Columns(rest, inv.table);
  }

  lemma ThenFreer(s: State, t: State, u: State, first: seq<Inverse>, inv: Inverse, owners: seq<int>)
    requires OnlyEdges(s, t, first) && !About(first, inv.table, inv.column)
    requires Freer(RowsIn(t, inv.table), RowsIn(u, inv.table), inv, owners)
    ensures Freer(RowsIn(s, inv.table), RowsIn(u, inv.table), inv, owners)
  {
    assert SameBut(RowsIn(s, inv.table), RowsIn(t, inv.table), Columns(first, inv.table));
    assert inv.column !in Columns(first, inv.table);
  }

  lemma {:induction false} ClearedFreer(s: State, invs: seq<Inverse>, owners: seq<int>, k: nat)
    requires NoKeys(invs) && Effects.Distinct(invs) && k < |invs|
    ensures Freer(RowsIn(s, invs[k].table), RowsIn(Cleared(s, invs, owners), invs[k].table), invs[k], owners)
    decreases |invs|
  {
    hide Freer, OnlyEdges, SameBut, Patched, About, Effects.Distinct;
    var inv, rest := invs[0], invs[1..];
    var t, u := Unlinked(s, inv, owners), Cleared(s, invs, owners);
    assert inv in invs && forall other <- rest :: other in invs;
    DistinctTail(invs);
    if k == 0 {
      UnlinkedFreer(s, inv, owners);
      ClearedOnlyEdges(t, rest, owners);
      FreerThen(s, t, u, rest, inv, owners);
    } else {
      WrittenOnly(s, inv.table, inv.column, (row: Row) => Unlinks(inv, owners, row), None);
      OneEdge(s, t, inv);
      ClearedFreer(t, rest, owners, k - 1);
      ThenFreer(s, t, u, [inv], invs[k], owners);
    }
  }

  lemma FreerFree(s: State, t: State, inv: Inverse, owners: seq<int>)
    requires Freer(RowsIn(s, inv.table), RowsIn(t, inv.table), inv, owners)
    ensures AllFree(t, inv) <==> Freed(s, inv, owners)
  {
    FreeRows(t, inv);
    var rows := RowsIn(s, inv.table);
    forall id | id in inv.change.added
      ensures FreeAt(RowsIn(t, inv.table), inv, id) <==> exists row <- rows :: row.id == id && Frees(inv, owners, row)
    {
      if row :| row in rows && row.id == id && Frees(inv, owners, row) {
        var i :| 0 <= i < |rows| && rows[i] == row;
        assert Links(inv, RowsIn(t, inv.table)[i]);
      }
      if i :| 0 <= i < |rows| && RowsIn(t, inv.table)[i].id == id && Links(inv, RowsIn(t, inv.table)[i]) {
        assert rows[i] in rows && Frees(inv, owners, rows[i]);
      }
    }
  }

  /** What an update may do to the O2M edges of the rows that it matches: no row loses an edge that it requires, and
      rows are added to one row only, if they have no owner then. */
  ghost predicate EdgesMay(schema: Schema, s: State, invs: seq<Inverse>, owners: seq<int>) {
    && NoneHits(schema, s, invs, owners)
    && ((exists inv <- invs :: inv.change.added != {}) ==> |owners| == 1 && forall inv <- invs :: Freed(s, inv, owners))
  }

  lemma RelinkSucceeds(schema: Schema, entity: string, s: State, invs: seq<Inverse>, owners: seq<int>)
    requires SchemaOK(schema) && TableEdges(schema, s) && KeysSound(s) && Referential(schema, s)
    requires (forall inv <- invs :: InverseOK(schema, entity, inv)) && Effects.Distinct(invs) && NoKeys(invs)
    requires forall id <- owners :: Stored(s, entity, id)
    requires forall inv <- invs :: inv.table != entity
    ensures Relink(schema, s, invs, owners).Ok? <==> (owners != [] ==> EdgesMay(schema, s, invs, owners))
  {
    hide SchemaOK, TableFields, TableEdges, KeysSound, Referential, UnlinkAll, LinkAll, NoneHits, InverseOK, Cleared,
      NoKeys, AllFree, Freed, Effects.Distinct, Stored, NoNulls;
    ClearRestsOnNotNull(schema, entity, s, invs, owners);
    assert AddsNothing(invs) <==> !exists inv <- invs :: inv.change.added != {};
    if NoneHits(schema, s, invs, owners) && |owners| == 1 {
      var t := Cleared(s, invs, owners);
      EdgesNoNulls(schema, t);
      ClearedOnlyEdges(s, invs, owners);
      OwnTable(s, t, invs, entity, owners[0]);
      LinkAllSucceeds(schema, entity, t, invs, owners[0]);
      forall inv | inv in invs ensures AllFree(t, inv) <==> Freed(s, inv, owners) {
        var k :| 0 <= k < |invs| && invs[k] == inv;
        ClearedFreer(s, invs, owners, k);
        FreerFree(s, t, inv, owners);
      }
    }
  }

  lemma OwnTable(s: State, t: State, invs: seq<Inverse>, entity: string, id: int)
    requires OnlyEdges(s, t, invs) && (forall inv <- invs :: inv.table != entity) && Stored(s, entity, id)
    ensures Stored(t, entity, id)
  {
    assert Columns(invs, entity) == {};
    assert SameBut(RowsIn(s, entity), RowsIn(t, entity), Columns(invs, entity));
  }

  lemma ChangeSucceeds(schema: Schema, s: State, name: string, where: Row -> bool, q: Patch, refusal: Option<Error>)
    requires SchemaOK(schema) && name in schema.rules && Sound(schema, s) && Typed(schema.rules[name], q)
    requires Checked(schema.rules[name].onUpdate, q, false) == None
    requires InversesOK(schema, name, q) && Effects.Distinct(q.inverses)
    ensures var owners := KeysOfRows(Chosen(RowsIn(s, name), where));
            Change(schema, s, name, where, q, refusal).1 == None <==>
              refusal == None && (owners != [] ==>
                  LinksLead(schema, s, name, q) && EdgesMay(schema, s, q.inverses, owners))
  {
    hide SchemaOK, TableFields, TableEdges, KeysSound, Referential, Typed, Checked, InverseOK, LinksLead, EdgesMay,
      Effects.Distinct, Relink, UpdateRows, NoNulls, NoKeys, Columns, Chosen, AddsStayValid, Stored;
    var t, owners := Updated(s, name, where, q), KeysOfRows(Chosen(RowsIn(s, name), where));
    UpdatedReferential(schema, s, name, where, q);
    ChecksSuffice(schema, s, name, [], where, q);
    UpdatedSound(schema, s, name, where, q);
    SomeChosen(s, name, where);
    InverseColumns(schema, name, q);
    forall inv | inv in q.inverses ensures inv.table != name && RowsIn(t, inv.table) == RowsIn(s, inv.table) {
      InverseForeign(schema, name, inv);
    }
    if Referential(schema, t) {
      forall id | id in owners ensures Stored(t, name, id) {
        forall i | 0 <= i < |RowsIn(s, name)| ensures RowsIn(t, name)[i].id == RowsIn(s, name)[i].id {
          PatchedID(RowsIn(s, name)[i], q);
        }
        SameKeysStored(s, t, name, id);
      }
      RelinkSucceeds(schema, name, t, q.inverses, owners);
      SameMay(schema, s, t, q.inverses, owners);
    }
  }

  /** The owners are the keys of the matching rows. */
  lemma SomeChosen(s: State, name: string, where: Row -> bool)
    ensures var owners := KeysOfRows(Chosen(RowsIn(s, name), where));
            && (owners != [] <==> exists row <- RowsIn(s, name) :: where(row))
            && (forall id <- owners :: Stored(s, name, id))
  {
    hide Without;
    var rows := Chosen(RowsIn(s, name), where);
    WithoutSome(RowsIn(s, name), (row: Row) => !where(row));
    if rows != [] {
      assert rows[0] in rows;
    }
    forall id | id in KeysOfRows(rows) ensures Stored(s, name, id) {
      var i :| 0 <= i < |rows| && KeysOfRows(rows)[i] == id;
      assert rows[i] in rows;
    }
  }

  lemma SameMay(schema: Schema, s: State, t: State, invs: seq<Inverse>, owners: seq<int>)
    requires forall inv <- invs :: RowsIn(t, inv.table) == RowsIn(s, inv.table)
    ensures EdgesMay(schema, t, invs, owners) <==> EdgesMay(schema, s, invs, owners)
  {
    hide Unlinks, Frees;
    forall inv | inv in invs
      ensures HitsRequired(schema, t, inv, owners) <==> HitsRequired(schema, s, inv, owners)
      ensures Freed(t, inv, owners) <==> Freed(s, inv, owners)
    {
    }
  }

  /** When an Update or UpdateOne of a sound database succeeds: no rule fails, UpdateOne finds its row, nothing else
      refuses it, and, if any row matches, every unique edge that it sets leads to a stored row, no row loses an edge
      that it requires, and rows are added to one row only, without taking them from another owner. */
  lemma UpdateSucceeds(schema: Schema, s: State, op: Op)
    requires SchemaOK(schema) && (op.Update? || op.UpdateOne?) && op.entity in schema.rules && TypedOp(schema, op)
    requires Sound(schema, s) && Effects.Distinct(op.p.inverses)
    ensures var rules := schema.rules[op.entity];
            Step(schema, s, op).1 == None <==>
              && op.refusal == None
              && NoneFails(rules.onUpdate, op.p.(given := rules.updateDefaults + op.p.given), false)
              && (op.UpdateOne? ==>
                    op.id.Some? && exists row <- RowsIn(s, op.entity) :: row.id == op.id.value && op.where(row))
              && (Owners(s, op) != [] ==>
                    LinksLead(schema, s, op.entity, op.p) && EdgesMay(schema, s, op.p.inverses, Owners(s, op)))
  {
    hide SchemaOK, Sound, Typed, Checked, NoneFails, FirstFails, InverseOK, LinksLead, EdgesMay, Effects.Distinct,
      Change, Chosen;
    var rules := schema.rules[op.entity];
    var q := WithDefaults(rules.updateDefaults, op.p);
    CheckedFirst(rules.onUpdate, q, false);
    if Checked(rules.onUpdate, q, false) == None {
      SameLinks(schema, s, op.entity, q, op.p);
      if op.Update? {
        ChangeSucceeds(schema, s, op.entity, op.where, q, op.refusal);
      } else if op.id.Some? {
        var where, with := (row: Row) => Match(op.id.value, op.where, row),
                           (row: Row) => op.id.Some? && Match(op.id.value, op.where, row);
        SameChosen(RowsIn(s, op.entity), where, with);
        ChangeSucceeds(schema, s, op.entity, where, q, op.refusal);
      }
    }
  }

  /** What UpdateOne answers when it finds no row. */
  lemma UpdateOneMisses(schema: Schema, s: State, op: Op)
    requires op.UpdateOne? && op.entity in schema.rules
    requires var rules := schema.rules[op.entity];
             NoneFails(rules.onUpdate, op.p.(given := rules.updateDefaults + op.p.given), false)
    ensures op.id == None ==> Step(schema, s, op) == (s, Some(InvalidField("id")))
    ensures op.id.Some? && (forall row <- RowsIn(s, op.entity) :: row.id == op.id.value ==> !op.where(row)) ==>
              Step(schema, s, op) == (s, Some(NotFound))
  {
    hide Change, NoneFails, FirstFails, Checked;
    var rules := schema.rules[op.entity];
    CheckedFirst(rules.onUpdate, WithDefaults(rules.updateDefaults, op.p), false);
  }

  // ---- deletions ----

  /** No reference leads to a table whose rows a deletion elsewhere takes along. */
  ghost predicate OneLevel(schema: Schema) {
    forall r <- schema.references, q <- schema.references :: r.onDelete.Cascade? ==> q.target != r.table
  }

  /** The deletion leaves the reference of the row dangling. */
  ghost predicate Strands(schema: Schema, s: State, op: Op, r: Reference, row: Row)
    requires op.Delete?
  {
    && r.target == op.entity && r.onDelete.NoAction? && Dangles(r, Doomed(s, op), row)
    && !Falls(schema.references, op.entity, Doomed(s, op), r.table, row)
  }

  /** When a deletion from a sound database succeeds: nothing else refuses it, and no row that is not deleted with them
      refers to the deleted rows by a reference without an action. */
  lemma DeleteSucceeds(schema: Schema, s: State, op: Op)
    requires SchemaOK(schema) && op.Delete? && op.entity in schema.rules && Sound(schema, s) && OneLevel(schema)
    ensures Step(schema, s, op).1 == None <==>
              && op.refusal == None
              && forall r <- schema.references, row <- RowsIn(s, r.table) :: !Strands(schema, s, op, r, row)
  {
    hide SchemaOK, TableFields, TableEdges, KeysSound, Strands, Deleted, OneLevel, NoNulls, Refers;
    var t := Deleted(schema, s, op.entity, op.where);
    DeletedSound(schema, s, op.entity, op.where);
    EdgesNoNulls(schema, t);
    forall k | 0 <= k < |schema.references|
      ensures Refers(t, schema.references[k]) <==>
                forall row <- RowsIn(s, schema.references[k].table) ::
                  !Strands(schema, s, op, schema.references[k], row)
    {
      RefersAfter(schema, s, op, schema.references[k], k);
    }
    forall r | r in schema.references ensures exists k :: 0 <= k < |schema.references| && schema.references[k] == r {
    }
  }

  lemma RefersAfter(schema: Schema, s: State, op: Op, r: Reference, k: nat)
    requires SchemaOK(schema) && op.Delete? && Referential(schema, s) && KeysSound(s) && OneLevel(schema)
    requires k < |schema.references| && schema.references[k] == r
    ensures Refers(Deleted(schema, s, op.entity, op.where), r) <==>
              forall row <- RowsIn(s, r.table) :: !Strands(schema, s, op, r, row)
  {
    hide SchemaOK, KeysSound, Strands, Deleted, OneLevel, Refers, Referential, Leads;
    var t := Deleted(schema, s, op.entity, op.where);
    RefersAll(s, r);
    RefersAll(t, r);
    assert Refers(s, r) by { Referred(schema, s, k); }
    forall row | row in RowsIn(s, r.table) && Strands(schema, s, op, r, row)
      ensures exists x <- RowsIn(t, r.table) :: !Leads(t, r, x)
    {
      StrandedDangles(schema, s, op, r, row);
    }
    if forall row <- RowsIn(s, r.table) :: !Strands(schema, s, op, r, row) {
      forall x | x in RowsIn(t, r.table) ensures Leads(t, r, x) {
        SurvivorLeads(schema, s, op, r, x);
      }
    }
  }

  lemma Referred(schema: Schema, s: State, k: nat)
    requires Referential(schema, s) && k < |schema.references|
    ensures Refers(s, schema.references[k])
  {
  }

  /** A reference without an action keeps its value. */
  lemma StrandedDangles(schema: Schema, s: State, op: Op, r: Reference, row: Row)
    requires SchemaOK(schema) && op.Delete? && KeysSound(s)
    requires r in schema.references && row in RowsIn(s, r.table) && Strands(schema, s, op, r, row)
    ensures exists x <- RowsIn(Deleted(schema, s, op.entity, op.where), r.table) ::
              !Leads(Deleted(schema, s, op.entity, op.where), r, x)
  {
    hide Deleted, Falls, SchemaOK, AllApart, Followers, Loses, Doomed, KeysSound;
    var t := Deleted(schema, s, op.entity, op.where);
    SchemaApart(schema);
    BetweenAll(schema, r.target);
    DeletedRows(schema, s, op, r.table);
    var x := StayRow(schema.references, op.entity, Doomed(s, op), r.table, RowsIn(s, r.table), RowsIn(t, r.table), row);
    OnlyReference(schema, op.entity, Doomed(s, op), r, row);
    assert CellAt(x, r.column) == CellAt(row, r.column);
    DoomedGone(schema, s, op, CellAt(row, r.column).i);
  }

  /** A column has one action. */
  lemma OnlyReference(schema: Schema, target: string, ids: set<int>, r: Reference, row: Row)
    requires SchemaOK(schema) && r in schema.references && !r.onDelete.SetNull?
    ensures !Loses(schema.references, target, ids, r.table, row, r.column)
  {
    hide RulesOK;
  }

  lemma DoomedGone(schema: Schema, s: State, op: Op, id: int)
    requires SchemaOK(schema) && op.Delete? && KeysSound(s) && id in Doomed(s, op)
    requires forall q <- schema.references :: q.table == op.entity ==> q.target != op.entity
    ensures !Stored(Deleted(schema, s, op.entity, op.where), op.entity, id)
  {
    hide Deleted, SchemaOK, AllApart, Followers;
    SchemaApart(schema);
    DeletedRows(schema, s, op, op.entity);
    forall parent | parent in RowsIn(Deleted(schema, s, op.entity, op.where), op.entity) ensures parent.id != id {
      KeyOnce(RowsIn(s, op.entity), op.where, parent);
    }
  }

  /** A row that is left has its references to rows that are left. */
  lemma SurvivorLeads(schema: Schema, s: State, op: Op, r: Reference, x: Row)
    requires SchemaOK(schema) && op.Delete? && OneLevel(schema) && r in schema.references
    requires forall row <- RowsIn(s, r.table) :: Leads(s, r, row) && !Strands(schema, s, op, r, row)
    requires x in RowsIn(Deleted(schema, s, op.entity, op.where), r.table)
    ensures Leads(Deleted(schema, s, op.entity, op.where), r, x)
  {
    hide Deleted, SchemaOK, Strands, OneLevel, Falls, Loses, Doomed;
    var t := Deleted(schema, s, op.entity, op.where);
    var row := Origin(schema, s, op, r, x);
    if CellAt(x, r.column).Int? {
      var id := CellAt(x, r.column).i;
      assert Leads(s, r, row);
      if r.target == op.entity && id in Doomed(s, op) {
        NotDoomed(schema, s, op, r, row, x);
      }
      TargetStays(schema, s, op, r, id);
    }
  }

  /** The row that x is left of. */
  lemma Origin(schema: Schema, s: State, op: Op, r: Reference, x: Row) returns (row: Row)
    requires SchemaOK(schema) && op.Delete? && r in schema.references
    requires x in RowsIn(Deleted(schema, s, op.entity, op.where), r.table)
    ensures row in RowsIn(s, r.table)
    ensures CellAt(x, r.column).Int? ==> CellAt(row, r.column) == CellAt(x, r.column)
    ensures CellAt(x, r.column).Int? && r.target == op.entity ==>
              && !Falls(schema.references, op.entity, Doomed(s, op), r.table, row)
              && !Loses(schema.references, op.entity, Doomed(s, op), r.table, row, r.column)
  {
    hide Deleted, SchemaOK, Falls, Loses, AllApart, Followers, Doomed;
    SchemaApart(schema);
    BetweenAll(schema, r.table);
    DeletedRows(schema, s, op, r.table);
    if r.table == op.entity {
      row := x;
    } else {
      row := StemRow(schema.references, op.entity, Doomed(s, op), r.table, RowsIn(s, r.table),
                     RowsIn(Deleted(schema, s, op.entity, op.where), r.table), x);
    }
  }

  lemma NotDoomed(schema: Schema, s: State, op: Op, r: Reference, row: Row, x: Row)
    requires op.Delete? && r in schema.references && r.target == op.entity && !Strands(schema, s, op, r, row)
    requires !Falls(schema.references, op.entity, Doomed(s, op), r.table, row)
    requires !Loses(schema.references, op.entity, Doomed(s, op), r.table, row, r.column)
    ensures !Dangles(r, Doomed(s, op), row)
  {
  }

  lemma TargetStays(schema: Schema, s: State, op: Op, r: Reference, id: int)
    requires SchemaOK(schema) && op.Delete? && OneLevel(schema) && r in schema.references && Stored(s, r.target, id)
    requires r.target == op.entity ==> id !in Doomed(s, op)
    ensures Stored(Deleted(schema, s, op.entity, op.where), r.target, id)
  {
    hide Deleted, SchemaOK, AllApart, Followers, Loses, OneLevel;
    var t := Deleted(schema, s, op.entity, op.where);
    SchemaApart(schema);
    BetweenAll(schema, op.entity);
    DeletedRows(schema, s, op, r.target);
    var parent :| parent in RowsIn(s, r.target) && parent.id == id;
    if r.target == op.entity {
      var i :| 0 <= i < |RowsIn(s, op.entity)| && RowsIn(s, op.entity)[i] == parent;
      assert parent in RowsIn(t, op.entity);
    } else {
      TargetsDoNotFall(schema, op.entity, Doomed(s, op), r, parent);
      var x := StayRow(schema.references, op.entity, Doomed(s, op), r.target, RowsIn(s, r.target),
                       RowsIn(t, r.target), parent);
    }
  }

  lemma TargetsDoNotFall(schema: Schema, target: string, ids: set<int>, r: Reference, row: Row)
    requires OneLevel(schema) && r in schema.references
    ensures !Falls(schema.references, target, ids, r.target, row)
  {
  }

  // ---- the errors of the database ----

  /** The rules of an operation hold of its mutations, and UpdateOne finds its row. */
  ghost predicate Reaches(schema: Schema, s: State, op: Op)
    requires op.entity in schema.rules
  {
    var rules := schema.rules[op.entity];
    match op
    case Create(_, p, _) => NoneFails(rules.onCreate, p.(given := rules.createDefaults + p.given), true)
    case CreateBulk(_, ps, _) =>
      ps != [] && forall k :: 0 <= k < |ps| ==>
          NoneFails(rules.onCreate, ps[k].(given := rules.createDefaults + ps[k].given), true)
    case Update(_, _, p, _) => NoneFails(rules.onUpdate, p.(given := rules.updateDefaults + p.given), false)
    case UpdateOne(_, id, where, p, _) =>
      && NoneFails(rules.onUpdate, p.(given := rules.updateDefaults + p.given), false)
      && id.Some? && exists row <- RowsIn(s, op.entity) :: row.id == id.value && where(row)
    case Delete(_, _, _) => true
  }

  /** Once an operation reaches the database: a reason of the database's own comes back as it is, and otherwise an
      error is a violated constraint, or, of an update that adds rows to its O2M edges, that it matches several. */
  lemma DatabaseErrors(schema: Schema, s: State, op: Op)
    requires op.entity in schema.rules && Reaches(schema, s, op)
    ensures op.refusal.Some? ==> Step(schema, s, op) == (s, op.refusal)
    ensures op.refusal == None && Step(schema, s, op).1.Some? ==>
              && Step(schema, s, op).0 == s
              && (Step(schema, s, op).1 == Some(ConstraintViolated)
                  || (Step(schema, s, op).1 == Some(SeveralOwners) && (op.Update? || op.UpdateOne?)
                      && |Owners(s, op)| > 1 && exists inv <- op.p.inverses :: inv.change.added != {}))
  {
    hide Checked, NoneFails, FirstFails, Accepted, LinkNew, Relink, Inserted, Updated, Deleted, Chosen;
    var rules := schema.rules[op.entity];
    match op
    case Create(_, p, _) =>
      var q := WithDefaults(rules.createDefaults, p);
      CheckedFirst(rules.onCreate, q, true);
      LinkNewErrors(schema, Inserted(s, op.entity, [q]), s.next, [q]);
    case CreateBulk(_, ps, _) =>
      var qs := AllWithDefaults(rules.createDefaults, ps);
      AllChecked(rules.onCreate, qs);
      forall i | 0 <= i < |qs| ensures Checked(rules.onCreate, qs[i], true) == None {
        CheckedFirst(rules.onCreate, qs[i], true);
      }
      LinkNewErrors(schema, Inserted(s, op.entity, qs), s.next, qs);
    case Update(_, where, p, _) =>
      var q := WithDefaults(rules.updateDefaults, p);
      CheckedFirst(rules.onUpdate, q, false);
      RelinkErrors(schema, Updated(s, op.entity, where, q), p.inverses,
                   KeysOfRows(Chosen(RowsIn(s, op.entity), where)));
    case UpdateOne(_, id, _, p, _) =>
      var q := WithDefaults(rules.updateDefaults, p);
      CheckedFirst(rules.onUpdate, q, false);
      var where, with := (row: Row) => Match(op.id.value, op.where, row),
                         (row: Row) => op.id.Some? && Match(op.id.value, op.where, row);
      SameChosen(RowsIn(s, op.entity), where, with);
      RelinkErrors(schema, Updated(s, op.entity, where, q), p.inverses,
                   KeysOfRows(Chosen(RowsIn(s, op.entity), where)));
    case Delete(_, _, _) =>
  }

  lemma {:induction false} LinkAllErrors(schema: Schema, s: State, invs: seq<Inverse>, owner: int)
    ensures LinkAll(schema, s, invs, owner).Ok? || LinkAll(schema, s, invs, owner) == Err(ConstraintViolated)
    decreases |invs|
  {
    hide Accepted, AllFree, Linked;
    if invs != [] {
      LinkAllErrors(schema, Linked(s, invs[0], owner), invs[1..], owner);
    }
  }

  lemma {:induction false} LinkNewErrors(schema: Schema, s: State, next: int, ps: seq<Patch>)
    ensures LinkNew(schema, s, next, ps).Ok? || LinkNew(schema, s, next, ps) == Err(ConstraintViolated)
  {
    hide LinkAll;
    if ps != [] {
      var n := |ps| - 1;
      LinkNewErrors(schema, s, next, ps[..n]);
      var t := LinkNew(schema, s, next, ps[..n]);
      if t.Ok? {
        LinkAllErrors(schema, t.value, ps[n].inverses, next + n);
      }
    }
  }

  lemma {:induction false} UnlinkAllErrors(schema: Schema, s: State, invs: seq<Inverse>, owners: seq<int>)
    ensures UnlinkAll(schema, s, invs, owners).Ok? || UnlinkAll(schema, s, invs, owners) == Err(ConstraintViolated)
    decreases |invs|
  {
    hide Accepted, Unlinked;
    if invs != [] {
      UnlinkAllErrors(schema, Unlinked(s, invs[0], owners), invs[1..], owners);
    }
  }

  lemma RelinkErrors(schema: Schema, s: State, invs: seq<Inverse>, owners: seq<int>)
    ensures var t := Relink(schema, s, invs, owners);
            t.Err? ==> t.error == ConstraintViolated
                       || (t.error == SeveralOwners && |owners| > 1 && exists inv <- invs :: inv.change.added != {})
  {
    hide UnlinkAll, LinkAll;
    UnlinkAllErrors(schema, s, invs, owners);
    assert !AddsNothing(invs) ==> exists inv <- invs :: inv.change.added != {};
    if owners != [] && UnlinkAll(schema, s, invs, owners).Ok? {
      LinkAllErrors(schema, UnlinkAll(schema, s, invs, owners).value, invs, owners[0]);
    }
  }
}
