/** What each operation does to the stored rows, and what it leaves alone. */
module Effects {
  import opened Wrappers
  import opened Records
  import opened Store
  import opened Runs
  import opened Soundness
  import Updates

  // ---- rows side by side ----

  /** The same rows, except for the cells in some columns. */
  ghost predicate SameBut(a: seq<Row>, b: seq<Row>, columns: set<string>) {
    && |a| == |b| && (columns == {} ==> a == b)
    && forall i :: 0 <= i < |a| ==>
         b[i].id == a[i].id && forall c: string :: c !in columns ==> CellAt(b[i], c) == CellAt(a[i], c)
  }

  lemma SameButThen(a: seq<Row>, b: seq<Row>, c: seq<Row>, ab: set<string>, bc: set<string>)
    requires SameBut(a, b, ab) && SameBut(b, c, bc)
    ensures SameBut(a, c, ab + bc)
  {
    assert ab + bc == {} ==> ab == {} && bc == {};
  }

  /** The columns of a table that some O2M edges are about. */
  function Columns(invs: seq<Inverse>, table: string): set<string> {
    set i | 0 <= i < |invs| && invs[i].table == table :: invs[i].column
  }

  lemma ColumnsHead(invs: seq<Inverse>, table: string)
    requires invs != []
    ensures Columns(invs, table) ==
        (if invs[0].table == table then {invs[0].column} else {}) + Columns(invs[1..], table)
  {
    var head, all := invs[0], Columns(invs, table);
    forall c | c in Columns(invs[1..], table) ensures c in all {
      var i :| 0 <= i < |invs[1..]| && invs[1..][i].table == table && invs[1..][i].column == c;
      assert invs[i + 1].column == c;
    }
    forall c | c in all && !(head.table == table && head.column == c) ensures c in Columns(invs[1..], table) {
      var i :| 0 <= i < |invs| && invs[i].table == table && invs[i].column == c;
      assert i != 0 && invs[1..][i - 1] == invs[i];
    }
  }

  /** Nothing but the columns of the O2M edges is different. */
  ghost predicate OnlyEdges(s: State, t: State, invs: seq<Inverse>) {
    t.next == s.next && forall table :: SameBut(RowsIn(s, table), RowsIn(t, table), Columns(invs, table))
  }

  lemma NothingDiffers(s: State)
    ensures OnlyEdges(s, s, [])
  {
  }

  lemma WrittenOnly(s: State, table: string, column: string, where: Row -> bool, dest: Option<int>)
    requires column != "id"
    ensures var t := Updated(s, table, where, Relinked(column, dest));
            && t.next == s.next && SameBut(RowsIn(s, table), RowsIn(t, table), {column})
            && forall other: string :: other != table ==> RowsIn(t, other) == RowsIn(s, other)
  {
    hide Patched;
    var t := Updated(s, table, where, Relinked(column, dest));
    forall i, c: string | 0 <= i < |RowsIn(s, table)| && c != column
      ensures RowsIn(t, table)[i].id == RowsIn(s, table)[i].id
      ensures CellAt(RowsIn(t, table)[i], c) == CellAt(RowsIn(s, table)[i], c)
    {
      RelinkedAt(s, table, column, where, dest, i, c);
    }
    if RowsIn(s, table) != [] {
      forall i | 0 <= i < |RowsIn(s, table)| ensures RowsIn(t, table)[i].id == RowsIn(s, table)[i].id {
        RelinkedAt(s, table, column, where, dest, i, "id");
      }
    }
  }

  /** One statement, and then those of the other edges. */
  lemma EdgesThen(s: State, t: State, u: State, invs: seq<Inverse>)
    requires invs != [] && t.next == s.next && OnlyEdges(t, u, invs[1..])
    requires SameBut(RowsIn(s, invs[0].table), RowsIn(t, invs[0].table), {invs[0].column})
    requires forall other: string :: other != invs[0].table ==> RowsIn(t, other) == RowsIn(s, other)
    ensures OnlyEdges(s, u, invs)
  {
    hide SameBut, Columns;
    forall table ensures SameBut(RowsIn(s, table), RowsIn(u, table), Columns(invs, table)) {
      ColumnsHead(invs, table);
      if table == invs[0].table {
        SameButThen(RowsIn(s, table), RowsIn(t, table), RowsIn(u, table), {invs[0].column}, Columns(invs[1..], table));
      } else {
        assert {} + Columns(invs[1..], table) == Columns(invs[1..], table);
      }
    }
  }

  ghost predicate NoKeys(invs: seq<Inverse>) {
    forall inv <- invs :: inv.column != "id"
  }

  lemma {:induction false} UnlinkAllOnly(schema: Schema, s: State, invs: seq<Inverse>, owners: seq<int>)
    requires NoKeys(invs) && UnlinkAll(schema, s, invs, owners).Ok?
    ensures OnlyEdges(s, UnlinkAll(schema, s, invs, owners).value, invs)
    decreases |invs|
  {
    hide Accepted, OnlyEdges, SameBut, Patched;
    if invs == [] {
      NothingDiffers(s);
    } else {
      assert invs[0] in invs && forall inv <- invs[1..] :: inv in invs;
      WrittenOnly(s, invs[0].table, invs[0].column, (row: Row) => Unlinks(invs[0], owners, row), None);
      UnlinkAllOnly(schema, Unlinked(s, invs[0], owners), invs[1..], owners);
      EdgesThen(s, Unlinked(s, invs[0], owners), UnlinkAll(schema, s, invs, owners).value, invs);
    }
  }

  lemma {:induction false} LinkAllOnly(schema: Schema, s: State, invs: seq<Inverse>, owner: int)
    requires NoKeys(invs) && LinkAll(schema, s, invs, owner).Ok?
    ensures OnlyEdges(s, LinkAll(schema, s, invs, owner).value, invs)
    decreases |invs|
  {
    hide Accepted, OnlyEdges, SameBut, Patched, AllFree;
    if invs == [] {
      NothingDiffers(s);
    } else {
      assert invs[0] in invs && forall inv <- invs[1..] :: inv in invs;
      WrittenOnly(s, invs[0].table, invs[0].column, (row: Row) => Links(invs[0], row), Some(owner));
      LinkAllOnly(schema, Linked(s, invs[0], owner), invs[1..], owner);
      EdgesThen(s, Linked(s, invs[0], owner), LinkAll(schema, s, invs, owner).value, invs);
    }
  }

  lemma OnlyEdgesTwice(s: State, t: State, u: State, invs: seq<Inverse>)
    requires OnlyEdges(s, t, invs) && OnlyEdges(t, u, invs)
    ensures OnlyEdges(s, u, invs)
  {
    hide SameBut, Columns;
    forall table ensures SameBut(RowsIn(s, table), RowsIn(u, table), Columns(invs, table)) {
      SameButThen(RowsIn(s, table), RowsIn(t, table), RowsIn(u, table), Columns(invs, table), Columns(invs, table));
      assert Columns(invs, table) + Columns(invs, table) == Columns(invs, table);
    }
  }

  lemma RelinkOnly(schema: Schema, s: State, invs: seq<Inverse>, owners: seq<int>)
    requires NoKeys(invs) && Relink(schema, s, invs, owners).Ok?
    ensures OnlyEdges(s, Relink(schema, s, invs, owners).value, invs)
  {
    hide OnlyEdges, UnlinkAll, LinkAll, NoKeys, AddsNothing;
    if owners == [] {
      SameEdges(s, invs);
    } else {
      UnlinkAllOnly(schema, s, invs, owners);
      var t := UnlinkAll(schema, s, invs, owners).value;
      if !AddsNothing(invs) {
        LinkAllOnly(schema, t, invs, owners[0]);
        OnlyEdgesTwice(s, t, Relink(schema, s, invs, owners).value, invs);
      }
    }
  }

  lemma SameEdges(s: State, invs: seq<Inverse>)
    ensures OnlyEdges(s, s, invs)
  {
  }

  // ---- what an O2M change means ----

  /** The rows that refer to an owner: its neighbours along the edge. */
  function Referers(s: State, table: string, column: string, owner: int): set<int> {
    set row | row in RowsIn(s, table) && CellAt(row, column) == Int(owner) :: row.id
  }

  ghost predicate About(invs: seq<Inverse>, table: string, column: string) {
    exists inv <- invs :: inv.table == table && inv.column == column
  }

  /** The edges of a builder are different ones. */
  ghost predicate Distinct(invs: seq<Inverse>) {
    forall i, j :: 0 <= i < j < |invs| ==> invs[i].table != invs[j].table || invs[i].column != invs[j].column
  }

  lemma RefererAt(s: State, table: string, column: string, owner: int, id: int)
    ensures id in Referers(s, table, column, owner) <==>
              exists i :: 0 <= i < |RowsIn(s, table)| && RowsIn(s, table)[i].id == id &&
                  CellAt(RowsIn(s, table)[i], column) == Int(owner)
  {
    if id in Referers(s, table, column, owner) {
      var row :| row in RowsIn(s, table) && CellAt(row, column) == Int(owner) && row.id == id;
      var i :| 0 <= i < |RowsIn(s, table)| && RowsIn(s, table)[i] == row;
    }
    var rows := RowsIn(s, table);
    if i :| 0 <= i < |rows| && rows[i].id == id && CellAt(rows[i], column) == Int(owner) {
      assert rows[i] in rows;
    }
  }

  /** What is not about the column does not change who refers. */
  lemma ReferersStay(s: State, t: State, invs: seq<Inverse>, table: string, column: string, owner: int)
    requires OnlyEdges(s, t, invs) && !About(invs, table, column)
    ensures Referers(t, table, column, owner) == Referers(s, table, column, owner)
  {
    hide Referers;
    assert column !in Columns(invs, table);
    assert SameBut(RowsIn(s, table), RowsIn(t, table), Columns(invs, table));
    forall id ensures id in Referers(t, table, column, owner) <==> id in Referers(s, table, column, owner) {
      RefererAt(s, table, column, owner, id);
      RefererAt(t, table, column, owner, id);
    }
  }

  lemma UnlinkedReferers(s: State, inv: Inverse, owners: seq<int>, owner: int)
    requires inv.column != "id"
    ensures Referers(Unlinked(s, inv, owners), inv.table, inv.column, owner)
         == if owner !in owners then Referers(s, inv.table, inv.column, owner)
            else if inv.change.cleared then {} else Referers(s, inv.table, inv.column, owner) - inv.change.removed
  {
    hide Patched, Referers;
    var t := Unlinked(s, inv, owners);
    forall i | 0 <= i < |RowsIn(s, inv.table)|
      ensures RowsIn(t, inv.table)[i].id == RowsIn(s, inv.table)[i].id
      ensures CellAt(RowsIn(t, inv.table)[i], inv.column)
           == if Unlinks(inv, owners, RowsIn(s, inv.table)[i]) then Null
               else CellAt(RowsIn(s, inv.table)[i], inv.column)
    {
      RelinkedAt(s, inv.table, inv.column, (row: Row) => Unlinks(inv, owners, row), None, i, inv.column);
    }
    forall id
      ensures id in Referers(t, inv.table, inv.column, owner) <==>
                id in Referers(s, inv.table, inv.column, owner) &&
                    !(owner in owners && (inv.change.cleared || id in inv.change.removed))
    {
      RefererAt(s, inv.table, inv.column, owner, id);
      RefererAt(t, inv.table, inv.column, owner, id);
    }
  }

  lemma LinkedReferers(s: State, inv: Inverse, owner: int, other: int)
    requires inv.column != "id" && AllFree(s, inv)
    ensures Referers(Linked(s, inv, owner), inv.table, inv.column, other)
         == Referers(s, inv.table, inv.column, other) + (if other == owner then inv.change.added else {})
  {
    hide Patched, Referers;
    var rows, t := RowsIn(s, inv.table), Linked(s, inv, owner);
    forall i | 0 <= i < |rows|
      ensures RowsIn(t, inv.table)[i].id == rows[i].id
      ensures CellAt(RowsIn(t, inv.table)[i], inv.column)
           == if Links(inv, rows[i]) then Int(owner) else CellAt(rows[i], inv.column)
    {
      RelinkedAt(s, inv.table, inv.column, (row: Row) => Links(inv, row), Some(owner), i, inv.column);
    }
    forall id
      ensures id in Referers(t, inv.table, inv.column, other) <==>
                id in Referers(s, inv.table, inv.column, other) || (other == owner && id in inv.change.added)
    {
      RefererAt(s, inv.table, inv.column, other, id);
      RefererAt(t, inv.table, inv.column, other, id);
      if id in inv.change.added {
        var row :| row in rows && row.id == id && Links(inv, row);
        var i :| 0 <= i < |rows| && rows[i] == row;
        assert RowsIn(t, inv.table)[i].id == id;
      }
    }
  }

  lemma OneEdge(s: State, t: State, inv: Inverse)
    requires t.next == s.next && SameBut(RowsIn(s, inv.table), RowsIn(t, inv.table), {inv.column})
    requires forall other: string :: other != inv.table ==> RowsIn(t, other) == RowsIn(s, other)
    ensures OnlyEdges(s, t, [inv])
  {
    hide SameBut;
    assert [inv][1..] == [];
    NothingDiffers(t);
    EdgesThen(s, t, t, [inv]);
  }

  lemma DistinctTail(invs: seq<Inverse>)
    requires invs != [] && Distinct(invs)
    ensures Distinct(invs[1..]) && !About(invs[1..], invs[0].table, invs[0].column)
    ensures forall k :: 1 <= k < |invs| ==> !About([invs[0]], invs[k].table, invs[k].column)
  {
    forall inv | inv in invs[1..] ensures inv.table != invs[0].table || inv.column != invs[0].column {
      var i :| 0 <= i < |invs[1..]| && invs[1..][i] == inv;
      assert invs[i + 1] == inv;
    }
    assert forall i, j :: 0 <= i < j < |invs[1..]| ==> invs[1..][i] == invs[i + 1] && invs[1..][j] == invs[j + 1];
  }

  lemma {:induction false} UnlinkAllReferers(schema: Schema, s: State, invs: seq<Inverse>, owners: seq<int>, k: nat,
                                             owner: int)
    requires NoKeys(invs) && Distinct(invs) && UnlinkAll(schema, s, invs, owners).Ok? && k < |invs|
    ensures var inv, t := invs[k], UnlinkAll(schema, s, invs, owners).value;
            Referers(t, inv.table, inv.column, owner)
            == if owner !in owners then Referers(s, inv.table, inv.column, owner)
               else if inv.change.cleared then {} else Referers(s, inv.table, inv.column, owner) - inv.change.removed
    decreases |invs|
  {
    hide Accepted, OnlyEdges, SameBut, Patched, Referers, Distinct, About;
    var inv, rest := invs[0], invs[1..];
    var t, u := Unlinked(s, inv, owners), UnlinkAll(schema, s, invs, owners).value;
    assert inv in invs && forall other <- rest :: other in invs;
    DistinctTail(invs);
    if k == 0 {
      UnlinkedReferers(s, inv, owners, owner);
      UnlinkAllOnly(schema, t, rest, owners);
      ReferersStay(t, u, rest, inv.table, inv.column, owner);
    } else {
      WrittenOnly(s, inv.table, inv.column, (row: Row) => Unlinks(inv, owners, row), None);
      OneEdge(s, t, inv);
      ReferersStay(s, t, [inv], invs[k].table, invs[k].column, owner);
      UnlinkAllReferers(schema, t, rest, owners, k - 1, owner);
    }
  }

  lemma {:induction false} LinkAllReferers(schema: Schema, s: State, invs: seq<Inverse>, owner: int, k: nat, other: int)
    requires NoKeys(invs) && Distinct(invs) && LinkAll(schema, s, invs, owner).Ok? && k < |invs|
    ensures var inv, t := invs[k], LinkAll(schema, s, invs, owner).value;
            Referers(t, inv.table, inv.column, other)
            == Referers(s, inv.table, inv.column, other) + (if other == owner then inv.change.added else {})
    decreases |invs|
  {
    hide Accepted, OnlyEdges, SameBut, Patched, Referers, Distinct, About, AllFree;
    var inv, rest := invs[0], invs[1..];
    var t, u := Linked(s, inv, owner), LinkAll(schema, s, invs, owner).value;
    assert inv in invs && forall x <- rest :: x in invs;
    DistinctTail(invs);
    if k == 0 {
      LinkedReferers(s, inv, owner, other);
      LinkAllOnly(schema, t, rest, owner);
      ReferersStay(t, u, rest, inv.table, inv.column, other);
    } else {
      WrittenOnly(s, inv.table, inv.column, (row: Row) => Links(inv, row), Some(owner));
      OneEdge(s, t, inv);
      ReferersStay(s, t, [inv], invs[k].table, invs[k].column, other);
      LinkAllReferers(schema, t, rest, owner, k - 1, other);
    }
  }

  /** The O2M changes of an update do to the neighbours of every updated owner what the changes say, and nothing to
      those of other owners: no row is taken from an owner that is not updated. */
  lemma RelinkReferers(schema: Schema, s: State, invs: seq<Inverse>, owners: seq<int>, k: nat, owner: int)
    requires NoKeys(invs) && Distinct(invs) && Relink(schema, s, invs, owners).Ok? && k < |invs|
    ensures var inv, t := invs[k], Relink(schema, s, invs, owners).value;
            Referers(t, inv.table, inv.column, owner)
            == if owner in owners then Updates.Meaning(inv.change, false, Referers(s, inv.table, inv.column, owner))
               else Referers(s, inv.table, inv.column, owner)
  {
    hide Referers, UnlinkAll, LinkAll, NoKeys, Distinct;
    if owners != [] {
      UnlinkAllReferers(schema, s, invs, owners, k, owner);
      if !AddsNothing(invs) {
        LinkAllReferers(schema, UnlinkAll(schema, s, invs, owners).value, invs, owners[0], k, owner);
      }
    }
  }

  // ---- updates ----

  lemma InverseColumns(schema: Schema, entity: string, p: Patch)
    requires SchemaOK(schema) && InversesOK(schema, entity, p)
    ensures NoKeys(p.inverses) && Columns(p.inverses, entity) == {}
  {
    hide SchemaOK, InverseOK;
    forall inv | inv in p.inverses ensures inv.column != "id" && inv.table != entity {
      InverseForeign(schema, entity, inv);
      ForeignColumn(schema, inv.table, inv.column);
    }
  }

  /** What an update does to the table it is about, and to the tables at the other ends of its O2M edges. */
  ghost predicate Changed(s: State, t: State, table: string, where: Row -> bool, p: Patch) {
    && t.next == s.next && |RowsIn(t, table)| == |RowsIn(s, table)|
    && (forall i :: 0 <= i < |RowsIn(s, table)| ==>
          var row, after := RowsIn(s, table)[i], RowsIn(t, table)[i];
          if where(row) then after.id == row.id && CellsChanged(row, after, p) else after == row)
    && (forall other: string :: other != table ==>
          SameBut(RowsIn(s, other), RowsIn(t, other), Columns(p.inverses, other)))
  }

  /** A number is added to one of its type, or to NULL, which counts as zero. */
  ghost predicate Sum(base: Cell, added: Cell, after: Cell) {
    && (added.Int? && base.Int? ==> after == Int(base.i + added.i))
    && (added.Float? && base.Float? ==> after == Float(base.r + added.r))
    && ((added.Int? || added.Float?) && base.Null? ==> after == added)
  }

  /** The cells that the mutation is about, and no others: a unique edge is set, cleared or left alone; a field is set,
      or else cleared, or else left alone, and then added to. */
  ghost predicate CellsChanged(row: Row, after: Row, p: Patch) {
    && (forall c: string :: c !in p.given && c !in p.add && c !in p.cleared && c !in p.links ==>
        CellAt(after, c) == CellAt(row, c))
    && (forall c: string :: c in p.given && c !in p.add && c !in p.links && c != "id" ==>
        CellAt(after, c) == p.given[c])
    && (forall c: string :: c in p.cleared && c !in p.given && c !in p.add && c !in p.links && c != "id" ==>
        CellAt(after, c) == Null)
    && (forall c: string :: c in p.add && c !in p.links && c != "id" ==>
          && (c in p.given ==> Sum(p.given[c], p.add[c], CellAt(after, c)))
          && (c !in p.given && c in p.cleared ==> Sum(Null, p.add[c], CellAt(after, c)))
          && (c !in p.given && c !in p.cleared ==> Sum(CellAt(row, c), p.add[c], CellAt(after, c))))
    && (forall c: string :: c in p.links && c != "id" ==>
          && (p.links[c].dest.Some? ==> CellAt(after, c) == Int(p.links[c].dest.value))
          && (p.links[c] == Link(None, true) ==> CellAt(after, c) == Null)
          && (p.links[c] == Link(None, false) ==> CellAt(after, c) == CellAt(row, c)))
  }

  lemma PlusSums(base: Cell, added: Cell)
    ensures Sum(base, added, Plus(base, added))
  {
  }

  lemma PatchChanges(row: Row, p: Patch)
    ensures CellsChanged(row, Patched(row, p), p)
  {
    hide Patched, Plus, Sum;
    forall base, added ensures Sum(base, added, Plus(base, added)) {
      PlusSums(base, added);
    }
    forall c: string ensures CellAt(Patched(row, p), c) == if c == "id" then Int(row.id) else NewCell(row, c, p) {
      PatchedCell(row, c, p);
    }
  }

  lemma ChangeEffect(schema: Schema, s: State, table: string, where: Row -> bool, p: Patch, refusal: Option<Error>)
    requires SchemaOK(schema) && InversesOK(schema, table, p) && Change(schema, s, table, where, p, refusal).1 == None
    ensures Changed(s, Change(schema, s, table, where, p, refusal).0, table, where, p)
  {
    hide SchemaOK, InversesOK, Accepted, Relink, Patched, CellsChanged, Columns, NoKeys, Chosen;
    var t := Updated(s, table, where, p);
    var u := Change(schema, s, table, where, p, refusal).0;
    InverseColumns(schema, table, p);
    RelinkOnly(schema, t, p.inverses, KeysOfRows(Chosen(RowsIn(s, table), where)));
    assert OnlyEdges(t, u, p.inverses);
    assert RowsIn(u, table) == RowsIn(t, table) by {
      assert SameBut(RowsIn(t, table), RowsIn(u, table), Columns(p.inverses, table));
    }
    forall i | 0 <= i < |RowsIn(s, table)| && where(RowsIn(s, table)[i])
      ensures CellsChanged(RowsIn(s, table)[i], RowsIn(u, table)[i], p)
      ensures RowsIn(u, table)[i].id == RowsIn(s, table)[i].id
    {
      PatchChanges(RowsIn(s, table)[i], p);
      PatchedCell(RowsIn(s, table)[i], "id", p);
    }
  }

  /** A successful update: matching rows keep their key and change in the cells that the mutation is about, other rows
      and other tables stay as they are, except for the foreign keys of the O2M edges that the mutation is about. */
  lemma UpdateEffect(schema: Schema, s: State, op: Op)
    requires SchemaOK(schema) && op.Update? && op.entity in schema.rules && InversesOK(schema, op.entity, op.p)
    requires Step(schema, s, op).1 == None
    ensures Changed(s, Step(schema, s, op).0, op.entity, op.where,
        WithDefaults(schema.rules[op.entity].updateDefaults, op.p))
  {
    hide SchemaOK, Changed, Change, Checked, InverseOK;
    ChangeEffect(schema, s, op.entity, op.where, WithDefaults(schema.rules[op.entity].updateDefaults, op.p),
        op.refusal);
  }

  /** A successful UpdateOne changes exactly one row of its table, the one with the given key, and of other tables
      nothing but the foreign keys of the O2M edges that the mutation is about. */
  lemma UpdateOneTouchesOne(schema: Schema, s: State, op: Op)
    requires SchemaOK(schema) && op.UpdateOne? && op.entity in schema.rules && InversesOK(schema, op.entity, op.p)
    requires KeysSound(s) && Step(schema, s, op).1 == None
    ensures var rows, t := RowsIn(s, op.entity), Step(schema, s, op).0;
            var p := WithDefaults(schema.rules[op.entity].updateDefaults, op.p);
            && t.next == s.next
            && (forall other: string :: other != op.entity ==>
                  SameBut(RowsIn(s, other), RowsIn(t, other), Columns(op.p.inverses, other)))
            && exists i :: 0 <= i < |rows| && op.id == Some(rows[i].id) && op.where(rows[i])
                           && |RowsIn(t, op.entity)| == |rows| && RowsIn(t, op.entity)[i].id == rows[i].id
                           && CellsChanged(rows[i], RowsIn(t, op.entity)[i], p)
                           && forall j :: 0 <= j < |rows| && j != i ==> RowsIn(t, op.entity)[j] == rows[j]
  {
    hide SchemaOK, Change, Checked, InverseOK, CellsChanged, SameBut, Columns;
    var rows := RowsIn(s, op.entity);
    var p := WithDefaults(schema.rules[op.entity].updateDefaults, op.p);
    var id, where := op.id.value, op.where;
    ChangeEffect(schema, s, op.entity, (row: Row) => Match(id, where, row), p, op.refusal);
    var i :| 0 <= i < |rows| && Match(id, where, rows[i]);
    assert UniqueIDs(rows);
    forall j | 0 <= j < |rows| && j != i ensures !Match(id, where, rows[j]) {
    }
  }

  /** The O2M edges of a successful update mean what the mutation says, for every owner. */
  lemma O2MMeans(schema: Schema, s: State, op: Op, k: nat, owner: int)
    requires SchemaOK(schema) && (op.Update? || op.UpdateOne?) && op.entity in schema.rules
    requires InversesOK(schema, op.entity, op.p) && Distinct(op.p.inverses) && k < |op.p.inverses|
    requires Step(schema, s, op).1 == None
    ensures var inv, t := op.p.inverses[k], Step(schema, s, op).0;
            Referers(t, inv.table, inv.column, owner)
            == if owner in Owners(s, op)
                then Updates.Meaning(inv.change, false, Referers(s, inv.table, inv.column, owner))
               else Referers(s, inv.table, inv.column, owner)
  {
    hide SchemaOK, Accepted, Checked, InverseOK, Relink, Referers, Distinct, Match, UpdateRows, Chosen;
    var p := WithDefaults(schema.rules[op.entity].updateDefaults, op.p);
    var where := if op.Update? then op.where else (row: Row) => op.id.Some? && Match(op.id.value, op.where, row);
    var used := if op.Update? then op.where else (row: Row) => Match(op.id.value, op.where, row);
    SameChosen(RowsIn(s, op.entity), where, used);
    var t, inv := Updated(s, op.entity, used, p), op.p.inverses[k];
    assert inv in op.p.inverses;
    InverseColumns(schema, op.entity, op.p);
    InverseForeign(schema, op.entity, inv);
    RelinkReferers(schema, t, p.inverses, Owners(s, op), k, owner);
    SameRowsRefer(s, t, inv.table, inv.column, owner);
  }

  lemma SameRowsRefer(s: State, t: State, table: string, column: string, owner: int)
    requires RowsIn(t, table) == RowsIn(s, table)
    ensures Referers(t, table, column, owner) == Referers(s, table, column, owner)
  {
  }

  // ---- creations ----

  lemma {:induction false} LinkNewOnly(schema: Schema, entity: string, s: State, next: int, ps: seq<Patch>)
    requires SchemaOK(schema) && (forall i :: 0 <= i < |ps| ==> InversesOK(schema, entity, ps[i]))
    requires LinkNew(schema, s, next, ps).Ok?
    ensures var t := LinkNew(schema, s, next, ps).value;
            && t.next == s.next && RowsIn(t, entity) == RowsIn(s, entity)
            && forall other: string :: (forall i :: 0 <= i < |ps| ==> Columns(ps[i].inverses, other) == {}) ==>
                 RowsIn(t, other) == RowsIn(s, other)
  {
    hide SchemaOK, InversesOK, LinkAll, Columns;
    if ps != [] {
      var n := |ps| - 1;
      LinkNewOnly(schema, entity, s, next, ps[..n]);
      var t := LinkNew(schema, s, next, ps[..n]).value;
      InverseColumns(schema, entity, ps[n]);
      LinkAllOnly(schema, t, ps[n].inverses, next + n);
      var u := LinkNew(schema, s, next, ps).value;
      forall other: string | Columns(ps[n].inverses, other) == {} ensures RowsIn(u, other) == RowsIn(t, other) {
        assert SameBut(RowsIn(t, other), RowsIn(u, other), Columns(ps[n].inverses, other));
      }
    }
  }

  /** A successful create: one row more, with a key that no row had; each of its cells is what was set, or else the
      default, or else NULL. Other tables change in the foreign keys of the O2M edges only. */
  lemma CreateEffect(schema: Schema, s: State, op: Op)
    requires SchemaOK(schema) && op.Create? && op.entity in schema.rules && InversesOK(schema, op.entity, op.p)
    requires KeysSound(s) && Step(schema, s, op).1 == None
    ensures var defaults, t := schema.rules[op.entity].createDefaults, Step(schema, s, op).0;
            && t.next == s.next + 1
            && (forall row <- RowsIn(s, op.entity) :: row.id != s.next)
            && (exists row :: RowsIn(t, op.entity) == RowsIn(s, op.entity) + [row]
                              && NewCells(row, s.next, defaults, op.p))
            && forall other: string :: other != op.entity ==>
                 SameBut(RowsIn(s, other), RowsIn(t, other), Columns(op.p.inverses, other))
  {
    hide SchemaOK, InversesOK, Accepted, Checked, LinkAll, Columns, SameBut, NewCells;
    var q := WithDefaults(schema.rules[op.entity].createDefaults, op.p);
    var t, u := Inserted(s, op.entity, [q]), Step(schema, s, op).0;
    assert [q][..0] == [];
    assert LinkNew(schema, t, s.next, [q][..0]) == Ok(t);
    assert Ok(u) == LinkAll(schema, t, q.inverses, s.next);
    InverseColumns(schema, op.entity, op.p);
    LinkAllOnly(schema, t, q.inverses, s.next);
    assert RowsIn(u, op.entity) == RowsIn(t, op.entity) by {
      assert SameBut(RowsIn(t, op.entity), RowsIn(u, op.entity), Columns(op.p.inverses, op.entity));
      NoColumns(RowsIn(t, op.entity), RowsIn(u, op.entity));
    }
    assert RowsIn(t, op.entity) == RowsIn(s, op.entity) + [NewRow(s.next, q)];
    NewRowCells(s.next, schema.rules[op.entity].createDefaults, op.p);
  }

  lemma NoColumns(a: seq<Row>, b: seq<Row>)
    requires SameBut(a, b, {})
    ensures a == b
  {
  }

  /** What a new row holds. */
  ghost predicate NewCells(row: Row, id: int, defaults: Fields, p: Patch) {
    && row.id == id
    && forall c: string :: c != "id" ==>
         && (c in p.links && p.links[c].dest.Some? ==> CellAt(row, c) == Int(p.links[c].dest.value))
         && (!(c in p.links && p.links[c].dest.Some?) ==>
               && (c in p.given ==> CellAt(row, c) == p.given[c])
               && (c !in p.given && c in defaults ==> CellAt(row, c) == defaults[c])
               && (c !in p.given && c !in defaults ==> CellAt(row, c) == Null))
  }

  lemma NewRowCells(id: int, defaults: Fields, p: Patch)
    ensures NewCells(NewRow(id, WithDefaults(defaults, p)), id, defaults, p)
  {
  }

  /** The new row gets the rows that are added to it, and no row is taken from another owner. */
  lemma CreateLinks(schema: Schema, s: State, op: Op, k: nat, owner: int)
    requires SchemaOK(schema) && op.Create? && op.entity in schema.rules && InversesOK(schema, op.entity, op.p)
    requires Distinct(op.p.inverses) && k < |op.p.inverses| && Step(schema, s, op).1 == None
    ensures var inv, t := op.p.inverses[k], Step(schema, s, op).0;
            Referers(t, inv.table, inv.column, owner)
            == Referers(s, inv.table, inv.column, owner) + (if owner == s.next then inv.change.added else {})
  {
    hide SchemaOK, InverseOK, Accepted, Checked, LinkAll, Referers, Distinct;
    var q, inv := WithDefaults(schema.rules[op.entity].createDefaults, op.p), op.p.inverses[k];
    var t, u := Inserted(s, op.entity, [q]), Step(schema, s, op).0;
    assert [q][..0] == [];
    assert LinkNew(schema, t, s.next, [q][..0]) == Ok(t);
    assert inv in op.p.inverses;
    InverseColumns(schema, op.entity, op.p);
    InverseForeign(schema, op.entity, inv);
    LinkAllReferers(schema, t, q.inverses, s.next, k, owner);
    SameRowsRefer(s, t, inv.table, inv.column, owner);
  }

  // ---- deletions ----

  predicate Dangles(r: Reference, ids: set<int>, row: Row) {
    var c := CellAt(row, r.column);
    c.Int? && c.i in ids
  }

  /** A deletion of the ids from the target table takes the row with it. */
  ghost predicate Falls(references: seq<Reference>, target: string, ids: set<int>, table: string, row: Row) {
    exists r <- references :: r.table == table && r.target == target && r.onDelete.Cascade? && Dangles(r, ids, row)
  }

  /** The column of the row loses its reference. */
  ghost predicate Loses(references: seq<Reference>, target: string, ids: set<int>, table: string, row: Row, c: string) {
    exists r <- references ::
      r.table == table && r.target == target && r.onDelete.SetNull? && r.column == c && Dangles(r, ids, row)
  }

  /** A row before and after a deletion that it survives. */
  ghost predicate Emptied(references: seq<Reference>, target: string, ids: set<int>, table: string, row: Row,
                          after: Row) {
    && after.id == row.id
    && forall c: string :: CellAt(after, c) == if Loses(references, target, ids, table, row, c) then Null
        else CellAt(row, c)
  }

  /** The rows that do not fall are still there, each without the references that it loses. */
  ghost predicate Stay(references: seq<Reference>, target: string, ids: set<int>, table: string, rows: seq<Row>,
                       after: seq<Row>) {
    forall row <- rows :: !Falls(references, target, ids, table, row) ==>
      exists x <- after :: Emptied(references, target, ids, table, row, x)
  }

  /** And no others. */
  ghost predicate Stem(references: seq<Reference>, target: string, ids: set<int>, table: string, rows: seq<Row>,
                       after: seq<Row>) {
    forall x <- after :: exists row <- rows ::
      !Falls(references, target, ids, table, row) && Emptied(references, target, ids, table, row, x)
  }

  /** What a deletion makes of a table. */
  ghost predicate Followers(references: seq<Reference>, target: string, ids: set<int>, table: string,
                            rows: seq<Row>, after: seq<Row>)
  {
    Stay(references, target, ids, table, rows, after) && Stem(references, target, ids, table, rows, after)
  }

  /** What is left of a row. */
  lemma StayRow(references: seq<Reference>, target: string, ids: set<int>, table: string, rows: seq<Row>,
                after: seq<Row>, row: Row) returns (x: Row)
    requires Followers(references, target, ids, table, rows, after)
    requires row in rows && !Falls(references, target, ids, table, row)
    ensures x in after && Emptied(references, target, ids, table, row, x)
  {
    hide Falls, Emptied;
    x :| x in after && Emptied(references, target, ids, table, row, x);
  }

  /** What a row is left of. */
  lemma StemRow(references: seq<Reference>, target: string, ids: set<int>, table: string, rows: seq<Row>,
                after: seq<Row>, x: Row) returns (row: Row)
    requires Followers(references, target, ids, table, rows, after) && x in after
    ensures row in rows && !Falls(references, target, ids, table, row)
    ensures Emptied(references, target, ids, table, row, x)
  {
    hide Falls, Emptied;
    row :| row in rows && !Falls(references, target, ids, table, row) &&
        Emptied(references, target, ids, table, row, x);
  }

  lemma SchemaApart(schema: Schema)
    requires SchemaOK(schema)
    ensures AllApart(schema.references)
  {
    hide RulesOK;
  }

  /** No table refers to itself. */
  lemma BetweenAll(schema: Schema, table: string)
    requires SchemaOK(schema)
    ensures forall r <- schema.references :: r.table == table ==> r.target != table
  {
    hide RulesOK;
  }

  /** One reference at a time. */
  lemma FollowedRows(s: State, r: Reference, ids: set<int>, table: string)
    requires r.column != "id"
    ensures Followers([r], r.target, ids, table, RowsIn(s, table), RowsIn(Followed(s, r, ids), table))
    ensures Followed(s, r, ids).next == s.next
  {
    hide Patched;
    var rows, after := RowsIn(s, table), RowsIn(Followed(s, r, ids), table);
    var dangling := (row: Row) => CellAt(row, r.column).Int? && CellAt(row, r.column).i in ids;
    if r.table == table && r.onDelete.Cascade? {
      WithoutSome(rows, dangling);
      forall row | row in rows && !dangling(row) ensures Emptied([r], r.target, ids, table, row, row) {
      }
    } else if r.table == table && r.onDelete.SetNull? {
      forall i | 0 <= i < |rows|
        ensures after[i] in after && rows[i] in rows && Emptied([r], r.target, ids, table, rows[i], after[i])
      {
        RelinkedAt(s, table, r.column, dangling, None, i, "id");
        forall c: string
          ensures CellAt(after[i], c) == if Loses([r], r.target, ids, table, rows[i], c) then Null
              else CellAt(rows[i], c)
        {
          RelinkedAt(s, table, r.column, dangling, None, i, c);
          assert Loses([r], r.target, ids, table, rows[i], c) <==> r.column == c && Dangles(r, ids, rows[i]) by {
            assert r in [r];
          }
        }
      }
      assert forall row <- rows :: !Falls([r], r.target, ids, table, row);
    } else {
      assert after == rows;
      assert forall row <- rows :: Emptied([r], r.target, ids, table, row, row);
    }
  }

  /** No other reference is about the column. */
  ghost predicate Apart(r: Reference, rest: seq<Reference>) {
    forall x <- rest :: x.table != r.table || x.column != r.column
  }

  /** One row through one reference, and then through the others. */
  lemma RowThrough(r: Reference, rest: seq<Reference>, target: string, ids: set<int>, table: string, row: Row, mid: Row)
    requires Apart(r, rest) && Emptied([r], target, ids, table, row, mid)
    ensures Falls([r] + rest, target, ids, table, row)
       <==> Falls([r], target, ids, table, row) || Falls(rest, target, ids, table, mid)
    ensures forall after: Row :: Emptied(rest, target, ids, table, mid, after) ==>
        Emptied([r] + rest, target, ids, table, row, after)
  {
    assert r in [r] && forall x :: x in [r] + rest <==> x == r || x in rest;
    forall x | x in rest && x.table == table ensures Dangles(x, ids, mid) <==> Dangles(x, ids, row) {
      assert !Loses([r], target, ids, table, row, x.column);
    }
    forall c: string
      ensures Loses([r] + rest, target, ids, table, row, c)
         <==> Loses([r], target, ids, table, row, c) || Loses(rest, target, ids, table, mid, c)
    {
      LosesEither(r, rest, target, ids, table, row, mid, c);
    }
  }

  lemma LosesEither(r: Reference, rest: seq<Reference>, target: string, ids: set<int>, table: string, row: Row,
                    mid: Row, c: string)
    requires forall x <- rest :: x.table == table ==> (Dangles(x, ids, mid) <==> Dangles(x, ids, row))
    ensures Loses([r] + rest, target, ids, table, row, c)
       <==> Loses([r], target, ids, table, row, c) || Loses(rest, target, ids, table, mid, c)
  {
    assert r in [r] && forall x :: x in [r] + rest <==> x == r || x in rest;
  }

  lemma FollowersThen(r: Reference, rest: seq<Reference>, target: string, ids: set<int>, table: string,
                      rows: seq<Row>, mid: seq<Row>, after: seq<Row>)
    requires Apart(r, rest)
    requires Followers([r], target, ids, table, rows, mid) && Followers(rest, target, ids, table, mid, after)
    ensures Followers([r] + rest, target, ids, table, rows, after)
  {
    hide Stay, Stem;
    StayThen(r, rest, target, ids, table, rows, mid, after);
    StemThen(r, rest, target, ids, table, rows, mid, after);
  }

  lemma StayThen(r: Reference, rest: seq<Reference>, target: string, ids: set<int>, table: string,
                 rows: seq<Row>, mid: seq<Row>, after: seq<Row>)
    requires Apart(r, rest)
    requires Stay([r], target, ids, table, rows, mid) && Stay(rest, target, ids, table, mid, after)
    ensures Stay([r] + rest, target, ids, table, rows, after)
  {
    hide Falls, Emptied, Apart;
    forall row | row in rows && !Falls([r] + rest, target, ids, table, row)
      ensures exists x <- after :: Emptied([r] + rest, target, ids, table, row, x)
    {
      FallsHead(r, rest, target, ids, table, row);
      var m :| m in mid && Emptied([r], target, ids, table, row, m);
      RowThrough(r, rest, target, ids, table, row, m);
      var x :| x in after && Emptied(rest, target, ids, table, m, x);
    }
  }

  lemma StemThen(r: Reference, rest: seq<Reference>, target: string, ids: set<int>, table: string,
                 rows: seq<Row>, mid: seq<Row>, after: seq<Row>)
    requires Apart(r, rest)
    requires Stem([r], target, ids, table, rows, mid) && Stem(rest, target, ids, table, mid, after)
    ensures Stem([r] + rest, target, ids, table, rows, after)
  {
    hide Falls, Emptied, Apart;
    forall x | x in after
      ensures exists row <- rows ::
                !Falls([r] + rest, target, ids, table, row) && Emptied([r] + rest, target, ids, table, row, x)
    {
      var m :| m in mid && !Falls(rest, target, ids, table, m) && Emptied(rest, target, ids, table, m, x);
      var row :| row in rows && !Falls([r], target, ids, table, row) && Emptied([r], target, ids, table, row, m);
      RowThrough(r, rest, target, ids, table, row, m);
    }
  }

  lemma FallsHead(r: Reference, rest: seq<Reference>, target: string, ids: set<int>, table: string, row: Row)
    requires !Falls([r] + rest, target, ids, table, row)
    ensures !Falls([r], target, ids, table, row)
  {
    assert r in [r] + rest;
  }

  lemma Unfollowed(r: Reference, target: string, ids: set<int>, table: string, rows: seq<Row>)
    requires r.target != target
    ensures Followers([r], target, ids, table, rows, rows)
  {
    assert forall row <- rows :: Emptied([r], target, ids, table, row, row);
  }

  lemma NothingFollows(target: string, ids: set<int>, table: string, rows: seq<Row>)
    ensures Followers([], target, ids, table, rows, rows)
  {
    assert forall row <- rows :: Emptied([], target, ids, table, row, row);
  }

  ghost predicate AllApart(references: seq<Reference>) {
    && (forall i, j :: 0 <= i < j < |references| ==>
          references[i].table != references[j].table || references[i].column != references[j].column)
    && forall r <- references :: r.column != "id"
  }

  lemma ApartTail(references: seq<Reference>)
    requires references != [] && AllApart(references)
    ensures AllApart(references[1..]) && Apart(references[0], references[1..]) && references[0].column != "id"
  {
    assert forall i :: 0 <= i < |references| - 1 ==> references[1..][i] == references[i + 1];
  }

  lemma {:induction false} FollowedAllRows(s: State, references: seq<Reference>, target: string, ids: set<int>,
                                           table: string)
    requires AllApart(references)
    ensures Followers(references, target, ids, table, RowsIn(s, table),
        RowsIn(FollowedAll(s, references, target, ids), table))
    ensures FollowedAll(s, references, target, ids).next == s.next
    decreases |references|
  {
    hide Followers, Followed, AllApart, Apart;
    if references == [] {
      NothingFollows(target, ids, table, RowsIn(s, table));
    } else {
      var r, rest := references[0], references[1..];
      ApartTail(references);
      var t := if r.target == target then Followed(s, r, ids) else s;
      if r.target == target {
        FollowedRows(s, r, ids, table);
      } else {
        Unfollowed(r, target, ids, table, RowsIn(s, table));
      }
      FollowedAllRows(t, rest, target, ids, table);
      assert references == [r] + rest;
      FollowersThen(r, rest, target, ids, table, RowsIn(s, table), RowsIn(t, table),
                    RowsIn(FollowedAll(s, references, target, ids), table));
    }
  }

  /** The keys of the rows that a deletion matches. */
  function Doomed(s: State, op: Op): set<int>
    requires op.Delete?
  {
    set i | 0 <= i < |RowsIn(s, op.entity)| && op.where(RowsIn(s, op.entity)[i]) :: RowsIn(s, op.entity)[i].id
  }

  /** What the database makes of a deletion before it checks it. */
  lemma DeletedRows(schema: Schema, s: State, op: Op, table: string)
    requires AllApart(schema.references) && op.Delete?
    ensures var rows, t := RowsIn(s, table), Deleted(schema, s, op.entity, op.where);
            && t.next == s.next
            && (table != op.entity ==>
                  Followers(schema.references, op.entity, Doomed(s, op), table, rows, RowsIn(t, table)))
            && ((forall r <- schema.references :: r.table == table ==> r.target != op.entity) ==>
                  if table == op.entity then forall row :: row in RowsIn(t, table) <==> row in rows && !op.where(row)
                  else RowsIn(t, table) == rows)
  {
    hide Followers, AllApart;
    var mid := s.(tables := s.tables[op.entity := Without(RowsIn(s, op.entity), op.where)]);
    WithoutSome(RowsIn(s, op.entity), op.where);
    FollowedAllRows(mid, schema.references, op.entity, Doomed(s, op), table);
    if forall r <- schema.references :: r.table == table ==> r.target != op.entity {
      OtherTablesStay(mid, schema.references, op.entity, Doomed(s, op), table);
    }
  }

  /** A successful deletion. In its own table exactly the matching rows are gone, and the others are as they were. In
      every other table a row is gone if and only if a cascading reference of it names a deleted row; of the others
      exactly the references to deleted rows are NULL. */
  lemma DeleteEffect(schema: Schema, s: State, op: Op, table: string)
    requires SchemaOK(schema) && op.Delete? && op.entity in schema.rules && Step(schema, s, op).1 == None
    ensures var rows, t := RowsIn(s, table), Step(schema, s, op).0;
            && t.next == s.next
            && (table == op.entity ==> forall row :: row in RowsIn(t, table) <==> row in rows && !op.where(row))
            && (table != op.entity ==>
                  Followers(schema.references, op.entity, Doomed(s, op), table, rows, RowsIn(t, table)))
            && ((forall r <- schema.references :: r.table == table ==> r.target != op.entity) && table != op.entity ==>
                  RowsIn(t, table) == rows)
  {
    hide Accepted, Followers, Deleted, SchemaOK, AllApart;
    SchemaApart(schema);
    BetweenAll(schema, op.entity);
    DeletedRows(schema, s, op, table);
  }

  lemma {:induction false} OtherTablesStay(s: State, references: seq<Reference>, target: string, ids: set<int>,
                                           table: string)
    requires forall r <- references :: r.table == table ==> r.target != target
    ensures RowsIn(FollowedAll(s, references, target, ids), table) == RowsIn(s, table)
    decreases |references|
  {
    hide Without, UpdateRows;
    if references != [] {
      assert references[0] in references && forall r <- references[1..] :: r in references;
      var t := if references[0].target == target then Followed(s, references[0], ids) else s;
      OtherTablesStay(t, references[1..], target, ids, table);
    }
  }

  /** And afterwards nothing refers to a deleted row. */
  lemma NothingRefersToDeleted(schema: Schema, s: State, op: Op, r: Reference, row: Row)
    requires op.Delete? && op.entity in schema.rules && Step(schema, s, op).1 == None && SchemaOK(schema)
    requires KeysSound(s)
    requires r in schema.references && r.target == op.entity && row in RowsIn(Step(schema, s, op).0, r.table)
    ensures !Dangles(r, Doomed(s, op), row)
  {
    hide RulesOK, NoNulls;
    var t := Step(schema, s, op).0;
    DeleteEffect(schema, s, op, op.entity);
    if Dangles(r, Doomed(s, op), row) {
      var k :| 0 <= k < |schema.references| && schema.references[k] == r;
      assert Refers(t, r);
      var i :| 0 <= i < |RowsIn(t, r.table)| && RowsIn(t, r.table)[i] == row;
      var j :| 0 <= j < |RowsIn(t, r.target)| && RowsIn(t, r.target)[j].id == CellAt(row, r.column).i;
      assert RowsIn(t, r.target)[j] in RowsIn(t, r.target);
      KeyOnce(RowsIn(s, op.entity), op.where, RowsIn(t, r.target)[j]);
    }
  }

  lemma KeyOnce(rows: seq<Row>, where: Row -> bool, row: Row)
    requires UniqueIDs(rows) && row in rows && !where(row)
    ensures row.id !in set i | 0 <= i < |rows| && where(rows[i]) :: rows[i].id
  {
  }
}
