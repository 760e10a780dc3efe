/** Everything that the create, update and delete builders do to the stored rows, as a state machine. */
module Runs {
  import opened Wrappers
  import opened Records
  import opened Store
  import Updates

  type Fields = map<string, Cell>

  /** The pending change of a unique edge, by its foreign-key column. */
  datatype Link = Link(dest: Option<int>, cleared: bool)

  /** The pending changes of an O2M edge, whose foreign key is a column of another table. */
  datatype Inverse = Inverse(table: string, column: string, change: Updates.Change)

  /** The content of a mutation: fields set, added to and cleared, unique edges, and O2M edges. */
  datatype Patch = Patch(given: Fields, add: Fields, cleared: set<string>, links: map<string, Link>,
                         inverses: seq<Inverse>)

  /** One block of the generated check method. */
  datatype Rule =
    | Required(field: string)
    | Validated(field: string, test: Cell -> bool)
    | RequiredEdge(column: string)

  /** What is generated for an entity. */
  datatype Rules = Rules(
    foreignKeys: seq<string>,
    onCreate: seq<Rule>,
    onUpdate: seq<Rule>,
    createDefaults: Fields,
    updateDefaults: Fields)

  // ---- check ----

  predicate Broken(rule: Rule, p: Patch, creating: bool) {
    match rule
    case Required(f) => f !in p.given
    case Validated(f, test) => f in p.given && !test(p.given[f])
    case RequiredEdge(c) =>
      var l := if c in p.links then p.links[c] else Link(None, false);
      l.dest.None? && (creating || l.cleared)
  }

  function ErrorOf(rule: Rule, creating: bool): Error {
    match rule
    case Required(f) => InvalidField(f)
    case Validated(f, _) => InvalidField(f)
    case RequiredEdge(c) => if creating then InvalidField(c) else RequiredEdgeCleared(c)
  }

  /** The error of the first broken rule. */
  function Checked(rules: seq<Rule>, p: Patch, creating: bool): Option<Error> {
    if rules == [] then None
    else if Broken(rules[0], p, creating) then Some(ErrorOf(rules[0], creating))
    else Checked(rules[1..], p, creating)
  }

  /** The rule does not hold of the mutation, and e says so: a field is missing or invalid, a creation has no parent, an
      update clears its parent without setting another. */
  ghost predicate Fails(rule: Rule, p: Patch, creating: bool, e: Error) {
    match rule
    case Required(f) => f !in p.given && e == InvalidField(f)
    case Validated(f, test) => f in p.given && !test(p.given[f]) && e == InvalidField(f)
    case RequiredEdge(c) =>
      if creating then (c in p.links ==> p.links[c].dest == None) && e == InvalidField(c)
      else c in p.links && p.links[c] == Link(None, true) && e == RequiredEdgeCleared(c)
  }

  ghost predicate NoneFails(rules: seq<Rule>, p: Patch, creating: bool) {
    forall i, e :: 0 <= i < |rules| ==> !Fails(rules[i], p, creating, e)
  }

  /** Some rule fails with e, and no earlier one fails. */
  ghost predicate FirstFails(rules: seq<Rule>, p: Patch, creating: bool, e: Error) {
    exists i :: 0 <= i < |rules| && Fails(rules[i], p, creating, e) && NoneFails(rules[..i], p, creating)
  }

  /** The checks in order: the error is that of the first rule that fails, and there is none if no rule fails. */
  method Check(rules: seq<Rule>, p: Patch, creating: bool) returns (e: Option<Error>)
    ensures e == Checked(rules, p, creating)
    ensures e == None <==> NoneFails(rules, p, creating)
    ensures forall x :: e == Some(x) <==> FirstFails(rules, p, creating, x)
  {
    CheckedFirst(rules, p, creating);
    for i := 0 to |rules|
      invariant Checked(rules, p, creating) == Checked(rules[i..], p, creating)
    {
      assert rules[i..][1..] == rules[i + 1..];
      if Broken(rules[i], p, creating) {
        return Some(ErrorOf(rules[i], creating));
      }
    }
    return None;
  }

  lemma {:induction false} CheckedNone(rules: seq<Rule>, p: Patch, creating: bool)
    ensures Checked(rules, p, creating) == None <==> forall i :: 0 <= i < |rules| ==> !Broken(rules[i], p, creating)
  {
    if rules != [] {
      CheckedNone(rules[1..], p, creating);
      assert rules == [rules[0]] + rules[1..];
    }
  }

  lemma BrokenFails(rule: Rule, p: Patch, creating: bool)
    ensures forall e :: Fails(rule, p, creating, e) <==> Broken(rule, p, creating) && e == ErrorOf(rule, creating)
  {
  }

  lemma {:induction false} CheckedFirst(rules: seq<Rule>, p: Patch, creating: bool)
    ensures Checked(rules, p, creating) == None <==> NoneFails(rules, p, creating)
    ensures forall e :: Checked(rules, p, creating) == Some(e) <==> FirstFails(rules, p, creating, e)
  {
    hide Fails, Broken, ErrorOf;
    if rules != [] {
      var first, rest := rules[0], rules[1..];
      CheckedFirst(rest, p, creating);
      BrokenFails(first, p, creating);
      assert Fails(first, p, creating, ErrorOf(first, creating)) <==> Broken(first, p, creating);
      forall e ensures FirstFails(rules, p, creating, e) <==>
                         if Broken(first, p, creating) then e == ErrorOf(first, creating)
                         else FirstFails(rest, p, creating, e)
      {
        FirstOf(rules, p, creating, e);
      }
    }
  }

  lemma NoneOfBoth(a: seq<Rule>, b: seq<Rule>, p: Patch, creating: bool)
    ensures NoneFails(a + b, p, creating) <==> NoneFails(a, p, creating) && NoneFails(b, p, creating)
  {
    hide Fails;
    assert forall i :: 0 <= i < |a| ==> (a + b)[i] == a[i];
    assert forall i :: 0 <= i < |b| ==> (a + b)[|a| + i] == b[i];
  }

  lemma FirstOf(rules: seq<Rule>, p: Patch, creating: bool, e: Error)
    requires rules != []
    ensures FirstFails(rules, p, creating, e) <==>
              || Fails(rules[0], p, creating, e)
              || (NoneFails([rules[0]], p, creating) && FirstFails(rules[1..], p, creating, e))
  {
    hide Fails, NoneFails;
    var rest := rules[1..];
    if i :| 0 <= i < |rules| && Fails(rules[i], p, creating, e) && NoneFails(rules[..i], p, creating) {
      if i > 0 {
        assert rules[..i] == [rules[0]] + rest[..i - 1];
        NoneOfBoth([rules[0]], rest[..i - 1], p, creating);
        assert rest[i - 1] == rules[i];
      }
    }
    if Fails(rules[0], p, creating, e) {
      assert rules[..0] == [];
      NoneYet(p, creating);
    }
    if NoneFails([rules[0]], p, creating) && FirstFails(rest, p, creating, e) {
      var i :| 0 <= i < |rest| && Fails(rest[i], p, creating, e) && NoneFails(rest[..i], p, creating);
      assert rules[..i + 1] == [rules[0]] + rest[..i] && rules[i + 1] == rest[i];
      NoneOfBoth([rules[0]], rest[..i], p, creating);
    }
  }

  lemma NoneYet(p: Patch, creating: bool)
    ensures NoneFails([], p, creating)
  {
  }

  // ---- rows ----

  function Plus(a: Cell, b: Cell): Cell {
    match b
    case Int(i) => Int(IntOf(a) + i)
    case Float(r) => Float((if a.Float? then a.r else 0.0) + r)
    case _ => a
  }

  /** createSpec: the fields that are set and the foreign keys. */
  function NewRow(id: int, p: Patch): Row {
    Row(id, p.given + map c | c in p.links && p.links[c].dest.Some? :: Int(p.links[c].dest.value))
  }

  /** One column after an update. */
  function NewCell(row: Row, c: string, p: Patch): Cell {
    if c in p.links then
      if p.links[c].dest.Some? then Int(p.links[c].dest.value) else if p.links[c].cleared then Null else CellAt(row, c)
    else
      var base := if c in p.given then p.given[c] else if c in p.cleared then Null else CellAt(row, c);
      if c in p.add then Plus(base, p.add[c]) else base
  }

  function Patched(row: Row, p: Patch): Row {
    Row(row.id, map c | c in row.cells.Keys + p.given.Keys + p.add.Keys + p.cleared + p.links.Keys ::
        NewCell(row, c, p))
  }

  lemma PatchedCell(row: Row, c: string, p: Patch)
    ensures CellAt(Patched(row, p), c) == if c == "id" then Int(row.id) else NewCell(row, c, p)
  {
  }

  lemma PatchedID(row: Row, p: Patch)
    ensures Patched(row, p).id == row.id
  {
  }

  // ---- the database ----

  /** What happens to the rows that refer to a deleted row; a reference that is left dangling is refused. */
  datatype Action = NoAction | SetNull | Cascade

  datatype Reference = Reference(table: string, column: string, target: string, onDelete: Action)

  /** The foreign keys, and those of their columns, by table, that are NOT NULL. */
  datatype Schema = Schema(rules: map<string, Rules>, references: seq<Reference>, notNull: set<(string, string)>)

  datatype State = State(tables: map<string, seq<Row>>, next: int)

  function RowsIn(s: State, table: string): seq<Row> {
    if table in s.tables then s.tables[table] else []
  }

  predicate Refers(s: State, r: Reference) {
    forall i :: 0 <= i < |RowsIn(s, r.table)| ==>
      var c := CellAt(RowsIn(s, r.table)[i], r.column);
      c.Int? ==> exists j :: 0 <= j < |RowsIn(s, r.target)| && RowsIn(s, r.target)[j].id == c.i
  }

  predicate Referential(schema: Schema, s: State) {
    forall k :: 0 <= k < |schema.references| ==> Refers(s, schema.references[k])
  }

  /** No row has NULL in a NOT NULL column. */
  predicate NoNulls(schema: Schema, s: State) {
    forall at <- schema.notNull, row <- RowsIn(s, at.0) :: !CellAt(row, at.1).Null?
  }

  /** The database accepts the state that a statement makes if no reference dangles and no column lacks a value. */
  predicate Accepted(schema: Schema, s: State) {
    Referential(schema, s) && NoNulls(schema, s)
  }

  /** The database numbers new rows upwards. */
  function NewRows(next: int, ps: seq<Patch>): (rows: seq<Row>)
    ensures |rows| == |ps|
    ensures forall i :: 0 <= i < |ps| ==> rows[i] == NewRow(next + i, ps[i])
  {
    seq(|ps|, i requires 0 <= i < |ps| => NewRow(next + i, ps[i]))
  }

  function Inserted(s: State, table: string, ps: seq<Patch>): State {
    State(s.tables[table := RowsIn(s, table) + NewRows(s.next, ps)], s.next + |ps|)
  }

  function UpdateRows(rows: seq<Row>, where: Row -> bool, p: Patch): (r: seq<Row>)
    ensures |r| == |rows|
    ensures forall i :: 0 <= i < |rows| ==> r[i] == if where(rows[i]) then Patched(rows[i], p) else rows[i]
  {
    seq(|rows|, i requires 0 <= i < |rows| => if where(rows[i]) then Patched(rows[i], p) else rows[i])
  }

  function Updated(s: State, table: string, where: Row -> bool, p: Patch): State {
    s.(tables := s.tables[table := UpdateRows(RowsIn(s, table), where, p)])
  }

  function Without(rows: seq<Row>, gone: Row -> bool): seq<Row> {
    if rows == [] then []
    else (if gone(rows[0]) then [] else [rows[0]]) + Without(rows[1..], gone)
  }

  /** Only a foreign key is set, or set to NULL. */
  function Relinked(column: string, dest: Option<int>): Patch {
    Patch(map[], map[], {}, map[column := Link(dest, dest.None?)], [])
  }

  /** The rows of a table once some rows of the target are gone. */
  function Followed(s: State, r: Reference, ids: set<int>): State {
    var dangling := (row: Row) => CellAt(row, r.column).Int? && CellAt(row, r.column).i in ids;
    match r.onDelete
    case NoAction => s
    case SetNull =>
      s.(tables := s.tables[r.table := UpdateRows(RowsIn(s, r.table), dangling,
                                                  Relinked(r.column, None))])
    case Cascade => s.(tables := s.tables[r.table := Without(RowsIn(s, r.table), dangling)])
  }

  function FollowedAll(s: State, references: seq<Reference>, table: string, ids: set<int>): State
    decreases |references|
  {
    if references == [] then s
    else FollowedAll(if references[0].target == table then Followed(s, references[0], ids) else s,
                     references[1..], table, ids)
  }

  function Deleted(schema: Schema, s: State, table: string, where: Row -> bool): State {
    var rows := RowsIn(s, table);
    FollowedAll(s.(tables := s.tables[table := Without(rows, where)]), schema.references, table,
                set i | 0 <= i < |rows| && where(rows[i]) :: rows[i].id)
  }

  // ---- O2M edges ----

  /** The clear spec of the edge is about the row: it refers to one of the owners, and the whole edge is cleared or the
      row is removed from it. */
  predicate Unlinks(inv: Inverse, owners: seq<int>, row: Row) {
    var c := CellAt(row, inv.column);
    c.Int? && c.i in owners && (inv.change.cleared || row.id in inv.change.removed)
  }

  function Unlinked(s: State, inv: Inverse, owners: seq<int>): State {
    Updated(s, inv.table, (row: Row) => Unlinks(inv, owners, row), Relinked(inv.column, None))
  }

  /** The add spec of the edge is about the row: it is added and has no owner. */
  predicate Links(inv: Inverse, row: Row) {
    row.id in inv.change.added && CellAt(row, inv.column).Null?
  }

  function Linked(s: State, inv: Inverse, owner: int): State {
    Updated(s, inv.table, (row: Row) => Links(inv, row), Relinked(inv.column, Some(owner)))
  }

  /** Every row that is added is there and has no owner. */
  predicate AllFree(s: State, inv: Inverse) {
    forall id <- inv.change.added :: exists row <- RowsIn(s, inv.table) :: row.id == id && Links(inv, row)
  }

  /** The Clear list: one statement an edge, each of which the database may refuse. */
  function UnlinkAll(schema: Schema, s: State, invs: seq<Inverse>, owners: seq<int>): Result<State, Error>
    decreases |invs|
  {
    if invs == [] then Ok(s)
    else
      var t := Unlinked(s, invs[0], owners);
      if !Accepted(schema, t) then Err(ConstraintViolated) else UnlinkAll(schema, t, invs[1..], owners)
  }

  /** The Add list: a row that has another owner is not taken from it. */
  function LinkAll(schema: Schema, s: State, invs: seq<Inverse>, owner: int): Result<State, Error>
    decreases |invs|
  {
    if invs == [] then Ok(s)
    else
      var t := Linked(s, invs[0], owner);
      if !AllFree(s, invs[0]) || !Accepted(schema, t) then Err(ConstraintViolated)
      else LinkAll(schema, t, invs[1..], owner)
  }

  predicate AddsNothing(invs: seq<Inverse>) {
    forall i :: 0 <= i < |invs| ==> invs[i].change.added == {}
  }

  /** The O2M edges of an update of the given owners; rows cannot be added to several owners at once. */
  function Relink(schema: Schema, s: State, invs: seq<Inverse>, owners: seq<int>): Result<State, Error> {
    if owners == [] then Ok(s)
    else
      var t := UnlinkAll(schema, s, invs, owners);
      if t.Err? || AddsNothing(invs) then t
      else if |owners| > 1 then Err(SeveralOwners)
      else LinkAll(schema, t.value, invs, owners[0])
  }

  /** The O2M edges of new rows, numbered from next. */
  function LinkNew(schema: Schema, s: State, next: int, ps: seq<Patch>): Result<State, Error> {
    if ps == [] then Ok(s)
    else
      var t := LinkNew(schema, s, next, ps[..|ps| - 1]);
      if t.Err? then t else LinkAll(schema, t.value, ps[|ps| - 1].inverses, next + |ps| - 1)
  }

  function Chosen(rows: seq<Row>, where: Row -> bool): seq<Row> {
    Without(rows, (row: Row) => !where(row))
  }

  // ---- the operations ----

  /** An operation, and whether the database has a reason of its own to refuse it. */
  datatype Op =
    | Create(entity: string, p: Patch, refusal: Option<Error>)
    | CreateBulk(entity: string, ps: seq<Patch>, refusal: Option<Error>)
    | Update(entity: string, where: Row -> bool, p: Patch, refusal: Option<Error>)
    | UpdateOne(entity: string, id: Option<int>, where: Row -> bool, p: Patch, refusal: Option<Error>)
    | Delete(entity: string, where: Row -> bool, refusal: Option<Error>)

  function WithDefaults(defaults: Fields, p: Patch): Patch {
    p.(given := defaults + p.given)
  }

  function AllWithDefaults(defaults: Fields, ps: seq<Patch>): (r: seq<Patch>)
    ensures |r| == |ps| && forall i :: 0 <= i < |ps| ==> r[i] == WithDefaults(defaults, ps[i])
  {
    seq(|ps|, i requires 0 <= i < |ps| => WithDefaults(defaults, ps[i]))
  }

  function CheckedAll(rules: seq<Rule>, ps: seq<Patch>): Option<Error> {
    if ps == [] then None
    else if Checked(rules, ps[0], true).Some? then Checked(rules, ps[0], true)
    else CheckedAll(rules, ps[1..])
  }

  predicate Match(id: int, where: Row -> bool, row: Row) {
    row.id == id && where(row)
  }

  /** The rows that an operation writes itself, and then the O2M edges: all of it, or nothing if the database refuses
      any of the statements or has a reason of its own to. */
  function Commit(schema: Schema, s: State, t: State, edges: Result<State, Error>, refusal: Option<Error>):
    (State, Option<Error>)
  {
    if refusal.Some? then (s, refusal)
    else if !Accepted(schema, t) then (s, Some(ConstraintViolated))
    else match edges
         case Ok(u) => (u, None)
         case Err(e) => (s, Some(e))
  }

  function Insert(schema: Schema, s: State, table: string, ps: seq<Patch>, refusal: Option<Error>):
    (State, Option<Error>)
  {
    var t := Inserted(s, table, ps);
    Commit(schema, s, t, LinkNew(schema, t, s.next, ps), refusal)
  }

  function Change(schema: Schema, s: State, table: string, where: Row -> bool, p: Patch, refusal: Option<Error>):
    (State, Option<Error>)
  {
    var t := Updated(s, table, where, p);
    Commit(schema, s, t, Relink(schema, t, p.inverses, KeysOfRows(Chosen(RowsIn(s, table), where))), refusal)
  }

  function Step(schema: Schema, s: State, op: Op): (State, Option<Error>)
    requires op.entity in schema.rules
  {
    var rules := schema.rules[op.entity];
    match op
    case Create(entity, p, refusal) =>
      var q := WithDefaults(rules.createDefaults, p);
      var e := Checked(rules.onCreate, q, true);
      if e.Some? then (s, e) else Insert(schema, s, entity, [q], refusal)
    case CreateBulk(entity, ps, refusal) =>
      var qs := AllWithDefaults(rules.createDefaults, ps);
      var e := CheckedAll(rules.onCreate, qs);
      if e.Some? then (s, e) else if ps == [] then (s, None) else Insert(schema, s, entity, qs, refusal)
    case Update(entity, where, p, refusal) =>
      var q := WithDefaults(rules.updateDefaults, p);
      var e := Checked(rules.onUpdate, q, false);
      if e.Some? then (s, e) else Change(schema, s, entity, where, q, refusal)
    case UpdateOne(entity, id, where, p, refusal) =>
      var q := WithDefaults(rules.updateDefaults, p);
      var e := Checked(rules.onUpdate, q, false);
      if e.Some? then (s, e)
      else if id.None? then (s, Some(InvalidField("id")))
      else if !exists row <- RowsIn(s, entity) :: Match(id.value, where, row) then (s, Some(NotFound))
      else Change(schema, s, entity, (row: Row) => Match(id.value, where, row), q, refusal)
    case Delete(entity, where, refusal) =>
      var t := Deleted(schema, s, entity, where);
      Commit(schema, s, t, Ok(t), refusal)
  }

  /** The builders' save methods. */
  class Client {
    const schema: Schema
    var state: State

    constructor (schema: Schema, state: State)
      ensures this.schema == schema && this.state == state
    {
      this.schema, this.state := schema, state;
    }

    /** One transaction. */
    method Execute(t: State, edges: Result<State, Error>, refusal: Option<Error>) returns (e: Option<Error>)
      modifies this
      ensures (state, e) == Commit(schema, old(state), t, edges, refusal)
    {
      if refusal.Some? {
        return refusal;
      }
      if !Accepted(schema, t) {
        return Some(ConstraintViolated);
      }
      if edges.Err? {
        return Some(edges.error);
      }
      state := edges.value;
      return None;
    }

    method ExecuteInsert(table: string, ps: seq<Patch>, refusal: Option<Error>) returns (e: Option<Error>)
      modifies this
      ensures (state, e) == Insert(schema, old(state), table, ps, refusal)
    {
      var t := Inserted(state, table, ps);
      e := Execute(t, LinkNew(schema, t, state.next, ps), refusal);
    }

    method ExecuteChange(table: string, where: Row -> bool, p: Patch, refusal: Option<Error>) returns (e: Option<Error>)
      modifies this
      ensures (state, e) == Change(schema, old(state), table, where, p, refusal)
    {
      var t := Updated(state, table, where, p);
      e := Execute(t, Relink(schema, t, p.inverses, KeysOfRows(Chosen(RowsIn(state, table), where))), refusal);
    }

    method Create(entity: string, p: Patch, refusal: Option<Error>) returns (e: Option<Error>)
      requires entity in schema.rules
      modifies this
      ensures (state, e) == Step(schema, old(state), Op.Create(entity, p, refusal))
    {
      var rules := schema.rules[entity];
      var q := WithDefaults(rules.createDefaults, p);
      e := Check(rules.onCreate, q, true);
      if e.None? {
        e := ExecuteInsert(entity, [q], refusal);
      }
    }

    /** All or nothing: every builder is checked, in order, before anything is inserted. */
    method CreateBulk(entity: string, ps: seq<Patch>, refusal: Option<Error>) returns (e: Option<Error>)
      requires entity in schema.rules
      modifies this
      ensures (state, e) == Step(schema, old(state), Op.CreateBulk(entity, ps, refusal))
    {
      var rules := schema.rules[entity];
      ghost var all := AllWithDefaults(rules.createDefaults, ps);
      var specs: seq<Patch> := [];
      for i := 0 to |ps|
        invariant specs == all[..i]
        invariant state == old(state) && CheckedAll(rules.onCreate, all) == CheckedAll(rules.onCreate, all[i..])
      {
        var q := WithDefaults(rules.createDefaults, ps[i]);
        assert all[i..][0] == q && all[i..][1..] == all[i + 1..];
        e := Check(rules.onCreate, q, true);
        if e.Some? {
          return;
        }
        assert all[..i + 1] == all[..i] + [q];
        specs := specs + [q];
      }
      assert all[..|ps|] == all && all[|ps|..] == [];
      if |specs| == 0 {
        return None;
      }
      e := ExecuteInsert(entity, specs, refusal);
    }

    method Update(entity: string, where: Row -> bool, p: Patch, refusal: Option<Error>) returns (e: Option<Error>)
      requires entity in schema.rules
      modifies this
      ensures (state, e) == Step(schema, old(state), Op.Update(entity, where, p, refusal))
    {
      var rules := schema.rules[entity];
      var q := WithDefaults(rules.updateDefaults, p);
      e := Check(rules.onUpdate, q, false);
      if e.None? {
        e := ExecuteChange(entity, where, q, refusal);
      }
    }

    method UpdateOne(entity: string, id: Option<int>, where: Row -> bool, p: Patch, refusal: Option<Error>)
      returns (e: Option<Error>)
      requires entity in schema.rules
      modifies this
      ensures (state, e) == Step(schema, old(state), Op.UpdateOne(entity, id, where, p, refusal))
    {
      var rules := schema.rules[entity];
      var q := WithDefaults(rules.updateDefaults, p);
      e := Check(rules.onUpdate, q, false);
      if e.Some? {
        return;
      }
      if id.None? {
        return Some(InvalidField("id"));
      }
      var rows := RowsIn(state, entity);
      if !exists row <- rows :: Match(id.value, where, row) {
        return Some(NotFound);
      }
      e := ExecuteChange(entity, (row: Row) => Match(id.value, where, row), q, refusal);
    }

    method Delete(entity: string, where: Row -> bool, refusal: Option<Error>) returns (e: Option<Error>)
      requires entity in schema.rules
      modifies this
      ensures (state, e) == Step(schema, old(state), Op.Delete(entity, where, refusal))
    {
      var t := Deleted(schema, state, entity, where);
      e := Execute(t, Ok(t), refusal);
    }
  }
}
