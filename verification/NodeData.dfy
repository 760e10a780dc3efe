/** Which data of its row a node of an executed query holds, and that a created row is read back as it was created. */
module NodeData {
  import opened Wrappers
  import opened Records
  import opened Store
  import opened Queries
  import opened Joins
  import opened Shapes
  import opened EagerLoad
  import opened Terminals
  import Entities
  import Runs
  import Soundness
  import Effects
  import Rows

  // ---- the data of a node ----

  /** A query reads all columns of its entity, or the key and what was selected. */
  predicate Chosen(e: Entity, t: Tree, c: string) {
    if t.fields == [] then c in e.columns else c == "id" || c in t.fields
  }

  /** It reads the foreign keys if it is told to, or if it loads an edge whose key is in its own rows. */
  ghost predicate ReadsKeys(e: Entity, t: Tree, keys: bool) {
    keys || t.withFKs || exists k :: 0 <= k < |t.subs| && k < |e.edges| && t.subs[k].Some? && e.edges[k].M2O?
  }

  /** The record has the row's key, the values of the columns that are chosen, and no others; its foreign keys if they
      are read; and the cells of chosen columns that the entity does not know. A column without a value is absent. */
  ghost predicate HasData(e: Entity, t: Tree, keys: bool, row: Row, rec: Record) {
    && rec.id == row.id
    && (forall c: string :: c in rec.vals <==> Chosen(e, t, c) && HasValue(e, row, c))
    && (forall c <- rec.vals :: HasValue(e, row, c) && rec.vals[c] == ValueOf(e, row, c))
    && (forall c: string :: c in rec.fks <==>
          c in e.foreignKeys && (ReadsKeys(e, t, keys) || Chosen(e, t, c)) && CellAt(row, c).Int?)
    && (forall c <- rec.fks :: CellAt(row, c) == Int(rec.fks[c]))
    && (forall c: string :: c in rec.extra <==> Chosen(e, t, c) && e.assignTag(c) == None)
    && (forall c <- rec.extra :: rec.extra[c] == CellAt(row, c))
  }

  lemma ColumnsRead(e: Entity, t: Tree, keys: bool, c: string)
    requires EntityOK(e)
    ensures c in NodeColumns(e, t, keys) <==> Chosen(e, t, c) || (c in e.foreignKeys && ReadsKeys(e, t, keys))
    ensures "id" in NodeColumns(e, t, keys)
  {
    IDFirstAndOnce(e, t.fields);
    assert NodeColumns(e, t, keys)[0] == "id";
  }

  lemma KeyCell(e: Entity, row: Row, c: string)
    requires EntityOK(e) && Readable(e, row) && c in e.foreignKeys
    ensures CellAt(row, c).Null? || CellAt(row, c).Int?
    ensures e.assignTag(c) == Some(NullInt64)
  {
    assert Fits(e.decode, e.scanTag(c), CellAt(row, c));
  }

  lemma RecordHasData(e: Entity, t: Tree, keys: bool, row: Row)
    requires EntityOK(e) && Readable(e, row)
    ensures HasData(e, t, keys, row, RecordOf(e, NodeColumns(e, t, keys), row))
  {
    var columns := NodeColumns(e, t, keys);
    forall c: string
      ensures c in columns <==> Chosen(e, t, c) || (c in e.foreignKeys && ReadsKeys(e, t, keys))
      ensures "id" in columns
      ensures c in e.foreignKeys ==>
                (CellAt(row, c).Null? || CellAt(row, c).Int?) && e.assignTag(c) == Some(NullInt64) &&
                    !HasValue(e, row, c)
    {
      ColumnsRead(e, t, keys, c);
      if c in e.foreignKeys {
        KeyCell(e, row, c);
      }
    }
    hide EntityOK, Readable, NodeColumns, Chosen, ReadsKeys, HasValue, ValueOf;
  }

  // ---- at every depth ----

  /** Every node of the query has the data of a row of the table, and so have the nodes of its edges, whose keys are
      read if the edge is an O2M one. */
  ghost predicate AllHoldData(v: Env, t: Tree, keys: bool, sh: Shape)
    reads NodesIn(sh)
    decreases sh
  {
    && t.entity in v.schema
    && (forall i :: 0 <= i < |sh.nodes| ==> DataOfSomeRow(v, t, keys, sh.nodes[i].rec))
    && (sh.nodes != [] ==>
          |sh.below| == |t.subs| == |v.schema[t.entity].edges|
          && forall k :: 0 <= k < |t.subs| ==>
               (sh.below[k].Some? <==> t.subs[k].Some?)
               && (t.subs[k].Some? ==>
                     AllHoldData(v, t.subs[k].value, v.schema[t.entity].edges[k].O2M?, sh.below[k].value)))
  }

  ghost predicate DataOfSomeRow(v: Env, t: Tree, keys: bool, rec: Record)
    requires t.entity in v.schema
  {
    exists row <- Table(v.db, t.entity) :: HasData(v.schema[t.entity], t, keys, row, rec)
  }

  lemma StoredRow(v: Env, t: Tree, keys: bool, row: Row)
    requires EnvOK(v) && t.entity in v.schema && row in Table(v.db, t.entity)
    ensures HasData(v.schema[t.entity], t, keys, row,
        RecordOf(v.schema[t.entity], NodeColumns(v.schema[t.entity], t, keys), row))
  {
    hide HasData;
    RecordHasData(v.schema[t.entity], t, keys, row);
  }

  lemma {:induction false} ShownData(v: Env, t: Tree, keys: bool, rows: seq<Row>, sh: Shape)
    requires EnvOK(v) && SubsFit(v, t) && Shows(v, t, keys, rows, sh)
    requires forall row <- rows :: row in Table(v.db, t.entity)
    ensures AllHoldData(v, t, keys, sh)
    decreases sh
  {
    hide EnvOK, HasData, NodeColumns, EdgeBatch, Dealt, FitsSchema;
    ShownRead(v, t, keys, rows, sh);
    forall i | 0 <= i < |sh.nodes| ensures DataOfSomeRow(v, t, keys, sh.nodes[i].rec) {
      StoredRow(v, t, keys, rows[i]);
    }
    if rows != [] {
      forall k | 0 <= k < |t.subs| && t.subs[k].Some?
        ensures sh.below[k].Some?
        ensures AllHoldData(v, t.subs[k].value, v.schema[t.entity].edges[k].O2M?, sh.below[k].value)
      {
        var e, S := v.schema[t.entity].edges[k], t.subs[k].value;
        ShownEdge(v, t, keys, rows, sh, k);
        BatchInTable(v, e, S, rows);
        ShownData(v, S, e.O2M?, EdgeBatch(v, e, S, rows), sh.below[k].value);
      }
    }
  }

  lemma BatchInTable(v: Env, e: Edge, S: Tree, rows: seq<Row>)
    requires EnvOK(v) && Shapes.Fresh(v, e, S)
    ensures forall row <- EdgeBatch(v, e, S, rows) :: row in Table(v.db, S.entity)
  {
    hide EnvOK, EdgeBatch, Sorted, AllHold, UniqueIDs;
    BatchRows(v, e, S, rows);
    var batch := EdgeBatch(v, e, S, rows);
    forall row | row in batch ensures row in Table(v.db, S.entity) {
      var j :| 0 <= j < |batch| && batch[j] == row;
    }
  }

  /** The source of the rows does not matter. */
  lemma SameHasData(e: Entity, t: Tree, p: Tree, row: Row, rec: Record)
    requires p == t.(sql := p.sql)
    ensures HasData(e, p, false, row, rec) <==> HasData(e, t, false, row, rec)
  {
    hide HasValue, ValueOf;
    forall c: string ensures Chosen(e, p, c) <==> Chosen(e, t, c) {
    }
  }

  lemma SameData(v: Env, t: Tree, p: Tree, sh: Shape)
    requires p == t.(sql := p.sql)
    ensures AllHoldData(v, p, false, sh) ==> AllHoldData(v, t, false, sh)
  {
    hide HasData;
    if AllHoldData(v, p, false, sh) {
      forall i | 0 <= i < |sh.nodes| ensures DataOfSomeRow(v, t, false, sh.nodes[i].rec) {
        SameSomeRow(v, t, p, sh.nodes[i].rec);
      }
    }
  }

  lemma SameSomeRow(v: Env, t: Tree, p: Tree, rec: Record)
    requires p == t.(sql := p.sql) && t.entity in v.schema && DataOfSomeRow(v, p, false, rec)
    ensures DataOfSomeRow(v, t, false, rec)
  {
    hide HasData;
    var row :| row in Table(v.db, t.entity) && HasData(v.schema[t.entity], p, false, row, rec);
    SameHasData(v.schema[t.entity], t, p, row, rec);
  }

  /** What the nodes of an executed query hold, at every depth; those of the query itself are in the order of its
      rows. */
  lemma LoadedData(v: Env, t: Tree, sh: Shape)
    requires Executable(v, t) && Loads(v, t, sh)
    ensures AllHoldData(v, t, false, sh)
    ensures t.entity in v.schema && |sh.nodes| == |AllRows(v, t)|
    ensures forall i :: 0 <= i < |sh.nodes| ==> HasData(v.schema[t.entity], t, false, AllRows(v, t)[i], sh.nodes[i].rec)
  {
    hide EnvOK, SubsFit, Shows, HasData, NodeColumns, AllHoldData, Stream;
    var p, rows := Prepared(t, v.db), AllRows(v, t);
    SameSubs(v, t, p);
    RunnableRoot(v, t);
    RowsInTable(v, p, None);
    ShownRead(v, p, false, rows, sh);
    ShownData(v, p, false, rows, sh);
    SameData(v, t, p, sh);
    forall i | 0 <= i < |sh.nodes| ensures HasData(v.schema[t.entity], t, false, rows[i], sh.nodes[i].rec) {
      StoredRow(v, p, false, rows[i]);
      SameHasData(v.schema[t.entity], t, p, rows[i], sh.nodes[i].rec);
    }
  }

  // ---- what is created is what is read ----

  /** The row holds what the creation set, and nothing else. */
  ghost predicate HoldsCreation(encode: int -> string, m: Entities.Creation, row: Row) {
    forall c: string :: c != "id" ==>
      CellAt(row, c) == if c in m.fields then Entities.Stored(encode, m.fields[c])
                        else if c in m.links then Int(m.links[c]) else Null
  }

  /** The content fits the entity, whose columns are all known to its type switches. */
  ghost predicate FitsEntity(e: Entity, encode: int -> string, m: Entities.Creation) {
    Entities.Codec(e, encode) && Entities.WellTyped(e, m) && forall c <- e.columns :: e.assignTag(c).Some?
  }

  lemma CreatedValue(e: Entity, encode: int -> string, m: Entities.Creation, row: Row, c: string)
    requires EntityOK(e) && Entities.Codec(e, encode) && Entities.WellTyped(e, m) && HoldsCreation(encode, m, row)
    ensures HasValue(e, row, c) <==> c in m.fields
    ensures c in m.fields ==> ValueOf(e, row, c) == m.fields[c] && c in e.columns
  {
  }

  lemma CreatedKey(e: Entity, encode: int -> string, m: Entities.Creation, row: Row, c: string)
    requires EntityOK(e) && Entities.WellTyped(e, m) && HoldsCreation(encode, m, row) && c in e.foreignKeys
    ensures CellAt(row, c) == if c in m.links then Int(m.links[c]) else Null
  {
  }

  lemma ReadFields(e: Entity, encode: int -> string, m: Entities.Creation, t: Tree, row: Row, rec: Record)
    requires EntityOK(e) && FitsEntity(e, encode, m)
    requires t.fields == [] && HoldsCreation(encode, m, row) && HasData(e, t, false, row, rec)
    ensures rec.vals == m.fields && rec.extra == map[]
  {
    forall c: string
      ensures HasValue(e, row, c) <==> c in m.fields
      ensures c in m.fields ==> ValueOf(e, row, c) == m.fields[c] && c in e.columns
    {
      CreatedValue(e, encode, m, row, c);
    }
    hide EntityOK, Entities.WellTyped, Entities.Codec, HoldsCreation, HasValue, ValueOf, ReadsKeys;
  }

  lemma ReadLinks(e: Entity, encode: int -> string, m: Entities.Creation, t: Tree, row: Row, rec: Record)
    requires EntityOK(e) && FitsEntity(e, encode, m)
    requires t.fields == [] && HoldsCreation(encode, m, row) && HasData(e, t, false, row, rec)
    ensures rec.fks == if ReadsKeys(e, t, false) then m.links else map[]
  {
    forall c | c in e.foreignKeys
      ensures CellAt(row, c) == if c in m.links then Int(m.links[c]) else Null
      ensures c !in e.columns
    {
      CreatedKey(e, encode, m, row, c);
    }
    assert forall c <- m.links :: c in e.foreignKeys;
    hide EntityOK, Entities.WellTyped, Entities.Codec, HoldsCreation, HasValue, ValueOf, ReadsKeys;
  }

  /** A row that holds a creation, read without a selection: every field that was set has the value that was set, every
      other field is zero, and so it is with the foreign keys if they are read. */
  lemma ReadCreation(e: Entity, encode: int -> string, m: Entities.Creation, t: Tree, row: Row, rec: Record)
    requires EntityOK(e) && FitsEntity(e, encode, m)
    requires t.fields == [] && HoldsCreation(encode, m, row) && HasData(e, t, false, row, rec)
    ensures rec == Record(row.id, m.fields, if ReadsKeys(e, t, false) then m.links else map[], map[])
  {
    hide EntityOK, FitsEntity, HoldsCreation, HasValue, ValueOf, ReadsKeys;
    ReadFields(e, encode, m, t, row, rec);
    ReadLinks(e, encode, m, t, row, rec);
  }

  /** The mutation that a creation is, under the defaults of its builder. */
  ghost predicate Creates(encode: int -> string, defaults: map<string, Value>, m: Entities.Creation,
                          rules: Runs.Rules, p: Runs.Patch) {
    && rules.createDefaults == Entities.FieldCells(encode, defaults)
    && p.given == Entities.FieldCells(encode, m.fields)
    && p.links == map c | c in m.links :: Runs.Link(Some(m.links[c]), false)
  }

  function WithDefaults(defaults: map<string, Value>, m: Entities.Creation): Entities.Creation {
    m.(fields := defaults + m.fields)
  }

  lemma NewRowHolds(encode: int -> string, defaults: map<string, Value>, m: Entities.Creation, rules: Runs.Rules,
                    p: Runs.Patch, row: Row, id: int)
    requires Creates(encode, defaults, m, rules, p) && m.links.Keys !! (defaults + m.fields).Keys
    requires Effects.NewCells(row, id, rules.createDefaults, p)
    ensures row.id == id && HoldsCreation(encode, WithDefaults(defaults, m), row)
  {
  }

  lemma FieldsApart(e: Entity, m: Entities.Creation)
    requires EntityOK(e) && Entities.WellTyped(e, m)
    ensures m.links.Keys !! m.fields.Keys
  {
  }

  /** A query of everything. */
  predicate Plain(t: Tree) {
    t.fields == [] && t.predicates == [] && t.path == None && t.limit == None && t.offset == None
  }

  lemma PlainReads(v: Env, t: Tree, row: Row) returns (i: nat)
    requires Executable(v, t) && Plain(t) && row in Table(v.db, t.entity)
    ensures t.entity in v.schema && i < |AllRows(v, t)| && AllRows(v, t)[i] == row
  {
    hide Executable, AllRows;
    Rows.RowsBeforeWindow(v, t);
    assert Rows.Unwindow(t) == t;
    var rows := AllRows(v, t);
    assert row in Rows.StartRows(v, t) && Rows.PassesAll(t.predicates, row);
    assert row in rows by {
      assert !Rows.Once(t) ==> multiset(rows)[row] == multiset(Rows.StartRows(v, t))[row];
    }
    i :| 0 <= i < |rows| && rows[i] == row;
  }

  /** A successful creation of m. */
  ghost predicate Created(schema: Runs.Schema, s: Runs.State, op: Runs.Op, encode: int -> string,
                          defaults: map<string, Value>, m: Entities.Creation)
  {
    && Soundness.SchemaOK(schema) && Soundness.KeysSound(s) && op.Create? && op.entity in schema.rules
    && Soundness.InversesOK(schema, op.entity, op.p) && Runs.Step(schema, s, op).1 == None
    && Creates(encode, defaults, m, schema.rules[op.entity], op.p)
  }

  lemma CreatedRow(schema: Runs.Schema, s: Runs.State, op: Runs.Op, encode: int -> string,
                   defaults: map<string, Value>, m: Entities.Creation) returns (row: Row)
    requires Created(schema, s, op, encode, defaults, m) && m.links.Keys !! (defaults + m.fields).Keys
    ensures row in Runs.RowsIn(Runs.Step(schema, s, op).0, op.entity) && row.id == s.next
    ensures HoldsCreation(encode, WithDefaults(defaults, m), row)
  {
    hide Soundness.SchemaOK, Soundness.KeysSound, Soundness.InversesOK, Runs.Step, Creates, HoldsCreation,
      Effects.NewCells, Effects.SameBut;
    Effects.CreateEffect(schema, s, op);
    row :| Runs.RowsIn(Runs.Step(schema, s, op).0, op.entity) == Runs.RowsIn(s, op.entity) + [row]
           && Effects.NewCells(row, s.next, schema.rules[op.entity].createDefaults, op.p);
    NewRowHolds(encode, defaults, m, schema.rules[op.entity], op.p, row, s.next);
  }

  /** From the create builder to the node of a query: after a successful creation, a query of everything returns a node
      with the new key and with exactly the data that was set, or set by default; with the foreign keys if it reads
      them. */
  lemma CreateThenAll(schema: Runs.Schema, s: Runs.State, op: Runs.Op, encode: int -> string,
                      defaults: map<string, Value>, m: Entities.Creation, v: Env, t: Tree, sh: Shape) returns (i: nat)
    requires Created(schema, s, op, encode, defaults, m)
    requires Executable(v, t) && Plain(t) && Loads(v, t, sh)
    requires Table(v.db, t.entity) == Runs.RowsIn(Runs.Step(schema, s, op).0, op.entity)
    requires FitsEntity(v.schema[t.entity], encode, WithDefaults(defaults, m))
    ensures t.entity in v.schema && i < |sh.nodes|
    ensures sh.nodes[i].rec == Record(s.next, defaults + m.fields,
                                      if ReadsKeys(v.schema[t.entity], t, false) then m.links else map[], map[])
  {
    hide Created, Runs.Step, Executable, Loads, Entities.Codec, Entities.WellTyped, EntityOK, HoldsCreation, HasData,
      ReadsKeys, AllRows;
    EntityFits(v, t);
    var e := v.schema[t.entity];
    FieldsApart(e, WithDefaults(defaults, m));
    var row := CreatedRow(schema, s, op, encode, defaults, m);
    i := PlainReads(v, t, row);
    LoadedData(v, t, sh);
    ReadCreation(e, encode, WithDefaults(defaults, m), t, row, sh.nodes[i].rec);
  }

  lemma EntityFits(v: Env, t: Tree)
    requires Executable(v, t)
    ensures t.entity in v.schema && EntityOK(v.schema[t.entity])
  {
    hide SubsFit;
  }
}
