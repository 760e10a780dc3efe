/** Rows, scan holders and node records: the scanValues/assignValues pair of every entity. */
module Records {
  import opened Wrappers

  /** A database cell. */
  datatype Cell =
    | Null
    | Int(i: int)
    | Str(s: string)
    | Bool(b: bool)
    | Float(r: real)
    | Time(t: int)
    | Bytes(raw: string)

  /** A stored row; a column that is not in cells is NULL. */
  datatype Row = Row(id: int, cells: map<string, Cell>)

  function CellAt(row: Row, column: string): Cell {
    if column == "id" then Int(row.id)
    else if column in row.cells then row.cells[column]
    else Null
  }

  /** The Go type of a scan destination. */
  datatype Tag = NullInt64 | NullString | NullBool | NullFloat64 | NullTime | RawBytes | UnknownType

  /** A scan destination after the driver has filled it. */
  datatype Holder = Holder(tag: Tag, cell: Cell)

  /** A field value of a node: a scalar, or a decoded JSON document (documents are abstract tokens). */
  datatype Value = Plain(cell: Cell) | Document(doc: int)

  /** The data part of a node. A field that is not in vals has its zero value, a key not in fks is nil. */
  datatype Record = Record(id: int, vals: map<string, Value>, fks: map<string, int>, extra: map<string, Cell>)

  const EMPTY_RECORD := Record(0, map[], map[], map[])

  /** How one entity refers to another. In a join table the owner's id is in the first column,
      or in the second one when the edge is swapped. */
  datatype Edge =
    | M2M(name: string, target: string, table: string, swapped: bool)
    | O2M(name: string, target: string, column: string)
    | M2O(name: string, target: string, column: string)

  /** The generated description of one entity: its columns and the two type switches. */
  datatype Entity = Entity(
    columns: seq<string>,
    foreignKeys: seq<string>,
    edges: seq<Edge>,
    scanTag: string -> Tag,
    assignTag: string -> Option<Tag>,
    decode: string -> Option<int>)

  /** What the generator guarantees of an entity. */
  ghost predicate EntityOK(e: Entity) {
    && |e.columns| > 0 && e.columns[0] == "id"
    && "id" !in e.columns[1..] && "id" !in e.foreignKeys
    && (forall c <- e.foreignKeys :: c !in e.columns)
    && e.assignTag("id") == Some(NullInt64)
    && (forall c <- e.foreignKeys :: e.assignTag(c) == Some(NullInt64))
    && (forall c: string :: e.assignTag(c).Some? ==> e.scanTag(c) == e.assignTag(c).value)
  }

  predicate Fits(decode: string -> Option<int>, tag: Tag, cell: Cell) {
    match tag
    case NullInt64 => cell.Null? || cell.Int?
    case NullString => cell.Null? || cell.Str?
    case NullBool => cell.Null? || cell.Bool?
    case NullFloat64 => cell.Null? || cell.Float?
    case NullTime => cell.Null? || cell.Time?
    case RawBytes => cell.Null? || (cell.Bytes? && (cell.raw == "" || decode(cell.raw).Some?))
    case UnknownType => true
  }

  /** The row's cells have the column types of the entity, and its JSON columns decode. */
  ghost predicate Readable(e: Entity, row: Row) {
    forall c: string :: Fits(e.decode, e.scanTag(c), CellAt(row, c))
  }

  function IntOf(c: Cell): int {
    if c.Int? then c.i else 0
  }

  /** One arm of the assignValues switch. */
  function AssignColumn(e: Entity, column: string, h: Holder, rec: Record): Result<Record, Error> {
    match e.assignTag(column)
    case None => Ok(rec.(extra := rec.extra[column := h.cell]))
    case Some(tag) =>
      if h.tag != tag then Err(TypeMismatch(column))
      else if column == "id" then Ok(rec.(id := IntOf(h.cell)))
      else if h.cell.Null? then Ok(rec)
      else if column in e.foreignKeys then Ok(rec.(fks := rec.fks[column := IntOf(h.cell)]))
      else if tag == RawBytes then
        if h.cell == Bytes("") || !h.cell.Bytes? then Ok(rec)
        else match e.decode(h.cell.raw)
          case None => Err(BadJSON(column))
          case Some(d) => Ok(rec.(vals := rec.vals[column := Document(d)]))
      else Ok(rec.(vals := rec.vals[column := Plain(h.cell)]))
  }

  /** The switch applied to the first columns, stopping at the first error. */
  function Assigned(e: Entity, columns: seq<string>, holders: seq<Holder>, rec: Record): Result<Record, Error>
    requires |columns| <= |holders|
  {
    if columns == [] then Ok(rec)
    else
      var n := |columns| - 1;
      var r := Assigned(e, columns[..n], holders, rec);
      if r.Err? then r else AssignColumn(e, columns[n], holders[n], r.value)
  }

  /** The destinations for the given columns. */
  method ScanValues(e: Entity, columns: seq<string>) returns (tags: seq<Tag>)
    ensures |tags| == |columns|
    ensures forall i :: 0 <= i < |columns| ==> tags[i] == e.scanTag(columns[i])
  {
    tags := [];
    for i := 0 to |columns|
      invariant |tags| == i
      invariant forall j :: 0 <= j < i ==> tags[j] == e.scanTag(columns[j])
    {
      tags := tags + [e.scanTag(columns[i])];
    }
  }

  /** Assigns scanned values to a node's record. */
  method AssignValues(e: Entity, columns: seq<string>, holders: seq<Holder>, start: Record)
    returns (r: Result<Record, Error>)
    ensures |holders| < |columns| ==> r == Err(ValueCount)
    ensures |columns| <= |holders| ==> r == Assigned(e, columns, holders, start)
  {
    if |holders| < |columns| {
      return Err(ValueCount);
    }
    var rec := start;
    for i := 0 to |columns|
      invariant Assigned(e, columns[..i], holders, start) == Ok(rec)
    {
      assert columns[..i + 1][..i] == columns[..i];
      var step := AssignColumn(e, columns[i], holders[i], rec);
      if step.Err? {
        FirstErrorStays(e, columns, holders, start, i + 1);
        return step;
      }
      rec := step.value;
    }
    assert columns[..|columns|] == columns;
    return Ok(rec);
  }

  lemma {:induction false} FirstErrorStays(e: Entity, columns: seq<string>, holders: seq<Holder>, rec: Record, i: nat)
    requires i <= |columns| <= |holders|
    requires Assigned(e, columns[..i], holders, rec).Err?
    ensures Assigned(e, columns, holders, rec) == Assigned(e, columns[..i], holders, rec)
  {
    if i == |columns| {
      assert columns[..i] == columns;
    } else {
      var n := |columns| - 1;
      assert columns[..n][..i] == columns[..i];
      FirstErrorStays(e, columns[..n], holders, rec, i);
    }
  }

  // ---- what a record says about the row it was read from ----

  predicate HasValue(e: Entity, row: Row, c: string) {
    && c != "id" && c !in e.foreignKeys && e.assignTag(c).Some?
    && var cell := CellAt(row, c);
       if e.assignTag(c) == Some(RawBytes) then cell.Bytes? && cell != Bytes("") && e.decode(cell.raw).Some?
       else !cell.Null?
  }

  function ValueOf(e: Entity, row: Row, c: string): Value
    requires HasValue(e, row, c)
  {
    if e.assignTag(c) == Some(RawBytes) then Document(e.decode(CellAt(row, c).raw).value)
    else Plain(CellAt(row, c))
  }

  function ValuesOf(e: Entity, columns: seq<string>, row: Row): map<string, Value> {
    map c | c in columns && HasValue(e, row, c) :: ValueOf(e, row, c)
  }

  function KeysOf(e: Entity, columns: seq<string>, row: Row): map<string, int> {
    map c | c in columns && c in e.foreignKeys && !CellAt(row, c).Null? :: IntOf(CellAt(row, c))
  }

  function ExtraOf(e: Entity, columns: seq<string>, row: Row): map<string, Cell> {
    map c | c in columns && e.assignTag(c).None? :: CellAt(row, c)
  }

  /** The record of a row under a column selection: it depends only on which columns are selected. */
  function RecordOf(e: Entity, columns: seq<string>, row: Row): Record {
    Record(if "id" in columns then row.id else 0,
           ValuesOf(e, columns, row), KeysOf(e, columns, row), ExtraOf(e, columns, row))
  }

  /** The driver's part: the destinations made by scanValues, filled from the row. */
  function Filled(e: Entity, columns: seq<string>, row: Row): seq<Holder> {
    seq(|columns|, i requires 0 <= i < |columns| => Holder(e.scanTag(columns[i]), CellAt(row, columns[i])))
  }

  /** One more selected column is one more arm of the switch. */
  lemma OneMoreColumn(e: Entity, columns: seq<string>, c: string, row: Row)
    requires EntityOK(e) && Fits(e.decode, e.scanTag(c), CellAt(row, c))
    ensures AssignColumn(e, c, Holder(e.scanTag(c), CellAt(row, c)), RecordOf(e, columns, row))
         == Ok(RecordOf(e, columns + [c], row))
  {
    var cell := CellAt(row, c);
    var next := columns + [c];
    assert forall d :: d in next <==> d in columns || d == c;
    assert ValuesOf(e, next, row)
        == if HasValue(e, row, c) then ValuesOf(e, columns, row)[c := ValueOf(e, row, c)]
            else ValuesOf(e, columns, row);
    assert KeysOf(e, next, row)
        == if c in e.foreignKeys && !cell.Null? then KeysOf(e, columns, row)[c := IntOf(cell)]
           else KeysOf(e, columns, row);
    assert ExtraOf(e, next, row)
        == if e.assignTag(c).None? then ExtraOf(e, columns, row)[c := cell] else ExtraOf(e, columns, row);
  }

  /** Whatever the columns (any order, repeats, unknown names), assigning what was scanned never meets
      a type mismatch, and yields exactly the record of the row. */
  lemma {:induction false} ScanThenAssign(e: Entity, columns: seq<string>, row: Row, holders: seq<Holder>)
    requires EntityOK(e) && Readable(e, row)
    requires |columns| <= |holders|
    requires forall i :: 0 <= i < |columns| ==> holders[i] == Holder(e.scanTag(columns[i]), CellAt(row, columns[i]))
    ensures Assigned(e, columns, holders, EMPTY_RECORD) == Ok(RecordOf(e, columns, row))
  {
    if columns == [] {
      assert RecordOf(e, columns, row) == EMPTY_RECORD;
    } else {
      var n := |columns| - 1;
      ScanThenAssign(e, columns[..n], row, holders);
      assert Fits(e.decode, e.scanTag(columns[n]), CellAt(row, columns[n]));
      OneMoreColumn(e, columns[..n], columns[n], row);
      assert columns == columns[..n] + [columns[n]];
    }
  }
}
