/** The accounts and API keys of the repository: their columns, type switches and edges, and what a created row says
    when it is read again. */
module Entities {
  import opened Wrappers
  import opened Records
  import opened Runs

  // ---- what is created is what is read ----

  /** The content of a create mutation: field values, and the ids of its unique edges by foreign-key column. */
  datatype Creation = Creation(fields: map<string, Value>, links: map<string, int>)

  function Stored(encode: int -> string, v: Value): Cell {
    match v
    case Plain(cell) => cell
    case Document(doc) => Bytes(encode(doc))
  }

  /** The setters are typed: a field holds a value of its column's type, and there is no setter for NULL. */
  ghost predicate WellTyped(e: Entity, m: Creation) {
    && (forall f <- m.fields :: f in e.columns && f != "id" && e.assignTag(f).Some?)
    && (forall f <- m.fields ::
          match m.fields[f]
          case Plain(cell) => !cell.Null? && e.assignTag(f) != Some(RawBytes) &&
              Fits(e.decode, e.assignTag(f).value, cell)
          case Document(_) => e.assignTag(f) == Some(RawBytes))
    && (forall c <- m.links :: c in e.foreignKeys)
  }

  /** JSON documents are encoded to some text, and decode to what they were. */
  ghost predicate Codec(e: Entity, encode: int -> string) {
    forall d: int :: encode(d) != "" && e.decode(encode(d)) == Some(d)
  }

  function Present<T>(names: seq<string>, m: map<string, T>): map<string, T> {
    map f | f in names && f in m :: m[f]
  }

  lemma PresentMore<T>(names: seq<string>, n: nat, m: map<string, T>)
    requires n < |names|
    ensures Present(names[..n + 1], m)
         == if names[n] in m then Present(names[..n], m)[names[n] := m[names[n]]] else Present(names[..n], m)
  {
    assert forall f :: f in names[..n + 1] <==> f in names[..n] || f == names[n];
  }

  function FieldCells(encode: int -> string, vals: map<string, Value>): map<string, Cell> {
    map f | f in vals :: Stored(encode, vals[f])
  }

  function LinkCells(links: map<string, int>): map<string, Cell> {
    map c | c in links :: Int(links[c])
  }

  lemma FieldCellsMore(encode: int -> string, vals: map<string, Value>, f: string, v: Value)
    ensures FieldCells(encode, vals[f := v]) == FieldCells(encode, vals)[f := Stored(encode, v)]
  {
  }

  lemma LinkCellsMore(cells: map<string, Cell>, links: map<string, int>, c: string, id: int)
    ensures cells + LinkCells(links[c := id]) == (cells + LinkCells(links))[c := Int(id)]
  {
  }

  lemma NothingYet<T>(names: seq<string>, m: map<string, T>, encode: int -> string, cells: map<string, Cell>)
    ensures Present(names[..0], m) == map[] && FieldCells(encode, map[]) == map[] && cells + LinkCells(map[]) == cells
  {
  }

  /** The node that createSpec builds, and the row that it inserts. */
  ghost predicate Made(e: Entity, encode: int -> string, m: Creation, node: Record, cells: map<string, Cell>) {
    && node == Record(0, Present(e.columns, m.fields), Present(e.foreignKeys, m.links), map[])
    && cells == FieldCells(encode, Present(e.columns, m.fields)) + LinkCells(Present(e.foreignKeys, m.links))
  }

  /** createSpec: every field that the mutation has goes to the spec and to the node, one block a column, and so does
      every unique edge. */
  method CreateSpec(e: Entity, encode: int -> string, m: Creation) returns (node: Record, cells: map<string, Cell>)
    ensures Made(e, encode, m, node, cells)
  {
    hide Present, FieldCells, LinkCells, Stored;
    var vals: map<string, Value>, fks: map<string, int> := map[], map[];
    cells := map[];
    NothingYet(e.columns, m.fields, encode, cells);
    for i := 0 to |e.columns|
      invariant vals == Present(e.columns[..i], m.fields) && cells == FieldCells(encode, vals)
    {
      var f := e.columns[i];
      PresentMore(e.columns, i, m.fields);
      if f in m.fields {
        FieldCellsMore(encode, vals, f, m.fields[f]);
        cells := cells[f := Stored(encode, m.fields[f])];
        vals := vals[f := m.fields[f]];
      }
    }
    assert e.columns[..|e.columns|] == e.columns;
    NothingYet(e.foreignKeys, m.links, encode, cells);
    for i := 0 to |e.foreignKeys|
      invariant fks == Present(e.foreignKeys[..i], m.links) && cells == FieldCells(encode, vals) + LinkCells(fks)
    {
      var c := e.foreignKeys[i];
      PresentMore(e.foreignKeys, i, m.links);
      if c in m.links {
        LinkCellsMore(FieldCells(encode, vals), fks, c, m.links[c]);
        cells := cells[c := Int(m.links[c])];
        fks := fks[c := m.links[c]];
      }
    }
    assert e.foreignKeys[..|e.foreignKeys|] == e.foreignKeys;
    node := Record(0, vals, fks, map[]);
  }

  /** Reading the inserted row with all columns and foreign keys never fails and gives the node that create returned,
      field by field: what was not set is NULL in the row, and nil or zero in the node. */
  lemma WriteThenRead(e: Entity, encode: int -> string, m: Creation, id: int, node: Record, cells: map<string, Cell>,
                      holders: seq<Holder>)
    requires EntityOK(e) && Codec(e, encode) && WellTyped(e, m) && Made(e, encode, m, node, cells)
    requires (forall c <- e.columns :: e.assignTag(c).Some?)
    requires var columns := e.columns + e.foreignKeys;
             |holders| == |columns|
             && forall i :: 0 <= i < |columns| ==>
                 holders[i] == Holder(e.scanTag(columns[i]), CellAt(Row(id, cells), columns[i]))
    ensures Assigned(e, e.columns + e.foreignKeys, holders, EMPTY_RECORD) == Ok(node.(id := id))
  {
    var columns, row := e.columns + e.foreignKeys, Row(id, cells);
    StoredReadable(e, encode, m, id, node, cells);
    ScanThenAssign(e, columns, row, holders);
    assert "id" == columns[0];
    StoredFields(e, encode, m, id, node, cells);
    StoredLinks(e, encode, m, id, node, cells);
    assert RecordOf(e, columns, row).extra == map[];
  }

  /** The content of a create mutation as the state machine of stored rows takes it. */
  function PatchOf(encode: int -> string, m: Creation): Patch {
    Patch(FieldCells(encode, m.fields), map[], {}, map c | c in m.links :: Link(Some(m.links[c]), false), [])
  }

  /** The row that createSpec makes is the row that the state machine stores. */
  lemma CreationIsPatch(e: Entity, encode: int -> string, m: Creation, id: int, node: Record, cells: map<string, Cell>)
    requires WellTyped(e, m) && Made(e, encode, m, node, cells)
    ensures Row(id, cells) == NewRow(id, PatchOf(encode, m))
  {
    AllPresent(e, m);
    PatchLinks(encode, m, id);
  }

  lemma AllPresent(e: Entity, m: Creation)
    requires WellTyped(e, m)
    ensures Present(e.columns, m.fields) == m.fields && Present(e.foreignKeys, m.links) == m.links
  {
    hide Fits;
  }

  lemma PatchLinks(encode: int -> string, m: Creation, id: int)
    ensures NewRow(id, PatchOf(encode, m)) == Row(id, FieldCells(encode, m.fields) + LinkCells(m.links))
  {
    hide FieldCells;
    var p := PatchOf(encode, m);
    assert (map c | c in p.links && p.links[c].dest.Some? :: Int(p.links[c].dest.value)) == LinkCells(m.links);
  }

  lemma StoredCell(e: Entity, encode: int -> string, m: Creation, id: int, node: Record, cells: map<string, Cell>,
                   c: string)
    requires EntityOK(e) && WellTyped(e, m) && Made(e, encode, m, node, cells)
    ensures CellAt(Row(id, cells), c)
         == if c == "id" then Int(id)
            else if c in m.fields then Stored(encode, m.fields[c])
            else if c in m.links then Int(m.links[c])
            else Null
  {
  }

  lemma StoredReadable(e: Entity, encode: int -> string, m: Creation, id: int, node: Record, cells: map<string, Cell>)
    requires EntityOK(e) && Codec(e, encode) && WellTyped(e, m) && Made(e, encode, m, node, cells)
    ensures Readable(e, Row(id, cells))
  {
    hide Made;
    forall c: string ensures Fits(e.decode, e.scanTag(c), CellAt(Row(id, cells), c)) {
      StoredCell(e, encode, m, id, node, cells, c);
      assert e.assignTag(c).Some? ==> e.scanTag(c) == e.assignTag(c).value;
    }
  }

  lemma StoredFields(e: Entity, encode: int -> string, m: Creation, id: int, node: Record, cells: map<string, Cell>)
    requires EntityOK(e) && Codec(e, encode) && WellTyped(e, m) && Made(e, encode, m, node, cells)
    ensures ValuesOf(e, e.columns + e.foreignKeys, Row(id, cells)) == node.vals
  {
    assert node.vals == m.fields;
    hide Made;
    forall c: string
      ensures HasValue(e, Row(id, cells), c) <==> c in m.fields
      ensures c in m.fields ==> ValueOf(e, Row(id, cells), c) == m.fields[c]
    {
      StoredCell(e, encode, m, id, node, cells, c);
    }
  }

  lemma StoredLinks(e: Entity, encode: int -> string, m: Creation, id: int, node: Record, cells: map<string, Cell>)
    requires EntityOK(e) && WellTyped(e, m) && Made(e, encode, m, node, cells)
    ensures KeysOf(e, e.columns + e.foreignKeys, Row(id, cells)) == node.fks
  {
    assert node.fks == m.links;
    hide Made;
    forall c: string | c in e.foreignKeys
      ensures !CellAt(Row(id, cells), c).Null? <==> c in m.links
      ensures c in m.links ==> IntOf(CellAt(Row(id, cells), c)) == m.links[c]
    {
      StoredCell(e, encode, m, id, node, cells, c);
    }
  }

  /** Create, and a later read of the row with all columns and foreign keys. */
  method CreateThenRead(e: Entity, encode: int -> string, defaults: map<string, Value>, m: Creation, id: int)
    returns (node: Record, read: Result<Record, Error>)
    requires EntityOK(e) && Codec(e, encode) && WellTyped(e, m.(fields := defaults + m.fields))
    requires forall c <- e.columns :: e.assignTag(c).Some?
    ensures node == Record(id, defaults + m.fields, m.links, map[]) && read == Ok(node)
  {
    hide EntityOK, Codec, Assigned;
    var full := m.(fields := defaults + m.fields);
    var created, cells := CreateSpec(e, encode, full);
    node := created.(id := id);
    var columns, row := e.columns + e.foreignKeys, Row(id, cells);
    var tags := ScanValues(e, columns);
    var holders := seq(|columns|, i requires 0 <= i < |columns| && i < |tags| =>
                         Holder(tags[i], CellAt(row, columns[i])));
    read := AssignValues(e, columns, holders, EMPTY_RECORD);
    WriteThenRead(e, encode, full, id, created, cells, holders);
    assert Present(e.columns, full.fields) == full.fields && Present(e.foreignKeys, m.links) == m.links;
  }

  // ---- the entities ----

  function AccountScanTag(c: string): Tag {
    match c
    case "credentials" | "extra" => RawBytes
    case "upstream_is_pool" => NullBool
    case "rate_multiplier" => NullFloat64
    case "id" | "priority" | "max_concurrency" => NullInt64
    case "name" | "platform" | "type" | "state" | "error_msg" => NullString
    case "state_until" | "last_used_at" | "created_at" | "updated_at" => NullTime
    case "account_proxy" => NullInt64
    case _ => UnknownType
  }

  function AccountAssignTag(c: string): Option<Tag> {
    match c
    case "id" => Some(NullInt64)
    case "name" => Some(NullString)
    case "platform" => Some(NullString)
    case "type" => Some(NullString)
    case "credentials" => Some(RawBytes)
    case "state" => Some(NullString)
    case "state_until" => Some(NullTime)
    case "priority" => Some(NullInt64)
    case "max_concurrency" => Some(NullInt64)
    case "rate_multiplier" => Some(NullFloat64)
    case "error_msg" => Some(NullString)
    case "upstream_is_pool" => Some(NullBool)
    case "last_used_at" => Some(NullTime)
    case "extra" => Some(RawBytes)
    case "created_at" => Some(NullTime)
    case "updated_at" => Some(NullTime)
    case "account_proxy" => Some(NullInt64)
    case _ => None
  }

  const ACCOUNT_COLUMNS := [
    "id", "name", "platform", "type", "credentials", "state", "state_until", "priority", "max_concurrency",
    "rate_multiplier", "error_msg", "upstream_is_pool", "last_used_at", "extra", "created_at", "updated_at"]

  function Account(decode: string -> Option<int>): Entity {
    Entity(ACCOUNT_COLUMNS, ["account_proxy"],
           [M2M("groups", "groups", "account_groups", false),
            M2O("proxy", "proxies", "account_proxy"),
            O2M("usage_logs", "usage_logs", "account_usage_logs"),
            O2M("events", "account_events", "account_events")],
           AccountScanTag, AccountAssignTag, decode)
  }

  lemma AccountTags(c: string)
    ensures AccountAssignTag(c).Some? ==> AccountScanTag(c) == AccountAssignTag(c).value
  {
  }

  lemma AccountColumn(i: nat)
    requires i < |ACCOUNT_COLUMNS|
    ensures ACCOUNT_COLUMNS[i] == "id" <==> i == 0
    ensures ACCOUNT_COLUMNS[i] != "account_proxy" && AccountAssignTag(ACCOUNT_COLUMNS[i]).Some?
  {
  }

  /** What the switches of an account know is a column or a foreign key. */
  lemma AccountKnows(c: string)
    ensures AccountScanTag(c) != UnknownType <==> c in ACCOUNT_COLUMNS || c == "account_proxy"
    ensures AccountAssignTag(c).Some? <==> c in ACCOUNT_COLUMNS || c == "account_proxy"
  {
  }

  /** The two generated switches of an account agree on every column name. */
  lemma AccountOK(decode: string -> Option<int>)
    ensures EntityOK(Account(decode)) && forall c <- Account(decode).columns :: AccountAssignTag(c).Some?
  {
    hide AccountScanTag;
    assert AccountAssignTag("id") == Some(NullInt64) && AccountAssignTag("account_proxy") == Some(NullInt64);
    hide AccountAssignTag;
    forall i | 0 <= i < |ACCOUNT_COLUMNS|
      ensures ACCOUNT_COLUMNS[i] == "id" <==> i == 0
      ensures ACCOUNT_COLUMNS[i] != "account_proxy" && AccountAssignTag(ACCOUNT_COLUMNS[i]).Some?
    {
      AccountColumn(i);
    }
    forall c: string | AccountAssignTag(c).Some? ensures AccountScanTag(c) == AccountAssignTag(c).value {
      AccountTags(c);
    }
  }

  function APIKeyScanTag(c: string): Tag {
    match c
    case "ip_whitelist" | "ip_blacklist" => RawBytes
    case "quota_usd" | "used_quota" | "used_quota_actual" | "sell_rate" => NullFloat64
    case "id" | "max_concurrency" => NullInt64
    case "name" | "key_hint" | "key_hash" | "key_encrypted" | "status" => NullString
    case "expires_at" | "created_at" | "updated_at" => NullTime
    case "department_api_keys" => NullInt64
    case "group_api_keys" => NullInt64
    case "member_api_keys" => NullInt64
    case "user_api_keys" => NullInt64
    case _ => UnknownType
  }

  function APIKeyAssignTag(c: string): Option<Tag> {
    match c
    case "id" => Some(NullInt64)
    case "name" => Some(NullString)
    case "key_hint" => Some(NullString)
    case "key_hash" => Some(NullString)
    case "key_encrypted" => Some(NullString)
    case "ip_whitelist" => Some(RawBytes)
    case "ip_blacklist" => Some(RawBytes)
    case "quota_usd" => Some(NullFloat64)
    case "used_quota" => Some(NullFloat64)
    case "used_quota_actual" => Some(NullFloat64)
    case "sell_rate" => Some(NullFloat64)
    case "max_concurrency" => Some(NullInt64)
    case "expires_at" => Some(NullTime)
    case "status" => Some(NullString)
    case "created_at" => Some(NullTime)
    case "updated_at" => Some(NullTime)
    case "department_api_keys" => Some(NullInt64)
    case "group_api_keys" => Some(NullInt64)
    case "member_api_keys" => Some(NullInt64)
    case "user_api_keys" => Some(NullInt64)
    case _ => None
  }

  const API_KEY_COLUMNS := [
    "id", "name", "key_hint", "key_hash", "key_encrypted", "ip_whitelist", "ip_blacklist", "quota_usd", "used_quota",
    "used_quota_actual", "sell_rate", "max_concurrency", "expires_at", "status", "created_at", "updated_at"]

  const API_KEY_FOREIGN_KEYS := ["department_api_keys", "group_api_keys", "member_api_keys", "user_api_keys"]

  function APIKey(decode: string -> Option<int>): Entity {
    Entity(API_KEY_COLUMNS, API_KEY_FOREIGN_KEYS,
           [M2O("user", "users", "user_api_keys"),
            M2O("group", "groups", "group_api_keys"),
            M2O("member", "members", "member_api_keys"),
            M2O("department", "departments", "department_api_keys"),
            O2M("usage_logs", "usage_logs", "api_key_usage_logs")],
           APIKeyScanTag, APIKeyAssignTag, decode)
  }

  lemma APIKeyTags(c: string)
    ensures APIKeyAssignTag(c).Some? ==> APIKeyScanTag(c) == APIKeyAssignTag(c).value
  {
  }

  lemma APIKeyColumn(i: nat)
    requires i < |API_KEY_COLUMNS|
    ensures API_KEY_COLUMNS[i] == "id" <==> i == 0
    ensures API_KEY_COLUMNS[i] !in API_KEY_FOREIGN_KEYS && APIKeyAssignTag(API_KEY_COLUMNS[i]).Some?
  {
  }

  /** What the switches of an API key know is a column or a foreign key. */
  lemma APIKeyKnows(c: string)
    ensures APIKeyScanTag(c) != UnknownType <==> c in API_KEY_COLUMNS || c in API_KEY_FOREIGN_KEYS
    ensures APIKeyAssignTag(c).Some? <==> c in API_KEY_COLUMNS || c in API_KEY_FOREIGN_KEYS
  {
  }

  /** The two generated switches of an API key agree on every column name, its four foreign keys included. */
  lemma APIKeyOK(decode: string -> Option<int>)
    ensures EntityOK(APIKey(decode)) && forall c <- APIKey(decode).columns :: APIKeyAssignTag(c).Some?
  {
    hide APIKeyScanTag;
    forall c | c in API_KEY_FOREIGN_KEYS ensures c != "id" && APIKeyAssignTag(c) == Some(NullInt64) {
    }
    assert APIKeyAssignTag("id") == Some(NullInt64);
    hide APIKeyAssignTag;
    forall i | 0 <= i < |API_KEY_COLUMNS|
      ensures API_KEY_COLUMNS[i] == "id" <==> i == 0
      ensures API_KEY_COLUMNS[i] !in API_KEY_FOREIGN_KEYS && APIKeyAssignTag(API_KEY_COLUMNS[i]).Some?
    {
      APIKeyColumn(i);
    }
    forall c: string | APIKeyAssignTag(c).Some? ensures APIKeyScanTag(c) == APIKeyAssignTag(c).value {
      APIKeyTags(c);
    }
  }
}
