/** Nodes in memory, the row callbacks of the graph layer, and the loops that hand neighbours to nodes. */
module Nodes {
  import opened Wrappers
  import opened Lists
  import opened Records
  import opened Store

  /** The value of one edge of a node: a list edge uses many, a unique edge uses one. */
  datatype Slot = Slot(many: seq<Node>, one: Option<Node>)

  const EMPTY_SLOT := Slot([], None)

  class Node {
    var rec: Record
    var edges: seq<Slot>
    var loaded: seq<bool>

    constructor (loaded: seq<bool>)
      ensures rec == EMPTY_RECORD && this.loaded == loaded
      ensures edges == seq(|loaded|, _ => EMPTY_SLOT)
    {
      rec := EMPTY_RECORD;
      edges := seq(|loaded|, _ => EMPTY_SLOT);
      this.loaded := loaded;
    }
  }

  function SetOf(nodes: seq<Node>): set<Node> {
    set n | n in nodes
  }

  // ---- the row stream ----

  predicate SeenID(ts: seq<Tuple>, id: int) {
    exists t <- ts :: t.row.id == id
  }

  /** The rows of a joined stream without repeats, in first-occurrence order. */
  function FirstRows(ts: seq<Tuple>): seq<Row> {
    if ts == [] then []
    else
      var n := |ts| - 1;
      FirstRows(ts[..n]) + (if SeenID(ts[..n], ts[n].row.id) then [] else [ts[n].row])
  }

  /** Each first row comes from the stream. */
  lemma {:induction false} FirstRowsFrom(ts: seq<Tuple>, r: Row)
    requires r in FirstRows(ts)
    ensures exists i :: 0 <= i < |ts| && ts[i].row == r
  {
    var n := |ts| - 1;
    if r in FirstRows(ts[..n]) {
      FirstRowsFrom(ts[..n], r);
      var i :| 0 <= i < n && ts[..n][i].row == r;
      assert ts[i].row == r;
    } else {
      assert ts[n].row == r;
    }
  }

  /** Each id of the stream has its first row. */
  lemma {:induction false} FirstRowsCover(ts: seq<Tuple>, id: int)
    requires SeenID(ts, id)
    ensures exists r <- FirstRows(ts) :: r.id == id
  {
    var n := |ts| - 1;
    if SeenID(ts[..n], id) {
      FirstRowsCover(ts[..n], id);
      var r :| r in FirstRows(ts[..n]) && r.id == id;
      assert r in FirstRows(ts);
    } else {
      assert ts == ts[..n] + [ts[n]];
      assert ts[n].row in FirstRows(ts);
    }
  }

  /** No id is repeated. */
  lemma {:induction false} FirstRowsUnique(ts: seq<Tuple>)
    ensures UniqueIDs(FirstRows(ts))
  {
    if ts != [] {
      var n := |ts| - 1;
      FirstRowsUnique(ts[..n]);
      var before := FirstRows(ts[..n]);
      forall i | 0 <= i < |before| && !SeenID(ts[..n], ts[n].row.id) ensures before[i].id != ts[n].row.id {
        FirstRowsFrom(ts[..n], before[i]);
      }
    }
  }

  /** First-occurrence order keeps the order of the stream. */
  lemma {:induction false} FirstRowsSorted(rank: Cell -> int, order: seq<SortTerm>, ts: seq<Tuple>)
    requires Sorted(rank, order, RowsOf(ts))
    ensures Sorted(rank, order, FirstRows(ts))
  {
    if ts != [] {
      var n := |ts| - 1;
      assert forall i :: 0 <= i < n ==> RowsOf(ts[..n])[i] == RowsOf(ts)[i];
      FirstRowsSorted(rank, order, ts[..n]);
      var before := FirstRows(ts[..n]);
      forall i | 0 <= i < |before| ensures !Before(rank, order, ts[n].row, before[i]) {
        FirstRowsFrom(ts[..n], before[i]);
        var p :| 0 <= p < n && ts[..n][p].row == before[i];
        assert RowsOf(ts)[p] == before[i] && RowsOf(ts)[n] == ts[n].row;
      }
    }
  }

  /** The rows that become nodes: all of them, or the first of each id in a joined stream. */
  function NodeRows(joined: bool, ts: seq<Tuple>): seq<Row> {
    if joined then FirstRows(ts) else RowsOf(ts)
  }

  predicate KeysIn(ts: seq<Tuple>, byID: map<int, Node>) {
    forall t <- ts :: t.key.Some? && t.key.value in byID
  }

  /** The owners that a joined stream pairs with a neighbour. */
  function OwnerIDs(ts: seq<Tuple>, id: int): set<int> {
    set t | t in ts && t.row.id == id && t.key.Some? :: t.key.value
  }

  function OwnersOf(ts: seq<Tuple>, byID: map<int, Node>, id: int): set<Node>
    requires KeysIn(ts, byID)
  {
    set t | t in ts && t.row.id == id :: byID[t.key.value]
  }

  lemma OwnersOfStep(ts: seq<Tuple>, byID: map<int, Node>, n: nat, id: int)
    requires n < |ts| && KeysIn(ts, byID)
    ensures KeysIn(ts[..n], byID) && KeysIn(ts[..n + 1], byID)
    ensures OwnersOf(ts[..n + 1], byID, id)
         == OwnersOf(ts[..n], byID, id) + (if ts[n].row.id == id then {byID[ts[n].key.value]} else {})
  {
    assert ts[..n + 1] == ts[..n] + [ts[n]];
  }

  /** The driver fills the scan destinations of one row; a joined row has the owner's key in front. */
  method ScanRow(e: Entity, columns: seq<string>, t: Tuple) returns (holders: seq<Holder>)
    ensures holders == (if t.key.Some? then [Holder(NullInt64, Int(t.key.value))] else []) + Filled(e, columns, t.row)
  {
    var tags := ScanValues(e, columns);
    var cells := Project(columns, t.row);
    if t.key.Some? {
      tags := [NullInt64] + tags;
      cells := [Int(t.key.value)] + cells;
    }
    holders := seq(|tags|, i requires 0 <= i < |tags| && |cells| == |tags| => Holder(tags[i], cells[i]));
  }

  ghost predicate AllReadable(e: Entity, ts: seq<Tuple>) {
    forall t <- ts :: Readable(e, t.row)
  }

  /** The entity's own Assign callback. */
  method NewNode(e: Entity, columns: seq<string>, holders: seq<Holder>, loaded: seq<bool>)
    returns (r: Result<Node, Error>)
    requires |columns| <= |holders|
    ensures r.Ok? <==> Assigned(e, columns, holders, EMPTY_RECORD).Ok?
    ensures r.Ok? ==> fresh(r.value) && Ok(r.value.rec) == Assigned(e, columns, holders, EMPTY_RECORD)
    ensures r.Ok? ==> r.value.edges == seq(|loaded|, _ => EMPTY_SLOT) && r.value.loaded == loaded
    ensures forall row :: EntityOK(e) && Readable(e, row) && holders == Filled(e, columns, row)
              ==> r.Ok? && r.value.rec == RecordOf(e, columns, row)
  {
    var node := new Node(loaded);
    var rec := AssignValues(e, columns, holders, node.rec);
    forall row | EntityOK(e) && Readable(e, row) && holders == Filled(e, columns, row)
      ensures rec == Ok(RecordOf(e, columns, row))
    {
      ScanThenAssign(e, columns, row, holders);
    }
    if rec.Err? {
      return Err(rec.error);
    }
    node.rec := rec.value;
    return Ok(node);
  }

  /** What the row callbacks have built: the nodes made from the rows, in order, all different objects. */
  ghost predicate Built(e: Entity, columns: seq<string>, rows: seq<Row>, loaded: seq<bool>, nodes: seq<Node>)
    reads SetOf(nodes)
  {
    && |nodes| == |rows| && NoDup(nodes)
    && forall i :: 0 <= i < |nodes| ==>
         && nodes[i].rec == RecordOf(e, columns, rows[i])
         && nodes[i].edges == seq(|loaded|, _ => EMPTY_SLOT)
         && nodes[i].loaded == loaded
  }

  lemma BuiltStep(e: Entity, columns: seq<string>, rows: seq<Row>, loaded: seq<bool>, nodes: seq<Node>, row: Row,
                  node: Node)
    requires Built(e, columns, rows, loaded, nodes) && node !in nodes
    requires node.rec == RecordOf(e, columns, row) && node.loaded == loaded
    requires node.edges == seq(|loaded|, _ => EMPTY_SLOT)
    ensures Built(e, columns, rows + [row], loaded, nodes + [node])
  {
  }

  /** QueryNodes over the entity's callbacks: one node a row. */
  method ScanNodes(e: Entity, columns: seq<string>, loaded: seq<bool>, ts: seq<Tuple>)
    returns (r: Result<seq<Node>, Error>)
    requires EntityOK(e)
    requires forall t <- ts :: t.key == None
    ensures AllReadable(e, ts) ==> r.Ok?
    ensures r.Ok? ==> fresh(SetOf(r.value))
    ensures r.Ok? && AllReadable(e, ts) ==> Built(e, columns, RowsOf(ts), loaded, r.value)
  {
    var nodes: seq<Node> := [];
    for i := 0 to |ts|
      invariant fresh(SetOf(nodes))
      invariant AllReadable(e, ts) ==> Built(e, columns, RowsOf(ts[..i]), loaded, nodes)
    {
      var holders := ScanRow(e, columns, ts[i]);
      assert holders == Filled(e, columns, ts[i].row);
      var node := NewNode(e, columns, holders, loaded);
      if node.Err? {
        return Err(node.error);
      }
      assert RowsOf(ts[..i + 1]) == RowsOf(ts[..i]) + [ts[i].row];
      if AllReadable(e, ts) {
        BuiltStep(e, columns, RowsOf(ts[..i]), loaded, nodes, ts[i].row, node.value);
      }
      assert SetOf(nodes + [node.value]) == SetOf(nodes) + {node.value};
      nodes := nodes + [node.value];
    }
    assert ts[..|ts|] == ts;
    return Ok(nodes);
  }

  /** nids has, for every neighbour seen, exactly the owners it was paired with. */
  ghost predicate Recorded(ts: seq<Tuple>, byID: map<int, Node>, nids: map<int, set<Node>>)
    requires KeysIn(ts, byID)
  {
    && (forall id :: id in nids <==> SeenID(ts, id))
    && (forall id <- nids :: nids[id] == OwnersOf(ts, byID, id))
  }

  lemma RecordedStep(ts: seq<Tuple>, byID: map<int, Node>, n: nat, nids: map<int, set<Node>>)
    requires n < |ts| && KeysIn(ts, byID) && KeysIn(ts[..n], byID) && KeysIn(ts[..n + 1], byID)
    requires Recorded(ts[..n], byID, nids)
    ensures var (id, owner) := (ts[n].row.id, byID[ts[n].key.value]);
            Recorded(ts[..n + 1], byID, nids[id := (if id in nids then nids[id] else {}) + {owner}])
  {
    assert ts[..n + 1] == ts[..n] + [ts[n]];
    forall id ensures OwnersOf(ts[..n + 1], byID, id)
                   == OwnersOf(ts[..n], byID, id) + (if ts[n].row.id == id then {byID[ts[n].key.value]} else {}) {
      OwnersOfStep(ts, byID, n, id);
    }
    if !SeenID(ts[..n], ts[n].row.id) {
      assert OwnersOf(ts[..n], byID, ts[n].row.id) == {};
    }
  }

  lemma NothingRecorded(ts: seq<Tuple>, byID: map<int, Node>)
    requires KeysIn(ts[..0], byID)
    ensures Recorded(ts[..0], byID, map[]) && FirstRows(ts[..0]) == []
  {
  }

  /** A neighbour is in nids exactly if it has been seen, and only an unseen one adds a row. */
  lemma SeenSoFar(ts: seq<Tuple>, byID: map<int, Node>, n: nat, nids: map<int, set<Node>>)
    requires n < |ts| && KeysIn(ts[..n], byID) && Recorded(ts[..n], byID, nids)
    ensures FirstRows(ts[..n + 1]) == FirstRows(ts[..n]) + (if ts[n].row.id in nids then [] else [ts[n].row])
  {
    assert ts[..n + 1][..n] == ts[..n];
  }

  /** QueryNodes over the callbacks that an M2M loader has wrapped around the entity's own: the first column is
      the owner's key, the second the neighbour's id, and only the first row of a neighbour makes a node. */
  method ScanJoined(e: Entity, columns: seq<string>, loaded: seq<bool>, ts: seq<Tuple>, byID: map<int, Node>)
    returns (r: Result<seq<Node>, Error>, nids: map<int, set<Node>>)
    requires EntityOK(e) && |columns| > 0 && columns[0] == "id"
    requires KeysIn(ts, byID)
    ensures AllReadable(e, ts) ==> r.Ok?
    ensures r.Ok? ==> fresh(SetOf(r.value)) && Recorded(ts, byID, nids)
    ensures r.Ok? && AllReadable(e, ts) ==> Built(e, columns, FirstRows(ts), loaded, r.value)
  {
    hide FirstRows, Recorded, EntityOK;
    var nodes: seq<Node> := [];
    nids := map[];
    NothingRecorded(ts, byID);
    for i := 0 to |ts|
      invariant fresh(SetOf(nodes))
      invariant AllReadable(e, ts) ==> Built(e, columns, FirstRows(ts[..i]), loaded, nodes)
      invariant KeysIn(ts[..i], byID) && Recorded(ts[..i], byID, nids)
    {
      assert ts[..i + 1][..i] == ts[..i];
      assert KeysIn(ts[..i + 1], byID);
      RecordedStep(ts, byID, i, nids);
      SeenSoFar(ts, byID, i, nids);
      var holders := ScanRow(e, columns, ts[i]);
      var outValue, inValue := SplitJoined(e, columns, ts[i], holders);
      if inValue !in nids {
        ghost var none: set<Node> := {};
        assert none + {byID[outValue]} == {byID[outValue]};
        nids := nids[inValue := {byID[outValue]}];
        var node := NewNode(e, columns, holders[1..], loaded);
        if node.Err? {
          return Err(node.error), nids;
        }
        if AllReadable(e, ts) {
          BuiltStep(e, columns, FirstRows(ts[..i]), loaded, nodes, ts[i].row, node.value);
        }
        assert SetOf(nodes + [node.value]) == SetOf(nodes) + {node.value};
        nodes := nodes + [node.value];
      } else {
        nids := nids[inValue := nids[inValue] + {byID[outValue]}];
      }
    }
    assert ts[..|ts|] == ts;
    return Ok(nodes), nids;
  }

  /** The two leading values of a joined row are integers (the type assertions succeed): the owner's key and,
      because the id is selected first, the neighbour's id. What is left is what an unjoined query scans. */
  method SplitJoined(e: Entity, columns: seq<string>, t: Tuple, holders: seq<Holder>)
    returns (outValue: int, inValue: int)
    requires EntityOK(e) && |columns| > 0 && columns[0] == "id" && t.key.Some?
    requires holders == [Holder(NullInt64, Int(t.key.value))] + Filled(e, columns, t.row)
    ensures outValue == t.key.value && inValue == t.row.id
    ensures holders[0].tag == NullInt64 && holders[1].tag == NullInt64
    ensures holders[1..] == Filled(e, columns, t.row)
  {
    assert holders[1] == Filled(e, columns, t.row)[0];
    outValue := IntOf(holders[0].cell);
    inValue := IntOf(holders[1].cell);
  }
}
