/** The loops of the loaders that do not query: indexing the nodes and handing each neighbour to its owners. */
module Distribute {
  import opened Wrappers
  import opened Lists
  import opened Records
  import opened Nodes

  /** Only edge k of the node may have changed. */
  twostate predicate OnlyEdge(n: Node, k: nat)
    reads n
  {
    && n.rec == old(n.rec) && n.loaded == old(n.loaded) && |n.edges| == old(|n.edges|)
    && forall j :: 0 <= j < |n.edges| && j != k ==> n.edges[j] == old(n.edges)[j]
  }

  function IDsOf(nodes: seq<Node>): (ids: seq<int>)
    reads SetOf(nodes)
    ensures |ids| == |nodes|
    ensures forall i :: 0 <= i < |nodes| ==> ids[i] == nodes[i].rec.id
  {
    seq(|nodes|, i requires 0 <= i < |nodes| reads SetOf(nodes) => nodes[i].rec.id)
  }

  lemma LastIndexStep(ids: seq<int>, n: nat, x: int)
    requires n < |ids| && x in ids[..n + 1]
    ensures ids[n] != x ==> x in ids[..n]
    ensures LastIndex(ids[..n + 1], x) == if ids[n] == x then n else LastIndex(ids[..n], x)
  {
    assert ids[..n + 1][..n] == ids[..n];
  }

  /** byID has the last node of each id. */
  ghost predicate Indexed(nodes: seq<Node>, ids: seq<int>, byID: map<int, Node>)
    requires |ids| == |nodes|
  {
    && (forall id :: id in byID <==> id in ids)
    && (forall id <- ids :: byID[id] == nodes[LastIndex(ids, id)])
  }

  /** The first loop of the list loaders: collect the ids, index the nodes by id, start every list empty. */
  method IndexByID(nodes: seq<Node>, k: nat) returns (ids: seq<int>, byID: map<int, Node>)
    requires forall n <- nodes :: k < |n.edges|
    modifies SetOf(nodes)
    ensures forall n <- nodes :: OnlyEdge(n, k) && n.edges[k] == old(n.edges[k]).(many := [])
    ensures ids == IDsOf(nodes) && Indexed(nodes, ids, byID)
  {
    ids, byID := [], map[];
    for i := 0 to |nodes|
      invariant forall n <- nodes :: OnlyEdge(n, k) && n.edges[k].one == old(n.edges[k]).one
      invariant forall n <- nodes :: n.edges[k].many in {[], old(n.edges[k].many)}
      invariant forall j :: 0 <= j < i ==> nodes[j].edges[k].many == []
      invariant ids == IDsOf(nodes[..i]) && Indexed(nodes[..i], ids, byID)
    {
      ghost var before, was := ids, byID;
      var node := nodes[i];
      ids := ids + [node.rec.id];
      byID := byID[node.rec.id := node];
      node.edges := node.edges[k := node.edges[k].(many := [])];
      assert ids[..i] == before && ids[..i + 1] == ids;
      forall id | id in ids ensures byID[id] == nodes[..i + 1][LastIndex(ids, id)] {
        LastIndexStep(ids, i, id);
        if id != node.rec.id {
          assert was[id] == nodes[..i][LastIndex(before, id)];
        }
      }
    }
    assert nodes[..|nodes|] == nodes;
  }

  /** The index of a set of nodes: byID is a partial inverse of the id. */
  ghost predicate KeyedByID(byID: map<int, Node>, all: set<Node>)
    reads all
  {
    forall id <- byID :: byID[id] in all && byID[id].rec.id == id
  }

  lemma IndexedKeyed(nodes: seq<Node>, byID: map<int, Node>)
    requires Indexed(nodes, IDsOf(nodes), byID)
    ensures KeyedByID(byID, SetOf(nodes))
  {
    forall id | id in byID ensures byID[id] in SetOf(nodes) && byID[id].rec.id == id {
      assert id in IDsOf(nodes);
    }
  }

  /** The owner named by the foreign key of each neighbour. */
  function KeyOwners(column: string, recs: seq<Record>): (owners: seq<set<int>>)
    ensures |owners| == |recs|
    ensures forall j :: 0 <= j < |recs| ==> owners[j] == if column in recs[j].fks then {recs[j].fks[column]} else {}
  {
    seq(|recs|, j requires 0 <= j < |recs| => if column in recs[j].fks then {recs[j].fks[column]} else {})
  }

  function RecsOf(nodes: seq<Node>): (recs: seq<Record>)
    reads SetOf(nodes)
    ensures |recs| == |nodes|
    ensures forall i :: 0 <= i < |nodes| ==> recs[i] == nodes[i].rec
  {
    seq(|nodes|, i requires 0 <= i < |nodes| reads SetOf(nodes) => nodes[i].rec)
  }

  /** What a hand-out leaves alone. */
  twostate predicate OnlyLists(byID: map<int, Node>, all: set<Node>, k: nat)
    reads all
  {
    forall n <- all ::
      && OnlyEdge(n, k) && k < |n.edges| && n.edges[k].one == old(n.edges)[k].one
      && (n !in byID.Values ==> n.edges == old(n.edges))
  }

  function ListsOf(byID: map<int, Node>, all: set<Node>, k: nat): map<int, seq<Node>>
    requires KeyedByID(byID, all) && forall n <- all :: k < |n.edges|
    reads all
  {
    map id | id in byID :: byID[id].edges[k].many
  }

  /** The lists after one neighbour has been appended to the lists of the given ids. */
  function Appended<N>(lists: map<int, seq<N>>, ids: set<int>, n: N): map<int, seq<N>> {
    map id | id in lists :: lists[id] + (if id in ids then [n] else [])
  }

  lemma AppendedNone<N>(lists: map<int, seq<N>>, n: N)
    ensures Appended(lists, {}, n) == lists
  {
    forall id | id in lists ensures Appended(lists, {}, n)[id] == lists[id] {
      assert lists[id] + [] == lists[id];
    }
  }

  lemma AppendedMore<N>(lists: map<int, seq<N>>, ids: set<int>, at: int, n: N)
    requires at !in ids
    ensures Appended(Appended(lists, ids, n), {at}, n) == Appended(lists, ids + {at}, n)
  {
    var l, r := Appended(Appended(lists, ids, n), {at}, n), Appended(lists, ids + {at}, n);
    forall id | id in lists ensures l[id] == r[id] {
      assert lists[id] + [] == lists[id];
      assert r[id] + [] == r[id];
    }
  }

  /** The lists after a hand-out of the given neighbours; owners[j] are the ids that get neighbour j. */
  function HandedOut<N>(lists: map<int, seq<N>>, neighbors: seq<N>, owners: seq<set<int>>): map<int, seq<N>>
    requires |neighbors| == |owners|
  {
    map id | id in lists :: lists[id] + Share(neighbors, owners, id)
  }

  lemma HandedOutNone<N>(lists: map<int, seq<N>>, neighbors: seq<N>, owners: seq<set<int>>)
    requires |neighbors| == |owners|
    ensures HandedOut(lists, neighbors[..0], owners[..0]) == lists
  {
    assert neighbors[..0] == [] && owners[..0] == [];
    forall id | id in lists ensures HandedOut(lists, neighbors[..0], owners[..0])[id] == lists[id] {
      assert lists[id] + [] == lists[id];
    }
  }

  lemma HandedOutStep<N>(lists: map<int, seq<N>>, neighbors: seq<N>, owners: seq<set<int>>, j: nat)
    requires |neighbors| == |owners| && j < |neighbors|
    ensures HandedOut(lists, neighbors[..j + 1], owners[..j + 1])
         == Appended(HandedOut(lists, neighbors[..j], owners[..j]), owners[j], neighbors[j])
  {
    var now, next := HandedOut(lists, neighbors[..j], owners[..j]),
        HandedOut(lists, neighbors[..j + 1], owners[..j + 1]);
    forall id | id in lists ensures next[id] == now[id] + (if id in owners[j] then [neighbors[j]] else []) {
      ShareStep(neighbors, owners, id, j);
    }
  }

  /** assign: append a neighbour to one list. */
  method AppendTo(byID: map<int, Node>, ghost all: set<Node>, k: nat, id: int, n: Node)
    requires id in byID && KeyedByID(byID, all) && forall m <- all :: k < |m.edges|
    modifies byID[id]
    ensures OnlyLists(byID, all, k) && KeyedByID(byID, all)
    ensures ListsOf(byID, all, k) == Appended(old(ListsOf(byID, all, k)), {id}, n)
  {
    var node := byID[id];
    ghost var before := ListsOf(byID, all, k);
    node.edges := node.edges[k := node.edges[k].(many := node.edges[k].many + [n])];
    ghost var after := ListsOf(byID, all, k);
    forall x | x in byID ensures after[x] == Appended(before, {id}, n)[x] {
      if x != id {
        assert byID[x] != node;
        assert before[x] + [] == before[x];
      }
    }
  }

  /** The nodes with the given ids. */
  function Targets(byID: map<int, Node>, ids: set<int>): set<Node>
    requires ids <= byID.Keys
  {
    set id | id in ids :: byID[id]
  }

  lemma TargetsStep(byID: map<int, Node>, all: set<Node>, ids: set<int>, kn: Node)
    requires KeyedByID(byID, all) && ids <= byID.Keys && kn in Targets(byID, ids)
    ensures kn.rec.id in ids && byID[kn.rec.id] == kn
    ensures Targets(byID, ids - {kn.rec.id}) == Targets(byID, ids) - {kn}
  {
  }

  lemma NoTargets(byID: map<int, Node>, ids: set<int>)
    requires ids <= byID.Keys && Targets(byID, ids) == {}
    ensures ids == {}
  {
    assert forall id <- ids :: byID[id] in Targets(byID, ids);
  }

  /** The inner loop ranges over a Go map: whatever order it takes, each owner gets the neighbour once. */
  method AppendToAll(byID: map<int, Node>, ghost all: set<Node>, k: nat, targets: set<Node>, n: Node,
                     ghost ids: set<int>)
    requires KeyedByID(byID, all) && forall m <- all :: k < |m.edges|
    requires ids <= byID.Keys && targets == Targets(byID, ids)
    modifies all
    ensures OnlyLists(byID, all, k) && KeyedByID(byID, all)
    ensures ListsOf(byID, all, k) == Appended(old(ListsOf(byID, all, k)), ids, n)
  {
    hide Appended, Targets;
    var rest := targets;
    ghost var start := ListsOf(byID, all, k);
    ghost var left := ids;
    AppendedNone(start, n);
    assert ids - left == {};
    while rest != {}
      invariant OnlyLists(byID, all, k) && KeyedByID(byID, all)
      invariant left <= ids && rest == Targets(byID, left)
      invariant ListsOf(byID, all, k) == Appended(start, ids - left, n)
      decreases |rest|
    {
      var kn :| kn in rest;
      ghost var at := kn.rec.id;
      TargetsStep(byID, all, left, kn);
      AppendedMore(start, ids - left, at, n);
      assert (ids - left) + {at} == ids - (left - {at});
      AppendTo(byID, all, k, kn.rec.id, n);
      rest := rest - {kn};
      left := left - {at};
    }
    NoTargets(byID, left);
    assert ids - left == ids;
  }

  /** The last loop of an O2M loader: each neighbour goes to the node that its foreign key names. */
  method HandOutByKey(byID: map<int, Node>, ghost all: set<Node>, k: nat, column: string, neighbors: seq<Node>)
    returns (err: Option<Error>)
    requires KeyedByID(byID, all) && forall n <- all :: k < |n.edges|
    requires all !! SetOf(neighbors)
    modifies all
    ensures OnlyLists(byID, all, k) && KeyedByID(byID, all)
    ensures err == None <==> forall n <- neighbors :: column in n.rec.fks && n.rec.fks[column] in byID
    ensures err == None ==>
              (ListsOf(byID, all, k)
               == HandedOut(old(ListsOf(byID, all, k)), neighbors, KeyOwners(column, RecsOf(neighbors))))
  {
    ghost var recs := RecsOf(neighbors);
    ghost var owners := KeyOwners(column, recs);
    ghost var start := ListsOf(byID, all, k);
    HandedOutNone(start, neighbors, owners);
    for j := 0 to |neighbors|
      invariant OnlyLists(byID, all, k) && KeyedByID(byID, all)
      invariant forall i :: 0 <= i < j ==> column in recs[i].fks && recs[i].fks[column] in byID
      invariant ListsOf(byID, all, k) == HandedOut(start, neighbors[..j], owners[..j])
    {
      var n := neighbors[j];
      assert n.rec == recs[j];
      if column !in n.rec.fks {
        return Some(NilForeignKey(n.rec.id));
      }
      var fk := n.rec.fks[column];
      if fk !in byID {
        return Some(UnexpectedForeignKey(fk));
      }
      HandedOutStep(start, neighbors, owners, j);
      AppendTo(byID, all, k, fk, n);
    }
    assert neighbors[..|neighbors|] == neighbors && owners[..|owners|] == owners;
    return None;
  }

  /** The last loop of an M2M loader: each neighbour goes to every node it was paired with, in any order. */
  method HandOutPaired(byID: map<int, Node>, ghost all: set<Node>, k: nat, nids: map<int, set<Node>>,
                       neighbors: seq<Node>,
                       ghost owners: seq<set<int>>)
    returns (err: Option<Error>)
    requires KeyedByID(byID, all) && forall n <- all :: k < |n.edges|
    requires all !! SetOf(neighbors) && |owners| == |neighbors|
    requires forall j :: 0 <= j < |neighbors| && neighbors[j].rec.id in nids ==>
               owners[j] <= byID.Keys && nids[neighbors[j].rec.id] == Targets(byID, owners[j])
    modifies all
    ensures OnlyLists(byID, all, k) && KeyedByID(byID, all)
    ensures err == None <==> forall n <- neighbors :: n.rec.id in nids
    ensures err == None ==> ListsOf(byID, all, k) == HandedOut(old(ListsOf(byID, all, k)), neighbors, owners)
  {
    ghost var recs := RecsOf(neighbors);
    ghost var start := ListsOf(byID, all, k);
    HandedOutNone(start, neighbors, owners);
    for j := 0 to |neighbors|
      invariant OnlyLists(byID, all, k) && KeyedByID(byID, all)
      invariant forall i :: 0 <= i < j ==> recs[i].id in nids
      invariant ListsOf(byID, all, k) == HandedOut(start, neighbors[..j], owners[..j])
    {
      var n := neighbors[j];
      assert n.rec == recs[j];
      if n.rec.id !in nids {
        return Some(UnexpectedNode(n.rec.id));
      }
      HandedOutStep(start, neighbors, owners, j);
      AppendToAll(byID, all, k, nids[n.rec.id], n, owners[j]);
    }
    assert neighbors[..|neighbors|] == neighbors && owners[..|owners|] == owners;
    return None;
  }

  // ---- M2O ----

  function KeyOf(column: string, rec: Record): Option<int> {
    if column in rec.fks then Some(rec.fks[column]) else None
  }

  /** nodeids groups the nodes by their non-nil foreign key, and ids lists the keys once each. */
  ghost predicate Grouped(nodes: set<Node>, column: string, ids: seq<int>, nodeids: map<int, seq<Node>>)
    reads nodes
  {
    && NoDup(ids) && (forall id :: id in ids <==> id in nodeids)
    && (forall id <- nodeids, p <- nodeids[id] :: p in nodes && KeyOf(column, p.rec) == Some(id))
    && (forall p <- nodes :: KeyOf(column, p.rec).Some? ==>
          KeyOf(column, p.rec).value in nodeids && p in nodeids[KeyOf(column, p.rec).value])
    && (forall id <- nodeids :: nodeids[id] != [])
  }

  /** The key of each record. */
  function KeysHeld(column: string, recs: seq<Record>): (keys: seq<Option<int>>)
    ensures |keys| == |recs|
    ensures forall i :: 0 <= i < |recs| ==> keys[i] == KeyOf(column, recs[i])
  {
    seq(|recs|, i requires 0 <= i < |recs| => KeyOf(column, recs[i]))
  }

  /** One more node joins the group of its key. */
  lemma GroupedStep(nodes: set<Node>, p: Node, column: string, ids: seq<int>, nodeids: map<int, seq<Node>>)
    requires Grouped(nodes, column, ids, nodeids)
    ensures KeyOf(column, p.rec) == None ==> Grouped(nodes + {p}, column, ids, nodeids)
    ensures KeyOf(column, p.rec).Some? ==>
              var fk := KeyOf(column, p.rec).value;
              Grouped(nodes + {p}, column, if fk in nodeids then ids else ids + [fk],
                      nodeids[fk := (if fk in nodeids then nodeids[fk] else []) + [p]])
  {
  }

  lemma FirstKeysStep(keys: seq<Option<int>>, n: nat)
    requires n < |keys|
    ensures FirstKeys(keys[..n + 1])
         == if keys[n].Some? && keys[n].value !in FirstKeys(keys[..n]) then FirstKeys(keys[..n]) + [keys[n].value]
            else FirstKeys(keys[..n])
  {
    assert keys[..n + 1][..n] == keys[..n];
  }

  /** The first loop of an M2O loader: the keys in order of first occurrence, and the nodes of each key. */
  method GroupByKey(nodes: seq<Node>, column: string) returns (ids: seq<int>, nodeids: map<int, seq<Node>>)
    ensures Grouped(SetOf(nodes), column, ids, nodeids)
    ensures ids == FirstKeys(KeysHeld(column, RecsOf(nodes)))
  {
    hide FirstKeys, Grouped;
    ids, nodeids := [], map[];
    ghost var keys := KeysHeld(column, RecsOf(nodes));
    NothingGrouped(column, keys);
    assert SetOf(nodes[..0]) == {};
    for i := 0 to |nodes|
      invariant Grouped(SetOf(nodes[..i]), column, ids, nodeids)
      invariant (forall id :: id in ids <==> id in nodeids) && ids == FirstKeys(keys[..i])
    {
      assert SetOf(nodes[..i + 1]) == SetOf(nodes[..i]) + {nodes[i]};
      FirstKeysStep(keys, i);
      GroupedStep(SetOf(nodes[..i]), nodes[i], column, ids, nodeids);
      if column !in nodes[i].rec.fks {
        continue;
      }
      var fk := nodes[i].rec.fks[column];
      ghost var next := nodeids[fk := (if fk in nodeids then nodeids[fk] else []) + [nodes[i]]];
      if fk !in nodeids {
        ids := ids + [fk];
        nodeids := nodeids[fk := []];
      }
      nodeids := nodeids[fk := nodeids[fk] + [nodes[i]]];
      assert nodeids == next;
    }
    assert nodes[..|nodes|] == nodes && keys[..|nodes|] == keys;
  }

  lemma NothingGrouped(column: string, keys: seq<Option<int>>)
    ensures Grouped({}, column, [], map[]) && FirstKeys(keys[..0]) == []
  {
  }

  /** What setting unique edges leaves alone. */
  twostate predicate OnlyOnes(all: set<Node>, k: nat)
    reads all
  {
    forall n <- all :: OnlyEdge(n, k) && k < |n.edges| && n.edges[k].many == old(n.edges)[k].many
  }

  method AssignAll(targets: seq<Node>, ghost all: set<Node>, k: nat, n: Node)
    requires SetOf(targets) <= all && forall m <- all :: k < |m.edges|
    modifies all
    ensures OnlyOnes(all, k)
    ensures forall p <- all :: p.edges[k].one == if p in targets then Some(n) else old(p.edges[k].one)
  {
    for i := 0 to |targets|
      invariant OnlyOnes(all, k)
      invariant forall p <- all :: p.edges[k].one == if p in targets[..i] then Some(n) else old(p.edges[k].one)
    {
      var p := targets[i];
      assert p in all;
      p.edges := p.edges[k := p.edges[k].(one := Some(n))];
    }
    assert targets[..|targets|] == targets;
  }

  /** The neighbour with the given id, the last one should an id be repeated. */
  function Find<N>(ids: seq<int>, neighbors: seq<N>, key: Option<int>): Option<N>
    requires |ids| == |neighbors|
  {
    if key.Some? && key.value in ids then Some(neighbors[LastIndex(ids, key.value)]) else None
  }

  lemma FindStep<N>(ids: seq<int>, neighbors: seq<N>, key: Option<int>, j: nat)
    requires |ids| == |neighbors| && j < |ids|
    ensures Find(ids[..j + 1], neighbors[..j + 1], key)
         == if key == Some(ids[j]) then Some(neighbors[j]) else Find(ids[..j], neighbors[..j], key)
  {
    if key.Some? && key.value in ids[..j + 1] {
      LastIndexStep(ids, j, key.value);
    } else if key.Some? {
      assert ids[..j + 1] == ids[..j] + [ids[j]];
    }
  }

  /** The last loop of an M2O loader: each neighbour becomes the unique edge of all nodes with its id as key. */
  method HandOutOne(nodeids: map<int, seq<Node>>, ghost all: set<Node>, ghost ids: seq<int>, k: nat, column: string,
                    neighbors: seq<Node>)
    returns (err: Option<Error>)
    requires Grouped(all, column, ids, nodeids) && forall n <- all :: k < |n.edges|
    requires forall n <- all :: n.edges[k].one == None
    requires all !! SetOf(neighbors)
    modifies all
    ensures OnlyOnes(all, k)
    ensures err == None <==> forall n <- neighbors :: n.rec.id in nodeids
    ensures err == None ==>
              forall p <- all :: p.edges[k].one == Find(IDsOf(neighbors), neighbors, KeyOf(column, p.rec))
  {
    ghost var nids := IDsOf(neighbors);
    for j := 0 to |neighbors|
      invariant OnlyOnes(all, k)
      invariant forall i :: 0 <= i < j ==> nids[i] in nodeids
      invariant forall p <- all :: p.edges[k].one == Find(nids[..j], neighbors[..j], KeyOf(column, p.rec))
    {
      var n := neighbors[j];
      assert n.rec.id == nids[j];
      if n.rec.id !in nodeids {
        return Some(UnexpectedNode(n.rec.id));
      }
      forall p | p in all
        ensures Find(nids[..j + 1], neighbors[..j + 1], KeyOf(column, p.rec))
             == if KeyOf(column, p.rec) == Some(nids[j]) then Some(neighbors[j])
                else Find(nids[..j], neighbors[..j], KeyOf(column, p.rec))
      {
        FindStep(nids, neighbors, KeyOf(column, p.rec), j);
      }
      assert forall p <- all :: p in nodeids[n.rec.id] <==> KeyOf(column, p.rec) == Some(n.rec.id);
      AssignAll(nodeids[n.rec.id], all, k, n);
    }
    assert neighbors[..|neighbors|] == neighbors && nids[..|nids|] == nids;
    return None;
  }
}
