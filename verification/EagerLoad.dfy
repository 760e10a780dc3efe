/** sqlAll and the three kinds of edge loaders. */
module EagerLoad {
  import opened Wrappers
  import opened Lists
  import opened Records
  import opened Store
  import opened Queries
  import opened Nodes
  import opened Distribute
  import opened Joins
  import opened Batches
  import opened Shapes

  /** The builder can run: it fits the schema and its rows are rows of its table, with an owner's key exactly when
      a loader joins them to its nodes. */
  ghost predicate Runnable(v: Env, t: Tree, byID: Option<map<int, Node>>) {
    && SubsFit(v, t)
    && forall tu <- Stream(v, t) ::
         && tu.row in Table(v.db, t.entity)
         && if byID.Some? then tu.key.Some? && tu.key.value in byID.value else tu.key == None
  }

  /** A fresh builder of an eager-loaded edge. */
  ghost predicate SubReady(v: Env, e: Edge, sub: Query, S: Tree)
    reads sub, sub.Repr
  {
    sub.Valid() && sub.Snapshot() == S && Fresh(v, e, S) && SubsFit(v, S)
  }

  /** The loader's changes to the builder: the foreign keys of an O2M edge, and one more predicate. */
  method Narrow(v: Env, e: Edge, sub: Query, p: Predicate, ghost S: Tree, ghost rows: seq<Row>)
    returns (err: Option<Error>)
    requires SubReady(v, e, sub, S) && p == NarrowedBy(e, rows)
    modifies sub
    ensures sub.Valid() && sub.Repr == old(sub.Repr)
    ensures err == None <==> FieldsValid(v.schema[e.target], S.fields)
    ensures err == None ==> sub.Snapshot() == RunOf(e, S, rows)
  {
    if e.O2M? {
      sub.withFKs := true;
    }
    assert sub.Snapshot() == S.(withFKs := sub.withFKs) by {
      assert sub.Snapshot().subs == S.subs;
    }
    sub.Where([p]);
    err := sub.PrepareQuery(v.schema[e.target], v.db);
  }

  lemma RunsFilter(v: Env, e: Edge, S: Tree, rows: seq<Row>)
    requires EnvOK(v) && Fresh(v, e, S) && SubsFit(v, S) && !e.M2M?
    ensures Runnable(v, RunOf(e, S, rows), None)
  {
    hide EnvOK, NodeColumns, Holds, AllHold, Run, Unwindowed, AllStatement, FitsSchema;
    RunNarrowed(v, e, S, rows);
    FilteredBatch(v, e, S, NarrowedBy(e, rows), RunOf(e, S, rows));
    SameSubs(v, S, RunOf(e, S, rows));
  }

  lemma RunsJoin(v: Env, e: Edge, S: Tree, rows: seq<Row>, byID: map<int, Node>)
    requires EnvOK(v) && Fresh(v, e, S) && SubsFit(v, S) && e.M2M?
    requires forall id <- KeysOfRows(rows) :: id in byID
    ensures Runnable(v, RunOf(e, S, rows), Some(byID))
  {
    hide EnvOK, NodeColumns, Holds, AllHold, Run, Unwindowed, AllStatement, FitsSchema, Paired;
    RunNarrowed(v, e, S, rows);
    JoinedBatch(v, e, S, KeysOfRows(rows), RunOf(e, S, rows));
    SameSubs(v, S, RunOf(e, S, rows));
    forall t | t in EdgeStream(v, e, S, rows)
      ensures t.row in Table(v.db, e.target) && t.key.Some? && t.key.value in byID
    {
      PairedRow(v, e, S, KeysOfRows(rows), t);
    }
  }

  lemma FieldsOf(v: Env, t: Tree)
    requires t.entity in v.schema
    ensures AllFieldsValid(v, t) <==> FieldsValid(v.schema[t.entity], t.fields) && SubFieldsValid(v, t)
  {
  }

  lemma SameSubs(v: Env, t: Tree, u: Tree)
    requires t.subs == u.subs
    ensures t.entity == u.entity ==> (SubsFit(v, t) <==> SubsFit(v, u))
    ensures SubFieldsValid(v, t) <==> SubFieldsValid(v, u)
  {
  }

  lemma EnvEntity(v: Env, name: string)
    requires EnvOK(v) && name in v.schema
    ensures EntityOK(v.schema[name])
  {
  }

  // ---- the queries of the loaders ----

  /** The query of an O2M or M2O loader: All on the edge's builder (in state S), narrowed to the batch. */
  method Fetch(v: Env, e: Edge, sub: Query, p: Predicate, ghost S: Tree, ghost rows: seq<Row>, ghost nodes: seq<Node>)
    returns (r: Result<seq<Node>, Error>, ghost sh: Shape)
    requires EnvOK(v) && SubReady(v, e, sub, S) && !e.M2M? && p == NarrowedBy(e, rows)
    modifies sub.Repr
    ensures sub.Valid() && sub.Repr == old(sub.Repr) && fresh(NodesIn(sh))
    ensures AllFieldsValid(v, S) ==> r.Ok?
    ensures r.Ok? ==> sh.nodes == r.value && Shows(v, S, e.O2M?, EdgeBatch(v, e, S, rows), sh)
    ensures Kept(nodes) && NodesIn(sh) !! SetOf(nodes)
    decreases sub.Repr, 4
  {
    hide SubsFit, AllFieldsValid, SubFieldsValid, Shows, EnvOK, NarrowedBy, Stream;
    FieldsOf(v, S);
    sh := Shape([], []);
    var err := Narrow(v, e, sub, p, S, rows);
    if err.Some? {
      return Err(err.value), sh;
    }
    RunsFilter(v, e, S, rows);
    SameSubs(v, S, RunOf(e, S, rows));
    var nids;
    r, nids, sh := SqlAll(v, sub, None, RunOf(e, S, rows));
    if r.Ok? {
      NarrowedShows(v, e, S, rows, EdgeBatch(v, e, S, rows), sh);
    }
  }

  /** The query of an M2M loader: the join, with the row callbacks wrapped so that nids is filled. */
  method FetchJoined(v: Env, e: Edge, sub: Query, ids: seq<int>, byID: map<int, Node>, ghost S: Tree,
                     ghost rows: seq<Row>,
                     ghost nodes: seq<Node>)
    returns (r: Result<seq<Node>, Error>, nids: map<int, set<Node>>, ghost sh: Shape)
    requires EnvOK(v) && SubReady(v, e, sub, S) && e.M2M? && ids == KeysOfRows(rows)
    requires forall id <- ids :: id in byID
    modifies sub.Repr
    ensures sub.Valid() && sub.Repr == old(sub.Repr) && fresh(NodesIn(sh))
    ensures AllFieldsValid(v, S) ==> r.Ok?
    ensures r.Ok? ==> sh.nodes == r.value && Shows(v, S, false, EdgeBatch(v, e, S, rows), sh)
    ensures r.Ok? ==> KeysIn(EdgeStream(v, e, S, rows), byID) && Recorded(EdgeStream(v, e, S, rows), byID, nids)
    ensures Kept(nodes) && NodesIn(sh) !! SetOf(nodes)
    decreases sub.Repr, 4
  {
    hide SubsFit, AllFieldsValid, SubFieldsValid, Shows, EnvOK, Stream, Recorded;
    FieldsOf(v, S);
    nids, sh := map[], Shape([], []);
    var err := Narrow(v, e, sub, JoinIn(e.table, e.swapped, ids), S, rows);
    if err.Some? {
      return Err(err.value), nids, sh;
    }
    RunsJoin(v, e, S, rows, byID);
    SameSubs(v, S, RunOf(e, S, rows));
    r, nids, sh := SqlAll(v, sub, Some(byID), RunOf(e, S, rows));
    if r.Ok? {
      NarrowedShows(v, e, S, rows, EdgeBatch(v, e, S, rows), sh);
    }
  }

  twostate predicate Kept(nodes: seq<Node>)
    reads SetOf(nodes)
  {
    forall n <- nodes :: n.rec == old(n.rec) && n.edges == old(n.edges) && n.loaded == old(n.loaded)
  }

  /** What a query shows, and the nodes that it shows it on, as one argument for the two-state lemma. */
  datatype Showing = Showing(v: Env, t: Tree, fks: bool, rows: seq<Row>, sh: Shape, keep: set<Node>)

  twostate lemma ShowsStay(l: Showing)
    requires l.keep == NodesIn(l.sh) && unchanged(l.keep)
    requires old(Shows(l.v, l.t, l.fks, l.rows, l.sh))
    ensures Shows(l.v, l.t, l.fks, l.rows, l.sh)
  {
  }

  // ---- the list loaders ----

  /** The nodes that sqlAll has built from the rows, none of which has edge k yet. */
  ghost predicate Bare(k: nat, nodes: seq<Node>, rows: seq<Row>)
    reads SetOf(nodes)
  {
    && |rows| == |nodes| && NoDup(nodes)
    && forall i :: 0 <= i < |nodes| ==>
         nodes[i].rec.id == rows[i].id && k < |nodes[i].edges| && nodes[i].edges[k] == EMPTY_SLOT
  }

  lemma BareIDs(k: nat, nodes: seq<Node>, rows: seq<Row>)
    requires Bare(k, nodes, rows)
    ensures IDsOf(nodes) == KeysOfRows(rows)
  {
  }

  /** The last node of an id has the neighbours that the id owns, in order; an earlier node with the same id has
      none. */
  ghost predicate ListsHandedOut(k: nat, nodes: seq<Node>, ids: seq<int>, neighbors: seq<Node>, owners: seq<set<int>>)
    requires |ids| == |nodes| && |owners| == |neighbors|
    reads SetOf(nodes)
  {
    forall i :: 0 <= i < |nodes| ==>
      && k < |nodes[i].edges|
      && nodes[i].edges[k] == Slot(if IsLast(ids, i) then Share(neighbors, owners, ids[i]) else [], None)
  }

  lemma ListsFromIndex(k: nat, nodes: seq<Node>, ids: seq<int>, byID: map<int, Node>, neighbors: seq<Node>,
                       owners: seq<set<int>>, start: map<int, seq<Node>>)
    requires NoDup(nodes) && ids == IDsOf(nodes) && Indexed(nodes, ids, byID)
    requires KeyedByID(byID, SetOf(nodes)) && forall n <- nodes :: k < |n.edges| && n.edges[k].one == None
    requires |owners| == |neighbors| && start.Keys == byID.Keys && forall id <- start :: start[id] == []
    requires ListsOf(byID, SetOf(nodes), k) == HandedOut(start, neighbors, owners)
    requires forall n <- nodes :: n !in byID.Values ==> n.edges[k].many == []
    ensures ListsHandedOut(k, nodes, ids, neighbors, owners)
  {
    forall i | 0 <= i < |nodes|
      ensures nodes[i].edges[k].many == if IsLast(ids, i) then Share(neighbors, owners, ids[i]) else []
    {
      var id := nodes[i].rec.id;
      assert ids[i] == id;
      var last := LastIndex(ids, id);
      assert byID[id] == nodes[last];
      if i == last {
        assert ListsOf(byID, SetOf(nodes), k)[id] == [] + Share(neighbors, owners, id);
      } else {
        forall x | x in byID ensures byID[x] != nodes[i] {
          assert byID[x].rec.id == x;
        }
      }
    }
  }

  /** The nodes of a list loader after its first loop. */
  ghost predicate Indexable(k: nat, nodes: seq<Node>, ids: seq<int>, byID: map<int, Node>)
    reads SetOf(nodes)
  {
    && NoDup(nodes) && ids == IDsOf(nodes) && Indexed(nodes, ids, byID)
    && forall n <- nodes :: k < |n.edges| && n.edges[k] == EMPTY_SLOT
  }

  /** The last loop of an O2M loader. */
  method DealByKey(k: nat, column: string, nodes: seq<Node>, ids: seq<int>, byID: map<int, Node>, neighbors: seq<Node>,
                   ghost owners: seq<set<int>>)
    returns (err: Option<Error>)
    requires Indexable(k, nodes, ids, byID) && SetOf(neighbors) !! SetOf(nodes)
    requires owners == KeyOwners(column, RecsOf(neighbors))
    requires forall n <- neighbors :: column in n.rec.fks && n.rec.fks[column] in ids
    modifies SetOf(nodes)
    ensures forall n <- nodes :: OnlyEdge(n, k)
    ensures err == None && ListsHandedOut(k, nodes, ids, neighbors, owners)
  {
    hide IDsOf, HandedOut;
    IndexedKeyed(nodes, byID);
    ghost var start := ListsOf(byID, SetOf(nodes), k);
    assert forall id <- start :: start[id] == [];
    err := HandOutByKey(byID, SetOf(nodes), k, column, neighbors);
    ListsFromIndex(k, nodes, ids, byID, neighbors, owners, start);
  }

  /** The last loop of an M2M loader. */
  method DealPaired(k: nat, nodes: seq<Node>, ids: seq<int>, byID: map<int, Node>, neighbors: seq<Node>,
                    nids: map<int, set<Node>>, ghost owners: seq<set<int>>)
    returns (err: Option<Error>)
    requires Indexable(k, nodes, ids, byID) && SetOf(neighbors) !! SetOf(nodes)
    requires |owners| == |neighbors|
    requires forall j :: 0 <= j < |neighbors| ==>
               neighbors[j].rec.id in nids && owners[j] <= byID.Keys &&
                   nids[neighbors[j].rec.id] == Targets(byID, owners[j])
    modifies SetOf(nodes)
    ensures forall n <- nodes :: OnlyEdge(n, k)
    ensures err == None && ListsHandedOut(k, nodes, ids, neighbors, owners)
  {
    hide Targets, IDsOf, HandedOut;
    IndexedKeyed(nodes, byID);
    ghost var start := ListsOf(byID, SetOf(nodes), k);
    assert forall id <- start :: start[id] == [];
    err := HandOutPaired(byID, SetOf(nodes), k, nids, neighbors, owners);
    ListsFromIndex(k, nodes, ids, byID, neighbors, owners, start);
  }

  /** A loader is called with fresh nodes of the rows and with the builder, in state S, of the edge's query. */
  ghost predicate Loadable(v: Env, e: Edge, k: nat, sub: Query, S: Tree, nodes: seq<Node>, rows: seq<Row>)
    reads sub, sub.Repr, SetOf(nodes)
  {
    EnvOK(v) && SubReady(v, e, sub, S) && Bare(k, nodes, rows)
  }

  /** Lists handed out to the owners of the batch are the edge as it is to be dealt. */
  lemma ListsDealt(v: Env, e: Edge, k: nat, S: Tree, rows: seq<Row>, nodes: seq<Node>, sh: Shape)
    requires Fresh(v, e, S) && !e.M2O? && |nodes| == |rows| && Shows(v, S, e.O2M?, EdgeBatch(v, e, S, rows), sh)
    requires ListsHandedOut(k, nodes, KeysOfRows(rows), sh.nodes, EdgeOwners(v, e, S, rows))
    ensures ShowsEdge(v, e, k, S, rows, nodes, sh)
  {
    hide EdgeBatch, EdgeOwners;
  }

  method LoadO2M(v: Env, e: Edge, k: nat, sub: Query, nodes: seq<Node>, ghost rows: seq<Row>, ghost S: Tree)
    returns (err: Option<Error>, ghost sh: Shape)
    requires Loadable(v, e, k, sub, S, nodes, rows)
    requires e.O2M? && e.column in v.schema[e.target].foreignKeys
    modifies sub.Repr, SetOf(nodes)
    ensures sub.Valid() && sub.Repr == old(sub.Repr) && fresh(NodesIn(sh))
    ensures forall n <- nodes :: OnlyEdge(n, k)
    ensures AllFieldsValid(v, S) ==> err == None
    ensures err == None ==> ShowsEdge(v, e, k, S, rows, nodes, sh)
    decreases sub.Repr, 5
  {
    hide SubsFit, AllFieldsValid, EnvOK, EdgeBatch, EdgeOwners, Indexed, ShowsEdge, ListsHandedOut;
    BareIDs(k, nodes, rows);
    var ids, byID := IndexByID(nodes, k);
    var r;
    r, sh := Fetch(v, e, sub, ColumnIn(e.column, ids), S, rows, nodes);
    if r.Err? {
      return Some(r.error), sh;
    }
    NeighboursKeyed(v, e, S, rows, r.value);
    err := FinishO2M(v, e, k, nodes, ids, byID, r.value, rows, S, sh);
  }

  /** The last loop of an O2M loader, and what it makes of the edge. */
  method FinishO2M(v: Env, e: Edge, k: nat, nodes: seq<Node>, ids: seq<int>, byID: map<int, Node>, neighbors: seq<Node>,
                   ghost rows: seq<Row>, ghost S: Tree, ghost sh: Shape)
    returns (err: Option<Error>)
    requires Fresh(v, e, S) && e.O2M? && Indexable(k, nodes, ids, byID) && ids == KeysOfRows(rows)
    requires sh.nodes == neighbors && NodesIn(sh) !! SetOf(nodes) && Shows(v, S, true, EdgeBatch(v, e, S, rows), sh)
    requires KeyOwners(e.column, RecsOf(neighbors)) == EdgeOwners(v, e, S, rows)
    requires forall n <- neighbors :: e.column in n.rec.fks && n.rec.fks[e.column] in ids
    modifies SetOf(nodes)
    ensures forall n <- nodes :: OnlyEdge(n, k)
    ensures err == None && ShowsEdge(v, e, k, S, rows, nodes, sh)
  {
    hide Shows, ShowsEdge, EdgeBatch, EdgeOwners, ListsHandedOut, Indexed, KeyOwners;
    err := DealByKey(k, e.column, nodes, ids, byID, neighbors, EdgeOwners(v, e, S, rows));
    ShowsStay(Showing(v, S, true, EdgeBatch(v, e, S, rows), sh, NodesIn(sh)));
    ListsDealt(v, e, k, S, rows, nodes, sh);
  }

  lemma OwnersAreTargets(ts: seq<Tuple>, byID: map<int, Node>, id: int)
    requires KeysIn(ts, byID)
    ensures OwnerIDs(ts, id) <= byID.Keys && OwnersOf(ts, byID, id) == Targets(byID, OwnerIDs(ts, id))
  {
    var ids := OwnerIDs(ts, id);
    forall n | n in OwnersOf(ts, byID, id) ensures n in Targets(byID, ids) {
      var t :| t in ts && t.row.id == id && byID[t.key.value] == n;
      var x := t.key.value;
      assert x in ids && byID[x] == n;
    }
    forall n | n in Targets(byID, ids) ensures n in OwnersOf(ts, byID, id) {
      var x :| x in ids && byID[x] == n;
      var t :| t in ts && t.row.id == id && t.key == Some(x);
      assert byID[t.key.value] == n;
    }
  }

  /** The callbacks have recorded for each neighbour the nodes of its owners. */
  lemma NeighboursPaired(ts: seq<Tuple>, byID: map<int, Node>, nids: map<int, set<Node>>, neighbors: seq<Node>)
    requires KeysIn(ts, byID) && Recorded(ts, byID, nids) && IDsOf(neighbors) == KeysOfRows(FirstRows(ts))
    ensures forall j :: 0 <= j < |neighbors| ==>
              && neighbors[j].rec.id in nids && StreamOwnerIDs(ts)[j] <= byID.Keys
              && nids[neighbors[j].rec.id] == Targets(byID, StreamOwnerIDs(ts)[j])
  {
    hide Targets;
    forall j | 0 <= j < |neighbors|
      ensures neighbors[j].rec.id in nids && StreamOwnerIDs(ts)[j] <= byID.Keys
      ensures nids[neighbors[j].rec.id] == Targets(byID, StreamOwnerIDs(ts)[j])
    {
      assert IDsOf(neighbors)[j] == KeysOfRows(FirstRows(ts))[j];
      FirstRowsFrom(ts, FirstRows(ts)[j]);
      var i :| 0 <= i < |ts| && ts[i].row == FirstRows(ts)[j];
      assert ts[i] in ts;
      assert SeenID(ts, neighbors[j].rec.id);
      OwnersAreTargets(ts, byID, neighbors[j].rec.id);
    }
  }

  method LoadM2M(v: Env, e: Edge, k: nat, sub: Query, nodes: seq<Node>, ghost rows: seq<Row>, ghost S: Tree)
    returns (err: Option<Error>, ghost sh: Shape)
    requires Loadable(v, e, k, sub, S, nodes, rows) && e.M2M?
    modifies sub.Repr, SetOf(nodes)
    ensures sub.Valid() && sub.Repr == old(sub.Repr) && fresh(NodesIn(sh))
    ensures forall n <- nodes :: OnlyEdge(n, k)
    ensures AllFieldsValid(v, S) ==> err == None
    ensures err == None ==> ShowsEdge(v, e, k, S, rows, nodes, sh)
    decreases sub.Repr, 5
  {
    hide SubsFit, AllFieldsValid, EnvOK, EdgeStream, Indexed, ShowsEdge, ListsHandedOut, Recorded, FirstRows, Targets;
    BareIDs(k, nodes, rows);
    var ids, byID := IndexByID(nodes, k);
    assert forall id <- ids :: id in byID by {
      IndexedIDs(nodes, ids, byID);
    }
    var r, nids;
    r, nids, sh := FetchJoined(v, e, sub, ids, byID, S, rows, nodes);
    if r.Err? {
      return Some(r.error), sh;
    }
    MetNeighbours(v, e, S, rows, byID, nids, sh);
    err := FinishM2M(v, e, k, nodes, ids, byID, r.value, nids, rows, S, sh);
  }

  /** The last loop of an M2M loader, and what it makes of the edge. */
  method FinishM2M(v: Env, e: Edge, k: nat, nodes: seq<Node>, ids: seq<int>, byID: map<int, Node>, neighbors: seq<Node>,
                   nids: map<int, set<Node>>, ghost rows: seq<Row>, ghost S: Tree, ghost sh: Shape)
    returns (err: Option<Error>)
    requires Fresh(v, e, S) && e.M2M? && Indexable(k, nodes, ids, byID) && ids == KeysOfRows(rows)
    requires sh.nodes == neighbors && NodesIn(sh) !! SetOf(nodes) && Shows(v, S, false, EdgeBatch(v, e, S, rows), sh)
    requires |EdgeOwners(v, e, S, rows)| == |neighbors|
    requires forall j :: 0 <= j < |neighbors| ==>
               && neighbors[j].rec.id in nids && EdgeOwners(v, e, S, rows)[j] <= byID.Keys
               && nids[neighbors[j].rec.id] == Targets(byID, EdgeOwners(v, e, S, rows)[j])
    modifies SetOf(nodes)
    ensures forall n <- nodes :: OnlyEdge(n, k)
    ensures err == None && ShowsEdge(v, e, k, S, rows, nodes, sh)
  {
    hide Shows, ShowsEdge, EdgeBatch, EdgeOwners, ListsHandedOut, Indexed, Targets;
    err := DealPaired(k, nodes, ids, byID, neighbors, nids, EdgeOwners(v, e, S, rows));
    ShowsStay(Showing(v, S, false, EdgeBatch(v, e, S, rows), sh, NodesIn(sh)));
    ListsDealt(v, e, k, S, rows, nodes, sh);
  }

  lemma IndexedIDs(nodes: seq<Node>, ids: seq<int>, byID: map<int, Node>)
    requires |ids| == |nodes| && Indexed(nodes, ids, byID)
    ensures forall id :: id in byID <==> id in ids
  {
  }

  lemma MetNeighbours(v: Env, e: Edge, S: Tree, rows: seq<Row>, byID: map<int, Node>, nids: map<int, set<Node>>,
                      sh: Shape)
    requires EnvOK(v) && Fresh(v, e, S) && e.M2M? && Shows(v, S, false, EdgeBatch(v, e, S, rows), sh)
    requires KeysIn(EdgeStream(v, e, S, rows), byID) && Recorded(EdgeStream(v, e, S, rows), byID, nids)
    ensures var owners, neighbors := EdgeOwners(v, e, S, rows), sh.nodes;
            |owners| == |neighbors|
            && forall j :: 0 <= j < |neighbors| ==>
                 && neighbors[j].rec.id in nids && owners[j] <= byID.Keys
                 && nids[neighbors[j].rec.id] == Targets(byID, owners[j])
  {
    hide EdgeStream, Recorded, Targets;
    EnvEntity(v, e.target);
    ReadIDs(v, S, false, EdgeBatch(v, e, S, rows), sh.nodes);
    NeighboursPaired(EdgeStream(v, e, S, rows), byID, nids, sh.nodes);
  }

  // ---- M2O ----

  /** The foreign keys have been read. */
  ghost predicate KeysRead(e: Edge, nodes: seq<Node>, rows: seq<Row>)
    requires e.M2O?
    reads SetOf(nodes)
  {
    |rows| == |nodes| && forall i :: 0 <= i < |nodes| ==> KeyOf(e.column, nodes[i].rec) == RowKey(e.column, rows[i])
  }

  lemma KeysAlike(e: Edge, nodes: seq<Node>, rows: seq<Row>)
    requires e.M2O? && KeysRead(e, nodes, rows)
    ensures KeysHeld(e.column, RecsOf(nodes)) == RowKeys(e.column, rows)
  {
  }

  lemma NobodyNamed(batch: seq<Row>)
    requires forall j :: 0 <= j < |batch| ==> Holds(IDIn([]), batch[j])
    ensures batch == []
  {
    assert batch == [] || Holds(IDIn([]), batch[0]);
  }

  /** Without any key there is nothing to query for, and nothing to deal. */
  lemma NoKeys(v: Env, e: Edge, k: nat, S: Tree, nodes: seq<Node>, rows: seq<Row>)
    requires EnvOK(v) && Fresh(v, e, S) && SubsFit(v, S) && e.M2O? && FirstKeys(RowKeys(e.column, rows)) == []
    requires Bare(k, nodes, rows)
    ensures ShowsEdge(v, e, k, S, rows, nodes, Shape([], []))
  {
    hide EnvOK, SubsFit, AllHold, EdgeBatch;
    var batch := EdgeBatch(v, e, S, rows);
    BatchRows(v, e, S, rows);
    NobodyNamed(batch);
  }

  /** Every neighbour of the batch has one of the keys. */
  lemma NeighboursNamed(v: Env, e: Edge, S: Tree, rows: seq<Row>, sh: Shape)
    requires EnvOK(v) && Fresh(v, e, S) && e.M2O? && Shows(v, S, false, EdgeBatch(v, e, S, rows), sh)
    ensures IDsOf(sh.nodes) == KeysOfRows(EdgeBatch(v, e, S, rows))
    ensures forall n <- sh.nodes :: n.rec.id in FirstKeys(RowKeys(e.column, rows))
  {
    hide EdgeBatch, AllHold;
    EnvEntity(v, e.target);
    BatchRows(v, e, S, rows);
    ReadIDs(v, S, false, EdgeBatch(v, e, S, rows), sh.nodes);
    forall n | n in sh.nodes ensures n.rec.id in FirstKeys(RowKeys(e.column, rows)) {
      var j :| 0 <= j < |sh.nodes| && sh.nodes[j] == n;
      assert IDsOf(sh.nodes)[j] == KeysOfRows(EdgeBatch(v, e, S, rows))[j];
      assert Holds(NarrowedBy(e, rows), EdgeBatch(v, e, S, rows)[j]);
    }
  }

  ghost predicate OnesHandedOut(e: Edge, k: nat, rows: seq<Row>, nodes: seq<Node>, ids: seq<int>, neighbors: seq<Node>)
    requires e.M2O? && |rows| == |nodes| && |ids| == |neighbors|
    reads SetOf(nodes)
  {
    forall i :: 0 <= i < |nodes| ==>
      && k < |nodes[i].edges|
      && nodes[i].edges[k] == Slot([], Find(ids, neighbors, RowKey(e.column, rows[i])))
  }

  lemma OnesDealt(v: Env, e: Edge, k: nat, S: Tree, rows: seq<Row>, nodes: seq<Node>, sh: Shape)
    requires Fresh(v, e, S) && e.M2O? && |nodes| == |rows| && Shows(v, S, false, EdgeBatch(v, e, S, rows), sh)
    requires OnesHandedOut(e, k, rows, nodes, KeysOfRows(EdgeBatch(v, e, S, rows)), sh.nodes)
    ensures ShowsEdge(v, e, k, S, rows, nodes, sh)
  {
    hide EdgeBatch;
  }

  /** The last loop of an M2O loader. */
  method DealOnes(e: Edge, k: nat, nodes: seq<Node>, nodeids: map<int, seq<Node>>, neighbors: seq<Node>,
                  ghost rows: seq<Row>,
                  ghost keys: seq<int>, ghost ids: seq<int>)
    returns (err: Option<Error>)
    requires e.M2O? && KeysRead(e, nodes, rows) && Grouped(SetOf(nodes), e.column, keys, nodeids)
    requires Bare(k, nodes, rows) && SetOf(neighbors) !! SetOf(nodes)
    requires ids == IDsOf(neighbors) && forall n <- neighbors :: n.rec.id in keys
    modifies SetOf(nodes)
    ensures forall n <- nodes :: OnlyEdge(n, k)
    ensures err == None && OnesHandedOut(e, k, rows, nodes, ids, neighbors)
  {
    hide Find;
    err := HandOutOne(nodeids, SetOf(nodes), keys, k, e.column, neighbors);
    forall i | 0 <= i < |nodes|
      ensures k < |nodes[i].edges| && nodes[i].edges[k] == Slot([], Find(ids, neighbors, RowKey(e.column, rows[i])))
    {
      assert nodes[i] in SetOf(nodes);
    }
  }

  method LoadM2O(v: Env, e: Edge, k: nat, sub: Query, nodes: seq<Node>, ghost rows: seq<Row>, ghost S: Tree)
    returns (err: Option<Error>, ghost sh: Shape)
    requires Loadable(v, e, k, sub, S, nodes, rows) && e.M2O? && KeysRead(e, nodes, rows)
    modifies sub.Repr, SetOf(nodes)
    ensures sub.Valid() && sub.Repr == old(sub.Repr) && fresh(NodesIn(sh))
    ensures forall n <- nodes :: OnlyEdge(n, k)
    ensures AllFieldsValid(v, S) ==> err == None
    ensures err == None ==> ShowsEdge(v, e, k, S, rows, nodes, sh)
    decreases sub.Repr, 5
  {
    hide SubsFit, AllFieldsValid, EnvOK, EdgeBatch, Shows, ShowsEdge, OnesHandedOut, Find, FirstKeys, Grouped;
    KeysAlike(e, nodes, rows);
    var ids, nodeids := GroupByKey(nodes, e.column);
    if |ids| == 0 {
      sh := Shape([], []);
      NoKeys(v, e, k, S, nodes, rows);
      return None, sh;
    }
    var r;
    r, sh := Fetch(v, e, sub, IDIn(ids), S, rows, nodes);
    if r.Err? {
      return Some(r.error), sh;
    }
    NeighboursNamed(v, e, S, rows, sh);
    err := FinishM2O(v, e, k, nodes, ids, nodeids, r.value, rows, S, sh);
  }

  /** The last loop of an M2O loader, and what it makes of the edge. */
  method FinishM2O(v: Env, e: Edge, k: nat, nodes: seq<Node>, ids: seq<int>, nodeids: map<int, seq<Node>>,
                   neighbors: seq<Node>,
                   ghost rows: seq<Row>, ghost S: Tree, ghost sh: Shape)
    returns (err: Option<Error>)
    requires Fresh(v, e, S) && e.M2O? && KeysRead(e, nodes, rows) && Grouped(SetOf(nodes), e.column, ids, nodeids)
    requires Bare(k, nodes, rows) && sh.nodes == neighbors && NodesIn(sh) !! SetOf(nodes)
    requires Shows(v, S, false, EdgeBatch(v, e, S, rows), sh)
    requires IDsOf(neighbors) == KeysOfRows(EdgeBatch(v, e, S, rows))
    requires forall n <- neighbors :: n.rec.id in ids
    modifies SetOf(nodes)
    ensures forall n <- nodes :: OnlyEdge(n, k)
    ensures err == None && ShowsEdge(v, e, k, S, rows, nodes, sh)
  {
    hide Shows, ShowsEdge, EdgeBatch, OnesHandedOut, Grouped, KeysRead;
    err := DealOnes(e, k, nodes, nodeids, neighbors, rows, ids, IDsOf(neighbors));
    ShowsStay(Showing(v, S, false, EdgeBatch(v, e, S, rows), sh, NodesIn(sh)));
    OnesDealt(v, e, k, S, rows, nodes, sh);
  }

  // ---- the edges in turn ----

  /** Loads one edge into the nodes. */
  method LoadEdge(v: Env, e: Edge, k: nat, sub: Query, nodes: seq<Node>, ghost rows: seq<Row>, ghost S: Tree,
                  ghost keep: set<Node>)
    returns (err: Option<Error>, ghost sh: Shape)
    requires Loadable(v, e, k, sub, S, nodes, rows) && keep !! SetOf(nodes)
    requires e.O2M? ==> e.column in v.schema[e.target].foreignKeys
    requires e.M2O? ==> KeysRead(e, nodes, rows)
    modifies sub.Repr, SetOf(nodes)
    ensures sub.Valid() && sub.Repr == old(sub.Repr) && fresh(NodesIn(sh)) && NodesIn(sh) !! SetOf(nodes)
    ensures unchanged(keep)
    ensures forall n <- nodes :: OnlyEdge(n, k)
    ensures AllFieldsValid(v, S) ==> err == None
    ensures err == None ==> ShowsEdge(v, e, k, S, rows, nodes, sh)
    decreases sub.Repr, 6
  {
    hide SubsFit, AllFieldsValid, ShowsEdge, EnvOK;
    match e
    case M2M(_, _, _, _) => err, sh := LoadM2M(v, e, k, sub, nodes, rows, S);
    case O2M(_, _, _) => err, sh := LoadO2M(v, e, k, sub, nodes, rows, S);
    case M2O(_, _, _) => err, sh := LoadM2O(v, e, k, sub, nodes, rows, S);
  }

  /** From edge k on, the edges' builders are still in the state that S recorded. */
  ghost predicate Pending(v: Env, q: Query, es: seq<Edge>, S: Tree, k: nat)
    reads q, q.Repr
  {
    && q.Valid() && |q.subs| == |S.subs| == |es|
    && forall j :: k <= j < |es| ==>
         && (q.subs[j] == null <==> S.subs[j].None?)
         && (q.subs[j] != null ==> SubReady(v, es[j], q.subs[j], S.subs[j].value))
  }

  ghost predicate BareFrom(k: nat, count: nat, nodes: seq<Node>, rows: seq<Row>)
    reads SetOf(nodes)
  {
    && |rows| == |nodes| && NoDup(nodes)
    && forall i :: 0 <= i < |nodes| ==>
         && nodes[i].rec.id == rows[i].id && |nodes[i].edges| == count
         && forall j :: k <= j < count ==> nodes[i].edges[j] == EMPTY_SLOT
  }

  /** The edges before k are loaded. */
  ghost predicate DoneTo(v: Env, es: seq<Edge>, k: nat, S: Tree, nodes: seq<Node>, rows: seq<Row>,
                         below: seq<Option<Shape>>)
    reads SetOf(nodes), NodesBelow(below)
  {
    && |S.subs| == |es| && |below| == k <= |es|
    && forall j :: 0 <= j < k ==>
         if S.subs[j].Some? then below[j].Some? && ShowsEdge(v, es[j], j, S.subs[j].value, rows, nodes, below[j].value)
         else below[j].None? && NoEdge(j, nodes)
  }

  /** The state of sqlAll between two edges, as one argument for the two-state lemmas. */
  datatype Loading =
    Loading(v: Env, q: Query, es: seq<Edge>, S: Tree, nodes: seq<Node>, rows: seq<Row>, below: seq<Option<Shape>>,
            keep: set<Node>)

  /** A loaded edge and the nodes below it, as one argument for the two-state lemma. */
  datatype Loaded =
    Loaded(v: Env, e: Edge, j: nat, S: Tree, rows: seq<Row>, nodes: seq<Node>, sh: Shape, keep: set<Node>)

  /** The edges that were loaded before stay loaded. */
  twostate lemma EdgeStays(l: Loaded, new k: nat)
    requires l.j != k && l.keep == NodesIn(l.sh)
    requires old(ShowsEdge(l.v, l.e, l.j, l.S, l.rows, l.nodes, l.sh))
    requires unchanged(l.keep) && forall n <- l.nodes :: OnlyEdge(n, k)
    ensures ShowsEdge(l.v, l.e, l.j, l.S, l.rows, l.nodes, l.sh)
  {
    hide SlotFor, EdgeBatch, NodesIn;
    var nodes := l.nodes;
    assert Shows(l.v, l.S, l.e.O2M?, EdgeBatch(l.v, l.e, l.S, l.rows), l.sh);
    forall i | 0 <= i < |nodes| ensures l.j < |nodes[i].edges| && nodes[i].edges[l.j] == old(nodes[i].edges[l.j]) {
      assert nodes[i] in nodes;
    }
  }

  lemma BareAt(k: nat, count: nat, nodes: seq<Node>, rows: seq<Row>)
    requires BareFrom(k, count, nodes, rows) && k < count
    ensures Bare(k, nodes, rows)
  {
  }

  lemma BelowMore(below: seq<Option<Shape>>, more: Option<Shape>)
    ensures NodesBelow(below + [more]) == NodesBelow(below) + (if more.Some? then NodesIn(more.value) else {})
  {
    var all := below + [more];
    forall n | n in NodesBelow(below) ensures n in NodesBelow(all) {
      var k :| 0 <= k < |below| && below[k].Some? && n in NodesIn(below[k].value);
      assert all[k] == below[k];
    }
    if more.Some? {
      assert all[|below|] == more;
    }
  }

  twostate lemma DoneStep(l: Loading, new k: nat, new more: Option<Shape>)
    requires k < |l.es| && l.keep == NodesBelow(l.below) && old(DoneTo(l.v, l.es, k, l.S, l.nodes, l.rows, l.below))
    requires unchanged(l.keep) && forall n <- l.nodes :: OnlyEdge(n, k)
    requires if l.S.subs[k].Some? then
               more.Some? && ShowsEdge(l.v, l.es[k], k, l.S.subs[k].value, l.rows, l.nodes, more.value)
             else more.None? && NoEdge(k, l.nodes)
    ensures DoneTo(l.v, l.es, k + 1, l.S, l.nodes, l.rows, l.below + [more])
  {
    hide ShowsEdge, NodesIn;
    forall j | 0 <= j < k
      ensures if l.S.subs[j].Some? then ShowsEdge(l.v, l.es[j], j, l.S.subs[j].value, l.rows, l.nodes, l.below[j].value)
              else NoEdge(j, l.nodes)
    {
      if l.S.subs[j].Some? {
        EdgeStays(Loaded(l.v, l.es[j], j, l.S.subs[j].value, l.rows, l.nodes, l.below[j].value,
            NodesIn(l.below[j].value)), k);
      } else {
        assert forall i :: 0 <= i < |l.nodes| ==> l.nodes[i] in l.nodes;
      }
    }
  }

  /** Loading one edge touches the builders below that edge only. */
  twostate lemma PendingStep(l: Loading, new k: nat)
    requires k < |l.es| && old(Pending(l.v, l.q, l.es, l.S, k)) && old(l.q.subs[k]) != null
    requires unchanged(l.q) && l.q.subs[k].Valid() && l.q.subs[k].Repr == old(l.q.subs[k].Repr)
    requires unchanged(old(l.q.Repr) - old(l.q.subs[k].Repr))
    ensures Pending(l.v, l.q, l.es, l.S, k + 1)
  {
    hide FitsSchema;
    var q := l.q;
    forall j | 0 <= j < |q.subs| && j != k && q.subs[j] != null
      ensures q.subs[j].Valid() && q.subs[j].Repr == old(q.subs[j].Repr)
      ensures q.subs[j].Snapshot() == old(q.subs[j].Snapshot())
    {
      assert unchanged(old(q.subs[j].Repr));
    }
  }

  /** One edge more: what was loaded stays, and the builders of the later edges are untouched. */
  method LoadStep(v: Env, q: Query, es: seq<Edge>, k: nat, nodes: seq<Node>, ghost rows: seq<Row>, ghost S: Tree,
                  ghost below: seq<Option<Shape>>)
    returns (err: Option<Error>, ghost more: Option<Shape>)
    requires EnvOK(v) && Pending(v, q, es, S, k) && k < |es| && BareFrom(k, |es|, nodes, rows)
    requires NodesBelow(below) !! SetOf(nodes) && DoneTo(v, es, k, S, nodes, rows, below)
    requires es[k].O2M? && es[k].target in v.schema ==> es[k].column in v.schema[es[k].target].foreignKeys
    requires es[k].M2O? && S.subs[k].Some? ==> KeysRead(es[k], nodes, rows)
    modifies q.Repr - {q}, SetOf(nodes)
    ensures Pending(v, q, es, S, k + 1) && q.Repr == old(q.Repr)
    ensures BareFrom(k + 1, |es|, nodes, rows) && forall n <- nodes :: OnlyEdge(n, k)
    ensures more.Some? ==> fresh(NodesIn(more.value)) && NodesIn(more.value) !! SetOf(nodes)
    ensures S.subs[k].Some? && AllFieldsValid(v, S.subs[k].value) ==> err == None
    ensures S.subs[k].None? ==> err == None
    ensures err == None ==> DoneTo(v, es, k + 1, S, nodes, rows, below + [more])
    decreases q.Repr, 1
  {
    hide SubsFit, AllFieldsValid, ShowsEdge, EnvOK, NodesIn, Shows, DoneTo;
    err, more := None, None;
    var sub := q.subs[k];
    ghost var l := Loading(v, q, es, S, nodes, rows, below, NodesBelow(below));
    label Before:
    if sub != null {
      BareAt(k, |es|, nodes, rows);
      ghost var sh;
      err, sh := LoadEdge(v, es[k], k, sub, nodes, rows, S.subs[k].value, NodesBelow(below));
      PendingStep@Before(l, k);
      more := Some(sh);
    }
    if err == None {
      DoneStep@Before(l, k, more);
    }
  }

  /** The columns of the edges are foreign keys of the entities they are on, and a node whose query asks for a
      unique edge has read its foreign keys. */
  ghost predicate EdgeKeys(v: Env, es: seq<Edge>, S: Tree, nodes: seq<Node>, rows: seq<Row>)
    reads SetOf(nodes)
  {
    && |S.subs| == |es|
    && forall k :: 0 <= k < |es| ==>
         && (es[k].O2M? && es[k].target in v.schema ==> es[k].column in v.schema[es[k].target].foreignKeys)
         && (es[k].M2O? && S.subs[k].Some? ==> KeysRead(es[k], nodes, rows))
  }

  twostate predicate SameData(nodes: seq<Node>)
    reads SetOf(nodes)
  {
    forall n <- nodes :: n.rec == old(n.rec) && n.loaded == old(n.loaded) && |n.edges| == old(|n.edges|)
  }

  twostate lemma EdgeKeysStay(l: Loading)
    requires old(EdgeKeys(l.v, l.es, l.S, l.nodes, l.rows)) && SameData(l.nodes)
    ensures EdgeKeys(l.v, l.es, l.S, l.nodes, l.rows)
  {
    forall k | 0 <= k < |l.es| && l.es[k].M2O? && l.S.subs[k].Some? ensures KeysRead(l.es[k], l.nodes, l.rows) {
      assert old(KeysRead(l.es[k], l.nodes, l.rows));
      assert forall i :: 0 <= i < |l.nodes| ==> l.nodes[i] in l.nodes;
    }
  }

  /** The second half of sqlAll: the requested edges, in the order of the schema. */
  method LoadEdges(v: Env, q: Query, es: seq<Edge>, nodes: seq<Node>, ghost rows: seq<Row>, ghost S: Tree)
    returns (err: Option<Error>, ghost below: seq<Option<Shape>>)
    requires EnvOK(v) && Pending(v, q, es, S, 0) && BareFrom(0, |es|, nodes, rows) && EdgeKeys(v, es, S, nodes, rows)
    modifies q.Repr - {q}, SetOf(nodes)
    ensures q.Valid() && q.Repr == old(q.Repr) && SameData(nodes)
    ensures fresh(NodesBelow(below)) && NodesBelow(below) !! SetOf(nodes)
    ensures SubFieldsValid(v, S) ==> err == None
    ensures err == None ==> DoneTo(v, es, |es|, S, nodes, rows, below)
    decreases q.Repr, 2
  {
    hide AllFieldsValid, ShowsEdge, EnvOK, NodesBelow, DoneTo;
    err, below := None, [];
    ghost var l := Loading(v, q, es, S, nodes, rows, below, NodesBelow(below));
    label Start:
    NothingDone(v, es, S, nodes, rows);
    for k := 0 to |es|
      invariant err == None && Pending(v, q, es, S, k) && q.Repr == old(q.Repr)
      invariant BareFrom(k, |es|, nodes, rows) && SameData(nodes)
      invariant fresh(NodesBelow(below)) && NodesBelow(below) !! SetOf(nodes)
      invariant DoneTo(v, es, k, S, nodes, rows, below)
    {
      EdgeKeysStay@Start(l);
      ghost var more;
      err, more := LoadStep(v, q, es, k, nodes, rows, S, below);
      BelowMore(below, more);
      below := below + [more];
      if err.Some? {
        return;
      }
    }
  }

  lemma NothingDone(v: Env, es: seq<Edge>, S: Tree, nodes: seq<Node>, rows: seq<Row>)
    requires |S.subs| == |es|
    ensures DoneTo(v, es, 0, S, nodes, rows, []) && NodesBelow([]) == {}
  {
  }

  lemma ReadyToLoad(v: Env, q: Query, S: Tree)
    requires EnvOK(v) && q.Valid() && S == q.Snapshot() && SubsFit(v, S)
    ensures Pending(v, q, v.schema[S.entity].edges, S, 0)
  {
    var es := v.schema[S.entity].edges;
    forall j | 0 <= j < |es| && q.subs[j] != null ensures SubReady(v, es[j], q.subs[j], S.subs[j].value) {
      assert S.subs[j] == q.SubTree(j);
    }
  }

  lemma BuiltBare(v: Env, S: Tree, rows: seq<Row>, nodes: seq<Node>)
    requires EnvOK(v) && SubsFit(v, S)
    requires Built(v.schema[S.entity], NodeColumns(v.schema[S.entity], S, false), rows, Requested(S.subs), nodes)
    ensures BareFrom(0, |v.schema[S.entity].edges|, nodes, rows) && Read(v, S, false, rows, nodes)
  {
    hide FitsSchema;
    forall i | 0 <= i < |nodes| ensures nodes[i].rec.id == rows[i].id {
      RecordID(v.schema[S.entity], S, false, rows[i]);
    }
  }

  lemma BuiltKeys(v: Env, S: Tree, rows: seq<Row>, nodes: seq<Node>)
    requires EnvOK(v) && SubsFit(v, S)
    requires forall i :: 0 <= i < |rows| ==> rows[i] in Table(v.db, S.entity)
    requires Built(v.schema[S.entity], NodeColumns(v.schema[S.entity], S, false), rows, Requested(S.subs), nodes)
    ensures EdgeKeys(v, v.schema[S.entity].edges, S, nodes, rows)
  {
    hide FitsSchema;
    var e := v.schema[S.entity];
    forall k, i | 0 <= k < |e.edges| && e.edges[k].M2O? && S.subs[k].Some? && 0 <= i < |nodes|
      ensures KeyOf(e.edges[k].column, nodes[i].rec) == RowKey(e.edges[k].column, rows[i])
    {
      KeyRead(e, NodeColumns(e, S, false), e.edges[k].column, rows[i]);
    }
  }

  lemma RowsInTable(v: Env, S: Tree, byID: Option<map<int, Node>>)
    requires Runnable(v, S, byID)
    ensures forall i :: 0 <= i < |NodeRows(byID.Some?, Stream(v, S))| ==>
              NodeRows(byID.Some?, Stream(v, S))[i] in Table(v.db, S.entity)
  {
    var ts := Stream(v, S);
    var rows := NodeRows(byID.Some?, ts);
    forall i | 0 <= i < |rows| ensures rows[i] in Table(v.db, S.entity) {
      if byID.Some? {
        FirstRowsFrom(ts, rows[i]);
        var p :| 0 <= p < |ts| && ts[p].row == rows[i];
        assert ts[p] in ts;
      } else {
        assert ts[i] in ts;
      }
    }
  }

  twostate lemma ReadStays(l: Loading)
    requires l.S.entity in l.v.schema && old(Read(l.v, l.S, false, l.rows, l.nodes)) && SameData(l.nodes)
    ensures Read(l.v, l.S, false, l.rows, l.nodes)
  {
    assert forall i :: 0 <= i < |l.nodes| ==> l.nodes[i] in l.nodes;
  }

  /** Nodes that are read, with all edges loaded, are what the query shows. */
  lemma AllLoaded(v: Env, S: Tree, rows: seq<Row>, sh: Shape)
    requires SubsFit(v, S) && Read(v, S, false, rows, sh.nodes)
    requires rows != [] ==> DoneTo(v, v.schema[S.entity].edges, |S.subs|, S, sh.nodes, rows, sh.below)
    ensures Shows(v, S, false, rows, sh)
  {
    hide ShowsEdge;
  }

  /** sqlAll: one node a row, then every requested edge; byID is the index of an M2M loader that wraps the row
      callbacks, and nids is what those callbacks fill. The nodes show exactly what the batches of the loaders hold,
      whatever the windows and however often rows repeat. */
  method SqlAll(v: Env, q: Query, byID: Option<map<int, Node>>, ghost S: Tree)
    returns (r: Result<seq<Node>, Error>, nids: map<int, set<Node>>, ghost sh: Shape)
    requires EnvOK(v) && q.Valid() && S == q.Snapshot() && Runnable(v, S, byID)
    modifies q.Repr - {q}
    ensures q.Valid() && q.Repr == old(q.Repr) && fresh(NodesIn(sh))
    ensures SubFieldsValid(v, S) ==> r.Ok?
    ensures r.Ok? ==> sh.nodes == r.value && Shows(v, S, false, NodeRows(byID.Some?, Stream(v, S)), sh)
    ensures r.Ok? && byID.Some? ==> KeysIn(Stream(v, S), byID.value) && Recorded(Stream(v, S), byID.value, nids)
    decreases q.Repr, 3
  {
    hide Pending, BareFrom, EdgeKeys, SubFieldsValid, DoneTo, Recorded, NodeColumns, Built, EnvOK, Stream, Shows, Read;
    sh := Shape([], []);
    var e := v.schema[q.entity];
    r, nids := Scan(v, q, byID, S);
    var nodes := r.value;
    ghost var rows := NodeRows(byID.Some?, Stream(v, S));
    ghost var below: seq<Option<Shape>> := [];
    BuiltBare(v, S, rows, nodes);
    if |nodes| > 0 {
      ghost var l := Loading(v, q, e.edges, S, nodes, rows, [], {});
      RowsInTable(v, S, byID);
      ReadyToLoad(v, q, S);
      BuiltKeys(v, S, rows, nodes);
      label Before:
      var err;
      err, below := LoadEdges(v, q, e.edges, nodes, rows, S);
      if err.Some? {
        return Err(err.value), nids, sh;
      }
      ReadStays@Before(l);
    }
    sh := Shape(nodes, below);
    NodesOf(nodes, below);
    SameLength(v, S, rows, nodes);
    AllLoaded(v, S, rows, sh);
  }

  lemma NodesOf(nodes: seq<Node>, below: seq<Option<Shape>>)
    ensures NodesIn(Shape(nodes, below)) == SetOf(nodes) + NodesBelow(below)
  {
  }

  lemma SameLength(v: Env, S: Tree, rows: seq<Row>, nodes: seq<Node>)
    requires S.entity in v.schema && Read(v, S, false, rows, nodes)
    ensures |nodes| == |rows|
  {
  }

  /** The spec of sqlAll: querySpec with the foreign keys appended when the builder or one of its edges needs them. */
  method AllSpec(e: Entity, q: Query, ghost S: Tree) returns (spec: Spec, loaded: seq<bool>)
    requires q.Valid() && S == q.Snapshot()
    ensures NodeStatement(spec) == AllStatement(e, S) && spec.columns == NodeColumns(e, S, false)
    ensures loaded == Requested(S.subs)
  {
    spec := q.QuerySpec(e);
    var withFKs := q.withFKs;
    if exists k :: 0 <= k < |q.subs| && k < |e.edges| && q.subs[k] != null && e.edges[k].M2O? {
      withFKs := true;
    }
    if withFKs {
      spec := spec.(columns := spec.columns + e.foreignKeys);
    }
    assert spec.columns == NodeColumns(e, S, false);
    loaded := seq(|q.subs|, k requires 0 <= k < |q.subs| reads q => q.subs[k] != null);
    assert loaded == Requested(S.subs);
  }

  /** The first half of sqlAll: the statement and the row callbacks. */
  method Scan(v: Env, q: Query, byID: Option<map<int, Node>>, ghost S: Tree)
    returns (r: Result<seq<Node>, Error>, nids: map<int, set<Node>>)
    requires EnvOK(v) && q.Valid() && S == q.Snapshot() && Runnable(v, S, byID)
    ensures r.Ok? && fresh(SetOf(r.value))
    ensures byID.Some? ==> KeysIn(Stream(v, S), byID.value) && Recorded(Stream(v, S), byID.value, nids)
    ensures Built(v.schema[S.entity], NodeColumns(v.schema[S.entity], S, false), NodeRows(byID.Some?, Stream(v, S)),
                  Requested(S.subs), r.value)
  {
    hide NodeColumns, Recorded, Built;
    StreamReadable(v, S, byID);
    var e := v.schema[q.entity];
    var spec, loaded := AllSpec(e, q, S);
    var ts := Run(v.db, NodeStatement(spec));
    nids := map[];
    if byID.None? {
      r := ScanNodes(e, spec.columns, loaded, ts);
    } else {
      r, nids := ScanJoined(e, spec.columns, loaded, ts, byID.value);
    }
  }

  lemma StreamReadable(v: Env, S: Tree, byID: Option<map<int, Node>>)
    requires EnvOK(v) && Runnable(v, S, byID)
    ensures EntityOK(v.schema[S.entity]) && AllReadable(v.schema[S.entity], Stream(v, S))
    ensures |NodeColumns(v.schema[S.entity], S, false)| > 0 && NodeColumns(v.schema[S.entity], S, false)[0] == "id"
    ensures byID.Some? ==> KeysIn(Stream(v, S), byID.value)
  {
    StatementHasID(v.schema[S.entity], S);
  }
}
