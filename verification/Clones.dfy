/** What a caller may still do to a builder, and that a clone does not notice. */
module Clones {
  import opened Wrappers
  import opened Records
  import opened Store
  import opened Queries
  import opened Nodes
  import opened Joins
  import opened Batches
  import opened Shapes
  import opened Terminals

  /** The configuration methods of a builder. With eager-loads edge k through a new builder that the caller's
      options configure in turn. */
  datatype BuilderOption =
    | Where(ps: seq<Predicate>)
    | Limit(n: nat)
    | Offset(n: nat)
    | Unique(b: bool)
    | Order(terms: seq<SortTerm>)
    | Select(fields: seq<string>)
    | With(k: nat, target: string, edges: nat, opts: seq<BuilderOption>)

  function FreshTree(entity: string, edges: nat): Tree {
    Tree(entity, [], None, None, None, [], [], seq(edges, _ => None), false, None, None)
  }

  function Applied(t: Tree, o: BuilderOption): Tree
    decreases o, 1
  {
    match o
    case Where(ps) => t.(predicates := t.predicates + ps)
    case Limit(n) => t.(limit := Some(n))
    case Offset(n) => t.(offset := Some(n))
    case Unique(b) => t.(unique := Some(b))
    case Order(terms) => t.(order := t.order + terms)
    case Select(fields) => t.(fields := t.fields + fields)
    case With(k, target, edges, opts) =>
      if k < |t.subs| then t.(subs := t.subs[k := Some(AllApplied(FreshTree(target, edges), opts))]) else t
  }

  function AllApplied(t: Tree, opts: seq<BuilderOption>): Tree
    decreases opts, 0
  {
    if opts == [] then t else AllApplied(Applied(t, opts[0]), opts[1..])
  }

  /** One configuration call: it touches the builder itself and new builders only. */
  method Configure(q: Query, o: BuilderOption)
    requires q.Valid()
    modifies q
    ensures q.Valid() && fresh(q.Repr - old(q.Repr))
    ensures q.Snapshot() == Applied(old(q.Snapshot()), o)
    decreases o, 1
  {
    match o
    case Where(ps) => q.Where(ps);
    case Limit(n) => q.Limit(n);
    case Offset(n) => q.Offset(n);
    case Unique(b) => q.Unique(b);
    case Order(terms) => q.Order(terms);
    case Select(fields) => q.Select(fields);
    case With(k, target, edges, opts) =>
      if k < |q.subs| {
        var sub := NewBuilder(target, edges);
        ConfigureAll(sub, opts);
        q.With(k, sub);
      }
  }

  method NewBuilder(entity: string, edges: nat) returns (q: Query)
    ensures q.Valid() && fresh(q.Repr) && q.Snapshot() == FreshTree(entity, edges)
  {
    q := new Query(entity, edges);
    assert q.Snapshot().subs == FreshTree(entity, edges).subs;
  }

  method ConfigureAll(q: Query, opts: seq<BuilderOption>)
    requires q.Valid()
    modifies q
    ensures q.Valid() && fresh(q.Repr - old(q.Repr))
    ensures q.Snapshot() == AllApplied(old(q.Snapshot()), opts)
    decreases opts, 0
  {
    if opts != [] {
      Configure(q, opts[0]);
      ConfigureAll(q, opts[1..]);
    }
  }

  /** Clone is a deep copy: any configuration of the clone and any later configuration of the original leave each
      other alone. Both start from the same state, the clone without the withFKs flags. */
  method CloneAndDiverge(q: Query, forClone: seq<BuilderOption>, forOriginal: seq<BuilderOption>) returns (c: Query)
    requires q.Valid()
    modifies q
    ensures c.Valid() && q.Valid() && c.Repr !! q.Repr
    ensures c.Snapshot() == AllApplied(Cloned(old(q.Snapshot())), forClone)
    ensures q.Snapshot() == AllApplied(old(q.Snapshot()), forOriginal)
  {
    c := q.Clone();
    ConfigureAll(c, forClone);
    ConfigureAll(q, forOriginal);
  }

  /** Builder c is set up as builder t at every depth, but for the withFKs flags, which are off. */
  ghost predicate SetUpAlike(t: Tree, c: Tree)
    decreases t
  {
    && c.entity == t.entity && c.fields == t.fields && c.limit == t.limit && c.offset == t.offset
    && c.unique == t.unique && c.order == t.order && c.predicates == t.predicates && c.path == t.path && c.sql == t.sql
    && !c.withFKs && |c.subs| == |t.subs|
    && forall k :: 0 <= k < |t.subs| ==>
         if t.subs[k].None? then c.subs[k].None? else c.subs[k].Some? && SetUpAlike(t.subs[k].value, c.subs[k].value)
  }

  /** What a clone is. */
  lemma {:induction false} ClonedAlike(t: Tree, c: Tree)
    ensures SetUpAlike(t, c) <==> c == Cloned(t)
    decreases t
  {
    forall k | 0 <= k < |t.subs| && |c.subs| == |t.subs| && t.subs[k].Some? && c.subs[k].Some?
      ensures SetUpAlike(t.subs[k].value, c.subs[k].value) <==> c.subs[k].value == Cloned(t.subs[k].value)
    {
      ClonedAlike(t.subs[k].value, c.subs[k].value);
    }
    if SetUpAlike(t, c) {
      assert c.subs == Cloned(t).subs;
    }
  }

  // ---- the dropped flags ----

  /** Only O2M loaders set withFKs, on the builders of their edges. */
  ghost predicate FlagsOnlyUnderO2M(v: Env, t: Tree)
    decreases t
  {
    && t.entity in v.schema
    && forall k :: 0 <= k < |t.subs| && k < |v.schema[t.entity].edges| && t.subs[k].Some? ==>
         && (t.subs[k].value.withFKs ==> v.schema[t.entity].edges[k].O2M?)
         && FlagsOnlyUnderO2M(v, t.subs[k].value)
  }

  /** Dropping the flags changes nothing that is shown: where they matter the loaders set them again, and at the root
      they only add the foreign keys. */
  lemma {:induction false} CloneShowsTheSame(v: Env, t: Tree, fks: bool, rows: seq<Row>, sh: Shape)
    requires FlagsOnlyUnderO2M(v, t)
    ensures Shows(v, t, fks, rows, sh) <==> Shows(v, Cloned(t), fks || t.withFKs, rows, sh)
    decreases sh
  {
    hide ShowsEdge, NodesIn, EdgeBatch;
    var e, c := v.schema[t.entity], Cloned(t);
    assert Requested(t.subs) == Requested(c.subs);
    assert NeedsFKs(e, t.subs) <==> NeedsFKs(e, c.subs);
    assert NodeColumns(e, t, fks) == NodeColumns(e, c, fks || t.withFKs);
    forall k | rows != [] && |sh.below| == |t.subs| == |e.edges| && 0 <= k < |t.subs| && t.subs[k].Some? &&
        sh.below[k].Some?
      ensures ShowsEdge(v, e.edges[k], k, t.subs[k].value, rows, sh.nodes, sh.below[k].value)
         <==> ShowsEdge(v, e.edges[k], k, c.subs[k].value, rows, sh.nodes, sh.below[k].value)
    {
      CloneShowsTheSame(v, t.subs[k].value, e.edges[k].O2M?, EdgeBatch(v, e.edges[k], t.subs[k].value, rows),
          sh.below[k].value);
      CloneEdge(v, e.edges[k], k, t.subs[k].value, rows, sh.nodes, sh.below[k].value);
    }
  }

  lemma CloneEdge(v: Env, e: Edge, k: nat, S: Tree, rows: seq<Row>, nodes: seq<Node>, sh: Shape)
    requires S.entity in v.schema && (S.withFKs ==> e.O2M?)
    requires Shows(v, S, e.O2M?, EdgeBatch(v, e, S, rows), sh) <==>
        Shows(v, Cloned(S), e.O2M?, EdgeBatch(v, e, S, rows), sh)
    ensures ShowsEdge(v, e, k, S, rows, nodes, sh) <==> ShowsEdge(v, e, k, Cloned(S), rows, nodes, sh)
  {
    hide Shows, Run, NodesIn, SpecColumns;
    var te := v.schema[S.entity];
    var a, b := RunOf(e, S, rows), RunOf(e, Cloned(S), rows);
    assert NeedsFKs(te, a.subs) <==> NeedsFKs(te, b.subs);
    assert NodeColumns(te, a, false) == NodeColumns(te, b, false);
    assert AllStatement(te, a) == AllStatement(te, b);
    assert EdgeBatch(v, e, S, rows) == EdgeBatch(v, e, Cloned(S), rows);
    assert S.entity == e.target ==> forall i, neighbors: seq<Node> ::
      0 <= i < |rows| && |neighbors| == |EdgeBatch(v, e, S, rows)| ==>
        SlotFor(v, e, S, rows, i, neighbors) == SlotFor(v, e, Cloned(S), rows, i, neighbors);
  }

  /** A clone reads the rows that the original would read, windows included, and loads the same. */
  lemma CloneLoadsTheSame(v: Env, t: Tree, sh: Shape)
    requires Executable(v, t) && FlagsOnlyUnderO2M(v, t) && !t.withFKs
    ensures t.entity in v.schema && AllRows(v, Cloned(t)) == AllRows(v, t)
    ensures Loads(v, t, sh) <==> Loads(v, Cloned(t), sh)
  {
    hide Shows, FlagsOnlyUnderO2M, SpecColumns, Run, NodesIn;
    var te, p, c := v.schema[t.entity], Prepared(t, v.db), Prepared(Cloned(t), v.db);
    assert c == Cloned(p);
    assert NeedsFKs(te, p.subs) <==> NeedsFKs(te, c.subs);
    assert AllStatement(te, p) == AllStatement(te, c);
    FlagsPrepared(v, t);
    CloneShowsTheSame(v, p, false, AllRows(v, t), sh);
  }

  lemma FlagsPrepared(v: Env, t: Tree)
    requires FlagsOnlyUnderO2M(v, t)
    ensures FlagsOnlyUnderO2M(v, Prepared(t, v.db))
  {
  }
}
