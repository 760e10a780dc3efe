/** The query builder: its mutable state, its two compilations to SQL and its deep copy. */
module Queries {
  import opened Wrappers
  import opened Records
  import opened Store

  /** The state of a query builder and of the builders of the edges it eager-loads. */
  datatype Tree = Tree(
    entity: string,
    fields: seq<string>,
    limit: Option<nat>,
    offset: Option<nat>,
    unique: Option<bool>,
    order: seq<SortTerm>,
    predicates: seq<Predicate>,
    subs: seq<Option<Tree>>,
    withFKs: bool,
    path: Option<DB -> seq<Row>>,
    sql: Option<seq<Row>>)

  const MAX_INT32: nat := 0x7fff_ffff

  /** What querySpec hands to the graph layer, where a zero limit stands for no limit. */
  datatype Spec = Spec(
    entity: string,
    columns: seq<string>,
    from: Option<seq<Row>>,
    unique: bool,
    preds: seq<Predicate>,
    order: seq<SortTerm>,
    limit: nat,
    offset: nat)

  function OtherFields(fields: seq<string>): seq<string> {
    if fields == [] then []
    else
      var n := |fields| - 1;
      OtherFields(fields[..n]) + (if fields[n] != "id" then [fields[n]] else [])
  }

  function SpecColumns(e: Entity, fields: seq<string>): seq<string> {
    if fields == [] then e.columns else ["id"] + OtherFields(fields)
  }

  function SpecOf(e: Entity, t: Tree): Spec {
    Spec(t.entity,
         SpecColumns(e, t.fields),
         t.sql,
         if t.unique.Some? then t.unique.value else t.path.Some?,
         t.predicates,
         t.order,
         if t.limit.Some? then t.limit.value else 0,
         if t.offset.Some? then t.offset.value else 0)
  }

  /** How the graph layer runs a spec; the join predicate of an M2M loader turns DISTINCT off. */
  function NodeStatement(s: Spec): Statement {
    Statement(s.entity, s.columns, s.from, s.unique && JoinOf(s.preds).None?, s.preds, s.order,
              s.offset, if s.limit == 0 then None else Some(s.limit))
  }

  /** The second compilation, used by Select, GroupBy and IDs. */
  function SelectorOf(e: Entity, t: Tree): Statement {
    Statement(t.entity,
              if t.fields == [] then e.columns else t.fields,
              t.sql,
              t.unique == Some(true),
              t.predicates,
              t.order,
              if t.offset.Some? then t.offset.value else 0,
              if t.limit.Some? then t.limit else if t.offset.Some? then Some(MAX_INT32) else None)
  }

  /** The id comes first and only once, whatever fields are selected (repeats and "id" itself included). */
  lemma {:induction false} IDFirstAndOnce(e: Entity, fields: seq<string>)
    requires EntityOK(e)
    ensures |SpecColumns(e, fields)| > 0 && SpecColumns(e, fields)[0] == "id"
    ensures "id" !in SpecColumns(e, fields)[1..]
    ensures fields != [] ==> forall f: string :: f in SpecColumns(e, fields) <==> f == "id" || f in fields
  {
    if fields != [] {
      OtherFieldsMember(fields);
      assert SpecColumns(e, fields)[1..] == OtherFields(fields);
      assert forall f: string :: f in SpecColumns(e, fields) <==> f == "id" || f in OtherFields(fields);
    }
  }

  lemma {:induction false} OtherFieldsMember(fields: seq<string>)
    ensures forall f: string :: f in OtherFields(fields) <==> f != "id" && f in fields
  {
    if fields != [] {
      var n := |fields| - 1;
      OtherFieldsMember(fields[..n]);
      assert fields == fields[..n] + [fields[n]];
    }
  }

  predicate ValidColumn(e: Entity, column: string) {
    column in e.columns || column in e.foreignKeys
  }

  predicate FieldsValid(e: Entity, fields: seq<string>) {
    forall f <- fields :: ValidColumn(e, f)
  }

  /** The state after prepareQuery: a traversal query has its source rows. */
  function Prepared(t: Tree, db: DB): Tree {
    if t.path.Some? then t.(sql := Some(t.path.value(db))) else t
  }

  /** The deep copy of a builder state: everything but the withFKs flags, which a clone starts without. */
  function Cloned(t: Tree): Tree
    decreases t
  {
    t.(withFKs := false,
       subs := seq(|t.subs|, k requires 0 <= k < |t.subs| =>
                 if t.subs[k].None? then None else Some(Cloned(t.subs[k].value))))
  }

  class Query {
    const entity: string
    var fields: seq<string>
    var limit: Option<nat>
    var offset: Option<nat>
    var unique: Option<bool>
    var order: seq<SortTerm>
    var predicates: seq<Predicate>
    var subs: seq<Query?>
    var withFKs: bool
    var path: Option<DB -> seq<Row>>
    var sql: Option<seq<Row>>
    ghost var Repr: set<Query>

    /** The eager-load builders form a tree: no builder is shared between two edges. */
    ghost predicate Valid()
      reads this, Repr
      ensures Valid() ==> this in Repr
      decreases Repr
    {
      && this in Repr
      && (forall k :: 0 <= k < |subs| && subs[k] != null ==>
            && subs[k] in Repr && subs[k].Repr <= Repr && this !in subs[k].Repr && subs[k].Valid())
      && (forall j, k :: 0 <= j < k < |subs| && subs[j] != null && subs[k] != null ==>
            subs[j].Repr !! subs[k].Repr)
    }

    ghost function SubTree(k: nat): Option<Tree>
      requires Valid() && k < |subs|
      reads this, Repr
      decreases Repr, 0
    {
      if subs[k] == null then None else Some(subs[k].Snapshot())
    }

    /** The whole state of the builder tree as a value. */
    ghost function Snapshot(): Tree
      requires Valid()
      reads this, Repr
      decreases Repr, 1
    {
      Tree(entity, fields, limit, offset, unique, order, predicates,
           seq(|subs|, k requires 0 <= k < |subs| && Valid() reads this, Repr => SubTree(k)),
           withFKs, path, sql)
    }

    constructor (entity: string, edges: nat)
      ensures Valid() && Repr == {this} && this.entity == entity
      ensures |subs| == edges && forall k :: 0 <= k < edges ==> subs[k] == null
      ensures fields == [] && limit == None && offset == None && unique == None && order == [] && predicates == []
      ensures !withFKs && path == None && sql == None
    {
      this.entity := entity;
      fields, limit, offset, unique, order, predicates := [], None, None, None, [], [];
      subs := seq(edges, _ => null);
      withFKs, path, sql := false, None, None;
      Repr := {this};
    }

    method Where(ps: seq<Predicate>)
      requires Valid()
      modifies this
      ensures Valid() && Repr == old(Repr)
      ensures Snapshot() == old(Snapshot()).(predicates := old(predicates) + ps)
    {
      predicates := predicates + ps;
      assert Snapshot().subs == old(Snapshot()).subs;
    }

    method Limit(n: nat)
      requires Valid()
      modifies this`limit
      ensures Valid() && Snapshot() == old(Snapshot()).(limit := Some(n))
    {
      limit := Some(n);
      assert Snapshot().subs == old(Snapshot()).subs;
    }

    method Offset(n: nat)
      requires Valid()
      modifies this`offset
      ensures Valid() && Snapshot() == old(Snapshot()).(offset := Some(n))
    {
      offset := Some(n);
      assert Snapshot().subs == old(Snapshot()).subs;
    }

    method Unique(b: bool)
      requires Valid()
      modifies this`unique
      ensures Valid() && Snapshot() == old(Snapshot()).(unique := Some(b))
    {
      unique := Some(b);
      assert Snapshot().subs == old(Snapshot()).subs;
    }

    method Order(terms: seq<SortTerm>)
      requires Valid()
      modifies this`order
      ensures Valid() && Snapshot() == old(Snapshot()).(order := old(order) + terms)
    {
      order := order + terms;
      assert Snapshot().subs == old(Snapshot()).subs;
    }

    method Select(names: seq<string>)
      requires Valid()
      modifies this`fields
      ensures Valid() && Snapshot() == old(Snapshot()).(fields := old(fields) + names)
    {
      fields := fields + names;
      assert Snapshot().subs == old(Snapshot()).subs;
    }

    /** WithGroups and its siblings: the given builder becomes the one of edge k. */
    method With(k: nat, sub: Query)
      requires Valid() && k < |subs| && sub.Valid() && sub.Repr !! Repr
      modifies this`subs, this`Repr
      ensures Valid() && Repr == old(Repr) + sub.Repr
      ensures Snapshot() == old(Snapshot()).(subs := old(Snapshot()).subs[k := Some(sub.Snapshot())])
    {
      ghost var S := Snapshot();
      assert forall j :: 0 <= j < |subs| ==> S.subs[j] == SubTree(j);
      subs := subs[k := sub];
      Repr := Repr + sub.Repr;
      assert forall j :: 0 <= j < |subs| ==> SubTree(j) == if j == k then Some(sub.Snapshot()) else S.subs[j];
      assert Snapshot().subs == S.subs[k := Some(sub.Snapshot())];
    }

    method PrepareQuery(e: Entity, db: DB) returns (err: Option<Error>)
      requires Valid()
      modifies this`sql
      ensures Valid() && Repr == old(Repr)
      ensures err == None <==> FieldsValid(e, fields)
      ensures err == None <==> forall f <- fields :: f in e.columns || f in e.foreignKeys
      ensures err == None ==> Snapshot() == Prepared(old(Snapshot()), db)
      ensures err.Some? ==> Snapshot() == old(Snapshot()) && exists f <- fields :: err == Some(InvalidField(f))
    {
      for i := 0 to |fields|
        invariant FieldsValid(e, fields[..i])
      {
        if !ValidColumn(e, fields[i]) {
          return Some(InvalidField(fields[i]));
        }
      }
      if path.Some? {
        sql := Some(path.value(db));
      }
      assert Snapshot().subs == old(Snapshot()).subs;
      return None;
    }

    /** querySpec: the columns are built up with the id in front. */
    method QuerySpec(e: Entity) returns (s: Spec)
      requires Valid()
      ensures s == SpecOf(e, Snapshot())
    {
      s := Spec(entity, e.columns, sql, false, [], [], 0, 0);
      if unique.Some? {
        s := s.(unique := unique.value);
      } else if path.Some? {
        s := s.(unique := true);
      }
      if |fields| > 0 {
        var columns := ["id"];
        for i := 0 to |fields|
          invariant columns == ["id"] + OtherFields(fields[..i])
        {
          assert fields[..i + 1][..i] == fields[..i];
          if fields[i] != "id" {
            columns := columns + [fields[i]];
          }
        }
        assert fields[..|fields|] == fields;
        s := s.(columns := columns);
      }
      if |predicates| > 0 {
        s := s.(preds := predicates);
      }
      if limit.Some? {
        s := s.(limit := limit.value);
      }
      if offset.Some? {
        s := s.(offset := offset.value);
      }
      if |order| > 0 {
        s := s.(order := order);
      }
    }

    method SqlQuery(e: Entity) returns (s: Statement)
      requires Valid()
      ensures s == SelectorOf(e, Snapshot())
    {
      var columns := fields;
      if |columns| == 0 {
        columns := e.columns;
      }
      s := Statement(entity, columns, None, false, [], [], 0, None);
      if sql.Some? {
        s := s.(from := sql);
      }
      if unique.Some? && unique.value {
        s := s.(distinct := true);
      }
      s := s.(preds := predicates, order := order);
      if offset.Some? {
        s := s.(offset := offset.value, limit := Some(MAX_INT32));
      }
      if limit.Some? {
        s := s.(limit := limit);
      }
    }

    /** A builder literal: the fields of t, over the builders of a forest. */
    constructor Literal(t: Tree, children: seq<Query?>, ghost nodes: set<Query>, ghost trees: seq<Option<Tree>>)
      requires Forest(children, nodes, trees)
      ensures Valid() && Repr == {this} + nodes && Snapshot() == t.(subs := trees)
    {
      entity, fields, limit, offset, unique := t.entity, t.fields, t.limit, t.offset, t.unique;
      order, predicates, withFKs, path, sql := t.order, t.predicates, t.withFKs, t.path, t.sql;
      subs := children;
      Repr := {this} + nodes;
      new;
      assert forall k :: 0 <= k < |trees| ==> SubTree(k) == trees[k];
      assert Snapshot().subs == trees;
    }

    /** The clones of the eager-load builders. */
    method CloneSubs() returns (copies: seq<Query?>, ghost nodes: set<Query>)
      requires Valid()
      ensures fresh(nodes) && Forest(copies, nodes, Cloned(Snapshot()).subs)
      decreases Repr, 0
    {
      hide Forest;
      ghost var trees := Cloned(Snapshot()).subs;
      copies, nodes := [], {};
      ForestNone();
      for k := 0 to |subs|
        invariant |copies| == k && fresh(nodes) && Forest(copies, nodes, trees[..k])
      {
        assert Snapshot().subs[k] == SubTree(k);
        assert trees[..k + 1] == trees[..k] + [trees[k]];
        if subs[k] == null {
          ForestGap(copies, nodes, trees[..k]);
          copies := copies + [null];
        } else {
          var copy := subs[k].Clone();
          ForestMore(copies, nodes, trees[..k], copy, trees[k].value);
          copies := copies + [copy];
          nodes := nodes + copy.Repr;
        }
      }
      assert trees[..|subs|] == trees;
    }

    /** Clone: a builder tree of its own, in the same state. */
    method Clone() returns (c: Query)
      requires Valid()
      ensures c.Valid() && fresh(c.Repr)
      ensures c.Snapshot() == Cloned(Snapshot())
      decreases Repr, 1
    {
      hide Forest;
      var copies;
      ghost var nodes;
      copies, nodes := CloneSubs();
      c := new Query.Literal(Tree(entity, fields, limit, offset, unique, order, predicates, [], false, path, sql),
                             copies, nodes, Cloned(Snapshot()).subs);
    }
  }

  /** Separate builder trees in the given states, with nodes their footprint. */
  ghost predicate Forest(children: seq<Query?>, nodes: set<Query>, trees: seq<Option<Tree>>)
    reads nodes
  {
    && |trees| == |children|
    && (forall k :: 0 <= k < |children| ==> (children[k] == null <==> trees[k].None?))
    && (forall k :: 0 <= k < |children| && children[k] != null ==>
          && children[k] in nodes && children[k].Repr <= nodes && children[k].Valid()
          && children[k].Snapshot() == trees[k].value)
    && (forall j, k :: 0 <= j < k < |children| && children[j] != null && children[k] != null ==>
          children[j].Repr !! children[k].Repr)
  }

  lemma ForestMore(children: seq<Query?>, nodes: set<Query>, trees: seq<Option<Tree>>, child: Query, t: Tree)
    requires Forest(children, nodes, trees) && child.Valid() && child.Snapshot() == t && child.Repr !! nodes
    ensures Forest(children + [child], nodes + child.Repr, trees + [Some(t)])
  {
  }

  lemma ForestNone()
    ensures Forest([], {}, [])
  {
  }

  lemma ForestGap(children: seq<Query?>, nodes: set<Query>, trees: seq<Option<Tree>>)
    requires Forest(children, nodes, trees)
    ensures Forest(children + [null], nodes, trees + [None])
  {
  }
}
