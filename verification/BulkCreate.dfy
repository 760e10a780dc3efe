/** Saving many builders at once: a chain of mutators, each calling the next, with one batch insert at its end and
    the ids read back while the chain unwinds. */
module BulkCreate {
  import opened Wrappers
  import opened Records
  import opened Chains

  /** What is generated for an entity: the default values (those made by a clock are read once) and the check. */
  datatype Kind = Kind(defaults: map<string, Cell>, check: Content -> Option<Error>)

  function Defaulted(kind: Kind, c: Content): Content {
    c.(fields := kind.defaults + c.fields)
  }

  class Account {
    var id: int
    const content: Content

    constructor (content: Content)
      ensures id == 0 && this.content == content
    {
      this.id := 0;
      this.content := content;
    }
  }

  /** A mutation: node is where its id pointer points. */
  class AccountMutation {
    var content: Content
    var node: Account?
    var done: bool

    constructor (content: Content)
      ensures this.content == content && node == null && !done
    {
      this.content, node, done := content, null, false;
    }
  }

  class AccountCreate {
    const mutation: AccountMutation
    const hooks: seq<Hook>

    constructor (mutation: AccountMutation, hooks: seq<Hook>)
      ensures this.mutation == mutation && this.hooks == hooks
    {
      this.mutation := mutation;
      this.hooks := hooks;
    }
  }

  class AccountCreateBulk {
    const kind: Kind
    const builders: seq<AccountCreate>
    /** How the database ends the a-th batch insert: an error, or the ids that it has assigned. */
    const batch: (nat, seq<Content>) -> Result<nat -> Option<int>, Error>
    var err: Option<Error>
    var specs: seq<Option<Content>>
    var nodes: seq<Account?>
    var ids: nat -> Option<int>
    var log: seq<Event>
    ghost var made: set<Account>

    constructor (kind: Kind, builders: seq<AccountCreate>,
                 batch: (nat, seq<Content>) -> Result<nat -> Option<int>, Error>,
                 err: Option<Error>)
      ensures this.kind == kind && this.builders == builders && this.batch == batch && this.err == err
    {
      this.kind, this.builders, this.batch, this.err := kind, builders, batch, err;
      specs, nodes, ids, log, made := [], [], _ => None, [], {};
    }

    ghost function Mutations(): set<AccountMutation> {
      set b <- builders :: b.mutation
    }

    ghost function ScriptOf(c: seq<Content>): (s: Script)
      requires |c| == |builders|
      ensures Proper(s) && |s.hooks| == |builders| && s.specs == c
      ensures forall i :: 0 <= i < |builders| ==> s.hooks[i] == builders[i].hooks && s.checks[i] == kind.check(c[i])
    {
      Script(seq(|builders|, i requires 0 <= i < |builders| => builders[i].hooks),
             seq(|builders|, i requires 0 <= i < |c| => kind.check(c[i])),
             c,
             (a: nat) => var r := batch(a, c); if r.Ok? then None else Some(r.error))
    }

    /** The builders hold the given contents, and the first i specs are made. */
    ghost predicate Holding(c: seq<Content>, i: nat)
      reads this, Mutations()
    {
      && |c| == |builders| == |specs| == |nodes| && i <= |c|
      && (forall k :: 0 <= k < |c| ==> builders[k].mutation.content == c[k])
      && (forall k :: 0 <= k < i ==> specs[k] == Some(c[k]))
    }

    /** Builder k is saved: its node has its content and the id that the database gave it, and its mutation is done
        and knows a node (its own, unless a lower builder shares the mutation). */
    ghost predicate Saved(c: seq<Content>, k: nat)
      requires |c| == |builders| == |nodes| && k < |c|
      reads this`nodes, this`ids, nodes, Mutations()
    {
      && nodes[k] != null && nodes[k].content == c[k]
      && nodes[k].id == (if ids(k).Some? then ids(k).value else 0)
      && builders[k].mutation.done
      && exists l :: 0 <= l < |nodes| && builders[l].mutation == builders[k].mutation &&
          builders[k].mutation.node == nodes[l]
    }

    /** The marks that saving leaves on the mutations. */
    ghost function Marks(): map<AccountMutation, (bool, Account?)>
      reads Mutations()
    {
      map m | m in Mutations() :: (m.done, m.node)
    }

    /** From builder i on, all are saved, by nodes made since. */
    ghost predicate SavedFrom(c: seq<Content>, i: nat, before: set<Account>)
      reads this`nodes, this`ids, this`made, nodes, Mutations()
    {
      && |c| == |builders| == |nodes|
      && forall k :: i <= k < |c| ==> Saved(c, k) && nodes[k] in made && nodes[k] !in before
    }

    /** The marks that a run leaves: the mutations of those builders are done that are through, the others are as they
        were. */
    ghost predicate MarksExactly(ks: set<nat>, before: map<AccountMutation, (bool, Account?)>,
                                 after: map<AccountMutation, (bool, Account?)>)
    {
      && Mutations() <= before.Keys && Mutations() <= after.Keys
      && forall m <- Mutations() :: if Among(ks, m) then after[m].0 else after[m] == before[m]
    }

    /** Some of the builders has the mutation; builders may share one. */
    ghost predicate Among(ks: set<nat>, m: AccountMutation) {
      exists k <- ks :: k < |builders| && builders[k].mutation == m
    }

    lemma MarksThen(ks: set<nat>, more: set<nat>, before: map<AccountMutation, (bool, Account?)>,
                    mid: map<AccountMutation, (bool, Account?)>, after: map<AccountMutation, (bool, Account?)>)
      requires MarksExactly(ks, before, mid) && MarksExactly(more, mid, after)
      ensures MarksExactly(ks + more, before, after)
    {
      forall m ensures Among(ks + more, m) <==> Among(ks, m) || Among(more, m) {
      }
    }

    lemma NothingMarked(before: map<AccountMutation, (bool, Account?)>)
      requires Mutations() <= before.Keys
      ensures MarksExactly({}, before, before)
    {
    }

    /** How the chain's state stands after n inserts from attempt a on, when it started with the given nodes: the
        builders from k on are saved, if they have to be, with the ids of the last insert. */
    ghost predicate After(k: nat, c: seq<Content>, saved: bool, a: nat, n: nat, before: set<Account>)
      requires |builders| == |c|
      reads this`nodes, this`ids, this`made, nodes, Mutations()
    {
      before <= made && (saved ==> SavedFrom(c, k, before) && n > 0 && batch(a + n - 1, c) == Ok(ids))
    }

    /** What mutator i achieves from hook j inwards. */
    ghost predicate Ran(i: nat, j: nat, c: seq<Content>, e: Option<Error>, events: seq<Event>, before: set<Account>,
                        marks: map<AccountMutation, (bool, Account?)>)
      requires i < |builders| == |c| && j <= |builders[i].hooks|
      reads this, nodes, Mutations()
    {
      var course := Level(ScriptOf(c), i, j, Inserts(events));
      && log == events + course.events && e == course.err && MarksExactly(course.done, marks, Marks())
      && After(i, c, course.saved, Inserts(events), Inserts(course.events), before)
    }

    /** What n calls of hook j of builder i achieve. */
    ghost predicate Repeated(i: nat, j: nat, n: nat, c: seq<Content>, e: Option<Error>, events: seq<Event>,
                             before: set<Account>, marks: map<AccountMutation, (bool, Account?)>)
      requires i < |builders| == |c| && j < |builders[i].hooks|
      reads this, nodes, Mutations()
    {
      var r := Calls(ScriptOf(c), i, j, n, Inserts(events));
      && r.made == n && log == events + r.course.events && e == r.course.err &&
          MarksExactly(r.course.done, marks, Marks())
      && After(i, c, r.course.saved, Inserts(events), Inserts(r.course.events), before)
    }

    lemma SavedFromEnd(c: seq<Content>)
      requires |c| == |builders| == |nodes|
      ensures SavedFrom(c, |c|, made)
    {
    }

    /** Further inserts after n1 others. */
    lemma AfterMore(k: nat, c: seq<Content>, saved: bool, a: nat, n1: nat, n2: nat, before: set<Account>,
                    made1: set<Account>)
      requires |builders| == |c| && before <= made1 && After(k, c, saved, a + n1, n2, made1)
      ensures After(k, c, saved, a, n1 + n2, before)
    {
      hide Saved;
    }

    /** Mutator i from hook j inwards. */
    method Invoke(i: nat, j: nat, ghost c: seq<Content>) returns (e: Option<Error>)
      requires i < |builders| && j <= |builders[i].hooks| && Holding(c, i)
      modifies this`specs, this`nodes, this`ids, this`log, this`made, Mutations()`node, Mutations()`done
      ensures Holding(c, i) && SameUpTo(nodes, old(nodes), i)
      ensures Ran(i, j, c, e, old(log), old(made), old(Marks()))
      decreases |builders| - i, |builders[i].hooks| - j, 2
    {
      hide ScriptOf, Level, After, MarksExactly;
      if j == |builders[i].hooks| {
        e := Base(i, c);
        return;
      }
      e := RunHook(i, j, c);
    }

    /** Hook j of builder i. */
    method RunHook(i: nat, j: nat, ghost c: seq<Content>) returns (e: Option<Error>)
      requires i < |builders| && j < |builders[i].hooks| && Holding(c, i)
      modifies this`specs, this`nodes, this`ids, this`log, this`made, Mutations()`node, Mutations()`done
      ensures Holding(c, i) && SameUpTo(nodes, old(nodes), i)
      ensures Ran(i, j, c, e, old(log), old(made), old(Marks()))
      decreases |builders| - i, |builders[i].hooks| - j, 1
    {
      hide ScriptOf, Level, After, Calls, MarksExactly, Ran, Marks;
      log := log + [Enter(i, j)];
      InsertsAppend(old(log), [Enter(i, j)]);
      assert Marks() == old(Marks());
      var n, last := Repeat(i, j, c);
      ghost var marks := Marks();
      log := log + [Exit(i, j)];
      assert Marks() == marks;
      e := builders[i].hooks[j].gives(n, last);
      HookDone(i, j, c, n, last, old(log), old(made), old(Marks()));
    }

    lemma HookDone(i: nat, j: nat, c: seq<Content>, n: nat, last: Option<Error>, events: seq<Event>,
                   before: set<Account>,
                   marks: map<AccountMutation, (bool, Account?)>)
      requires i < |builders| == |c| && j < |builders[i].hooks|
      requires var a := Inserts(events);
               var r := Calls(ScriptOf(c), i, j, builders[i].hooks[j].most, a);
               && n == r.made && log == events + [Enter(i, j)] + r.course.events + [Exit(i, j)] && last == r.course.err
               && MarksExactly(r.course.done, marks, Marks())
               && After(i, c, r.course.saved, a, Inserts(r.course.events), before)
      ensures Ran(i, j, c, builders[i].hooks[j].gives(n, last), events, before, marks)
    {
      hide ScriptOf, Level, Calls, Inserts, MarksExactly, SavedFrom;
      LevelHook(ScriptOf(c), i, j, Inserts(events));
      var course := Calls(ScriptOf(c), i, j, builders[i].hooks[j].most, Inserts(events)).course;
      HookInserts(i, j, course.events);
      assert log == events + ([Enter(i, j)] + course.events + [Exit(i, j)]);
    }

    lemma RepeatedNone(i: nat, j: nat, c: seq<Content>)
      requires i < |builders| == |c| && j < |builders[i].hooks|
      ensures Repeated(i, j, 0, c, None, log, made, Marks())
    {
      NothingMarked(Marks());
    }

    /** One more call. */
    lemma RepeatedMore(i: nat, j: nat, n: nat, c: seq<Content>, e: Option<Error>, log1: seq<Event>, made1: set<Account>,
                       marks1: map<AccountMutation, (bool, Account?)>, events: seq<Event>, before: set<Account>,
                       marks: map<AccountMutation, (bool, Account?)>)
      requires i < |builders| == |c| && j < |builders[i].hooks|
      requires var r := Calls(ScriptOf(c), i, j, n, Inserts(events));
               && r.made == n && Goes(builders[i].hooks[j], n, r.course.err) && log1 == events + r.course.events
               && before <= made1 && MarksExactly(r.course.done, marks, marks1)
      requires Ran(i, j + 1, c, e, log1, made1, marks1)
      ensures Repeated(i, j, n + 1, c, e, events, before, marks)
    {
      hide After, ScriptOf, Level, Inserts, Calls, MarksExactly;
      var a := Inserts(events);
      var first := Calls(ScriptOf(c), i, j, n, a).course;
      InsertsAppend(events, first.events);
      var last := Level(ScriptOf(c), i, j + 1, Inserts(log1));
      InsertsAppend(first.events, last.events);
      MarksThen(first.done, last.done, marks, marks1, Marks());
      AfterMore(i, c, last.saved, a, Inserts(first.events), Inserts(last.events), before, made1);
      CallsMore(ScriptOf(c), i, j, n, a);
      assert log == events + (first.events + last.events);
    }

    /** The calls of hook j of builder i: how many there are, and what the last one returns. */
    method Repeat(i: nat, j: nat, ghost c: seq<Content>) returns (n: nat, last: Option<Error>)
      requires i < |builders| && j < |builders[i].hooks| && Holding(c, i)
      modifies this`specs, this`nodes, this`ids, this`log, this`made, Mutations()`node, Mutations()`done
      ensures Holding(c, i) && SameUpTo(nodes, old(nodes), i)
      ensures Repeated(i, j, n, c, last, old(log), old(made), old(Marks()))
      ensures Calls(ScriptOf(c), i, j, builders[i].hooks[j].most, Inserts(old(log)))
           == Calls(ScriptOf(c), i, j, n, Inserts(old(log)))
      decreases |builders| - i, |builders[i].hooks| - j, 0
    {
      hide Level, SavedFrom, ScriptOf, MarksExactly;
      ghost var marks := Marks();
      n, last := 0, None;
      RepeatedNone(i, j, c);
      while Goes(builders[i].hooks[j], n, last)
        invariant n <= builders[i].hooks[j].most && Holding(c, i) && SameUpTo(nodes, old(nodes), i)
        invariant Repeated(i, j, n, c, last, old(log), old(made), marks)
        decreases builders[i].hooks[j].most - n
      {
        ghost var log1, made1, marks1 := log, made, Marks();
        last := Invoke(i, j + 1, c);
        RepeatedMore(i, j, n, c, last, log1, made1, marks1, old(log), old(made), marks);
        n := n + 1;
      }
      CallsStop(ScriptOf(c), i, j, n, builders[i].hooks[j].most, Inserts(old(log)));
    }

    /** The innermost mutator of builder i. */
    method Base(i: nat, ghost c: seq<Content>) returns (e: Option<Error>)
      requires i < |builders| && Holding(c, i)
      modifies this`specs, this`nodes, this`ids, this`log, this`made, Mutations()`node, Mutations()`done
      ensures Holding(c, i) && SameUpTo(nodes, old(nodes), i)
      ensures Ran(i, |builders[i].hooks|, c, e, old(log), old(made), old(Marks()))
      decreases |builders| - i, 0, 1
    {
      hide Saved, Level, Deeper, Inserts, ScriptOf, MarksExactly, After, Ran, SavedFrom, Marks;
      e := kind.check(builders[i].mutation.content);
      if e.Some? {
        CheckFailed(i, c, e, Marks());
        return;
      }
      Stage(i, c);
      ghost var node, staged := nodes[i], made;
      assert Marks() == old(Marks());
      e := Descend(i, c);
      assert nodes[i] == node && staged == old(made) + {node};
      if e.Some? {
        InnerFailed(i, c, e, old(log), staged, old(made), old(Marks()));
        return;
      }
      Complete(i, nodes[i], c, old(log), staged, old(made), old(Marks()));
    }

    /** The end of builder i's mutator, once what it calls has succeeded. */
    method Complete(i: nat, node: Account, ghost c: seq<Content>, ghost events: seq<Event>, ghost staged: set<Account>,
                    ghost before: set<Account>, ghost marks: map<AccountMutation, (bool, Account?)>)
      requires i < |builders| && Holding(c, i + 1) && ScriptOf(c).checks[i] == None
      requires nodes[i] == node && node.content == c[i] && node.id == 0 && staged == before + {node} && node !in before
      requires var r := Deeper(ScriptOf(c), i, Inserts(events));
               && log == events + r.events && r.err == None && MarksExactly(r.done, marks, Marks())
               && After(i + 1, c, r.saved, Inserts(events), Inserts(r.events), staged)
      modifies node`id, builders[i].mutation`node, builders[i].mutation`done
      ensures Holding(c, i) && Ran(i, |builders[i].hooks|, c, None, events, before, marks)
    {
      hide Saved, Level, Deeper, Inserts, ScriptOf, MarksExactly, After, Ran, SavedFrom, Marks;
      ghost var mid := Marks();
      InnerSaved(i, c, events, staged);
      Finish(i, node, c, before);
      MarksFinished(i, mid);
      BaseDone(i, c, events, before, marks, mid);
    }

    /** Only the marks of one mutation are different. */
    ghost predicate SameMarks(m: AccountMutation, marks: map<AccountMutation, (bool, Account?)>)
      reads Mutations()
    {
      Mutations() <= marks.Keys && forall x <- Mutations() :: x != m ==> (x.done, x.node) == marks[x]
    }

    lemma MarksFinished(i: nat, mid: map<AccountMutation, (bool, Account?)>)
      requires i < |builders| && builders[i].mutation.done && SameMarks(builders[i].mutation, mid)
      ensures MarksExactly({i}, mid, Marks())
    {
      assert builders[i] in builders;
      forall m ensures Among({i}, m) <==> builders[i].mutation == m {
        assert i in {i};
      }
    }

    lemma CheckFailed(i: nat, c: seq<Content>, e: Option<Error>, marks: map<AccountMutation, (bool, Account?)>)
      requires i < |builders| == |c| && e.Some? && ScriptOf(c).checks[i] == e && marks == Marks()
      ensures Ran(i, |builders[i].hooks|, c, e, log, made, marks)
    {
      hide Saved, Inserts, ScriptOf, Level;
      LevelInnermost(ScriptOf(c), i, Inserts(log));
      assert log + [] == log;
      NothingMarked(marks);
    }

    lemma InnerFailed(i: nat, c: seq<Content>, e: Option<Error>, events: seq<Event>, staged: set<Account>,
                      before: set<Account>,
                      marks: map<AccountMutation, (bool, Account?)>)
      requires i < |builders| == |c| && before <= staged && e.Some? && ScriptOf(c).checks[i] == None
      requires var r := Deeper(ScriptOf(c), i, Inserts(events));
               && log == events + r.events && e == r.err && MarksExactly(r.done, marks, Marks())
               && After(i + 1, c, r.saved, Inserts(events), Inserts(r.events), staged)
      ensures Ran(i, |builders[i].hooks|, c, e, events, before, marks)
    {
      hide Saved, Level, Deeper, Inserts, ScriptOf, MarksExactly;
      LevelInnermost(ScriptOf(c), i, Inserts(events));
    }

    lemma InnerSaved(i: nat, c: seq<Content>, events: seq<Event>, staged: set<Account>)
      requires i < |builders| == |c|
      requires var r := Deeper(ScriptOf(c), i, Inserts(events));
               After(i + 1, c, r.saved, Inserts(events), Inserts(r.events), staged)
      ensures staged <= made
      ensures var r := Deeper(ScriptOf(c), i, Inserts(events));
              var n := Inserts(r.events);
              r.saved ==>
                SavedFrom(c, i + 1, staged) && n > 0 && batch(Inserts(events) + n - 1, c) == Ok(ids)
    {
      hide Saved, Deeper, Inserts, ScriptOf, SavedFrom;
    }

    lemma BaseDone(i: nat, c: seq<Content>, events: seq<Event>, before: set<Account>,
                   marks: map<AccountMutation, (bool, Account?)>, mid: map<AccountMutation, (bool, Account?)>)
      requires i < |builders| == |c| && before <= made && ScriptOf(c).checks[i] == None
      requires var r := Deeper(ScriptOf(c), i, Inserts(events));
               var n := Inserts(r.events);
               && log == events + r.events && r.err == None && MarksExactly(r.done, marks, mid)
               && (r.saved ==>
                     SavedFrom(c, i, before) && n > 0 && batch(Inserts(events) + n - 1, c) == Ok(ids))
      requires MarksExactly({i}, mid, Marks())
      ensures Ran(i, |builders[i].hooks|, c, None, events, before, marks)
    {
      hide Saved, Level, Deeper, Inserts, ScriptOf, MarksExactly, SavedFrom;
      LevelInnermost(ScriptOf(c), i, Inserts(events));
      MarksThen(Deeper(ScriptOf(c), i, Inserts(events)).done, {i}, marks, mid, Marks());
    }

    /** The next mutator, or the batch insert if builder i is the last one. */
    method Descend(i: nat, ghost c: seq<Content>) returns (e: Option<Error>)
      requires i < |builders| && Holding(c, i + 1)
      modifies this`specs, this`nodes, this`ids, this`log, this`made, Mutations()`node, Mutations()`done
      ensures Holding(c, i + 1) && SameUpTo(nodes, old(nodes), i + 1)
      ensures var r := Deeper(ScriptOf(c), i, Inserts(old(log)));
              && log == old(log) + r.events && e == r.err && MarksExactly(r.done, old(Marks()), Marks())
              && After(i + 1, c, r.saved, Inserts(old(log)),
                       Inserts(r.events), old(made))
      decreases |builders| - i, 0, 0
    {
      hide Saved, Level, SavedFrom, MarksExactly, ScriptOf;
      if i < |builders| - 1 {
        e := Invoke(i + 1, 0, c);
      } else {
        e := BatchCreate(c);
        SavedFromEnd(c);
        NothingMarked(Marks());
        OneInsert(ScriptOf(c));
      }
    }

    /** createSpec: the node and the spec of builder i. */
    method Stage(i: nat, ghost c: seq<Content>)
      requires i < |builders| && Holding(c, i)
      modifies this`specs, this`nodes, this`made
      ensures Holding(c, i + 1) && SameUpTo(nodes, old(nodes), i)
      ensures nodes[i] != null && fresh(nodes[i]) && nodes[i].content == c[i] && nodes[i].id == 0
      ensures nodes[i] !in old(made) && made == old(made) + {nodes[i]}
    {
      var node := new Account(builders[i].mutation.content);
      nodes, specs := nodes[i := node], specs[i := Some(builders[i].mutation.content)];
      made := made + {node};
    }

    /** The id is read back and the mutation is done. */
    method Finish(i: nat, node: Account, ghost c: seq<Content>, ghost before: set<Account>)
      requires i < |builders| && Holding(c, i + 1)
      requires nodes[i] == node && node.content == c[i] && node.id == 0
      modifies node`id, builders[i].mutation`node, builders[i].mutation`done
      ensures Holding(c, i + 1) && builders[i].mutation.done && SameMarks(builders[i].mutation, old(Marks()))
      ensures old(SavedFrom(c, i + 1, before + {node})) && node in made && node !in before ==> SavedFrom(c, i, before)
    {
      var mutation := builders[i].mutation;
      mutation.node := node;
      if ids(i).Some? {
        node.id := ids(i).value;
      }
      mutation.done := true;
    }

    /** The batch insert gets the contents of all builders, in their order. */
    method BatchCreate(ghost c: seq<Content>) returns (e: Option<Error>)
      requires Holding(c, |c|)
      modifies this`ids, this`log
      ensures log == old(log) + [Insert(c)] && e == ScriptOf(c).fails(Inserts(old(log)))
      ensures e == None ==> batch(Inserts(old(log)), c) == Ok(ids)
    {
      var made := Contents(specs);
      assert made == c;
      var r := batch(Inserts(log), made);
      log := log + [Insert(made)];
      if r.Err? {
        return Some(r.error);
      }
      ids := r.value;
      return None;
    }

    /** The contents that the builders have once their defaults are set. */
    ghost function Defaults(): (c: seq<Content>)
      reads Mutations()
      ensures |c| == |builders| && forall k :: 0 <= k < |c| ==> c[k] == Defaulted(kind, builders[k].mutation.content)
    {
      seq(|builders|, k requires 0 <= k < |builders| reads Mutations() => Defaulted(kind, builders[k].mutation.content))
    }

    /** The defaults of all builders are set before anything else happens. Two builders may share a mutation. */
    method SetDefaults(ghost c: seq<Content>)
      requires c == Defaults()
      modifies Mutations()`content
      ensures forall k :: 0 <= k < |c| ==> builders[k].mutation.content == c[k]
      ensures Marks() == old(Marks())
    {
      for i := 0 to |builders|
        invariant forall k :: 0 <= k < |c| ==> Defaulted(kind, builders[k].mutation.content) == c[k]
        invariant forall k :: 0 <= k < i ==> builders[k].mutation.content == c[k]
      {
        var mutation := builders[i].mutation;
        mutation.content := Defaulted(kind, mutation.content);
        DefaultedTwice(kind, old(mutation.content));
      }
    }

    /** Saved completely or not at all: if a check fails, the error is that of the first failing one and nothing is
        inserted; if none fails, there is one insert, of all specs in the order of the builders, and either it fails
        and no mutation is marked, or every builder is saved with the id that the insert gave its spec. */
    ghost predicate AllOrNothing(c: seq<Content>, r: Result<seq<Account?>, Error>,
                                 marks: map<AccountMutation, (bool, Account?)>)
      requires |c| == |builders| > 0
      reads this, nodes, Mutations()
    {
      var checks := ScriptOf(c).checks;
      var f := FirstFailing(checks, 0);
      if f < |checks| then r == Err(checks[f].value) && Inserts(log) == 0 && Marks() == marks
      else
        && Inserts(log) == 1 && Insert(c) in log
        && (batch(0, c).Err? ==> r == Err(batch(0, c).error) && Marks() == marks)
        && (batch(0, c).Ok? ==>
              r == Ok(nodes) && batch(0, c) == Ok(ids) && |nodes| == |c| && forall k :: 0 <= k < |c| ==> Saved(c, k))
    }

    /** No mutation is done yet. */
    ghost predicate NoneMarked(marks: map<AccountMutation, (bool, Account?)>) {
      forall m <- marks :: !marks[m].0
    }

    /** No two builders share a mutation. */
    ghost predicate Apart() {
      forall k, l :: 0 <= k < l < |builders| ==> builders[k].mutation != builders[l].mutation
    }

    method Save(ghost c: seq<Content>) returns (r: Result<seq<Account?>, Error>)
      requires c == Defaults()
      modifies this, Mutations()
      ensures err == old(err)
      ensures err.Some? ==> r == Err(err.value) && log == old(log) && Marks() == old(Marks())
      ensures err.None? ==> forall k :: 0 <= k < |c| ==> builders[k].mutation.content == c[k]
      ensures err.None? && |c| == 0 ==> r == Ok([]) && log == []
      ensures err.None? && |c| > 0 ==> Ran(0, 0, c, if r.Err? then Some(r.error) else None, [], {}, old(Marks()))
      ensures err.None? && |c| > 0 && Once(ScriptOf(c)) && Faithful(ScriptOf(c), 0) ==> AllOrNothing(c, r, old(Marks()))
      ensures err.None? && |c| > 0 && Once(ScriptOf(c)) && Apart() && NoneMarked(old(Marks())) ==>
                (AllOrNothing(c, r, old(Marks())) <==> Faithful(ScriptOf(c), 0))
    {
      hide ScriptOf, After, Level, Once, AllOrNothing, MarksExactly, Faithful, Apart;
      if err.Some? {
        return Err(err.value);
      }
      Begin(c);
      if |builders| > 0 {
        var e := Invoke(0, 0, c);
        r := if e.Some? then Err(e.value) else Ok(nodes);
        if Once(ScriptOf(c)) && Faithful(ScriptOf(c), 0) {
          FaithfulSaves(c, e, old(Marks()));
        } else if Once(ScriptOf(c)) && Apart() && NoneMarked(old(Marks())) {
          OnlyFaithfulSaves(c, e, old(Marks()));
        }
      } else {
        r := Ok(nodes);
      }
    }

    /** The slices are made and the defaults set. */
    method Begin(ghost c: seq<Content>)
      requires c == Defaults()
      modifies this`specs, this`nodes, this`log, this`made, Mutations()`content
      ensures Holding(c, 0) && log == [] && made == {} && Marks() == old(Marks())
    {
      hide Inserts;
      specs, nodes := seq(|builders|, _ => None), seq(|builders|, _ => null);
      log, made := [], {};
      assert Marks() == old(Marks());
      assert c == Defaults();
      SetDefaults(c);
    }

    /** How the batch inserts of a run from the start end. */
    lemma RanFromStart(c: seq<Content>, e: Option<Error>, marks: map<AccountMutation, (bool, Account?)>)
      requires |c| == |builders| > 0 && Once(ScriptOf(c)) && Ran(0, 0, c, e, [], {}, marks)
      ensures var s := ScriptOf(c);
              var course, f := Level(s, 0, 0, 0), FirstFailing(s.checks, 0);
              && log == course.events && e == course.err && MarksExactly(course.done, marks, Marks())
              && (course.saved ==> SavedFrom(c, 0, {}) && batch(0, c) == Ok(ids))
              && Inserts(log) == (if f < |s.checks| then 0 else 1) && (f == |s.checks| ==> Insert(c) in log)
              && s.fails(0) == if batch(0, c).Ok? then None else Some(batch(0, c).error)
    {
      hide Level, Saved, ScriptOf, MarksExactly, AtMostOnce, SavedFrom, Inserts, TurnOf;
      var s := ScriptOf(c);
      InsertsAtMostOnce(s, 0);
      OnceTurn(s, 0, 0);
      NoInserts([]);
      assert [] + Level(s, 0, 0, 0).events == Level(s, 0, 0, 0).events;
      BatchError(c);
      SavedInserts(s);
    }

    lemma SavedInserts(s: Script)
      requires Proper(s) && |s.hooks| > 0 && Once(s)
      ensures Level(s, 0, 0, 0).saved ==> FirstFailing(s.checks, 0) == |s.checks|
    {
      hide Level, AtMostOnce;
      ThereAndBack(s, 0, 0, 0);
      OnceTurn(s, 0, 0);
    }

    /** When every hook calls once, and they are faithful to what is met, saving is all or nothing. */
    lemma FaithfulSaves(c: seq<Content>, e: Option<Error>, marks: map<AccountMutation, (bool, Account?)>)
      requires |c| == |builders| > 0 && Once(ScriptOf(c)) && Ran(0, 0, c, e, [], {}, marks) && marks.Keys == Mutations()
      requires Faithful(ScriptOf(c), 0)
      ensures AllOrNothing(c, if e.Some? then Err(e.value) else Ok(nodes), marks)
    {
      hide Level, Saved, ScriptOf, MarksExactly, Once, Ran, Faithful;
      var s := ScriptOf(c);
      RanFromStart(c, e, marks);
      RightIfFaithful(s, 0);
      if Met(s, 0).Some? {
        assert Level(s, 0, 0, 0).done == {};
        NoneDone(marks);
      }
    }

    /** And with separate mutations that were not done, only if they are. */
    lemma OnlyFaithfulSaves(c: seq<Content>, e: Option<Error>, marks: map<AccountMutation, (bool, Account?)>)
      requires |c| == |builders| > 0 && Once(ScriptOf(c)) && Ran(0, 0, c, e, [], {}, marks) && marks.Keys == Mutations()
      requires Apart() && NoneMarked(marks) && !Faithful(ScriptOf(c), 0)
      ensures !AllOrNothing(c, if e.Some? then Err(e.value) else Ok(nodes), marks)
    {
      hide Level, ScriptOf, Once, Ran, Faithful;
      var s := ScriptOf(c);
      var done := Level(s, 0, 0, 0).done;
      RanFromStart(c, e, marks);
      RightIfFaithful(s, 0);
      DoneInRange(s);
      if e == Met(s, 0) {
        var k: nat :| !(k in done <==> k < |s.hooks| && Met(s, 0).None?);
        OneDone(done, marks, k);
        assert builders[k].mutation in marks && Marks()[builders[k].mutation].0 == builders[k].mutation.done;
        if Met(s, 0).None? {
          assert |nodes| == |c| ==> !Saved(c, k);
        } else {
          assert Marks() != marks;
        }
      }
    }

    lemma OneDone(done: set<nat>, marks: map<AccountMutation, (bool, Account?)>, k: nat)
      requires k < |builders| && Apart() && NoneMarked(marks) && MarksExactly(done, marks, Marks())
      ensures builders[k].mutation in Mutations() && (builders[k].mutation.done <==> k in done)
    {
      assert builders[k] in builders && builders[k].mutation in Mutations();
      assert Among(done, builders[k].mutation) <==> k in done;
      assert Marks()[builders[k].mutation].0 == builders[k].mutation.done;
    }

    lemma DoneInRange(s: Script)
      requires Proper(s) && |s.hooks| > 0 && Once(s)
      ensures forall k <- Level(s, 0, 0, 0).done :: k < |s.hooks|
    {
      hide Level, AtMostOnce;
      ThereAndBack(s, 0, 0, 0);
    }

    lemma BatchError(c: seq<Content>)
      requires |c| == |builders|
      ensures ScriptOf(c).fails(0) == if batch(0, c).Ok? then None else Some(batch(0, c).error)
    {
    }

    lemma NoneDone(marks: map<AccountMutation, (bool, Account?)>)
      requires MarksExactly({}, marks, Marks()) && marks.Keys == Mutations()
      ensures Marks() == marks
    {
      assert forall m <- Mutations() :: !Among({}, m);
    }

    /** Some hook does not call its successor. */
    ghost predicate Drops() {
      exists k, h :: 0 <= k < |builders| && 0 <= h < |builders[k].hooks| && !Goes(builders[k].hooks[h], 0, None)
    }

    /** The mutations that are done after a run from mutations that were not. */
    lemma DoneExactly(done: set<nat>, marks: map<AccountMutation, (bool, Account?)>)
      requires MarksExactly(done, marks, Marks()) && NoneMarked(marks)
      ensures forall k <- done :: k < |builders| ==> builders[k].mutation in Mutations() && builders[k].mutation.done
      ensures forall m <- Mutations() :: m.done ==> exists k <- done :: k < |builders| && builders[k].mutation == m
    {
      forall k | k in done && k < |builders| ensures builders[k].mutation in Mutations() && builders[k].mutation.done {
        assert builders[k] in builders && Among(done, builders[k].mutation);
        assert Marks()[builders[k].mutation].0 == builders[k].mutation.done;
      }
      forall m | m in Mutations() && m.done ensures exists k <- done :: k < |builders| && builders[k].mutation == m {
        assert Marks()[m] == (m.done, m.node);
        assert Among(done, m);
      }
    }

    /** After a run of hooks that call at most once, started with mutations that were not done: exactly those builders'
        mutations are done that the way in gets past and to which no error comes back; and some mutation is done
        although nothing was inserted if and only if the way in ends before the insert, at a hook that drops its call
        or at a check that fails, and no error comes back to some builder outside of that. */
    lemma MarkedUnsaved(c: seq<Content>, e: Option<Error>, marks: map<AccountMutation, (bool, Account?)>)
      requires |c| == |builders| > 0 && AtMostOnce(ScriptOf(c)) && Ran(0, 0, c, e, [], {}, marks)
      requires NoneMarked(marks)
      ensures var s := ScriptOf(c);
              && (forall k: nat :: GotThrough(s, k, 0) ==> builders[k].mutation.done)
              && (forall m <- Mutations() :: m.done ==>
                  exists k: nat :: GotThrough(s, k, 0) && builders[k].mutation == m)
              && (Inserts(log) == 0 <==> !TurnOf(s, 0, 0).Reached?)
              && ((exists m <- Mutations() :: m.done) && Inserts(log) == 0 <==>
                    !TurnOf(s, 0, 0).Reached? && exists k: nat :: GotThrough(s, k, 0))
    {
      hide After, Level, Inserts, ScriptOf, AtMostOnce, Back, BackTo, TurnOf;
      var s := ScriptOf(c);
      NoInserts([]);
      assert [] + Level(s, 0, 0, 0).events == Level(s, 0, 0, 0).events;
      ThereAndBack(s, 0, 0, 0);
      InsertsAtMostOnce(s, 0);
      DoneExactly(Level(s, 0, 0, 0).done, marks);
      hide Ran, MarksExactly;
      assert forall k: nat :: GotThrough(s, k, 0) <==> k in Level(s, 0, 0, 0).done && k < |builders|;
      if k: nat :| GotThrough(s, k, 0) {
        assert builders[k].mutation in Mutations() && builders[k].mutation.done;
      }
    }

    /** After a run in which no error arises, whatever the numbers of calls, started with mutations that were not done:
        exactly those builders' mutations are done that the call got to; and some mutation is done although nothing was
        inserted if and only if some hook drops its call while the hooks of the first builder all call. */
    lemma DroppedCallMarksUnsaved(c: seq<Content>, e: Option<Error>, marks: map<AccountMutation, (bool, Account?)>)
      requires |c| == |builders| > 0 && Level(ScriptOf(c), 0, 0, 0).clean && Ran(0, 0, c, e, [], {}, marks)
      requires NoneMarked(marks)
      ensures e == None
      ensures forall k :: 0 <= k < |builders| && Through(ScriptOf(c), 0, 0, k) ==> builders[k].mutation.done
      ensures forall m <- Mutations() :: m.done ==>
                exists k :: 0 <= k < |builders| && builders[k].mutation == m && Through(ScriptOf(c), 0, 0, k)
      ensures Inserts(log) == 0 <==> Drops()
      ensures (exists m <- Mutations() :: m.done) && Inserts(log) == 0 <==> Drops() && Through(ScriptOf(c), 0, 0, 0)
    {
      hide After, Level, Product, Inserts, ScriptOf, Through, MarksExactly;
      var s := ScriptOf(c);
      NoInserts([]);
      assert [] + Level(s, 0, 0, 0).events == Level(s, 0, 0, 0).events;
      CleanEnds(s, 0, 0, 0);
      CleanInserts(s, 0, 0, 0);
      CleanDone(s, 0, 0, 0);
      OneInsertOrNone(s, 0, 0);
      DropsInScript(c);
      DoneExactly(Level(s, 0, 0, 0).done, marks);
      forall k | 0 <= k < |builders| && Through(s, 0, 0, k)
        ensures builders[k].mutation.done && builders[k].mutation in Mutations() && Through(s, 0, 0, 0)
      {
        assert k in Level(s, 0, 0, 0).done;
        FirstThrough(s, k);
      }
    }

    /** What comes out of a chain of hooks that call at most once, and how often it has inserted. */
    lemma RanBack(c: seq<Content>, e: Option<Error>, marks: map<AccountMutation, (bool, Account?)>)
      requires |c| == |builders| > 0 && AtMostOnce(ScriptOf(c)) && Ran(0, 0, c, e, [], {}, marks)
      ensures e == Back(ScriptOf(c), 0, 0, 0) && Inserts(log) == if TurnOf(ScriptOf(c), 0, 0).Reached? then 1 else 0
    {
      hide After, Level, ScriptOf, AtMostOnce, Back, BackTo, TurnOf, MarksExactly;
      var s := ScriptOf(c);
      assert Inserts([]) == 0 && [] + Level(s, 0, 0, 0).events == Level(s, 0, 0, 0).events;
      ThereAndBack(s, 0, 0, 0);
      InsertsAtMostOnce(s, 0);
    }

    lemma DropsInScript(c: seq<Content>)
      requires |c| == |builders| > 0
      ensures Drops() <==> exists k, h :: Inner(ScriptOf(c), 0, 0, k, h) && Tries(ScriptOf(c).hooks[k][h]) == 0
    {
      hide ScriptOf;
      var s := ScriptOf(c);
      if Drops() {
        var k, h :| 0 <= k < |builders| && 0 <= h < |builders[k].hooks| && !Goes(builders[k].hooks[h], 0, None);
        assert Inner(s, 0, 0, k, h);
      }
    }
  }

  lemma FirstThrough(s: Script, k: nat)
    requires Through(s, 0, 0, k)
    ensures Through(s, 0, 0, 0)
  {
  }

  // ---- two hooks ----

  /** A hook that drops its call without an error. */
  const DROPS := Hook(0, (_, _) => false, (_, last) => last)

  /** A hook that calls once, passes every error on, and makes an error of a success. */
  function Audits(e: Error): Hook {
    Hook(1, (_, _) => true, (n: nat, last: Option<Error>) => if last.Some? then last else Some(e))
  }

  method Builder(content: Content, hooks: seq<Hook>) returns (b: AccountCreate)
    ensures fresh(b) && fresh(b.mutation) && b.hooks == hooks && b.mutation.content == content && !b.mutation.done
  {
    var mutation := new AccountMutation(content);
    b := new AccountCreate(mutation, hooks);
  }

  /** Two builders, of which the second has a hook that drops the call: no error, nothing is inserted, and the first
      builder's mutation is done. */
  method FirstMarkedOnly(kind: Kind, content: Content, batch: (nat, seq<Content>) -> Result<nat -> Option<int>, Error>)
    returns (first: AccountMutation, second: AccountMutation, r: Result<seq<Account?>, Error>, events: seq<Event>)
    requires kind.check(Defaulted(kind, content)) == None
    ensures r.Ok? && Inserts(events) == 0 && first.done && !second.done
  {
    hide AccountCreateBulk.Ran, AccountCreateBulk.AllOrNothing, Inserts, Once, Faithful, AccountCreateBulk.ScriptOf;
    var one := Builder(content, []);
    var two := Builder(content, [DROPS]);
    first, second := one.mutation, two.mutation;
    var bulk := new AccountCreateBulk(kind, [one, two], batch, None);
    ghost var c, marks := bulk.Defaults(), bulk.Marks();
    r := bulk.Save(c);
    events := bulk.log;
    FirstOfTwo(bulk, c, if r.Err? then Some(r.error) else None, marks);
  }

  lemma FirstOfTwo(bulk: AccountCreateBulk, c: seq<Content>, e: Option<Error>,
                   marks: map<AccountMutation, (bool, Account?)>)
    requires |bulk.builders| == |c| == 2 && bulk.builders[0].hooks == [] && bulk.builders[1].hooks == [DROPS]
    requires bulk.builders[0].mutation != bulk.builders[1].mutation
    requires bulk.kind.check(c[0]) == None && bulk.Ran(0, 0, c, e, [], {}, marks)
    requires bulk.NoneMarked(marks)
    ensures e == None && Inserts(bulk.log) == 0 && bulk.builders[0].mutation.done && !bulk.builders[1].mutation.done
  {
    hide AccountCreateBulk.ScriptOf, AccountCreateBulk.Ran, Inserts, Level;
    var s := bulk.ScriptOf(c);
    assert TurnOf(s, 1, 0) == TurnOf(s, 0, 0) == Dropped(1, 0);
    assert Back(s, 1, 0, 0) == BackTo(s, 0, 0) == Back(s, 0, 0, 0) == None;
    assert GotThrough(s, 0, 0) && !GotThrough(s, 1, 0);
    bulk.MarkedUnsaved(c, e, marks);
    bulk.RanBack(c, e, marks);
    assert bulk.builders[1] in bulk.builders;
  }

  /** One builder with an auditing hook: the row is inserted and the mutation done, and yet Save returns an error. */
  method SavedWithError(kind: Kind, content: Content, e: Error, ids: nat -> Option<int>)
    returns (mutation: AccountMutation, r: Result<seq<Account?>, Error>, events: seq<Event>)
    requires kind.check(Defaulted(kind, content)) == None
    ensures r == Err(e) && Inserts(events) == 1 && mutation.done
  {
    hide AccountCreateBulk.Ran, AccountCreateBulk.AllOrNothing, Inserts, Once, Faithful, AccountCreateBulk.ScriptOf;
    var b := Builder(content, [Audits(e)]);
    mutation := b.mutation;
    var bulk := new AccountCreateBulk(kind, [b], (_, _) => Ok(ids), None);
    ghost var c, marks := bulk.Defaults(), bulk.Marks();
    r := bulk.Save(c);
    events := bulk.log;
    Audited(bulk, c, e, if r.Err? then Some(r.error) else None, marks);
  }

  lemma Audited(bulk: AccountCreateBulk, c: seq<Content>, own: Error, e: Option<Error>,
                marks: map<AccountMutation, (bool, Account?)>)
    requires |bulk.builders| == |c| == 1 && bulk.builders[0].hooks == [Audits(own)]
    requires bulk.kind.check(c[0]) == None && bulk.batch(0, c).Ok? && bulk.Ran(0, 0, c, e, [], {}, marks)
    requires bulk.NoneMarked(marks)
    ensures e == Some(own) && Inserts(bulk.log) == 1 && bulk.builders[0].mutation.done
  {
    hide AccountCreateBulk.ScriptOf, AccountCreateBulk.Ran, Inserts, Level;
    var s := bulk.ScriptOf(c);
    bulk.BatchError(c);
    assert TurnOf(s, 0, 1) == TurnOf(s, 0, 0) == Reached && BackTo(s, 0, 0) == None;
    assert Back(s, 0, 1, 0) == None && Goes(bulk.builders[0].hooks[0], 0, None);
    assert Back(s, 0, 0, 0) == bulk.builders[0].hooks[0].gives(1, None) == Some(own);
    assert GotThrough(s, 0, 0);
    bulk.MarkedUnsaved(c, e, marks);
    bulk.RanBack(c, e, marks);
  }

  lemma DefaultedTwice(kind: Kind, c: Content)
    ensures Defaulted(kind, Defaulted(kind, c)) == Defaulted(kind, c)
  {
    assert kind.defaults + (kind.defaults + c.fields) == kind.defaults + c.fields;
  }

  ghost predicate SameUpTo(a: seq<Account?>, b: seq<Account?>, i: nat) {
    |a| == |b| && forall k :: 0 <= k < i && k < |a| ==> a[k] == b[k]
  }

  function Contents(os: seq<Option<Content>>): (xs: seq<Content>)
    requires forall k :: 0 <= k < |os| ==> os[k].Some?
    ensures |xs| == |os| && forall k :: 0 <= k < |os| ==> os[k] == Some(xs[k])
  {
    seq(|os|, k requires 0 <= k < |os| && os[k].Some? => os[k].value)
  }
}
