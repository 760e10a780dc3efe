/** Edge updates: how a mutation accumulates them, the specs that the update builders make of them, and what these do
    to the neighbours of an updated node. */
module Updates {
  import opened Lists

  /** The pending changes of one edge. */
  datatype Change = Change(added: set<int>, removed: set<int>, cleared: bool)

  const NO_CHANGE := Change({}, {}, false)

  function Elements(ids: seq<int>): set<int> {
    set i | 0 <= i < |ids| :: ids[i]
  }

  // ---- accumulation in the mutation ----

  /** The fields that a mutation keeps for one edge. A unique edge is set rather than added to, and has no removals. */
  class EdgeMutation {
    const name: string
    const unique: bool
    var added: set<int>
    var removed: set<int>
    var cleared: bool

    constructor (name: string, unique: bool)
      ensures this.name == name && this.unique == unique && Pending() == NO_CHANGE
    {
      this.name, this.unique := name, unique;
      added, removed, cleared := {}, {}, false;
    }

    function Pending(): Change
      reads this
    {
      Change(added, removed, cleared)
    }

    ghost predicate Valid()
      reads this
    {
      unique ==> |added| <= 1 && removed == {}
    }

    method AddIDs(ids: seq<int>)
      requires !unique
      modifies this
      ensures Pending() == old(Pending()).(added := old(added) + Elements(ids))
    {
      for i := 0 to |ids|
        invariant Pending() == old(Pending()).(added := old(added) + Elements(ids[..i]))
      {
        assert Elements(ids[..i + 1]) == Elements(ids[..i]) + {ids[i]} by { ElementsMore(ids, i); }
        added := added + {ids[i]};
      }
      assert ids[..|ids|] == ids;
    }

    method RemoveIDs(ids: seq<int>)
      requires !unique
      modifies this
      ensures Pending() == old(Pending()).(added := old(added) - Elements(ids), removed := old(removed) + Elements(ids))
    {
      for i := 0 to |ids|
        invariant Pending() ==
            old(Pending()).(added := old(added) - Elements(ids[..i]), removed := old(removed) + Elements(ids[..i]))
      {
        assert Elements(ids[..i + 1]) == Elements(ids[..i]) + {ids[i]} by { ElementsMore(ids, i); }
        added := added - {ids[i]};
        removed := removed + {ids[i]};
      }
      assert ids[..|ids|] == ids;
    }

    method SetID(id: int)
      requires unique && Valid()
      modifies this`added
      ensures Valid() && Pending() == old(Pending()).(added := {id})
    {
      added := {id};
    }

    method Clear()
      modifies this`cleared
      ensures Pending() == old(Pending()).(cleared := true)
    {
      cleared := true;
    }

    method Reset()
      modifies this
      ensures Pending() == NO_CHANGE
    {
      added, removed, cleared := {}, {}, false;
    }

    /** The ids of a map of ids come in any order. */
    static method Listed(ids: set<int>) returns (list: seq<int>)
      ensures Elements(list) == ids && NoDup(list) && (list == [] <==> ids == {})
    {
      list := [];
      var rest := ids;
      while rest != {}
        invariant rest <= ids && Elements(list) == ids - rest && NoDup(list)
        decreases rest
      {
        assert (forall x: int :: x !in rest) ==> rest == {};
        var id :| id in rest;
        assert (list + [id])[..|list|] == list;
        ElementsMore(list + [id], |list|);
        assert (list + [id])[..|list| + 1] == list + [id];
        list := list + [id];
        rest := rest - {id};
      }
      if list != [] {
        assert list[0] in Elements(list);
      }
    }
  }

  lemma ElementsMore(ids: seq<int>, i: nat)
    requires i < |ids|
    ensures Elements(ids[..i + 1]) == Elements(ids[..i]) + {ids[i]}
  {
    assert ids[..i + 1] == ids[..i] + [ids[i]];
  }

  // ---- specs and what they do ----

  /** An instruction about one edge; in a Clear list, no target nodes stand for all of them. */
  datatype EdgeSpec = EdgeSpec(edge: string, unique: bool, nodes: seq<int>)

  datatype EdgeSpecs = EdgeSpecs(clear: seq<EdgeSpec>, add: seq<EdgeSpec>)

  /** The neighbours of a node, edge by edge. */
  type Links = map<string, set<int>>

  function Neighbours(links: Links, edge: string): set<int> {
    if edge in links then links[edge] else {}
  }

  function Unlinked(links: Links, s: EdgeSpec): Links {
    links[s.edge := if s.nodes == [] then {} else Neighbours(links, s.edge) - Elements(s.nodes)]
  }

  /** A unique edge is a foreign key, which is overwritten. */
  function Linked(links: Links, s: EdgeSpec): Links {
    links[s.edge := if s.unique then Elements(s.nodes) else Neighbours(links, s.edge) + Elements(s.nodes)]
  }

  function ClearAll(specs: seq<EdgeSpec>, links: Links): Links {
    if specs == [] then links else Unlinked(ClearAll(specs[..|specs| - 1], links), specs[|specs| - 1])
  }

  function AddAll(specs: seq<EdgeSpec>, links: Links): Links {
    if specs == [] then links else Linked(AddAll(specs[..|specs| - 1], links), specs[|specs| - 1])
  }

  /** The Clear list first, then the Add list. */
  function Applied(s: EdgeSpecs, links: Links): Links {
    AddAll(s.add, ClearAll(s.clear, links))
  }

  /** What a change means for the neighbours over a list edge, and over a unique one. */
  function Meaning(c: Change, unique: bool, before: set<int>): set<int> {
    if unique && c.added != {} then c.added
    else (if c.cleared then {} else before - c.removed) + c.added
  }

  // ---- building the specs ----

  /** The specs say about an edge exactly what the change means. */
  ghost predicate Says(s: EdgeSpecs, edge: string, unique: bool, c: Change) {
    forall links: Links :: Neighbours(Applied(s, links), edge) == Meaning(c, unique, Neighbours(links, edge))
  }

  ghost predicate NoneOf(specs: seq<EdgeSpec>, edge: string) {
    forall i :: 0 <= i < |specs| ==> specs[i].edge != edge
  }

  ghost predicate Silent(s: EdgeSpecs, edge: string) {
    NoneOf(s.clear, edge) && NoneOf(s.add, edge)
  }

  /** t has more specs than s, all of them about one edge. */
  ghost predicate Extends(s: EdgeSpecs, t: EdgeSpecs, edge: string) {
    && s.clear <= t.clear && s.add <= t.add
    && (forall i :: |s.clear| <= i < |t.clear| ==> t.clear[i].edge == edge)
    && (forall i :: |s.add| <= i < |t.add| ==> t.add[i].edge == edge)
  }

  /** Specs of other edges do not matter. */
  lemma {:induction false} ClearLocal(specs: seq<EdgeSpec>, n: nat, links: Links, edge: string)
    requires n <= |specs| && forall i :: n <= i < |specs| ==> specs[i].edge != edge
    ensures Neighbours(ClearAll(specs, links), edge) == Neighbours(ClearAll(specs[..n], links), edge)
  {
    if n == |specs| {
      assert specs[..n] == specs;
    } else {
      ClearLocal(specs[..|specs| - 1], n, links, edge);
      assert specs[..|specs| - 1][..n] == specs[..n];
    }
  }

  lemma {:induction false} AddLocal(specs: seq<EdgeSpec>, n: nat, a: Links, b: Links, edge: string)
    requires n <= |specs| && forall i :: n <= i < |specs| ==> specs[i].edge != edge
    requires Neighbours(a, edge) == Neighbours(b, edge)
    ensures Neighbours(AddAll(specs, a), edge) == Neighbours(AddAll(specs[..n], b), edge)
  {
    if specs != [] {
      if n == |specs| {
        AddLocal(specs[..n - 1], n - 1, a, b, edge);
        assert specs[..n] == specs;
        assert specs[..n - 1][..n - 1] == specs[..n - 1];
      } else {
        AddLocal(specs[..|specs| - 1], n, a, b, edge);
        assert specs[..|specs| - 1][..n] == specs[..n];
      }
    }
  }

  lemma StillSays(s: EdgeSpecs, t: EdgeSpecs, other: string, edge: string, unique: bool, c: Change)
    requires Extends(s, t, other) && edge != other && Says(s, edge, unique, c)
    ensures Says(t, edge, unique, c)
  {
    hide ClearAll, AddAll, Extends;
    forall links: Links ensures Neighbours(Applied(t, links), edge) == Meaning(c, unique, Neighbours(links, edge)) {
      StillClears(s, t, other, edge, links);
      StillAdds(s, t, other, edge, ClearAll(t.clear, links), ClearAll(s.clear, links));
      assert Neighbours(Applied(s, links), edge) == Meaning(c, unique, Neighbours(links, edge));
    }
  }

  lemma StillClears(s: EdgeSpecs, t: EdgeSpecs, other: string, edge: string, links: Links)
    requires Extends(s, t, other) && edge != other
    ensures Neighbours(ClearAll(t.clear, links), edge) == Neighbours(ClearAll(s.clear, links), edge)
  {
    hide ClearAll;
    assert t.clear[..|s.clear|] == s.clear;
    ClearLocal(t.clear, |s.clear|, links, edge);
  }

  lemma StillAdds(s: EdgeSpecs, t: EdgeSpecs, other: string, edge: string, a: Links, b: Links)
    requires Extends(s, t, other) && edge != other && Neighbours(a, edge) == Neighbours(b, edge)
    ensures Neighbours(AddAll(t.add, a), edge) == Neighbours(AddAll(s.add, b), edge)
  {
    hide AddAll;
    assert t.add[..|s.add|] == s.add;
    AddLocal(t.add, |s.add|, a, b, edge);
  }

  /** No edge is touched that no spec is about. */
  lemma SilentKeeps(s: EdgeSpecs, edge: string, links: Links)
    requires Silent(s, edge)
    ensures Neighbours(Applied(s, links), edge) == Neighbours(links, edge)
  {
    ClearLocal(s.clear, 0, links, edge);
    AddLocal(s.add, 0, ClearAll(s.clear, links), links, edge);
    assert s.clear[..0] == [] && s.add[..0] == [];
  }

  lemma {:induction false} ClearConcat(a: seq<EdgeSpec>, b: seq<EdgeSpec>, links: Links)
    ensures ClearAll(a + b, links) == ClearAll(b, ClearAll(a, links))
  {
    if b == [] {
      assert a + b == a;
    } else {
      ClearConcat(a, b[..|b| - 1], links);
      assert (a + b)[..|a + b| - 1] == a + b[..|b| - 1];
    }
  }

  lemma {:induction false} AddConcat(a: seq<EdgeSpec>, b: seq<EdgeSpec>, links: Links)
    ensures AddAll(a + b, links) == AddAll(b, AddAll(a, links))
  {
    if b == [] {
      assert a + b == a;
    } else {
      AddConcat(a, b[..|b| - 1], links);
      assert (a + b)[..|a + b| - 1] == a + b[..|b| - 1];
    }
  }

  /** The clear spec and the add spec of one edge, if it has them. */
  ghost predicate Blocks(name: string, unique: bool, c: Change, clears: seq<EdgeSpec>, adds: seq<EdgeSpec>) {
    && (if c.cleared then clears == [EdgeSpec(name, unique, [])]
        else if c.removed == {} then clears == []
        else |clears| == 1 && clears[0].edge == name && clears[0].nodes != [] && Elements(clears[0].nodes) == c.removed)
    && (if c.added == {} then adds == []
        else |adds| == 1 && adds[0].edge == name && adds[0].unique == unique && Elements(adds[0].nodes) == c.added)
  }

  lemma ClearBlock(earlier: seq<EdgeSpec>, name: string, unique: bool, c: Change, clears: seq<EdgeSpec>,
                   adds: seq<EdgeSpec>, links: Links)
    requires NoneOf(earlier, name) && Blocks(name, unique, c, clears, adds)
    ensures Neighbours(ClearAll(earlier + clears, links), name)
         == if c.cleared then {} else Neighbours(links, name) - c.removed
  {
    ClearConcat(earlier, clears, links);
    ClearLocal(earlier, 0, links, name);
    assert earlier[..0] == [];
    assert clears != [] ==> clears[..0] == [];
  }

  lemma AddBlock(earlier: seq<EdgeSpec>, name: string, unique: bool, c: Change, clears: seq<EdgeSpec>,
                 adds: seq<EdgeSpec>, links: Links)
    requires NoneOf(earlier, name) && Blocks(name, unique, c, clears, adds)
    ensures Neighbours(AddAll(earlier + adds, links), name)
         == if unique && c.added != {} then c.added else Neighbours(links, name) + c.added
  {
    AddConcat(earlier, adds, links);
    AddLocal(earlier, 0, links, links, name);
    assert earlier[..0] == [];
    assert adds != [] ==> adds[..0] == [];
  }

  lemma BlocksSay(s: EdgeSpecs, name: string, unique: bool, c: Change, clears: seq<EdgeSpec>, adds: seq<EdgeSpec>)
    requires Silent(s, name) && Blocks(name, unique, c, clears, adds) && (unique ==> c.removed == {})
    ensures Says(EdgeSpecs(s.clear + clears, s.add + adds), name, unique, c)
  {
    hide Blocks, ClearAll, AddAll;
    var t := EdgeSpecs(s.clear + clears, s.add + adds);
    forall links: Links ensures Neighbours(Applied(t, links), name) == Meaning(c, unique, Neighbours(links, name)) {
      ClearBlock(s.clear, name, unique, c, clears, adds, links);
      AddBlock(s.add, name, unique, c, clears, adds, ClearAll(t.clear, links));
    }
  }

  /** The three blocks for one edge in sqlSave; a unique edge has no block for removals. */
  method AppendEdge(m: EdgeMutation, s: EdgeSpecs) returns (t: EdgeSpecs)
    requires m.Valid() && Silent(s, m.name)
    ensures Extends(s, t, m.name) && Says(t, m.name, m.unique, m.Pending())
  {
    hide Says, Silent;
    t := s;
    if m.cleared {
      t := t.(clear := t.clear + [EdgeSpec(m.name, m.unique, [])]);
    }
    if !m.unique {
      var nodes := EdgeMutation.Listed(m.removed);
      if |nodes| > 0 && !m.cleared {
        t := t.(clear := t.clear + [EdgeSpec(m.name, m.unique, nodes)]);
      }
    }
    var nodes := EdgeMutation.Listed(m.added);
    if |nodes| > 0 {
      t := t.(add := t.add + [EdgeSpec(m.name, m.unique, nodes)]);
    }
    ghost var clears, adds := t.clear[|s.clear|..], t.add[|s.add|..];
    assert t.clear == s.clear + clears && t.add == s.add + adds;
    BlocksSay(s, m.name, m.unique, m.Pending(), clears, adds);
  }

  /** The edges of an account. */
  class AccountMutation {
    const groups: EdgeMutation
    const proxy: EdgeMutation
    const usageLogs: EdgeMutation
    const events: EdgeMutation

    constructor ()
      ensures Valid() && fresh({groups, proxy, usageLogs, events})
      ensures groups.Pending() == proxy.Pending() == usageLogs.Pending() == events.Pending() == NO_CHANGE
    {
      groups := new EdgeMutation("groups", false);
      proxy := new EdgeMutation("proxy", true);
      usageLogs := new EdgeMutation("usage_logs", false);
      events := new EdgeMutation("events", false);
    }

    ghost predicate Valid()
      reads this, groups, proxy, usageLogs, events
    {
      && groups.name == "groups" && proxy.name == "proxy" && usageLogs.name == "usage_logs" && events.name == "events"
      && !groups.unique && proxy.unique && !usageLogs.unique && !events.unique
      && proxy.Valid()
    }
  }

  /** The specs say about every edge of an account what the mutation holds, and are about no other edge. */
  ghost predicate SaysAll(s: EdgeSpecs, m: AccountMutation)
    reads m, m.groups, m.proxy, m.usageLogs, m.events
  {
    && Says(s, "groups", false, m.groups.Pending()) && Says(s, "usage_logs", false, m.usageLogs.Pending())
    && Says(s, "events", false, m.events.Pending()) && Says(s, "proxy", true, m.proxy.Pending())
    && forall edge :: edge !in {"groups", "proxy", "usage_logs", "events"} ==> Silent(s, edge)
  }

  /** Four extensions, one an edge. */
  lemma InTurnSays(m: AccountMutation, s0: EdgeSpecs, s1: EdgeSpecs, s2: EdgeSpecs, s3: EdgeSpecs, s: EdgeSpecs)
    requires s0 == EdgeSpecs([], [])
    requires Extends(s0, s1, "groups") && Says(s1, "groups", false, m.groups.Pending())
    requires Extends(s1, s2, "proxy") && Says(s2, "proxy", true, m.proxy.Pending())
    requires Extends(s2, s3, "usage_logs") && Says(s3, "usage_logs", false, m.usageLogs.Pending())
    requires Extends(s3, s, "events") && Says(s, "events", false, m.events.Pending())
    ensures SaysAll(s, m)
  {
    hide Says;
    StillSays(s1, s2, "proxy", "groups", false, m.groups.Pending());
    StillSays(s2, s3, "usage_logs", "groups", false, m.groups.Pending());
    StillSays(s3, s, "events", "groups", false, m.groups.Pending());
    StillSays(s2, s3, "usage_logs", "proxy", true, m.proxy.Pending());
    StillSays(s3, s, "events", "proxy", true, m.proxy.Pending());
    StillSays(s3, s, "events", "usage_logs", false, m.usageLogs.Pending());
  }

  /** The edge part of the update's sqlSave: on every edge, and for whatever neighbours a node had, the Clear list
      followed by the Add list has the effect of the mutation's change. */
  method EdgesToUpdate(m: AccountMutation) returns (s: EdgeSpecs)
    requires m.Valid()
    ensures SaysAll(s, m)
  {
    hide Says;
    var s0 := EdgeSpecs([], []);
    var s1 := AppendEdge(m.groups, s0);
    var s2 := AppendEdge(m.proxy, s1);
    var s3 := AppendEdge(m.usageLogs, s2);
    s := AppendEdge(m.events, s3);
    InTurnSays(m, s0, s1, s2, s3, s);
  }

  /** The clear specs and the add specs that the blocks of one edge append. */
  lemma WroteSays(s: EdgeSpecs, t: EdgeSpecs, name: string, unique: bool, c: Change, removed: seq<int>, added: seq<int>)
    requires Silent(s, name) && Elements(removed) == c.removed && (removed == [] <==> c.removed == {})
    requires Elements(added) == c.added && (added == [] <==> c.added == {}) && (unique ==> c.removed == {})
    requires t.clear == s.clear + (if c.cleared then [EdgeSpec(name, unique, [])]
                                   else if removed != [] then [EdgeSpec(name, unique, removed)] else [])
    requires t.add == s.add + (if added != [] then [EdgeSpec(name, unique, added)] else [])
    ensures Extends(s, t, name) && Says(t, name, unique, c)
    ensures forall other :: other != name && Silent(s, other) ==> Silent(t, other)
  {
    hide Says;
    BlocksSay(s, name, unique, c, t.clear[|s.clear|..], t.add[|s.add|..]);
    assert t == EdgeSpecs(s.clear + t.clear[|s.clear|..], s.add + t.add[|s.add|..]);
  }

  /** The edge part of UpdateOne's sqlSave, which is generated a second time, block by block. */
  method EdgesToUpdateOne(m: AccountMutation) returns (s: EdgeSpecs)
    requires m.Valid()
    ensures SaysAll(s, m)
  {
    hide Says;
    ghost var s0 := EdgeSpecs([], []);
    ghost var s1, s3;
    s, s1 := GroupsAndProxy(m);
    ghost var s2 := s;
    s, s3 := LogsAndEvents(m, s);
    InTurnSays(m, s0, s1, s2, s3, s);
  }

  /** The first five blocks, and the specs after three of them. */
  method GroupsAndProxy(m: AccountMutation) returns (s: EdgeSpecs, ghost s1: EdgeSpecs)
    requires m.Valid()
    ensures Extends(EdgeSpecs([], []), s1, "groups") && Says(s1, "groups", false, m.groups.Pending())
    ensures Extends(s1, s, "proxy") && Says(s, "proxy", true, m.proxy.Pending())
    ensures Silent(s, "usage_logs") && Silent(s, "events")
  {
    hide Says, Extends, Silent, Elements, NoDup;
    s := EdgeSpecs([], []);
    SilentStart();
    if m.groups.cleared {
      s := s.(clear := s.clear + [EdgeSpec("groups", false, [])]);
    }
    var groupsRemoved := EdgeMutation.Listed(m.groups.removed);
    if |groupsRemoved| > 0 && !m.groups.cleared {
      s := s.(clear := s.clear + [EdgeSpec("groups", false, groupsRemoved)]);
    }
    var groupsAdded := EdgeMutation.Listed(m.groups.added);
    if |groupsAdded| > 0 {
      s := s.(add := s.add + [EdgeSpec("groups", false, groupsAdded)]);
    }
    s1 := s;
    WroteSays(EdgeSpecs([], []), s1, "groups", false, m.groups.Pending(), groupsRemoved, groupsAdded);
    if m.proxy.cleared {
      s := s.(clear := s.clear + [EdgeSpec("proxy", true, [])]);
    }
    var proxyAdded := EdgeMutation.Listed(m.proxy.added);
    if |proxyAdded| > 0 {
      s := s.(add := s.add + [EdgeSpec("proxy", true, proxyAdded)]);
    }
    WroteSays(s1, s, "proxy", true, m.proxy.Pending(), [], proxyAdded);
  }

  /** The last six blocks, and the specs after three of them. */
  method LogsAndEvents(m: AccountMutation, s2: EdgeSpecs) returns (s: EdgeSpecs, ghost s3: EdgeSpecs)
    requires m.Valid() && Silent(s2, "usage_logs") && Silent(s2, "events")
    ensures Extends(s2, s3, "usage_logs") && Says(s3, "usage_logs", false, m.usageLogs.Pending())
    ensures Extends(s3, s, "events") && Says(s, "events", false, m.events.Pending())
  {
    hide Says, Extends, Silent, Elements, NoDup;
    s := s2;
    if m.usageLogs.cleared {
      s := s.(clear := s.clear + [EdgeSpec("usage_logs", false, [])]);
    }
    var usageLogsRemoved := EdgeMutation.Listed(m.usageLogs.removed);
    if |usageLogsRemoved| > 0 && !m.usageLogs.cleared {
      s := s.(clear := s.clear + [EdgeSpec("usage_logs", false, usageLogsRemoved)]);
    }
    var usageLogsAdded := EdgeMutation.Listed(m.usageLogs.added);
    if |usageLogsAdded| > 0 {
      s := s.(add := s.add + [EdgeSpec("usage_logs", false, usageLogsAdded)]);
    }
    s3 := s;
    WroteSays(s2, s3, "usage_logs", false, m.usageLogs.Pending(), usageLogsRemoved, usageLogsAdded);
    if m.events.cleared {
      s := s.(clear := s.clear + [EdgeSpec("events", false, [])]);
    }
    var eventsRemoved := EdgeMutation.Listed(m.events.removed);
    if |eventsRemoved| > 0 && !m.events.cleared {
      s := s.(clear := s.clear + [EdgeSpec("events", false, eventsRemoved)]);
    }
    var eventsAdded := EdgeMutation.Listed(m.events.added);
    if |eventsAdded| > 0 {
      s := s.(add := s.add + [EdgeSpec("events", false, eventsAdded)]);
    }
    WroteSays(s3, s, "events", false, m.events.Pending(), eventsRemoved, eventsAdded);
  }

  lemma SilentStart()
    ensures (forall edge :: Silent(EdgeSpecs([], []), edge)) && Elements([]) == {}
  {
  }

  /** Update and UpdateOne do the same to the edges of a node, whatever its neighbours were. */
  lemma UpdatesAgree(m: AccountMutation, s: EdgeSpecs, t: EdgeSpecs, links: Links, edge: string)
    requires SaysAll(s, m) && SaysAll(t, m)
    ensures Neighbours(Applied(s, links), edge) == Neighbours(Applied(t, links), edge)
  {
    hide Applied;
    if edge !in {"groups", "proxy", "usage_logs", "events"} {
      SilentKeeps(s, edge, links);
      SilentKeeps(t, edge, links);
    }
  }

  // ---- runs of updates ----

  /** Two updates of an edge are together one update. */
  function Then(c: Change, d: Change, unique: bool): Change {
    Change(if unique && d.added != {} then d.added else (if d.cleared then {} else c.added - d.removed) + d.added,
           c.removed + d.removed, c.cleared || d.cleared)
  }

  function Together(changes: seq<Change>, unique: bool): Change {
    if changes == [] then NO_CHANGE
    else Then(Together(changes[..|changes| - 1], unique), changes[|changes| - 1], unique)
  }

  function InTurn(changes: seq<Change>, unique: bool, before: set<int>): set<int> {
    if changes == [] then before
    else Meaning(changes[|changes| - 1], unique, InTurn(changes[..|changes| - 1], unique, before))
  }

  /** A run of updates has the effect of one update, whatever the neighbours were; a unique edge has no removals. */
  lemma {:induction false} RunsCompose(changes: seq<Change>, unique: bool, before: set<int>)
    requires unique ==> forall i :: 0 <= i < |changes| ==> changes[i].removed == {}
    ensures InTurn(changes, unique, before) == Meaning(Together(changes, unique), unique, before)
    ensures unique ==> Together(changes, unique).removed == {}
  {
    if changes != [] {
      RunsCompose(changes[..|changes| - 1], unique, before);
      var c, d := Together(changes[..|changes| - 1], unique), changes[|changes| - 1];
      assert Meaning(d, unique, Meaning(c, unique, before)) == Meaning(Then(c, d, unique), unique, before);
    }
  }

  // ---- does a mutation mean what its calls say, one after the other? ----

  datatype Call = Add(ids: set<int>) | Remove(ids: set<int>) | Clear

  /** What the mutation holds after some calls. */
  function Accumulated(calls: seq<Call>): Change {
    if calls == [] then NO_CHANGE
    else
      var c := Accumulated(calls[..|calls| - 1]);
      match calls[|calls| - 1]
      case Add(ids) => c.(added := c.added + ids)
      case Remove(ids) => c.(added := c.added - ids, removed := c.removed + ids)
      case Clear => c.(cleared := true)
  }

  /** The calls carried out one after the other. */
  function OneByOne(calls: seq<Call>, before: set<int>): set<int> {
    if calls == [] then before
    else
      var s := OneByOne(calls[..|calls| - 1], before);
      match calls[|calls| - 1]
      case Add(ids) => s + ids
      case Remove(ids) => s - ids
      case Clear => {}
  }

  /** The ids that were pending when the edge was cleared, and were neither added again nor removed since. */
  function Stale(calls: seq<Call>): set<int> {
    if calls == [] then {}
    else
      var earlier := Stale(calls[..|calls| - 1]);
      match calls[|calls| - 1]
      case Add(ids) => earlier - ids
      case Remove(ids) => earlier - ids
      case Clear => Accumulated(calls[..|calls| - 1]).added
  }

  lemma {:induction false} StaleStays(calls: seq<Call>, before: set<int>)
    ensures Meaning(Accumulated(calls), false, before) == OneByOne(calls, before) + Stale(calls)
    ensures OneByOne(calls, before) !! Stale(calls)
    ensures Stale(calls) <= Accumulated(calls).added
    ensures Stale(calls) != {} ==> Accumulated(calls).cleared
  {
    if calls != [] {
      StaleStays(calls[..|calls| - 1], before);
    }
  }

  /** A mutation of a list edge has the effect of its calls in turn exactly when no pending addition was cleared for
      good: clearing does not take back what was added before. */
  lemma MeansItsCalls(calls: seq<Call>, before: set<int>)
    ensures Meaning(Accumulated(calls), false, before) == OneByOne(calls, before) <==> Stale(calls) == {}
  {
    StaleStays(calls, before);
  }

  /** Adding and then clearing keeps the addition. */
  lemma ClearDoesNotTakeBack(id: int, before: set<int>)
    ensures var calls := [Add({id}), Clear];
            OneByOne(calls, before) == {} && Meaning(Accumulated(calls), false, before) == {id}
  {
    var calls := [Add({id}), Clear];
    assert calls[..1] == [Add({id})] && calls[..1][..0] == [];
    assert Accumulated([Add({id})]) == Change({id}, {}, false);
    assert Accumulated(calls) == Change({id}, {}, true);
  }

  /** The calls, made one after the other on a mutation that holds nothing for the edge. */
  method Make(m: EdgeMutation, calls: seq<Call>)
    requires !m.unique
    modifies m
    ensures m.Pending() == Accumulated(calls)
  {
    m.Reset();
    for i := 0 to |calls|
      invariant m.Pending() == Accumulated(calls[..i])
    {
      assert calls[..i + 1][..i] == calls[..i];
      match calls[i]
      case Add(ids) => {
        var list := EdgeMutation.Listed(ids);
        m.AddIDs(list);
      }
      case Remove(ids) => {
        var list := EdgeMutation.Listed(ids);
        m.RemoveIDs(list);
      }
      case Clear => m.Clear();
    }
    assert calls[..|calls|] == calls;
  }

  // ---- the same question for a unique edge ----

  datatype UniqueCall = SetTo(id: int) | Unset

  function AccumulatedUnique(calls: seq<UniqueCall>): Change {
    if calls == [] then NO_CHANGE
    else
      var c := AccumulatedUnique(calls[..|calls| - 1]);
      match calls[|calls| - 1]
      case SetTo(id) => c.(added := {id})
      case Unset => c.(cleared := true)
  }

  function UniqueOneByOne(calls: seq<UniqueCall>, before: set<int>): set<int> {
    if calls == [] then before
    else match calls[|calls| - 1]
         case SetTo(id) => {id}
         case Unset => {}
  }

  lemma {:induction false} UniqueAccumulates(calls: seq<UniqueCall>)
    ensures AccumulatedUnique(calls).added == {} <==> forall i :: 0 <= i < |calls| ==> calls[i].Unset?
    ensures AccumulatedUnique(calls).removed == {}
    ensures calls != [] && AccumulatedUnique(calls).added == {} ==> AccumulatedUnique(calls).cleared
    ensures calls != [] && calls[|calls| - 1].SetTo? ==> AccumulatedUnique(calls).added == {calls[|calls| - 1].id}
  {
    if calls != [] {
      UniqueAccumulates(calls[..|calls| - 1]);
    }
  }

  /** A mutation of a unique edge has the effect of its last call exactly when that call sets the edge, or no call
      does: clearing a unique edge does not take back a value set in the same mutation. */
  lemma UniqueMeansItsCalls(calls: seq<UniqueCall>, before: set<int>)
    ensures Meaning(AccumulatedUnique(calls), true, before) == UniqueOneByOne(calls, before)
       <==> (calls != [] && calls[|calls| - 1].SetTo?) || forall i :: 0 <= i < |calls| ==> calls[i].Unset?
  {
    UniqueAccumulates(calls);
  }

  /** The calls, made one after the other on a mutation that holds nothing for the edge. */
  method MakeUnique(m: EdgeMutation, calls: seq<UniqueCall>)
    requires m.unique
    modifies m
    ensures m.Valid() && m.Pending() == AccumulatedUnique(calls)
  {
    m.Reset();
    for i := 0 to |calls|
      invariant m.Valid() && m.Pending() == AccumulatedUnique(calls[..i])
    {
      assert calls[..i + 1][..i] == calls[..i];
      match calls[i]
      case SetTo(id) => m.SetID(id);
      case Unset => m.Clear();
    }
    assert calls[..|calls|] == calls;
  }
}
