/** What a chain of mutators does: each builder's hooks around its own mutator, which calls the next builder's, with one
    batch insert at the end. */
module Chains {
  import opened Wrappers
  import opened Records

  /** What a create mutation has accumulated. */
  datatype Content = Content(fields: map<string, Cell>, edges: map<string, seq<int>>)

  /** A hook: after n calls of its successor, the last of which has returned last (None before the first), whether it
      calls again, and if not, what it returns. It makes at most so many calls. */
  datatype Hook = Hook(
    most: nat,
    again: (nat, Option<Error>) -> bool,
    gives: (nat, Option<Error>) -> Option<Error>)

  predicate Goes(h: Hook, n: nat, last: Option<Error>) {
    n < h.most && h.again(n, last)
  }

  datatype Event =
    | Enter(builder: nat, hook: nat)
    | Exit(builder: nat, hook: nat)
    | Insert(specs: seq<Content>)

  /** All that the course of a chain depends on: the hooks, which checks fail, what the batch insert gets, and how the
      successive attempts to insert it end. */
  datatype Script = Script(
    hooks: seq<seq<Hook>>,
    checks: seq<Option<Error>>,
    specs: seq<Content>,
    fails: nat -> Option<Error>)

  ghost predicate Proper(s: Script) {
    |s.hooks| == |s.checks| == |s.specs|
  }

  /** What happens, the error that is returned, the builders whose mutators went through to their end, whether no error
      arose on the way, and whether the last way in went through all builders from here on. */
  datatype Course = Course(events: seq<Event>, err: Option<Error>, done: set<nat>, clean: bool, saved: bool)

  function Then(a: Course, b: Course): Course {
    Course(a.events + b.events, b.err, a.done + b.done, a.clean && b.clean, b.saved)
  }

  const NOTHING := Course([], None, {}, true, false)

  /** The calls of one hook, and how many there were. */
  datatype Rounds = Rounds(made: nat, course: Course)

  function Inserts(events: seq<Event>): nat {
    if events == [] then 0
    else
      var n := |events| - 1;
      Inserts(events[..n]) + (if events[n].Insert? then 1 else 0)
  }

  /** A hook around its calls. */
  function Around(i: nat, j: nat, h: Hook, r: Rounds): Course {
    var err := h.gives(r.made, r.course.err);
    Course([Enter(i, j)] + r.course.events + [Exit(i, j)], err, r.course.done, r.course.clean && err.None?,
           r.course.saved)
  }

  /** The mutator of builder i around what it calls. */
  function Passed(i: nat, r: Course): Course {
    if r.err.None? then r.(done := r.done + {i}) else r.(saved := false)
  }

  /** Mutator i from its hook j inwards, when a inserts have been attempted. */
  ghost function Level(s: Script, i: nat, j: nat, a: nat): Course
    requires Proper(s) && i < |s.hooks| && j <= |s.hooks[i]|
    decreases |s.hooks| - i, |s.hooks[i]| - j, 1, 0
  {
    if j < |s.hooks[i]| then Around(i, j, s.hooks[i][j], Calls(s, i, j, s.hooks[i][j].most, a))
    else if s.checks[i].Some? then Course([], s.checks[i], {}, false, false)
    else Passed(i, Deeper(s, i, a))
  }

  /** At most n calls of hook j of builder i to its successor. */
  ghost function Calls(s: Script, i: nat, j: nat, n: nat, a: nat): Rounds
    requires Proper(s) && i < |s.hooks| && j < |s.hooks[i]|
    decreases |s.hooks| - i, |s.hooks[i]| - j, 0, n
  {
    if n == 0 then Rounds(0, NOTHING)
    else
      var r := Calls(s, i, j, n - 1, a);
      if r.made < n - 1 || !Goes(s.hooks[i][j], n - 1, r.course.err) then r
      else Rounds(n, Then(r.course, Level(s, i, j + 1, a + Inserts(r.course.events))))
  }

  /** What builder i's own mutator calls: the next builder's, or the batch insert. */
  ghost function Deeper(s: Script, i: nat, a: nat): Course
    requires Proper(s) && i < |s.hooks|
    decreases |s.hooks| - i, 0, 0, 0
  {
    if i + 1 < |s.hooks| then Level(s, i + 1, 0, a)
    else Course([Insert(s.specs)], s.fails(a), {}, s.fails(a).None?, s.fails(a).None?)
  }

  lemma HookInserts(i: nat, j: nat, events: seq<Event>)
    ensures Inserts([Enter(i, j)] + events + [Exit(i, j)]) == Inserts(events)
  {
    InsertsAppend([Enter(i, j)] + events, [Exit(i, j)]);
    InsertsAppend([Enter(i, j)], events);
  }

  lemma LevelInnermost(s: Script, i: nat, a: nat)
    requires Proper(s) && i < |s.hooks|
    ensures Level(s, i, |s.hooks[i]|, a)
         == if s.checks[i].Some? then Course([], s.checks[i], {}, false, false) else Passed(i, Deeper(s, i, a))
  {
  }

  lemma LevelHook(s: Script, i: nat, j: nat, a: nat)
    requires Proper(s) && i < |s.hooks| && j < |s.hooks[i]|
    ensures Level(s, i, j, a) == Around(i, j, s.hooks[i][j], Calls(s, i, j, s.hooks[i][j].most, a))
  {
  }

  lemma {:induction false} InsertsAppend(a: seq<Event>, b: seq<Event>)
    ensures Inserts(a + b) == Inserts(a) + Inserts(b)
  {
    if b == [] {
      assert a + b == a;
    } else {
      InsertsAppend(a, b[..|b| - 1]);
      assert (a + b)[..|a + b| - 1] == a + b[..|b| - 1];
    }
  }

  lemma CallsMore(s: Script, i: nat, j: nat, n: nat, a: nat)
    requires Proper(s) && i < |s.hooks| && j < |s.hooks[i]|
    requires Calls(s, i, j, n, a).made == n && Goes(s.hooks[i][j], n, Calls(s, i, j, n, a).course.err)
    ensures var first := Calls(s, i, j, n, a).course;
            Calls(s, i, j, n + 1, a) == Rounds(n + 1, Then(first, Level(s, i, j + 1, a + Inserts(first.events))))
  {
  }

  lemma {:induction false} CallsBound(s: Script, i: nat, j: nat, n: nat, a: nat)
    requires Proper(s) && i < |s.hooks| && j < |s.hooks[i]|
    ensures Calls(s, i, j, n, a).made <= n
  {
    if n > 0 {
      CallsBound(s, i, j, n - 1, a);
    }
  }

  /** A hook that does not call again has made all its calls. */
  lemma {:induction false} CallsStop(s: Script, i: nat, j: nat, m: nat, n: nat, a: nat)
    requires Proper(s) && i < |s.hooks| && j < |s.hooks[i]| && m <= n
    requires Calls(s, i, j, m, a).made == m && !Goes(s.hooks[i][j], m, Calls(s, i, j, m, a).course.err)
    ensures Calls(s, i, j, n, a) == Calls(s, i, j, m, a)
  {
    if m < n {
      CallsStop(s, i, j, m, n - 1, a);
    }
  }

  lemma {:induction false} NoInserts(events: seq<Event>)
    requires forall k :: 0 <= k < |events| ==> !events[k].Insert?
    ensures Inserts(events) == 0
  {
    if events != [] {
      NoInserts(events[..|events| - 1]);
    }
  }

  // ---- hooks that call their successor at most once ----

  ghost predicate AtMostOnce(s: Script) {
    forall i, j :: 0 <= i < |s.hooks| && 0 <= j < |s.hooks[i]| ==> forall e :: !Goes(s.hooks[i][j], 1, e)
  }

  /** Where the way in ends: at a hook that drops its call, at a builder whose check fails, or at the insert. */
  datatype Turn = Dropped(builder: nat, hook: nat) | Failed(builder: nat) | Reached

  function TurnOf(s: Script, i: nat, j: nat): Turn
    requires i < |s.hooks| == |s.checks| && j <= |s.hooks[i]|
    decreases |s.hooks| - i, |s.hooks[i]| - j
  {
    if j < |s.hooks[i]| then if Goes(s.hooks[i][j], 0, None) then TurnOf(s, i, j + 1) else Dropped(i, j)
    else if s.checks[i].Some? then Failed(i)
    else if i + 1 < |s.hooks| then TurnOf(s, i + 1, 0)
    else Reached
  }

  /** The hooks on the way in. */
  function WayIn(s: Script, i: nat, j: nat): seq<Event>
    requires i < |s.hooks| == |s.checks| && j <= |s.hooks[i]|
    decreases |s.hooks| - i, |s.hooks[i]| - j
  {
    if j < |s.hooks[i]| then [Enter(i, j)] + if Goes(s.hooks[i][j], 0, None) then WayIn(s, i, j + 1) else []
    else if s.checks[i].None? && i + 1 < |s.hooks| then WayIn(s, i + 1, 0)
    else []
  }

  /** The builders up to whose mutators the way in gets, that is to their ends and to what they call. */
  function Got(s: Script, turn: Turn): nat {
    match turn
    case Dropped(k, _) => k
    case Failed(k) => k
    case Reached => |s.hooks|
  }

  /** What comes back out of hook j of builder i: every hook makes what it likes of what comes back to it. */
  function Back(s: Script, i: nat, j: nat, a: nat): Option<Error>
    requires i < |s.hooks| == |s.checks| && j <= |s.hooks[i]|
    decreases |s.hooks| - i, |s.hooks[i]| - j, 1
  {
    if j < |s.hooks[i]| then
      var h := s.hooks[i][j];
      if Goes(h, 0, None) then h.gives(1, Back(s, i, j + 1, a)) else h.gives(0, None)
    else if s.checks[i].Some? then s.checks[i]
    else BackTo(s, i, a)
  }

  /** What comes back to the mutator of builder i. */
  function BackTo(s: Script, i: nat, a: nat): Option<Error>
    requires i < |s.hooks| == |s.checks|
    decreases |s.hooks| - i, 0, 0
  {
    if i + 1 < |s.hooks| then Back(s, i + 1, 0, a) else s.fails(a)
  }

  /** Builder k is through: the way in gets past it, and no error comes back to its mutator. */
  ghost predicate GotThrough(s: Script, k: nat, a: nat)
    requires Proper(s) && |s.hooks| > 0
  {
    k < |s.hooks| && k < Got(s, TurnOf(s, 0, 0)) && BackTo(s, k, a).None?
  }

  function Exited(e: Event): Event {
    if e.Enter? then Exit(e.builder, e.hook) else e
  }

  function Mirror(events: seq<Event>): seq<Event> {
    seq(|events|, k requires 0 <= k < |events| => Exited(events[|events| - 1 - k]))
  }

  lemma MirrorAround(first: Event, rest: seq<Event>)
    ensures Mirror([first] + rest) == Mirror(rest) + [Exited(first)]
  {
  }

  lemma MirrorNone()
    ensures Mirror([]) == []
  {
  }

  /** A builder is through exactly if the way in gets past it and no error comes back to its mutator. */
  ghost predicate Out(s: Script, i: nat, j: nat, a: nat, course: Course)
    requires i < |s.hooks| == |s.checks| && j <= |s.hooks[i]|
  {
    var turn := TurnOf(s, i, j);
    && i <= Got(s, turn) <= |s.hooks| && course.err == Back(s, i, j, a)
    && (forall k: nat :: k in course.done <==> i <= k < Got(s, turn) && BackTo(s, k, a).None?)
    && (course.saved <==> turn.Reached? && forall k: nat :: i <= k < |s.hooks| ==> BackTo(s, k, a).None?)
  }

  /** The whole course of a chain of hooks that call at most once: the way in, the insert if the way in gets there, and
      the exact reverse of the way in; and who is through. */
  lemma {:induction false} ThereAndBack(s: Script, i: nat, j: nat, a: nat)
    requires Proper(s) && i < |s.hooks| && j <= |s.hooks[i]| && AtMostOnce(s)
    ensures var course := Level(s, i, j, a);
            && course.events == WayIn(s, i, j) + (if TurnOf(s, i, j).Reached? then [Insert(s.specs)] else [])
                                + Mirror(WayIn(s, i, j))
            && Out(s, i, j, a, course)
    decreases |s.hooks| - i, |s.hooks[i]| - j
  {
    hide Level, Mirror;
    MirrorNone();
    if j < |s.hooks[i]| {
      CallsAtMostOnce(s, i, j, a);
      LevelHook(s, i, j, a);
      if Goes(s.hooks[i][j], 0, None) {
        ThereAndBack(s, i, j + 1, a);
        MirrorAround(Enter(i, j), WayIn(s, i, j + 1));
      } else {
        MirrorAround(Enter(i, j), []);
        assert [Enter(i, j)] + [] == [Enter(i, j)];
      }
    } else {
      LevelInnermost(s, i, a);
      if s.checks[i].None? && i + 1 < |s.hooks| {
        ThereAndBack(s, i + 1, 0, a);
        OutPassed(s, i, a);
      } else if s.checks[i].None? {
        assert [] + [Insert(s.specs)] + [] == [Insert(s.specs)];
        OutLast(s, i, a);
      }
    }
  }

  lemma OutLast(s: Script, i: nat, a: nat)
    requires Proper(s) && i + 1 == |s.hooks| && s.checks[i].None?
    ensures Out(s, i, |s.hooks[i]|, a, Level(s, i, |s.hooks[i]|, a))
  {
    hide Level;
    LevelInnermost(s, i, a);
    var course := Level(s, i, |s.hooks[i]|, a);
    assert course == Passed(i, Deeper(s, i, a));
    assert BackTo(s, i, a) == s.fails(a) == course.err;
    forall k: nat ensures k in course.done <==> i <= k < |s.hooks| && BackTo(s, k, a).None? {
    }
  }

  lemma OutPassed(s: Script, i: nat, a: nat)
    requires Proper(s) && i + 1 < |s.hooks| && s.checks[i].None? && Out(s, i + 1, 0, a, Level(s, i + 1, 0, a))
    ensures Out(s, i, |s.hooks[i]|, a, Level(s, i, |s.hooks[i]|, a))
  {
    hide Level, Back;
    LevelInnermost(s, i, a);
    var r, course := Level(s, i + 1, 0, a), Level(s, i, |s.hooks[i]|, a);
    assert course == Passed(i, r);
    assert Back(s, i, |s.hooks[i]|, a) == BackTo(s, i, a) == r.err by {
      BackNext(s, i, a);
    }
    assert TurnOf(s, i, |s.hooks[i]|) == TurnOf(s, i + 1, 0);
    forall k: nat ensures k in course.done <==> i <= k < Got(s, TurnOf(s, i, |s.hooks[i]|)) && BackTo(s, k, a).None? {
      assert k in r.done <==> i + 1 <= k < Got(s, TurnOf(s, i + 1, 0)) && BackTo(s, k, a).None?;
    }
  }

  lemma BackNext(s: Script, i: nat, a: nat)
    requires Proper(s) && i + 1 < |s.hooks| && s.checks[i].None?
    ensures Back(s, i, |s.hooks[i]|, a) == BackTo(s, i, a) == Back(s, i + 1, 0, a)
  {
  }

  lemma CallsAtMostOnce(s: Script, i: nat, j: nat, a: nat)
    requires Proper(s) && i < |s.hooks| && j < |s.hooks[i]| && AtMostOnce(s)
    ensures Calls(s, i, j, s.hooks[i][j].most, a)
         == if Goes(s.hooks[i][j], 0, None) then Rounds(1, Level(s, i, j + 1, a)) else Rounds(0, NOTHING)
  {
    hide Level;
    var h := s.hooks[i][j];
    assert Calls(s, i, j, 0, a) == Rounds(0, NOTHING);
    if Goes(h, 0, None) {
      FirstCall(s, i, j, a);
      CallsStop(s, i, j, 1, h.most, a);
    } else {
      CallsStop(s, i, j, 0, h.most, a);
    }
  }

  lemma FirstCall(s: Script, i: nat, j: nat, a: nat)
    requires Proper(s) && i < |s.hooks| && j < |s.hooks[i]| && Goes(s.hooks[i][j], 0, None)
    ensures Calls(s, i, j, 1, a) == Rounds(1, Level(s, i, j + 1, a))
  {
    hide Level;
    var r := Level(s, i, j + 1, a);
    assert Inserts([]) == 0;
    assert Calls(s, i, j, 0, a) == Rounds(0, NOTHING);
    CallsMore(s, i, j, 0, a);
    assert [] + r.events == r.events && {} + r.done == r.done;
  }

  lemma {:induction false} WayInEnters(s: Script, i: nat, j: nat)
    requires i < |s.hooks| == |s.checks| && j <= |s.hooks[i]|
    ensures forall k :: 0 <= k < |WayIn(s, i, j)| ==> WayIn(s, i, j)[k].Enter?
    decreases |s.hooks| - i, |s.hooks[i]| - j
  {
    if j < |s.hooks[i]| {
      if Goes(s.hooks[i][j], 0, None) {
        WayInEnters(s, i, j + 1);
      }
    } else if s.checks[i].None? && i + 1 < |s.hooks| {
      WayInEnters(s, i + 1, 0);
    }
  }

  /** The insert runs once if the way in gets to it, and else not at all. */
  lemma InsertsAtMostOnce(s: Script, a: nat)
    requires Proper(s) && |s.hooks| > 0 && AtMostOnce(s)
    ensures var course := Level(s, 0, 0, a);
            && Inserts(course.events) == (if TurnOf(s, 0, 0).Reached? then 1 else 0)
            && (TurnOf(s, 0, 0).Reached? ==> Insert(s.specs) in course.events)
  {
    hide Level, WayIn;
    ThereAndBack(s, 0, 0, a);
    var enters := WayIn(s, 0, 0);
    WayInEnters(s, 0, 0);
    NoInserts(enters);
    assert forall k :: 0 <= k < |enters| ==> Mirror(enters)[k] == Exited(enters[|enters| - 1 - k]);
    NoInserts(Mirror(enters));
    var middle := if TurnOf(s, 0, 0).Reached? then [Insert(s.specs)] else [];
    InsertsAppend(enters + middle, Mirror(enters));
    InsertsAppend(enters, middle);
    assert [Insert(s.specs)][..0] == [];
    if TurnOf(s, 0, 0).Reached? {
      assert (enters + middle)[|enters|] == Insert(s.specs);
    }
  }

  // ---- hooks that call their successor once ----

  ghost predicate Once(s: Script) {
    AtMostOnce(s) && forall i, j :: 0 <= i < |s.hooks| && 0 <= j < |s.hooks[i]| ==> Goes(s.hooks[i][j], 0, None)
  }

  /** The first builder from i on whose check fails; the number of builders if there is none. */
  function FirstFailing(checks: seq<Option<Error>>, i: nat): (f: nat)
    requires i <= |checks|
    ensures i <= f <= |checks| && (f < |checks| ==> checks[f].Some?)
    ensures forall k :: i <= k < f ==> checks[k].None?
    decreases |checks| - i
  {
    if i == |checks| || checks[i].Some? then i else FirstFailing(checks, i + 1)
  }

  /** The hooks of builder i from hook j inwards. */
  function BuilderEnters(i: nat, j: nat, hooks: nat): seq<Event>
    requires j <= hooks
  {
    seq(hooks - j, h requires 0 <= h => Enter(i, j + h))
  }

  /** The hooks of the builders from i to last, in order. */
  function Enters(s: Script, i: nat, last: nat): seq<Event>
    decreases |s.hooks| - i
  {
    if i > last || i >= |s.hooks| then [] else BuilderEnters(i, 0, |s.hooks[i]|) + Enters(s, i + 1, last)
  }

  lemma {:induction false} OnceTurn(s: Script, i: nat, j: nat)
    requires Proper(s) && i < |s.hooks| && j <= |s.hooks[i]| && Once(s)
    ensures var f := FirstFailing(s.checks, i); TurnOf(s, i, j) == if f < |s.checks| then Failed(f) else Reached
    decreases |s.hooks| - i, |s.hooks[i]| - j
  {
    hide AtMostOnce, Goes;
    if j < |s.hooks[i]| {
      OnceTurn(s, i, j + 1);
    } else if s.checks[i].None? && i + 1 < |s.hooks| {
      OnceTurn(s, i + 1, 0);
    }
  }

  lemma EntersHook(s: Script, i: nat, j: nat)
    requires Proper(s) && i < |s.hooks| && j < |s.hooks[i]| && Goes(s.hooks[i][j], 0, None)
    ensures WayIn(s, i, j) == [Enter(i, j)] + WayIn(s, i, j + 1)
    ensures BuilderEnters(i, j, |s.hooks[i]|) == [Enter(i, j)] + BuilderEnters(i, j + 1, |s.hooks[i]|)
  {
  }

  lemma EntersNext(s: Script, i: nat, last: nat)
    requires Proper(s) && i < |s.hooks|
    ensures BuilderEnters(i, |s.hooks[i]|, |s.hooks[i]|) == []
    ensures WayIn(s, i, |s.hooks[i]|) == if s.checks[i].None? && i + 1 < |s.hooks| then WayIn(s, i + 1, 0) else []
    ensures Enters(s, i + 1, last)
         == if i + 1 > last || i + 1 >= |s.hooks| then []
            else BuilderEnters(i + 1, 0, |s.hooks[i + 1]|) + Enters(s, i + 2, last)
  {
  }

  /** The way in is builder 0's hooks outermost first, then builder 1's, and so on up to the first failing check. */
  lemma {:induction false} OnceWayIn(s: Script, i: nat, j: nat)
    requires Proper(s) && i < |s.hooks| && j <= |s.hooks[i]| && Once(s)
    ensures WayIn(s, i, j) == BuilderEnters(i, j, |s.hooks[i]|) + Enters(s, i + 1, FirstFailing(s.checks, i))
    decreases |s.hooks| - i, |s.hooks[i]| - j
  {
    hide AtMostOnce, Goes, WayIn, BuilderEnters, Enters;
    if j < |s.hooks[i]| {
      OnceWayIn(s, i, j + 1);
      EntersHook(s, i, j);
    } else {
      EntersNext(s, i, FirstFailing(s.checks, i));
      if s.checks[i].None? && i + 1 < |s.hooks| {
        OnceWayIn(s, i + 1, 0);
      }
    }
  }

  /** The enter trace is builder 0's hooks outermost first, then builder 1's, and so on up to the first failing check,
      or else to the one batch insert; the exit trace is its exact reverse, whatever errors the hooks return. */
  lemma ExitsMirrorEnters(s: Script, a: nat)
    requires Proper(s) && |s.hooks| > 0 && Once(s)
    ensures var f := FirstFailing(s.checks, 0);
            var enters := Enters(s, 0, f);
            Level(s, 0, 0, a).events == enters + (if f < |s.checks| then [] else [Insert(s.specs)]) + Mirror(enters)
  {
    hide Level, Mirror, WayIn, AtMostOnce;
    ThereAndBack(s, 0, 0, a);
    OnceTurn(s, 0, 0);
    OnceWayIn(s, 0, 0);
  }

  /** The error that the chain meets: that of the first failing check, or that of the batch insert. */
  function Met(s: Script, a: nat): Option<Error> {
    var f := FirstFailing(s.checks, 0);
    if f < |s.checks| then s.checks[f] else s.fails(a)
  }

  /** Whatever the hooks make of errors: an error comes back to each builder that the way in gets past exactly if one is
      met, and what comes out in the end is what is met. */
  ghost predicate Faithful(s: Script, a: nat)
    requires 0 < |s.hooks| == |s.checks|
  {
    && Back(s, 0, 0, a) == Met(s, a)
    && forall k: nat :: k < FirstFailing(s.checks, 0) ==> (BackTo(s, k, a).None? <==> Met(s, a).None?)
  }

  /** The right builders are through and the right error is returned: all and none if nothing fails, and otherwise none
      and the error that is met. */
  ghost predicate Right(s: Script, a: nat, course: Course)
    requires |s.hooks| == |s.checks|
  {
    && course.err == Met(s, a)
    && forall k: nat :: k in course.done <==> k < |s.hooks| && Met(s, a).None?
  }

  /** Hooks that call once leave the right builders through, with the right error, exactly if they are faithful. */
  lemma RightIfFaithful(s: Script, a: nat)
    requires Proper(s) && |s.hooks| > 0 && Once(s)
    ensures Right(s, a, Level(s, 0, 0, a)) <==> Faithful(s, a)
    ensures Faithful(s, a) ==> (Level(s, 0, 0, a).saved <==> Met(s, a).None?)
  {
    hide Level, Back, BackTo, AtMostOnce, WayIn, Enters;
    ThereAndBack(s, 0, 0, a);
    OnceTurn(s, 0, 0);
    var course, f := Level(s, 0, 0, a), FirstFailing(s.checks, 0);
    assert forall k: nat :: k in course.done <==> k < f && BackTo(s, k, a).None?;
    if Right(s, a, course) {
      forall k: nat | k < f ensures BackTo(s, k, a).None? <==> Met(s, a).None? {
        assert k in course.done <==> Met(s, a).None?;
      }
      assert Faithful(s, a);
    }
    if Faithful(s, a) {
      assert BackTo(s, 0, a).None? || f == 0 || Met(s, a).Some?;
      assert Right(s, a, course);
    }
  }

  // ---- any number of calls ----

  ghost predicate Inner(s: Script, i: nat, j: nat, k: int, h: int) {
    0 <= k < |s.hooks| && 0 <= h < |s.hooks[k]| && (i < k || (i == k && j <= h))
  }

  lemma InnerHook(s: Script, i: nat, j: nat)
    requires i < |s.hooks| && j < |s.hooks[i]|
    ensures Inner(s, i, j, i, j)
    ensures forall k, h :: Inner(s, i, j, k, h) <==> Inner(s, i, j + 1, k, h) || (k == i && h == j)
  {
  }

  lemma InnerNext(s: Script, i: nat)
    requires i < |s.hooks|
    ensures forall k, h :: Inner(s, i, |s.hooks[i]|, k, h) <==> Inner(s, i + 1, 0, k, h)
  {
  }

  /** The number of calls that a hook makes when they all succeed, and n have been made. */
  function TriesFrom(h: Hook, n: nat): (t: nat)
    ensures n <= t
    decreases h.most - n
  {
    if Goes(h, n, None) then TriesFrom(h, n + 1) else n
  }

  function Tries(h: Hook): nat {
    TriesFrom(h, 0)
  }

  /** The product of the numbers of calls of all hooks from hook j of builder i inwards. */
  ghost function Product(s: Script, i: nat, j: nat): nat
    requires i < |s.hooks| && j <= |s.hooks[i]|
    decreases |s.hooks| - i, |s.hooks[i]| - j
  {
    if j < |s.hooks[i]| then Tries(s.hooks[i][j]) * Product(s, i, j + 1)
    else if i + 1 < |s.hooks| then Product(s, i + 1, 0)
    else 1
  }

  /** A run in which no error arises ends without one. */
  lemma {:induction false} CleanEnds(s: Script, i: nat, j: nat, a: nat)
    requires Proper(s) && i < |s.hooks| && j <= |s.hooks[i]|
    ensures Level(s, i, j, a).clean ==> Level(s, i, j, a).err == None
    decreases |s.hooks| - i, |s.hooks[i]| - j, 1, 0
  {
    if j == |s.hooks[i]| && i + 1 < |s.hooks| {
      CleanEnds(s, i + 1, 0, a);
    }
  }

  lemma {:induction false} CleanCalls(s: Script, i: nat, j: nat, n: nat, a: nat)
    requires Proper(s) && i < |s.hooks| && j < |s.hooks[i]| && Calls(s, i, j, n, a).course.clean
    ensures var h, r := s.hooks[i][j], Calls(s, i, j, n, a);
            && r.course.err == None && r.made <= n && TriesFrom(h, r.made) == Tries(h)
            && (r.made < n ==> !Goes(h, r.made, None))
  {
    hide Level, Inserts;
    if n > 0 {
      var r := Calls(s, i, j, n - 1, a);
      CleanCalls(s, i, j, n - 1, a);
      CleanEnds(s, i, j + 1, a + Inserts(r.course.events));
    }
  }

  /** A hook whose calls all succeed makes that many. */
  lemma CleanTries(s: Script, i: nat, j: nat, a: nat)
    requires Proper(s) && i < |s.hooks| && j < |s.hooks[i]| && Calls(s, i, j, s.hooks[i][j].most, a).course.clean
    ensures Calls(s, i, j, s.hooks[i][j].most, a).made == Tries(s.hooks[i][j])
  {
    hide Calls;
    CleanCalls(s, i, j, s.hooks[i][j].most, a);
  }

  /** In every run in which no error arises, whatever was checked and inserted, the batch insert runs as often as the
      numbers of calls multiply. */
  lemma {:induction false} CleanInserts(s: Script, i: nat, j: nat, a: nat)
    requires Proper(s) && i < |s.hooks| && j <= |s.hooks[i]| && Level(s, i, j, a).clean
    ensures Inserts(Level(s, i, j, a).events) == Product(s, i, j)
    decreases |s.hooks| - i, |s.hooks[i]| - j, 1, 0
  {
    if j < |s.hooks[i]| {
      var r := Calls(s, i, j, s.hooks[i][j].most, a);
      CleanTries(s, i, j, a);
      CleanInsertsCalls(s, i, j, s.hooks[i][j].most, a);
      HookInserts(i, j, r.course.events);
    } else if i + 1 < |s.hooks| {
      CleanInserts(s, i + 1, 0, a);
    } else {
      OneInsert(s);
    }
  }

  lemma {:induction false} CleanInsertsCalls(s: Script, i: nat, j: nat, n: nat, a: nat)
    requires Proper(s) && i < |s.hooks| && j < |s.hooks[i]| && Calls(s, i, j, n, a).course.clean
    ensures Inserts(Calls(s, i, j, n, a).course.events) == Calls(s, i, j, n, a).made * Product(s, i, j + 1)
    decreases |s.hooks| - i, |s.hooks[i]| - j, 0, n
  {
    hide Level, Product, Inserts;
    if n == 0 {
      NoInserts([]);
    } else {
      var r := Calls(s, i, j, n - 1, a);
      CallsBound(s, i, j, n - 1, a);
      CleanInsertsCalls(s, i, j, n - 1, a);
      if r.made == n - 1 && Goes(s.hooks[i][j], n - 1, r.course.err) {
        var last := Level(s, i, j + 1, a + Inserts(r.course.events));
        CleanInserts(s, i, j + 1, a + Inserts(r.course.events));
        assert Calls(s, i, j, n, a) == Rounds(n, Then(r.course, last));
        InsertsAppend(r.course.events, last.events);
        OneMore(n, Product(s, i, j + 1));
      }
    }
  }

  lemma OneMore(n: nat, x: nat)
    requires n > 0
    ensures n * x == (n - 1) * x + x
  {
  }

  lemma OneInsert(s: Script)
    ensures Inserts([Insert(s.specs)]) == 1
  {
    assert [Insert(s.specs)][..0] == [];
  }

  /** Nothing fails, and no hook makes an error of a success. */
  ghost predicate NothingFails(s: Script) {
    && (forall k :: 0 <= k < |s.checks| ==> s.checks[k].None?) && (forall k :: s.fails(k) == None)
    && forall i, j :: 0 <= i < |s.hooks| && 0 <= j < |s.hooks[i]| ==> forall n :: s.hooks[i][j].gives(n, None) == None
  }

  lemma {:induction false} NoErrorArises(s: Script, i: nat, j: nat, a: nat)
    requires Proper(s) && i < |s.hooks| && j <= |s.hooks[i]| && NothingFails(s)
    ensures Level(s, i, j, a).clean
    decreases |s.hooks| - i, |s.hooks[i]| - j, 1, 0
  {
    if j < |s.hooks[i]| {
      NoErrorArisesCalls(s, i, j, s.hooks[i][j].most, a);
      CleanCalls(s, i, j, s.hooks[i][j].most, a);
    } else if i + 1 < |s.hooks| {
      NoErrorArises(s, i + 1, 0, a);
    }
  }

  lemma {:induction false} NoErrorArisesCalls(s: Script, i: nat, j: nat, n: nat, a: nat)
    requires Proper(s) && i < |s.hooks| && j < |s.hooks[i]| && NothingFails(s)
    ensures Calls(s, i, j, n, a).course.clean
    decreases |s.hooks| - i, |s.hooks[i]| - j, 0, n
  {
    hide Level, Inserts;
    if n > 0 {
      NoErrorArisesCalls(s, i, j, n - 1, a);
      NoErrorArises(s, i, j + 1, a + Inserts(Calls(s, i, j, n - 1, a).course.events));
    }
  }

  /** When nothing fails, the batch insert runs as often as the numbers of calls multiply. */
  lemma InsertsMultiply(s: Script, i: nat, j: nat, a: nat)
    requires Proper(s) && i < |s.hooks| && j <= |s.hooks[i]| && NothingFails(s)
    ensures Level(s, i, j, a).err == None && Inserts(Level(s, i, j, a).events) == Product(s, i, j)
  {
    hide Level, Product, Inserts;
    NoErrorArises(s, i, j, a);
    CleanEnds(s, i, j, a);
    CleanInserts(s, i, j, a);
  }

  /** So it runs once exactly when every hook calls its successor once, and not at all exactly when some hook
      drops the call. */
  lemma {:induction false} OneInsertOrNone(s: Script, i: nat, j: nat)
    requires i < |s.hooks| && j <= |s.hooks[i]|
    ensures Product(s, i, j) == 1 <==> forall k, h :: Inner(s, i, j, k, h) ==> Tries(s.hooks[k][h]) == 1
    ensures Product(s, i, j) == 0 <==> exists k, h :: Inner(s, i, j, k, h) && Tries(s.hooks[k][h]) == 0
    decreases |s.hooks| - i, |s.hooks[i]| - j
  {
    hide Tries;
    if j < |s.hooks[i]| {
      OneInsertOrNone(s, i, j + 1);
      InnerHook(s, i, j);
      var x, y := Tries(s.hooks[i][j]), Product(s, i, j + 1);
      assert x * y == 0 <==> x == 0 || y == 0;
      assert x * y == 1 <==> x == 1 && y == 1 by {
        if x > 1 && y > 0 {
          assert x * y > y;
        }
      }
    } else if i + 1 < |s.hooks| {
      OneInsertOrNone(s, i + 1, 0);
      InnerNext(s, i);
    }
  }

  /** Every hook from hook j of builder i inwards, up to and including those of builder k, calls its successor. */
  ghost predicate Through(s: Script, i: nat, j: nat, k: int) {
    forall l, h :: Inner(s, i, j, l, h) && l <= k ==> Goes(s.hooks[l][h], 0, None)
  }

  lemma ThroughHook(s: Script, i: nat, j: nat, k: int)
    requires i < |s.hooks| && j < |s.hooks[i]| && i <= k
    ensures Through(s, i, j, k) <==> Goes(s.hooks[i][j], 0, None) && Through(s, i, j + 1, k)
  {
    InnerHook(s, i, j);
  }

  lemma ThroughInnermost(s: Script, i: nat, k: int)
    requires i < |s.hooks| && i <= k
    ensures Through(s, i, |s.hooks[i]|, k) <==> k == i || Through(s, i + 1, 0, k)
  {
    InnerNext(s, i);
  }

  /** In a run in which no error arises exactly those builders are through that the call gets to. */
  lemma {:induction false} CleanDone(s: Script, i: nat, j: nat, a: nat)
    requires Proper(s) && i < |s.hooks| && j <= |s.hooks[i]| && Level(s, i, j, a).clean
    ensures forall k: nat :: k in Level(s, i, j, a).done <==> i <= k < |s.hooks| && Through(s, i, j, k)
    decreases |s.hooks| - i, |s.hooks[i]| - j, 1, 0
  {
    hide Level, Through;
    if j < |s.hooks[i]| {
      LevelHook(s, i, j, a);
      CleanDoneCalls(s, i, j, s.hooks[i][j].most, a);
      forall k | i <= k ensures Through(s, i, j, k) <==> Goes(s.hooks[i][j], 0, None) && Through(s, i, j + 1, k) {
        ThroughHook(s, i, j, k);
      }
    } else {
      LevelInnermost(s, i, a);
      if i + 1 < |s.hooks| {
        CleanDone(s, i + 1, 0, a);
        CleanEnds(s, i + 1, 0, a);
      }
      forall k | i <= k < |s.hooks| ensures Through(s, i, j, k) <==> k == i || (i < k && Through(s, i + 1, 0, k)) {
        ThroughInnermost(s, i, k);
      }
    }
  }

  lemma {:induction false} CleanDoneCalls(s: Script, i: nat, j: nat, n: nat, a: nat)
    requires Proper(s) && i < |s.hooks| && j < |s.hooks[i]| && Calls(s, i, j, n, a).course.clean
    ensures forall k: nat :: k in Calls(s, i, j, n, a).course.done <==>
              n > 0 && Goes(s.hooks[i][j], 0, None) && i <= k < |s.hooks| && Through(s, i, j + 1, k)
    decreases |s.hooks| - i, |s.hooks[i]| - j, 0, n
  {
    hide Level, Through, Inserts;
    if n > 0 {
      var r := Calls(s, i, j, n - 1, a);
      CleanDoneCalls(s, i, j, n - 1, a);
      CleanCalls(s, i, j, n - 1, a);
      if r.made == n - 1 && Goes(s.hooks[i][j], n - 1, r.course.err) {
        CleanDone(s, i, j + 1, a + Inserts(r.course.events));
      }
    }
  }

  // ---- hooks that pass errors on ----

  /** Every hook from hook j of builder i inwards calls its successor. */
  ghost predicate Calling(s: Script, i: nat, j: nat) {
    forall k, h :: Inner(s, i, j, k, h) ==> Goes(s.hooks[k][h], 0, None)
  }

  /** Every hook returns what its last call returned. */
  ghost predicate Honest(s: Script) {
    forall i, j :: 0 <= i < |s.hooks| && 0 <= j < |s.hooks[i]| ==> forall n, e :: s.hooks[i][j].gives(n, e) == e
  }

  /** Honest hooks that call once are faithful. */
  lemma HonestIsFaithful(s: Script, a: nat)
    requires Proper(s) && |s.hooks| > 0 && Once(s) && Honest(s)
    ensures Faithful(s, a)
  {
    hide Back, BackTo, Once;
    HonestBack(s, 0, 0, a);
    forall k: nat | k < FirstFailing(s.checks, 0) ensures BackTo(s, k, a) == Met(s, a) {
      HonestBackTo(s, k, a);
    }
  }

  lemma {:induction false} HonestBack(s: Script, i: nat, j: nat, a: nat)
    requires Proper(s) && i < |s.hooks| && j <= |s.hooks[i]| && Once(s) && Honest(s) && i <= FirstFailing(s.checks, 0)
    ensures Back(s, i, j, a) == Met(s, a)
    decreases |s.hooks| - i, |s.hooks[i]| - j
  {
    if j < |s.hooks[i]| {
      HonestBack(s, i, j + 1, a);
    } else if s.checks[i].None? && i + 1 < |s.hooks| {
      HonestBack(s, i + 1, 0, a);
    }
  }

  lemma HonestBackTo(s: Script, i: nat, a: nat)
    requires Proper(s) && i < |s.hooks| && Once(s) && Honest(s) && i < FirstFailing(s.checks, 0)
    ensures BackTo(s, i, a) == Met(s, a)
  {
    if i + 1 < |s.hooks| {
      HonestBack(s, i + 1, 0, a);
    }
  }

  /** None of the n inserts from attempt a on succeeds. */
  ghost predicate Barren(s: Script, a: nat, n: nat) {
    forall k: nat :: a <= k < a + n ==> s.fails(k).Some?
  }

  /** If all hooks call, any number of times, and pass the last result on, no builder is through as long as no insert
      succeeds. */
  lemma {:induction false} BarrenMarksNothing(s: Script, i: nat, j: nat, a: nat)
    requires Proper(s) && Honest(s) && i < |s.hooks| && j <= |s.hooks[i]| && Calling(s, i, j)
    requires Barren(s, a, Inserts(Level(s, i, j, a).events))
    ensures Level(s, i, j, a).err.Some? && Level(s, i, j, a).done == {}
    decreases |s.hooks| - i, |s.hooks[i]| - j, 1, 0
  {
    hide Calling, Inserts;
    if j < |s.hooks[i]| {
      CallingInner(s, i, j);
      HookInserts(i, j, Calls(s, i, j, s.hooks[i][j].most, a).course.events);
      BarrenCalls(s, i, j, s.hooks[i][j].most, a);
    } else {
      CallingNext(s, i);
      if s.checks[i].None? && i + 1 < |s.hooks| {
        BarrenMarksNothing(s, i + 1, 0, a);
      } else if s.checks[i].None? {
        OneInsert(s);
        assert s.fails(a).Some?;
      }
    }
  }

  lemma {:induction false} BarrenCalls(s: Script, i: nat, j: nat, n: nat, a: nat)
    requires Proper(s) && Honest(s) && i < |s.hooks| && j < |s.hooks[i]| && Calling(s, i, j) && n > 0
    requires Barren(s, a, Inserts(Calls(s, i, j, n, a).course.events))
    ensures Calls(s, i, j, n, a).course.err.Some? && Calls(s, i, j, n, a).course.done == {}
    decreases |s.hooks| - i, |s.hooks[i]| - j, 0, n
  {
    hide Calling, Inserts, Level;
    CallingInner(s, i, j);
    var r := Calls(s, i, j, n - 1, a);
    if n == 1 {
      FirstCall(s, i, j, a);
      BarrenMarksNothing(s, i, j + 1, a);
    } else {
      CallsBound(s, i, j, n - 1, a);
      if r.made == n - 1 && Goes(s.hooks[i][j], n - 1, r.course.err) {
        var last := Level(s, i, j + 1, a + Inserts(r.course.events));
        assert Calls(s, i, j, n, a) == Rounds(n, Then(r.course, last));
        InsertsAppend(r.course.events, last.events);
        BarrenMarksNothing(s, i, j + 1, a + Inserts(r.course.events));
      }
      BarrenCalls(s, i, j, n - 1, a);
    }
  }

  lemma CallingInner(s: Script, i: nat, j: nat)
    requires i < |s.hooks| && j < |s.hooks[i]|
    ensures Calling(s, i, j) ==> Calling(s, i, j + 1) && Goes(s.hooks[i][j], 0, None)
  {
    InnerHook(s, i, j);
  }

  lemma CallingNext(s: Script, i: nat)
    requires i < |s.hooks|
    ensures Calling(s, i, |s.hooks[i]|) <==> Calling(s, i + 1, 0)
  {
    InnerNext(s, i);
  }
}
