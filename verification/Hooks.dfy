/** Hooks around a mutation and interceptors around a query: chains of functions built from the inside out.
    A mutator is a function of the state it runs in and the mutation it is given, so that a hook may do anything
    before, after and instead of calling the next mutator, any number of times. */
module Hooks {
  import opened Wrappers

  /** What a hook hands on: the builder's own mutation, another one of the same type (whose content is copied into
      the builder's), or a mutation of another type. */
  datatype Arg<M> = Own | Another(m: M) | Foreign

  /** The value that a mutator returns, which should be of the builder's node type. */
  datatype Returned<V> = Node(v: V) | Stranger

  /** The builder's mutation and the rest of the world. */
  datatype State<W, M> = State(world: W, mutation: M)

  type Outcome<W, M, V> = (State<W, M>, Result<Returned<V>, Error>)
  type Mutator<!W, !M, V> = (State<W, M>, Arg<M>) -> Outcome<W, M, V>
  type Hook<!W, !M, !V> = Mutator<W, M, V> -> Mutator<W, M, V>
  type Exec<!W, !M, V> = State<W, M> -> (State<W, M>, Result<V, Error>)

  function Wrapped<V>(r: Result<V, Error>): Result<Returned<V>, Error> {
    match r
    case Ok(v) => Ok(Node(v))
    case Err(e) => Err(e)
  }

  /** The innermost mutator. */
  function Base<W, M, V>(exec: Exec<W, M, V>): Mutator<W, M, V> {
    (s: State<W, M>, a: Arg<M>) =>
      match a
      case Foreign => (s, Err(UnexpectedMutation))
      case Own => var out := exec(s); (out.0, Wrapped(out.1))
      case Another(m) => var out := exec(s.(mutation := m)); (out.0, Wrapped(out.1))
  }

  /** hooks[0](hooks[1](...(inner))). */
  function Composed<W, M, V>(hooks: seq<Hook<W, M, V>>, inner: Mutator<W, M, V>): Mutator<W, M, V> {
    if hooks == [] then inner else hooks[0](Composed(hooks[1..], inner))
  }

  function Given<T>(os: seq<Option<T>>): (xs: seq<T>)
    requires forall o <- os :: o.Some?
    ensures |xs| == |os| && forall i :: 0 <= i < |os| ==> os[i].Some? && xs[i] == os[i].value
  {
    seq(|os|, i requires 0 <= i < |os| && os[i].Some? => os[i].value)
  }

  /** What the caller gets of the outermost mutator's outcome. */
  function Unwrapped<W, M, V>(out: Outcome<W, M, V>): (State<W, M>, Result<V, Error>) {
    (out.0, match out.1
            case Err(e) => Err(e)
            case Ok(Node(v)) => Ok(v)
            case Ok(Stranger) => Err(UnexpectedValue))
  }

  /** withHooks: a nil hook anywhere means that nothing is executed. */
  method WithHooks<W, M, V>(exec: Exec<W, M, V>, s: State<W, M>, hooks: seq<Option<Hook<W, M, V>>>)
    returns (after: State<W, M>, r: Result<V, Error>)
    ensures (exists h <- hooks :: h.None?) ==> after == s && r == Err(NilHook)
    ensures (forall h <- hooks :: h.Some?) ==> (after, r) == Unwrapped(Composed(Given(hooks), Base(exec))(s, Own))
  {
    if |hooks| == 0 {
      var out := exec(s);
      assert Given(hooks) == [];
      assert Base(exec)(s, Own) == (out.0, Wrapped(out.1));
      return out.0, out.1;
    }
    var mut := Base(exec);
    var i := |hooks|;
    while i > 0
      invariant 0 <= i <= |hooks|
      invariant forall h <- hooks[i..] :: h.Some?
      invariant mut == Composed(Given(hooks[i..]), Base(exec))
    {
      i := i - 1;
      if hooks[i].None? {
        assert hooks[i] in hooks;
        return s, Err(NilHook);
      }
      assert hooks[i..] == [hooks[i]] + hooks[i + 1..];
      assert Given(hooks[i..])[1..] == Given(hooks[i + 1..]);
      mut := hooks[i].value(mut);
    }
    assert hooks[0..] == hooks;
    var out := mut(s, Own);
    var u := Unwrapped(out);
    return u.0, u.1;
  }

  /** withInterceptors: the same chain around a query, for interceptors that are all there. */
  method WithInterceptors<W, Q, V>(querier: Mutator<W, Q, V>, s: State<W, Q>, inters: seq<Hook<W, Q, V>>)
    returns (after: State<W, Q>, r: Result<V, Error>)
    ensures (after, r) == Unwrapped(Composed(inters, querier)(s, Own))
  {
    var qr := querier;
    var i := |inters|;
    while i > 0
      invariant 0 <= i <= |inters|
      invariant qr == Composed(inters[i..], querier)
    {
      i := i - 1;
      assert inters[i..][1..] == inters[i + 1..];
      qr := inters[i](qr);
    }
    assert inters[0..] == inters;
    var u := Unwrapped(qr(s, Own));
    return u.0, u.1;
  }

  /** Hooks added later run inside those added before. */
  lemma {:induction false} LaterHooksAreInner<W, M, V>(first: seq<Hook<W, M, V>>, later: seq<Hook<W, M, V>>,
                                                       inner: Mutator<W, M, V>)
    ensures Composed(first + later, inner) == Composed(first, Composed(later, inner))
  {
    if first == [] {
      assert first + later == later;
    } else {
      LaterHooksAreInner(first[1..], later, inner);
      assert (first + later)[1..] == first[1..] + later;
    }
  }

  // ---- hooks that call their successor exactly once ----

  /** What such a hook does before the call, to the state and to what it hands on, and after it, when it may remember
      the state and the mutation that it was called with. */
  datatype Around<!W, !M, !V> = Around(
    pre: (State<W, M>, Arg<M>) -> (State<W, M>, Arg<M>),
    post: (State<W, M>, Arg<M>, Outcome<W, M, V>) -> Outcome<W, M, V>)

  ghost predicate Acts<W(!new), M(!new), V(!new)>(h: Hook<W, M, V>, a: Around<W, M, V>) {
    forall next: Mutator<W, M, V>, s: State<W, M>, arg: Arg<M> ::
      h(next)(s, arg) == a.post(s, arg, next(a.pre(s, arg).0, a.pre(s, arg).1))
  }

  function Entered<W, M, V>(around: seq<Around<W, M, V>>, s: State<W, M>, arg: Arg<M>): (State<W, M>, Arg<M>) {
    if around == [] then (s, arg)
    else
      var inward := around[0].pre(s, arg);
      Entered(around[1..], inward.0, inward.1)
  }

  /** The way out, of hooks that were entered with the given state and mutation. */
  function Left<W, M, V>(around: seq<Around<W, M, V>>, s: State<W, M>, arg: Arg<M>, out: Outcome<W, M, V>):
    Outcome<W, M, V>
  {
    if around == [] then out
    else
      var inward := around[0].pre(s, arg);
      around[0].post(s, arg, Left(around[1..], inward.0, inward.1, out))
  }

  /** Everything on the way in, outermost first, then the innermost mutator once, then everything on the way out,
      innermost first. */
  lemma {:induction false} OneCallEach<W(!new), M(!new), V(!new)>(
      hooks: seq<Hook<W, M, V>>, around: seq<Around<W, M, V>>, inner: Mutator<W, M, V>, s: State<W, M>, arg: Arg<M>)
    requires |hooks| == |around| && forall i :: 0 <= i < |hooks| ==> Acts(hooks[i], around[i])
    ensures var inward := Entered(around, s, arg);
            Composed(hooks, inner)(s, arg) == Left(around, s, arg, inner(inward.0, inward.1))
  {
    if hooks != [] {
      var inward := around[0].pre(s, arg);
      assert Acts(hooks[0], around[0]);
      OneCallEach(hooks[1..], around[1..], inner, inward.0, inward.1);
    }
  }

  /** The mutation that the builder executes: the content that the innermost hook handed on. */
  function Effective<W, M>(s: State<W, M>, arg: Arg<M>): State<W, M> {
    if arg.Another? then s.(mutation := arg.m) else s
  }

  /** When each hook calls its successor once, the operation runs exactly once, on the mutation that the innermost
      hook hands on (and not at all if that is of another type): runs counts the executions in the world. */
  lemma ExecutedOnce<W(!new), M(!new), V(!new)>(
      exec: Exec<W, M, V>, hooks: seq<Hook<W, M, V>>, around: seq<Around<W, M, V>>, s: State<W, M>, runs: W -> int)
    requires |hooks| == |around| && forall i :: 0 <= i < |hooks| ==> Acts(hooks[i], around[i])
    requires forall t: State<W, M> :: runs(exec(t).0.world) == runs(t.world) + 1
    requires forall a <- around, t: State<W, M>, arg: Arg<M> :: runs(a.pre(t, arg).0.world) == runs(t.world)
    requires forall a <- around, t: State<W, M>, arg: Arg<M>, out: Outcome<W, M, V> ::
               runs(a.post(t, arg, out).0.world) == runs(out.0.world)
    ensures var inward := Entered(around, s, Own);
            var out := Composed(hooks, Base(exec))(s, Own);
            && runs(out.0.world) == runs(s.world) + (if inward.1.Foreign? then 0 else 1)
            && out == Left(around, s, Own, Executed(exec, inward.0, inward.1))
  {
    OneCallEach(hooks, around, Base(exec), s, Own);
    var inward := Entered(around, s, Own);
    EnteredRuns(around, s, Own, runs);
    LeftRuns(around, s, Own, Base(exec)(inward.0, inward.1), runs);
  }

  /** The operation on the mutation that was handed on, or nothing if that is of another type. */
  function Executed<W, M, V>(exec: Exec<W, M, V>, s: State<W, M>, arg: Arg<M>): Outcome<W, M, V> {
    if arg.Foreign? then (s, Err(UnexpectedMutation))
    else var out := exec(Effective(s, arg)); (out.0, Wrapped(out.1))
  }

  lemma {:induction false} EnteredRuns<W(!new), M(!new), V(!new)>(around: seq<Around<W, M, V>>, s: State<W, M>,
                                                                  arg: Arg<M>, runs: W -> int)
    requires forall a <- around, t: State<W, M>, arg: Arg<M> :: runs(a.pre(t, arg).0.world) == runs(t.world)
    ensures runs(Entered(around, s, arg).0.world) == runs(s.world)
  {
    if around != [] {
      var inward := around[0].pre(s, arg);
      assert around[0] in around && forall a <- around[1..] :: a in around;
      EnteredRuns(around[1..], inward.0, inward.1, runs);
    }
  }

  lemma {:induction false} LeftRuns<W(!new), M(!new), V(!new)>(
      around: seq<Around<W, M, V>>, s: State<W, M>, arg: Arg<M>, out: Outcome<W, M, V>, runs: W -> int)
    requires forall a <- around, t: State<W, M>, g: Arg<M>, o: Outcome<W, M, V> ::
        runs(a.post(t, g, o).0.world) == runs(o.0.world)
    ensures runs(Left(around, s, arg, out).0.world) == runs(out.0.world)
  {
    if around != [] {
      var inward := around[0].pre(s, arg);
      assert around[0] in around && forall a <- around[1..] :: a in around;
      LeftRuns(around[1..], inward.0, inward.1, out, runs);
    }
  }

  // ---- where the check sits ----

  /** sqlSave of a create builder: the mutation that is inserted is the one that was checked. */
  function CheckedInsert<W, M, V>(check: M -> Option<Error>, insert: Exec<W, M, V>): Exec<W, M, V> {
    (s: State<W, M>) => if check(s.mutation).Some? then (s, Err(check(s.mutation).value)) else insert(s)
  }

  /** A step of a bulk create: the mutation that the builder had is checked, the one handed on is inserted. */
  function BulkStep<W, M, V>(check: M -> Option<Error>, insert: Exec<W, M, V>): Mutator<W, M, V> {
    (s: State<W, M>, a: Arg<M>) =>
      if a.Foreign? then (s, Err(UnexpectedMutation))
      else if check(s.mutation).Some? then (s, Err(check(s.mutation).value))
      else var out := insert(if a.Another? then s.(mutation := a.m) else s); (out.0, Wrapped(out.1))
  }

  /** A bulk create of one builder saves alike exactly when the hooks hand on the builder's own mutation, or one that
      passes the checks as the builder's own does (or is the same and fails them). */
  lemma BulkChecksTheOldMutation<W(!new), M(!new), V>(check: M -> Option<Error>, insert: Exec<W, M, V>, s: State<W, M>,
                                                      m: M)
    requires forall t: M, u: State<W, M> :: check(t).Some? ==> insert(u).1 != Err(check(t).value)
    ensures BulkStep(check, insert)(s, Own) == Base(CheckedInsert(check, insert))(s, Own)
    ensures BulkStep(check, insert)(s, Another(m)) == Base(CheckedInsert(check, insert))(s, Another(m))
       <==> m == s.mutation || (check(m).None? && check(s.mutation).None?)
  {
    var moved := s.(mutation := m);
    var bulk := BulkStep(check, insert)(s, Another(m));
    var single := Base(CheckedInsert(check, insert))(s, Another(m));
    assert moved.mutation == m && moved.world == s.world;
    if check(m).Some? {
      assert insert(moved).1 != Err(check(m).value);
      assert Wrapped(insert(moved).1) != Err(check(m).value);
      assert single == (moved, Err(check(m).value));
    } else {
      assert single == (insert(moved).0, Wrapped(insert(moved).1));
    }
    if check(s.mutation).Some? {
      assert insert(moved).1 != Err(check(s.mutation).value);
      assert Wrapped(insert(moved).1) != Err(check(s.mutation).value);
      assert bulk == (s, Err(check(s.mutation).value));
    } else {
      assert bulk == (insert(moved).0, Wrapped(insert(moved).1));
    }
    if m == s.mutation {
      assert moved == s;
    }
    if check(s.mutation).Some? {
      assert CheckedInsert(check, insert)(s).1 == Err(check(s.mutation).value);
      var own := Base(CheckedInsert(check, insert))(s, Own);
      assert own.0 == CheckedInsert(check, insert)(s).0;
      assert own.0 == s;
      assert own.1 == Wrapped(CheckedInsert(check, insert)(s).1);
      assert own.1 == Err(check(s.mutation).value);
    } else {
      assert Base(CheckedInsert(check, insert))(s, Own) == (insert(s).0, Wrapped(insert(s).1));
    }
  }
}
