/** The few facts about sequences that the loaders and the query compilers rest on. */
module Lists {
  import opened Wrappers

  ghost predicate NoDup<T>(s: seq<T>) {
    forall i, j :: 0 <= i < j < |s| ==> s[i] != s[j]
  }

  /** The elements of xs whose owner set contains k, in the order of xs. */
  function Share<T, K(==)>(xs: seq<T>, owners: seq<set<K>>, k: K): (r: seq<T>)
    requires |xs| == |owners|
  {
    if xs == [] then []
    else
      var n := |xs| - 1;
      Share(xs[..n], owners[..n], k) + (if k in owners[n] then [xs[n]] else [])
  }

  /** at lists the owned positions in increasing order, and share has the elements at those positions. */
  ghost predicate PicksOwned<T, K>(xs: seq<T>, owners: seq<set<K>>, k: K, share: seq<T>, at: seq<nat>)
    requires |xs| == |owners|
  {
    && |at| == |share|
    && (forall p :: 0 <= p < |at| ==> at[p] < |xs| && k in owners[at[p]] && share[p] == xs[at[p]])
    && (forall p, q :: 0 <= p < q < |at| ==> at[p] < at[q])
    && (forall i: nat :: i < |xs| && k in owners[i] ==> i in at)
  }

  lemma PicksOneMore<T, K>(xs: seq<T>, owners: seq<set<K>>, k: K, share: seq<T>, at: seq<nat>, n: nat)
    requires |xs| == |owners| == n + 1 && PicksOwned(xs[..n], owners[..n], k, share, at)
    ensures k in owners[n] ==> PicksOwned(xs, owners, k, share + [xs[n]], at + [n])
    ensures k !in owners[n] ==> PicksOwned(xs, owners, k, share, at)
  {
    forall i: nat | i < n && k in owners[i] ensures i in at {
      assert owners[..n][i] == owners[i];
    }
    assert (at + [n])[|at|] == n;
  }

  /** Share keeps exactly the owned positions, once each and in order. */
  lemma {:induction false} ShareIndices<T, K>(xs: seq<T>, owners: seq<set<K>>, k: K) returns (at: seq<nat>)
    requires |xs| == |owners|
    ensures PicksOwned(xs, owners, k, Share(xs, owners, k), at)
  {
    if xs == [] {
      at := [];
    } else {
      var n := |xs| - 1;
      at := ShareIndices(xs[..n], owners[..n], k);
      PicksOneMore(xs, owners, k, Share(xs[..n], owners[..n], k), at, n);
      if k in owners[n] {
        at := at + [n];
      }
    }
  }

  /** One more element on the right extends the share by that element or leaves it alone. */
  lemma ShareStep<T, K>(xs: seq<T>, owners: seq<set<K>>, k: K, n: nat)
    requires |xs| == |owners| && n < |xs|
    ensures Share(xs[..n + 1], owners[..n + 1], k)
         == Share(xs[..n], owners[..n], k) + (if k in owners[n] then [xs[n]] else [])
  {
    assert xs[..n + 1][..n] == xs[..n];
    assert owners[..n + 1][..n] == owners[..n];
  }

  /** A rearrangement of a duplicate-free sequence is duplicate-free. */
  lemma NoDupRearranged<T>(s: seq<T>, r: seq<T>)
    requires NoDup(s) && multiset(s) == multiset(r)
    ensures NoDup(r)
  {
    forall i, j | 0 <= i < j < |r| ensures r[i] != r[j] {
      if r[i] == r[j] {
        TwiceCounted(r, i, j);
        OnceCounted(s, r[i]);
      }
    }
  }

  lemma TwiceCounted<T>(s: seq<T>, i: nat, j: nat)
    requires i < j < |s| && s[i] == s[j]
    ensures multiset(s)[s[i]] >= 2
  {
    assert s == s[..j] + s[j..];
    assert multiset(s) == multiset(s[..j]) + multiset(s[j..]);
    assert s[..j][i] == s[i] && s[j..][0] == s[i];
    assert s[i] in multiset(s[..j]) && s[i] in multiset(s[j..]);
  }

  lemma {:induction false} OnceCounted<T>(s: seq<T>, x: T)
    requires NoDup(s)
    ensures multiset(s)[x] <= 1
  {
    if s != [] {
      var n := |s| - 1;
      OnceCounted(s[..n], x);
      assert s == s[..n] + [s[n]];
      if s[n] == x {
        assert x !in s[..n];
        assert x !in multiset(s[..n]);
      }
    }
  }

  /** The last position of x. */
  function LastIndex<T(==)>(s: seq<T>, x: T): (i: nat)
    requires x in s
    ensures i < |s| && s[i] == x
    ensures forall j :: i < j < |s| ==> s[j] != x
  {
    var n := |s| - 1;
    if s[n] == x then n else LastIndex(s[..n], x)
  }

  /** Position i is the last one of its value. */
  ghost predicate IsLast<T>(s: seq<T>, i: nat)
    requires i < |s|
  {
    forall j :: i < j < |s| ==> s[j] != s[i]
  }

  /** The keys that are there, each at its first occurrence. */
  function FirstKeys<K(==)>(keys: seq<Option<K>>): seq<K> {
    if keys == [] then []
    else
      var n := |keys| - 1;
      var before := FirstKeys(keys[..n]);
      if keys[n].Some? && keys[n].value !in before then before + [keys[n].value] else before
  }

  lemma {:induction false} FirstKeysListed<K>(keys: seq<Option<K>>)
    ensures NoDup(FirstKeys(keys))
    ensures forall k :: k in FirstKeys(keys) <==> Some(k) in keys
  {
    if keys != [] {
      var n := |keys| - 1;
      FirstKeysListed(keys[..n]);
      assert keys == keys[..n] + [keys[n]];
    }
  }
}
