/** Small shared vocabulary: an optional value, and two counting facts about finite sets. */
module Base {

  datatype Option<+T> = None | Some(value: T)

  /** `newer` if there is something new, otherwise what was there before. */
  function OrElse<T>(newer: Option<T>, before: Option<T>): Option<T> {
    if newer.Some? then newer else before
  }

  ghost predicate Injective<X, Y>(m: map<X, Y>) {
    forall x, y :: x in m && y in m && m[x] == m[y] ==> x == y
  }

  /** An injective map cannot have more keys than the set its values are drawn from. */
  lemma {:induction false} InjectionBound<X, Y>(m: map<X, Y>, ys: set<Y>)
    requires Injective(m)
    requires forall x :: x in m ==> m[x] in ys
    ensures |m.Keys| <= |ys|
    decreases |m.Keys|
  {
    if m.Keys == {} {
    } else {
      var x :| x in m;
      var rest := map k | k in m && k != x :: m[k];
      assert rest.Keys == m.Keys - {x};
      InjectionBound(rest, ys - {m[x]});
    }
  }

  /** A subset is no larger. */
  lemma {:induction false} SubsetBound<X>(xs: set<X>, ys: set<X>)
    requires xs <= ys
    ensures |xs| <= |ys|
  {
    assert xs + (ys - xs) == ys;
  }

  lemma UnionBound<X>(xs: set<X>, ys: set<X>)
    ensures |xs + ys| <= |xs| + |ys|
  {
    SubsetBound(ys - xs, ys);
    assert xs + ys == xs + (ys - xs);
  }

  /** A set of indices below n has at most n elements. */
  lemma {:induction false} IndexSetBound(xs: set<nat>, n: nat)
    requires forall x :: x in xs ==> x < n
    ensures |xs| <= n
  {
    if n == 0 {
      assert xs == {};
    } else {
      IndexSetBound(xs - {n - 1}, n - 1);
      SubsetBound(xs, (xs - {n - 1}) + {n - 1});
    }
  }

  function Fold<S, T>(f: (S, T) -> S, s: S, ts: seq<T>): S {
    if ts == [] then s else f(Fold(f, s, ts[..|ts| - 1]), ts[|ts| - 1])
  }

  lemma {:induction false} FoldConcat<S, T>(f: (S, T) -> S, s: S, a: seq<T>, b: seq<T>)
    ensures Fold(f, s, a + b) == Fold(f, Fold(f, s, a), b)
  {
    if b == [] {
      assert a + b == a;
    } else {
      var n := |b| - 1;
      assert (a + b)[..|a| + n] == a + b[..n];
      FoldConcat(f, s, a, b[..n]);
    }
  }

  /** How many elements of a sequence satisfy p (SELECT COUNT with a condition). */
  function Count<T>(xs: seq<T>, p: T -> bool): nat {
    if xs == [] then 0 else Count(xs[..|xs| - 1], p) + if p(xs[|xs| - 1]) then 1 else 0
  }

  lemma CountAppend<T>(xs: seq<T>, x: T, p: T -> bool)
    ensures Count(xs + [x], p) == Count(xs, p) + if p(x) then 1 else 0
  {
    assert (xs + [x])[..|xs|] == xs;
  }

  lemma {:induction false} CountReplace<T>(xs: seq<T>, i: nat, x: T, p: T -> bool)
    requires i < |xs|
    ensures Count(xs[i := x], p) + (if p(xs[i]) then 1 else 0) == Count(xs, p) + if p(x) then 1 else 0
  {
    var n := |xs| - 1;
    if i == n {
      assert xs[i := x][..n] == xs[..n];
    } else {
      assert xs[i := x][..n] == xs[..n][i := x];
      CountReplace(xs[..n], i, x, p);
    }
  }

  function Places<T>(xs: seq<T>, p: T -> bool): set<nat> {
    set i: nat | i < |xs| && p(xs[i])
  }

  /** Counting says how many positions there are. */
  lemma {:induction false} CountIsSize<T>(xs: seq<T>, p: T -> bool)
    ensures Count(xs, p) == |Places(xs, p)|
  {
    if xs == [] {
      assert Places(xs, p) == {};
    } else {
      var n := |xs| - 1;
      CountIsSize(xs[..n], p);
      assert forall i: nat :: i in Places(xs, p) <==> i in Places(xs[..n], p) || (i == n && p(xs[n]));
      assert Places(xs, p) == if p(xs[n]) then Places(xs[..n], p) + {n} else Places(xs[..n], p);
    }
  }

  lemma {:induction false} CountMonotone<T>(xs: seq<T>, p: T -> bool, q: T -> bool)
    requires forall i :: 0 <= i < |xs| && p(xs[i]) ==> q(xs[i])
    ensures Count(xs, p) <= Count(xs, q)
  {
    if xs == [] {
    } else {
      CountMonotone(xs[..|xs| - 1], p, q);
    }
  }

  lemma {:induction false} CountNone<T>(xs: seq<T>, p: T -> bool)
    requires forall i :: 0 <= i < |xs| ==> !p(xs[i])
    ensures Count(xs, p) == 0
  {
    if xs == [] {
    } else {
      CountNone(xs[..|xs| - 1], p);
    }
  }

  lemma {:induction false} CountBound<T>(xs: seq<T>, p: T -> bool)
    ensures Count(xs, p) <= |xs|
  {
    if xs == [] {
    } else {
      CountBound(xs[..|xs| - 1], p);
    }
  }

  lemma {:induction false} CountConcat<T>(a: seq<T>, b: seq<T>, p: T -> bool)
    ensures Count(a + b, p) == Count(a, p) + Count(b, p)
  {
    if b == [] {
      assert a + b == a;
    } else {
      var n := |b| - 1;
      assert a + b == (a + b[..n]) + [b[n]];
      CountConcat(a, b[..n], p);
      CountAppend(a + b[..n], b[n], p);
    }
  }

  lemma {:induction false} CountHasOne<T>(xs: seq<T>, k: nat, p: T -> bool)
    requires k < |xs| && p(xs[k])
    ensures Count(xs, p) >= 1
  {
    if k == |xs| - 1 {
    } else {
      CountHasOne(xs[..|xs| - 1], k, p);
    }
  }

  /** A limit as a count: a negative one allows nothing. */
  function Cap(limit: int): nat { if limit < 0 then 0 else limit }

  function One(b: bool): nat { if b then 1 else 0 }
}
