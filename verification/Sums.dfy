/** Finite sums over sequences, and the pigeonhole bound used to limit how many
    jobs can be inside the pool. */
module Sums {

  ghost function Sum<T>(s: seq<T>, w: T -> nat): nat
  {
    if s == [] then 0 else Sum(s[..|s| - 1], w) + w(s[|s| - 1])
  }

  lemma {:induction false} SumAppend<T>(s: seq<T>, x: T, w: T -> nat)
    ensures Sum(s + [x], w) == Sum(s, w) + w(x)
  {
    assert (s + [x])[..|s|] == s;
  }

  lemma {:induction false} SumUpdate<T>(s: seq<T>, i: nat, x: T, w: T -> nat)
    requires i < |s|
    ensures Sum(s[i := x], w) + w(s[i]) == Sum(s, w) + w(x)
  {
    var last := |s| - 1;
    if i == last {
      assert s[i := x][..last] == s[..last];
    } else {
      assert s[i := x][..last] == s[..last][i := x];
      SumUpdate(s[..last], i, x, w);
    }
  }

  lemma {:induction false} SumZero<T>(s: seq<T>, w: T -> nat)
    requires forall x :: x in s ==> w(x) == 0
    ensures Sum(s, w) == 0
  {
    if s != [] {
      SumZero(s[..|s| - 1], w);
    }
  }

  lemma {:induction false} SumMember<T>(s: seq<T>, i: nat, w: T -> nat)
    requires i < |s|
    ensures w(s[i]) <= Sum(s, w)
  {
    if i < |s| - 1 {
      assert s[..|s| - 1][i] == s[i];
      SumMember(s[..|s| - 1], i, w);
    }
  }

  /** Weights that agree everywhere, or split into two, have sums that do. */
  lemma {:induction false} SumSplit<T>(s: seq<T>, w: T -> nat, u: T -> nat, v: T -> nat)
    requires forall x :: x in s ==> w(x) == u(x) + v(x)
    ensures Sum(s, w) == Sum(s, u) + Sum(s, v)
  {
    if s != [] {
      SumSplit(s[..|s| - 1], w, u, v);
    }
  }

  lemma {:induction false} SumBound<T>(s: seq<T>, w: T -> nat, bound: nat)
    requires forall x :: x in s ==> w(x) <= bound
    ensures Sum(s, w) <= bound * |s|
  {
    if s != [] {
      SumBound(s[..|s| - 1], w, bound);
    }
  }

  ghost predicate Injective<T(!new)>(items: set<T>, place: T -> nat)
  {
    forall x, y :: x in items && y in items && place(x) == place(y) ==> x == y
  }

  /** Items with distinct places in `target` are no more than `target` has. */
  lemma {:induction false} InjectiveInto<T(!new)>(items: set<T>, place: T -> nat, target: set<nat>)
    requires forall x :: x in items ==> place(x) in target
    requires Injective(items, place)
    ensures |items| <= |target|
    decreases items
  {
    if x :| x in items {
      InjectiveInto(items - {x}, place, target - {place(x)});
    }
  }

  ghost function Below(bound: nat): (r: set<nat>)
    ensures |r| == bound
    ensures forall n: nat :: n in r <==> n < bound
  {
    if bound == 0 then {} else Below(bound - 1) + {bound - 1}
  }

  lemma {:induction false} SumSame<T>(s: seq<T>, w: T -> nat, u: T -> nat)
    requires forall x :: x in s ==> w(x) == u(x)
    ensures Sum(s, w) == Sum(s, u)
  {
    if s != [] {
      SumSame(s[..|s| - 1], w, u);
    }
  }

  /** The same for amounts that may be negative. */
  ghost function SumInt<T>(s: seq<T>, w: T -> int): int
  {
    if s == [] then 0 else SumInt(s[..|s| - 1], w) + w(s[|s| - 1])
  }

  lemma {:induction false} SumIntAppend<T>(s: seq<T>, x: T, w: T -> int)
    ensures SumInt(s + [x], w) == SumInt(s, w) + w(x)
  {
    assert (s + [x])[..|s|] == s;
  }

  lemma {:induction false} SumIntUpdate<T>(s: seq<T>, i: nat, x: T, w: T -> int)
    requires i < |s|
    ensures SumInt(s[i := x], w) + w(s[i]) == SumInt(s, w) + w(x)
  {
    var last := |s| - 1;
    if i == last {
      assert s[i := x][..last] == s[..last];
    } else {
      assert s[i := x][..last] == s[..last][i := x];
      SumIntUpdate(s[..last], i, x, w);
    }
  }

  lemma {:induction false} SumIntSame<T>(s: seq<T>, w: T -> int, u: T -> int)
    requires forall x :: x in s ==> w(x) == u(x)
    ensures SumInt(s, w) == SumInt(s, u)
  {
    if s != [] {
      SumIntSame(s[..|s| - 1], w, u);
    }
  }
}
