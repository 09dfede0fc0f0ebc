/** Sequence facts shared by the models: order-preserving selection. */
module Seqs {

  lemma Assoc<T>(a: seq<T>, b: seq<T>, c: seq<T>)
    ensures (a + b) + c == a + (b + c)
  {
  }

  lemma {:induction false} SubsetSize<T>(a: set<T>, b: set<T>)
    requires a <= b
    ensures |a| <= |b|
  {
    if a != {} {
      var x :| x in a;
      SubsetSize(a - {x}, b - {x});
    }
  }

  /** The first `n` elements, or all of them. */
  function Take<T>(s: seq<T>, n: nat): seq<T> {
    if n <= |s| then s[..n] else s
  }

  lemma TakeCons<T>(x: T, s: seq<T>, n: nat)
    requires n >= 1
    ensures Take([x] + s, n) == [x] + Take(s, n - 1)
  {
  }

  function Keep<T>(p: T -> bool, x: T): seq<T> {
    if p(x) then [x] else []
  }

  /** The elements that satisfy `p`, in order. */
  function Filter<T>(p: T -> bool, s: seq<T>): seq<T> {
    if s == [] then [] else Keep(p, s[0]) + Filter(p, s[1..])
  }

  lemma {:induction false} FilterConcat<T>(p: T -> bool, a: seq<T>, b: seq<T>)
    ensures Filter(p, a + b) == Filter(p, a) + Filter(p, b)
  {
    if a == [] {
      assert a + b == b;
    } else {
      var c := a + b;
      calc {
        Filter(p, c);
        Keep(p, c[0]) + Filter(p, c[1..]);
        { assert c[1..] == a[1..] + b; }
        Keep(p, a[0]) + Filter(p, a[1..] + b);
        { FilterConcat(p, a[1..], b); }
        Keep(p, a[0]) + (Filter(p, a[1..]) + Filter(p, b));
        { Assoc(Keep(p, a[0]), Filter(p, a[1..]), Filter(p, b)); }
        Filter(p, a) + Filter(p, b);
      }
    }
  }

  lemma FilterOne<T>(p: T -> bool, x: T)
    ensures Filter(p, [x]) == Keep(p, x)
  {
    assert [x][1..] == [];
  }

  lemma {:induction false} FilterAll<T>(p: T -> bool, s: seq<T>)
    requires forall x :: x in s ==> p(x)
    ensures Filter(p, s) == s
  {
    if s != [] {
      FilterAll(p, s[1..]);
      assert [s[0]] + s[1..] == s;
    }
  }

  lemma FilterSnoc<T>(p: T -> bool, s: seq<T>)
    requires s != []
    ensures Filter(p, s) == Filter(p, s[..|s| - 1]) + Keep(p, s[|s| - 1])
  {
    assert s == s[..|s| - 1] + [s[|s| - 1]];
    FilterConcat(p, s[..|s| - 1], [s[|s| - 1]]);
    FilterOne(p, s[|s| - 1]);
  }

  lemma {:induction false} FilterNone<T>(p: T -> bool, s: seq<T>)
    requires forall x :: x in s ==> !p(x)
    ensures Filter(p, s) == []
  {
    if s != [] {
      FilterNone(p, s[1..]);
    }
  }

  lemma {:induction false} FilterMember<T>(p: T -> bool, s: seq<T>, x: T)
    ensures x in Filter(p, s) <==> x in s && p(x)
  {
    if s != [] {
      FilterMember(p, s[1..], x);
      assert s == [s[0]] + s[1..];
    }
  }

  /** `s` without its i-th element. */
  function Without<T>(s: seq<T>, i: nat): seq<T>
    requires i < |s|
  {
    s[..i] + s[i + 1..]
  }

  lemma SplitAt<T>(s: seq<T>, i: nat)
    requires i < |s|
    ensures s == s[..i] + ([s[i]] + s[i + 1..])
  {
  }

  lemma FilterSplit<T>(p: T -> bool, s: seq<T>, i: nat)
    requires i < |s|
    ensures Filter(p, s) == Filter(p, s[..i]) + (Keep(p, s[i]) + Filter(p, s[i + 1..]))
  {
    SplitAt(s, i);
    FilterConcat(p, s[..i], [s[i]] + s[i + 1..]);
    FilterConcat(p, [s[i]], s[i + 1..]);
    FilterOne(p, s[i]);
  }

  /** The state after the events `es`, taken in order from `s`. */
  ghost function Fold<S, E>(step: (S, E) -> S, s: S, es: seq<E>): S {
    if es == [] then s
    else step(Fold(step, s, es[..|es| - 1]), es[|es| - 1])
  }

  lemma FoldSnoc<S, E>(step: (S, E) -> S, s: S, es: seq<E>, e: E)
    ensures Fold(step, s, es + [e]) == step(Fold(step, s, es), e)
  {
    assert (es + [e])[..|es|] == es;
  }

  lemma {:induction false} FoldConcat<S, E>(step: (S, E) -> S, s: S, a: seq<E>, b: seq<E>)
    ensures Fold(step, s, a + b) == Fold(step, Fold(step, s, a), b)
    decreases |b|
  {
    if b == [] {
      assert a + b == a;
    } else {
      var n := |b| - 1;
      FoldConcat(step, s, a, b[..n]);
      FoldSnoc(step, s, a + b[..n], b[n]);
      assert a + b == (a + b[..n]) + [b[n]];
    }
  }

  // ---------------------------------------------------------------------------
  // Subsequences
  // ---------------------------------------------------------------------------

  /** `a` is `b` with some elements left out. */
  predicate Within<T(==)>(a: seq<T>, b: seq<T>)
    decreases |b|
  {
    if b == [] then a == []
    else
      var b' := b[..|b| - 1];
      Within(a, b') || (a != [] && a[|a| - 1] == b[|b| - 1] && Within(a[..|a| - 1], b'))
  }

  lemma WithinSnoc<T>(a: seq<T>, b: seq<T>, x: T)
    requires Within(a, b)
    ensures Within(a, b + [x]) && Within(a + [x], b + [x])
  {
    assert (b + [x])[..|b|] == b && (a + [x])[..|a|] == a;
  }

  lemma {:induction false} WithinConcat<T>(a: seq<T>, b: seq<T>, c: seq<T>, d: seq<T>)
    requires Within(a, b) && Within(c, d)
    ensures Within(a + c, b + d)
    decreases |d|
  {
    if d == [] {
      assert a + c == a && b + d == b;
    } else {
      var d', x := d[..|d| - 1], d[|d| - 1];
      assert b + d == (b + d') + [x];
      if Within(c, d') {
        WithinConcat(a, b, c, d');
        WithinSnoc(a + c, b + d', x);
      } else {
        var c' := c[..|c| - 1];
        WithinConcat(a, b, c', d');
        WithinSnoc(a + c', b + d', x);
        assert a + c == (a + c') + [x];
      }
    }
  }

  lemma {:induction false} WithinShorter<T>(a: seq<T>, b: seq<T>)
    requires Within(a, b)
    ensures |a| <= |b| && (|a| == |b| ==> a == b)
    decreases |b|
  {
    if b != [] {
      var b' := b[..|b| - 1];
      if Within(a, b') {
        WithinShorter(a, b');
      } else {
        WithinShorter(a[..|a| - 1], b');
        assert a == a[..|a| - 1] + [a[|a| - 1]] && b == b' + [b[|b| - 1]];
      }
    }
  }

  lemma {:induction false} WithinFilter<T>(p: T -> bool, a: seq<T>, b: seq<T>)
    requires Within(a, b)
    ensures Within(Filter(p, a), Filter(p, b))
    decreases |b|
  {
    if b != [] {
      var b', x := b[..|b| - 1], b[|b| - 1];
      FilterSnoc(p, b);
      if Within(a, b') {
        WithinFilter(p, a, b');
        NoneWithin(Keep(p, x));
        WithinConcat(Filter(p, a), Filter(p, b'), [], Keep(p, x));
        assert Filter(p, a) + [] == Filter(p, a);
      } else {
        FilterSnoc(p, a);
        WithinFilter(p, a[..|a| - 1], b');
        AllWithin(Keep(p, x));
        WithinConcat(Filter(p, a[..|a| - 1]), Filter(p, b'), Keep(p, x), Keep(p, x));
      }
    }
  }

  lemma {:induction false} NoneWithin<T>(b: seq<T>)
    ensures Within([], b)
  {
    if b != [] { NoneWithin(b[..|b| - 1]); }
  }

  lemma {:induction false} AllWithin<T>(b: seq<T>)
    ensures Within(b, b)
  {
    if b != [] { AllWithin(b[..|b| - 1]); }
  }
}
