/** Deduplication as the tool directory loops do it: a map of what has been seen, first occurrences kept. */
module Sequences {
  function FirstOccurrences<T(==, !new)>(xs: seq<T>): (r: seq<T>)
    ensures forall x :: x in r <==> x in xs
    ensures forall i, j | 0 <= i < j < |r| :: r[i] != r[j]
  {
    if xs == [] then [] else
      var before, last := xs[..|xs| - 1], xs[|xs| - 1];
      assert xs == before + [last];
      if last in before then FirstOccurrences(before) else FirstOccurrences(before) + [last]
  }

  function Filter<T(!new)>(xs: seq<T>, keep: T -> bool): (r: seq<T>)
    ensures forall x :: x in r <==> x in xs && keep(x)
  {
    if xs == [] then [] else
      var before, last := xs[..|xs| - 1], xs[|xs| - 1];
      assert xs == before + [last];
      if keep(last) then Filter(before, keep) + [last] else Filter(before, keep)
  }

  lemma FilterOneMore<T(!new)>(xs: seq<T>, x: T, keep: T -> bool)
    ensures Filter(xs + [x], keep) == Filter(xs, keep) + if keep(x) then [x] else []
  {
    assert (xs + [x])[..|xs|] == xs;
  }

  lemma {:induction false} FilterAppend<T(!new)>(a: seq<T>, b: seq<T>, keep: T -> bool)
    ensures Filter(a + b, keep) == Filter(a, keep) + Filter(b, keep)
  {
    if b == [] {
      assert a + b == a && Filter(a, keep) + [] == Filter(a, keep);
    } else {
      var before, last := b[..|b| - 1], b[|b| - 1];
      assert a + b == a + before + [last] && b == before + [last];
      FilterAppend(a, before, keep);
      FilterOneMore(a + before, last, keep);
      FilterOneMore(before, last, keep);
    }
  }

  lemma FirstOccurrencesOneMore<T(!new)>(xs: seq<T>, x: T)
    ensures FirstOccurrences(xs + [x]) == FirstOccurrences(xs) + if x in xs then [] else [x]
  {
    assert (xs + [x])[..|xs|] == xs;
  }

  lemma TakeDrop<T>(a: seq<T>, b: seq<T>)
    requires a <= b
    ensures a + b[|a|..] == b
  {
  }

  lemma InFour<T>(a: seq<T>, b: seq<T>, c: seq<T>, d: seq<T>, x: T)
    ensures x in a + (b + c + d) <==> x in a + b + c || x in d
  {
    assert a + (b + c + d) == a + b + c + d;
  }

  lemma SameLast<T>(a: seq<T>, b: seq<T>, x: T)
    ensures a + [x] == b + [x] <==> a == b
  {
    assert (a + [x])[..|a|] == a && (b + [x])[..|b|] == b;
  }

  /** What one more element does to whether `granted` is the first occurrences of `xs`. */
  lemma OneMoreGranted<T(!new)>(granted: seq<T>, xs: seq<T>, x: T)
    requires forall y | y in granted :: y in xs
    ensures x in xs ==> FirstOccurrences(xs + [x]) == FirstOccurrences(xs)
    ensures x !in xs ==> granted != FirstOccurrences(xs + [x])
    ensures x !in xs ==> (granted + [x] == FirstOccurrences(xs + [x]) <==> granted == FirstOccurrences(xs))
  {
    var kept := FirstOccurrences(xs);
    FirstOccurrencesOneMore(xs, x);
    if x in xs {
      assert kept + [] == kept;
    } else {
      SameLast(granted, kept, x);
      assert (kept + [x])[|kept|] == x;
    }
  }

  function FlattenMap<S, T>(f: S -> seq<T>, xs: seq<S>): seq<T> {
    if xs == [] then [] else f(xs[0]) + FlattenMap(f, xs[1..])
  }

  lemma FlattenMapOne<S, T>(f: S -> seq<T>, x: S)
    ensures FlattenMap(f, [x]) == f(x)
  {
    assert [x][1..] == [];
    assert f(x) + [] == f(x);
  }

  lemma {:induction false} FlattenMapAppend<S, T>(f: S -> seq<T>, a: seq<S>, b: seq<S>)
    ensures FlattenMap(f, a + b) == FlattenMap(f, a) + FlattenMap(f, b)
  {
    if a == [] {
      assert a + b == b;
      assert [] + FlattenMap(f, b) == FlattenMap(f, b);
    } else {
      FlattenMapAppend(f, a[1..], b);
      assert (a + b)[0] == a[0] && (a + b)[1..] == a[1..] + b;
      assert f(a[0]) + (FlattenMap(f, a[1..]) + FlattenMap(f, b)) == f(a[0]) + FlattenMap(f, a[1..]) + FlattenMap(f, b);
    }
  }

  function Fold<S, T>(f: (T, S) -> T, start: T, xs: seq<S>): T {
    if xs == [] then start else f(Fold(f, start, xs[..|xs| - 1]), xs[|xs| - 1])
  }

  lemma FoldOneMore<S, T>(f: (T, S) -> T, start: T, xs: seq<S>, x: S)
    ensures Fold(f, start, xs + [x]) == f(Fold(f, start, xs), x)
  {
    assert (xs + [x])[..|xs|] == xs;
  }

  /** What holds at the start and is kept by every step holds after all of them. */
  lemma {:induction false} FoldKeeps<S(!new), T(!new)>(
    f: (T, S) -> T, start: T, xs: seq<S>, inv: (T, seq<S>) -> bool)
    requires inv(start, [])
    requires forall t, ys, x :: inv(t, ys) ==> inv(f(t, x), ys + [x])
    ensures inv(Fold(f, start, xs), xs)
  {
    if xs != [] {
      var before, x := xs[..|xs| - 1], xs[|xs| - 1];
      FoldKeeps(f, start, before, inv);
      assert before + [x] == xs;
    }
  }
}
