// Small facts about duplicate-free sequences, used by the planners and the stores.
module Sequences {

  function Elems<T>(xs: seq<T>): set<T> {
    set x | x in xs
  }

  ghost predicate Distinct<T>(xs: seq<T>) {
    forall i, j :: 0 <= i < j < |xs| ==> xs[i] != xs[j]
  }

  // First position of x.
  function IndexOf<T(==)>(xs: seq<T>, x: T): (i: nat)
    requires x in xs
    ensures i < |xs| && xs[i] == x
    ensures x !in xs[..i]
  {
    if xs[0] == x then 0
    else
      var i := 1 + IndexOf(xs[1..], x);
      assert xs[..i] == [xs[0]] + xs[1..][..i - 1];
      i
  }

  lemma {:induction false} IndexOfIsFirst<T>(xs: seq<T>, j: nat)
    requires j < |xs|
    ensures IndexOf(xs, xs[j]) <= j
  {
    if j > 0 {
      IndexOfIsFirst(xs[1..], j - 1);
    }
  }

  lemma {:induction false} IndexOfFound<T>(xs: seq<T>, at: nat, x: T)
    requires at < |xs| && xs[at] == x && x !in xs[..at]
    ensures IndexOf(xs, x) == at
  {
    IndexOfIsFirst(xs, at);
    assert forall j :: 0 <= j < at ==> xs[..at][j] == xs[j] && xs[j] != x;
  }

  lemma {:induction false} IndexOfPrefix<T>(a: seq<T>, b: seq<T>, x: T)
    requires x in a
    ensures IndexOf(a + b, x) == IndexOf(a, x)
    decreases |a|
  {
    assert (a + b)[IndexOf(a, x)] == x;
    if a[0] != x {
      assert (a + b)[1..] == a[1..] + b;
      IndexOfPrefix(a[1..], b, x);
    }
  }

  // The xs stand in the order of `all`.
  ghost predicate Rises<T>(xs: seq<T>, all: seq<T>) {
    && (forall i :: 0 <= i < |xs| ==> xs[i] in all)
    && (forall i, j :: 0 <= i < j < |xs| ==> IndexOf(all, xs[i]) < IndexOf(all, xs[j]))
  }

  lemma {:induction false} Regroup<T>(a: seq<T>, b: seq<T>, c: seq<T>)
    ensures (a + b) + c == a + (b + c)
  {}

  // Appends to `done` every element of `xs` it does not hold yet, in order of first occurrence.
  function AppendNew<T(==)>(done: seq<T>, xs: seq<T>): seq<T>
    decreases |xs|
  {
    if xs == [] then done
    else AppendNew(if xs[0] in done then done else done + [xs[0]], xs[1..])
  }

  lemma {:induction false} AppendNewConcat<T>(done: seq<T>, xs: seq<T>, ys: seq<T>)
    ensures AppendNew(done, xs + ys) == AppendNew(AppendNew(done, xs), ys)
    decreases |xs|
  {
    if xs == [] {
      assert xs + ys == ys;
    } else {
      assert (xs + ys)[1..] == xs[1..] + ys;
      AppendNewConcat(if xs[0] in done then done else done + [xs[0]], xs[1..], ys);
    }
  }

  // What survives: the old sequence as a prefix, every element of both, no duplicates introduced.
  lemma {:induction false} AppendNewContents<T>(done: seq<T>, xs: seq<T>)
    ensures done <= AppendNew(done, xs)
    ensures forall x :: x in AppendNew(done, xs) <==> x in done || x in xs
    ensures Distinct(done) ==> Distinct(AppendNew(done, xs))
    decreases |xs|
  {
    if xs != [] {
      AppendNewContents(if xs[0] in done then done else done + [xs[0]], xs[1..]);
      assert forall x :: x in xs <==> x == xs[0] || x in xs[1..];
    }
  }

  lemma {:induction false} AppendNewKnown<T>(done: seq<T>, xs: seq<T>)
    requires forall x :: x in xs ==> x in done
    ensures AppendNew(done, xs) == done
    decreases |xs|
  {
    if xs != [] {
      AppendNewKnown(done, xs[1..]);
    }
  }

  lemma {:induction false} AppendNewSnoc<T>(done: seq<T>, xs: seq<T>, x: T)
    ensures AppendNew(done, xs + [x]) ==
            (if x in done || x in xs then AppendNew(done, xs) else AppendNew(done, xs) + [x])
  {
    AppendNewConcat(done, xs, [x]);
    AppendNewContents(done, xs);
    var d := AppendNew(done, xs);
    assert [x][1..] == [];
  }

  // Dropping repetitions first makes no difference.
  lemma {:induction false} AppendNewTwice<T>(done: seq<T>, xs: seq<T>)
    ensures AppendNew(done, AppendNew([], xs)) == AppendNew(done, xs)
    decreases |xs|
  {
    if xs != [] {
      var front, last := xs[..|xs| - 1], xs[|xs| - 1];
      assert xs == front + [last];
      AppendNewTwice(done, front);
      AppendNewSnoc([], front, last);
      AppendNewSnoc(done, front, last);
      AppendNewContents([], front);
      AppendNewSnoc(done, AppendNew([], front), last);
    }
  }

  lemma {:induction false} DistinctCardinality<T>(xs: seq<T>)
    requires Distinct(xs)
    ensures |Elems(xs)| == |xs|
  {
    if xs != [] {
      var rest, last := xs[..|xs| - 1], xs[|xs| - 1];
      DistinctCardinality(rest);
      assert xs == rest + [last] && last !in rest;
      hide Distinct;
      assert Elems(xs) == Elems(rest) + {last};
    }
  }

  lemma {:induction false} SubsetCardinality<T>(a: set<T>, b: set<T>)
    requires a <= b
    ensures |a| <= |b|
    ensures |a| == |b| ==> a == b
  {
    assert b == a + (b - a);
    assert |b| == |a| + |b - a|;
  }

  // Two duplicate-free listings of the same set have the same length.
  lemma {:induction false} SameElemsSameLength<T>(xs: seq<T>, ys: seq<T>)
    requires Distinct(xs) && Distinct(ys)
    requires Elems(xs) == Elems(ys)
    ensures |xs| == |ys|
  {
    DistinctCardinality(xs);
    DistinctCardinality(ys);
  }

  lemma {:induction false} SublistCardinality<T>(xs: seq<T>, ys: seq<T>)
    requires Distinct(xs) && Distinct(ys)
    requires forall x :: x in xs ==> x in ys
    ensures |xs| <= |ys|
    ensures |xs| == |ys| <==> Elems(xs) == Elems(ys)
  {
    DistinctCardinality(xs);
    DistinctCardinality(ys);
    SubsetCardinality(Elems(xs), Elems(ys));
  }

  // A sequence longer than the set it draws from repeats an element.
  lemma {:induction false} Pigeonhole<T>(xs: seq<T>, s: set<T>) returns (i: nat, j: nat)
    requires forall x :: x in xs ==> x in s
    requires |xs| > |s|
    ensures i < j < |xs| && xs[i] == xs[j]
  {
    if Distinct(xs) {
      DistinctCardinality(xs);
      SubsetCardinality(Elems(xs), s);
      assert false;
    }
    i, j :| 0 <= i < j < |xs| && xs[i] == xs[j];
  }

  // How often x occurs in xs.
  function Count<T(==)>(xs: seq<T>, x: T): nat {
    if xs == [] then 0 else (if xs[0] == x then 1 else 0) + Count(xs[1..], x)
  }

  lemma {:induction false} CountPositive<T>(xs: seq<T>, x: T)
    ensures Count(xs, x) > 0 <==> x in xs
  {
    if xs != [] {
      CountPositive(xs[1..], x);
      assert x in xs <==> x == xs[0] || x in xs[1..];
    }
  }

  lemma {:induction false} CountConcat<T>(xs: seq<T>, ys: seq<T>, x: T)
    ensures Count(xs + ys, x) == Count(xs, x) + Count(ys, x)
    decreases |xs|
  {
    if xs == [] {
      assert xs + ys == ys;
    } else {
      assert (xs + ys)[1..] == xs[1..] + ys;
      CountConcat(xs[1..], ys, x);
    }
  }
}
