/** Counting and summing over sequences, and the sizes of sets. */
module Sums {
  function Count<T(==)>(xs: seq<T>, x: T): nat {
    if xs == [] then 0 else (if xs[0] == x then 1 else 0) + Count(xs[1..], x)
  }

  function Sum<T>(xs: seq<T>, f: T -> real): real {
    if xs == [] then 0.0 else f(xs[0]) + Sum(xs[1..], f)
  }

  ghost predicate Distinct<T>(xs: seq<T>) {
    forall i, j :: 0 <= i < j < |xs| ==> xs[i] != xs[j]
  }

  /** xs lists the elements of s, each once. */
  ghost predicate Lists<T(!new)>(xs: seq<T>, s: set<T>) {
    Distinct(xs) && forall x :: x in xs <==> x in s
  }

  lemma {:induction false} CountMember<T>(xs: seq<T>, x: T)
    ensures x in xs <==> Count(xs, x) > 0
    ensures Count(xs, x) <= |xs|
  {
    if xs != [] {
      CountMember(xs[1..], x);
      assert xs == [xs[0]] + xs[1..];
    }
  }

  lemma {:induction false} CountDistinct<T>(xs: seq<T>, x: T)
    requires Distinct(xs)
    ensures Count(xs, x) == if x in xs then 1 else 0
  {
    if xs != [] {
      CountDistinct(xs[1..], x);
      assert xs == [xs[0]] + xs[1..];
    }
  }

  lemma {:induction false} CountConcat<T>(xs: seq<T>, ys: seq<T>, x: T)
    ensures Count(xs + ys, x) == Count(xs, x) + Count(ys, x)
  {
    if xs == [] {
      assert xs + ys == ys;
    } else {
      CountConcat(xs[1..], ys, x);
      assert (xs + ys)[1..] == xs[1..] + ys;
    }
  }

  lemma {:induction false} SumCongruent<T>(xs: seq<T>, f: T -> real, g: T -> real)
    requires forall i :: 0 <= i < |xs| ==> f(xs[i]) == g(xs[i])
    ensures Sum(xs, f) == Sum(xs, g)
  {
    if xs != [] {
      SumCongruent(xs[1..], f, g);
    }
  }

  lemma {:induction false} SumAdd<T>(xs: seq<T>, f: T -> real, g: T -> real, h: T -> real)
    requires forall i :: 0 <= i < |xs| ==> h(xs[i]) == f(xs[i]) + g(xs[i])
    ensures Sum(xs, h) == Sum(xs, f) + Sum(xs, g)
  {
    if xs != [] {
      SumAdd(xs[1..], f, g, h);
    }
  }

  lemma {:induction false} SumMonotone<T>(xs: seq<T>, f: T -> real, g: T -> real)
    requires forall i :: 0 <= i < |xs| ==> f(xs[i]) <= g(xs[i])
    ensures Sum(xs, f) <= Sum(xs, g)
  {
    if xs != [] {
      SumMonotone(xs[1..], f, g);
    }
  }

  /** A product, named so that proofs can treat it as a whole. */
  function Mul(c: real, x: real): real {
    c * x
  }

  lemma MulAdd(c: real, x: real, y: real)
    ensures Mul(c, x + y) == Mul(c, x) + Mul(c, y)
    ensures Mul(c, 0.0) == 0.0
  {
  }

  lemma {:induction false} SumScale<T>(xs: seq<T>, f: T -> real, c: real, g: T -> real)
    requires forall i :: 0 <= i < |xs| ==> g(xs[i]) == Mul(c, f(xs[i]))
    ensures Sum(xs, g) == Mul(c, Sum(xs, f))
  {
    hide Mul;
    MulAdd(c, 0.0, 0.0);
    if xs != [] {
      SumScale(xs[1..], f, c, g);
      MulAdd(c, f(xs[0]), Sum(xs[1..], f));
    }
  }

  lemma {:induction false} SumConstant<T>(xs: seq<T>, f: T -> real, c: real)
    requires forall i :: 0 <= i < |xs| ==> f(xs[i]) == c
    ensures Sum(xs, f) == |xs| as real * c
  {
    if xs != [] {
      SumConstant(xs[1..], f, c);
    }
  }

  /** Over distinct elements, only the one equal to t contributes. */
  lemma {:induction false} SumOnly<T>(ws: seq<T>, t: T, g: T -> real)
    requires Distinct(ws)
    requires forall i :: 0 <= i < |ws| && ws[i] != t ==> g(ws[i]) == 0.0
    ensures Sum(ws, g) == if t in ws then g(t) else 0.0
  {
    if ws != [] {
      assert ws == [ws[0]] + ws[1..];
      SumOnly(ws[1..], t, g);
    }
  }

  /** x added n times. */
  function Times(n: nat, x: real): real {
    if n == 0 then 0.0 else x + Times(n - 1, x)
  }

  lemma Distribute(a: real, b: real, x: real)
    ensures (a + b) * x == a * x + b * x
  {
  }

  lemma {:induction false} TimesIsProduct(n: nat, x: real)
    ensures Times(n, x) == n as real * x
  {
    if n > 0 {
      TimesIsProduct(n - 1, x);
      Distribute(1.0, (n - 1) as real, x);
    }
  }

  /** Summing g over a sequence with repetitions is summing multiplicity times g over the
      distinct elements. */
  lemma {:induction false} SumByMultiplicity<T>(xs: seq<T>, ws: seq<T>, g: T -> real, h: T -> real)
    requires Distinct(ws) && forall x :: x in xs ==> x in ws
    requires forall i :: 0 <= i < |ws| ==> h(ws[i]) == Times(Count(xs, ws[i]), g(ws[i]))
    ensures Sum(xs, g) == Sum(ws, h)
  {
    if xs == [] {
      SumConstant(ws, h, 0.0);
    } else {
      var f, only := w => Times(Count(xs[1..], w), g(w)), w => if w == xs[0] then g(w) else 0.0;
      SumByMultiplicity(xs[1..], ws, g, f);
      assert xs[0] in xs;
      SumOnly(ws, xs[0], only);
      SumAdd(ws, f, only, h);
    }
  }

  /** The elements of xs, each once. */
  function Dedup<T(==)>(xs: seq<T>): seq<T> {
    if xs == [] then []
    else if xs[0] in xs[1..] then Dedup(xs[1..])
    else [xs[0]] + Dedup(xs[1..])
  }

  lemma {:induction false} DedupLists<T(!new)>(xs: seq<T>)
    ensures Lists(Dedup(xs), set x | x in xs)
  {
    if xs != [] {
      var rest := Dedup(xs[1..]);
      DedupLists(xs[1..]);
      assert xs == [xs[0]] + xs[1..];
      forall x ensures x in Dedup(xs) <==> x in xs {
        assert x in rest <==> x in xs[1..];
      }
      if xs[0] !in xs[1..] {
        assert xs[0] !in rest;
      }
    }
  }

  // ---------- sizes ----------

  lemma {:induction false} DistinctCardinality<T>(xs: seq<T>)
    requires Distinct(xs)
    ensures |set x | x in xs| == |xs|
  {
    if xs != [] {
      DistinctCardinality(xs[1..]);
      assert xs == [xs[0]] + xs[1..];
      assert (set x | x in xs) == {xs[0]} + set x | x in xs[1..];
    }
  }

  lemma SubsetCardinality<T>(a: set<T>, b: set<T>)
    requires a <= b
    ensures |a| <= |b| && (|a| == |b| <==> a == b)
  {
    assert b == a + (b - a);
  }
}
