/** Theorems about whole traces of cache calls: a larger cache hits whenever a smaller one does,
    and the list order is the order of last touch. */
module CacheTraces {
  import opened Wrappers
  import opened RecencyList

  // ---------- capacity inclusion over two runs ----------

  /** a is a subsequence of b. */
  ghost predicate Sub<T>(a: seq<T>, b: seq<T>) {
    a == [] || (b != [] && ((a[0] == b[0] && Sub(a[1..], b[1..])) || Sub(a, b[1..])))
  }

  lemma {:induction false} SubMembers<T>(a: seq<T>, b: seq<T>)
    requires Sub(a, b)
    ensures |a| <= |b| && forall x :: x in a ==> x in b
  {
    if a != [] {
      assert a == [a[0]] + a[1..] && b == [b[0]] + b[1..];
      if a[0] == b[0] && Sub(a[1..], b[1..]) {
        SubMembers(a[1..], b[1..]);
      } else {
        SubMembers(a, b[1..]);
      }
    }
  }

  lemma SubCons<T>(x: T, a: seq<T>, b: seq<T>)
    requires Sub(a, b)
    ensures Sub([x] + a, [x] + b)
  {
    assert ([x] + a)[1..] == a && ([x] + b)[1..] == b;
  }

  lemma {:induction false} SubWithout<K, V>(a: seq<Entry<K, V>>, b: seq<Entry<K, V>>, k: K)
    requires Sub(a, b)
    ensures Sub(Without(a, k), Without(b, k))
  {
    if a != [] {
      if a[0] == b[0] && Sub(a[1..], b[1..]) {
        SubWithout(a[1..], b[1..], k);
        if a[0].key != k {
          SubCons(a[0], Without(a[1..], k), Without(b[1..], k));
        }
      } else {
        SubWithout(a, b[1..], k);
        SubSkip(Without(a, k), Without(b[1..], k), b[0]);
      }
    }
  }

  lemma SubSkip<T>(a: seq<T>, b: seq<T>, x: T)
    requires Sub(a, b)
    ensures Sub(a, [x] + b)
  {
    assert ([x] + b)[1..] == b;
  }

  lemma {:induction false} SubDropLast<T>(a: seq<T>, b: seq<T>)
    requires Sub(a, b) && a != []
    ensures b != [] && Sub(a[..|a| - 1], b[..|b| - 1])
  {
    if a[0] == b[0] && Sub(a[1..], b[1..]) {
      if |a| > 1 {
        SubDropLast(a[1..], b[1..]);
        assert a[..|a| - 1][1..] == a[1..][..|a| - 2] && b[..|b| - 1][1..] == b[1..][..|b| - 2];
      }
    } else {
      SubDropLast(a, b[1..]);
      assert b[..|b| - 1][1..] == b[1..][..|b| - 2];
    }
  }

  lemma SubLookup<K, V>(a: seq<Entry<K, V>>, b: seq<Entry<K, V>>, k: K)
    requires Sub(a, b) && DistinctKeys(b)
    ensures Resident(a, k) ==> Lookup(b, k) == Lookup(a, k)
  {
    if Resident(a, k) {
      SubMembers(a, b);
      LookupFound(a, k);
      LookupIsMembership(b, k, Lookup(a, k).value);
    }
  }

  /** The smaller cache nested in the larger one, with no more free slots than it. */
  ghost predicate Nested<K, V>(c1: Capacity, c2: Capacity, a: seq<Entry<K, V>>, b: seq<Entry<K, V>>) {
    && c1 <= c2 && |a| <= c1 && |b| <= c2
    && DistinctKeys(a) && DistinctKeys(b)
    && Sub(a, b) && c1 - |a| <= c2 - |b|
  }

  /** A put of a key that the smaller cache does not hold. */
  lemma PutMissInclusion<K, V>(c1: Capacity, c2: Capacity, a: seq<Entry<K, V>>, b: seq<Entry<K, V>>, k: K, v: V)
    requires Nested(c1, c2, a, b) && !Resident(a, k)
    ensures Sub(AfterPut(c1, a, k, v), AfterPut(c2, b, k, v))
  {
    hide Sub, Without, Lookup;
    var a' := if |a| >= c1 then a[..|a| - 1] else a;
    var b' := if Resident(b, k) then Without(b, k) else if |b| >= c2 then b[..|b| - 1] else b;
    SubWithout(a, b, k);
    WithoutAbsent(a, k);
    if |a| >= c1 {
      SubDropLast(a, b);
      SubDropsLast(a);
      SubTrans(a', a, if Resident(b, k) then Without(b, k) else b);
    }
    SubCons(Entry(k, v), a', b');
  }

  /** One call keeps the smaller list inside the larger one, and the larger cache at least as
      many free slots. Without the slots clause the larger cache could evict an entry that the
      smaller one keeps. */
  lemma StepInclusion<K, V>(c1: Capacity, c2: Capacity, a: seq<Entry<K, V>>, b: seq<Entry<K, V>>, op: Op<K, V>)
    requires Nested(c1, c2, a, b)
    ensures Sub(Step(c1, a, op), Step(c2, b, op))
  {
    hide Without, Lookup;
    if !op.Clear? {
      var k := op.key;
      SubLookup(a, b, k);
      SubWithout(a, b, k);
      if !Resident(a, k) {
        WithoutAbsent(a, k);
      }
      match op
      case Get(_) =>
        if Resident(a, k) {
          SubCons(Entry(k, Lookup(a, k).value), Without(a, k), Without(b, k));
        } else if Resident(b, k) {
          SubSkip(a, Without(b, k), Entry(k, Lookup(b, k).value));
        }
      case Put(_, v) =>
        if Resident(a, k) {
          SubCons(Entry(k, v), Without(a, k), Without(b, k));
        } else {
          PutMissInclusion(c1, c2, a, b, k, v);
        }
      case Remove(_) =>
    }
  }

  lemma StepSlots<K, V>(c1: Capacity, c2: Capacity, a: seq<Entry<K, V>>, b: seq<Entry<K, V>>, op: Op<K, V>)
    requires Nested(c1, c2, a, b)
    ensures c1 - |Step(c1, a, op)| <= c2 - |Step(c2, b, op)|
  {
    hide Without, Lookup, Sub;
    if !op.Clear? {
      SubLookup(a, b, op.key);
      WithoutDistinct(a, op.key);
      WithoutDistinct(b, op.key);
      if !Resident(a, op.key) {
        WithoutAbsent(a, op.key);
      }
      if !Resident(b, op.key) {
        WithoutAbsent(b, op.key);
      }
    }
  }

  lemma {:induction false} SubDropsLast<T>(a: seq<T>)
    requires a != []
    ensures Sub(a[..|a| - 1], a)
  {
    if |a| > 1 {
      SubDropsLast(a[1..]);
      assert a[..|a| - 1][1..] == a[1..][..|a| - 2];
    }
  }

  lemma {:induction false} SubTrans<T>(a: seq<T>, b: seq<T>, c: seq<T>)
    requires Sub(a, b) && Sub(b, c)
    ensures Sub(a, c)
    decreases |a| + |b| + |c|
  {
    if a != [] {
      if b[0] == c[0] && Sub(b[1..], c[1..]) {
        if a[0] == b[0] && Sub(a[1..], b[1..]) {
          SubTrans(a[1..], b[1..], c[1..]);
        } else {
          SubTrans(a, b[1..], c[1..]);
        }
      } else {
        SubTrans(a, b, c[1..]);
      }
    }
  }

  /** For any trace, the recency list of the smaller cache is a subsequence of the larger one's. */
  lemma {:induction false} CapacityInclusion<K, V>(c1: Capacity, c2: Capacity, ops: seq<Op<K, V>>)
    requires c1 <= c2
    ensures Sub(Run(c1, ops), Run(c2, ops))
    ensures c1 - |Run(c1, ops)| <= c2 - |Run(c2, ops)|
  {
    if ops != [] {
      var before := ops[..|ops| - 1];
      CapacityInclusion(c1, c2, before);
      RunWellFormed(c1, before);
      RunWellFormed(c2, before);
      StepInclusion(c1, c2, Run(c1, before), Run(c2, before), ops[|ops| - 1]);
      StepSlots(c1, c2, Run(c1, before), Run(c2, before), ops[|ops| - 1]);
    }
  }

  /** What a Get of k would return after the trace. */
  function Reply<K(==), V>(cap: Capacity, ops: seq<Op<K, V>>, k: K): Option<V> {
    Lookup(Run(cap, ops), k)
  }

  /** Every hit of the smaller cache is a hit with the same value in the larger one. */
  lemma HitsIncluded<K, V>(c1: Capacity, c2: Capacity, ops: seq<Op<K, V>>, k: K)
    requires c1 <= c2
    ensures Reply(c1, ops, k).Some? ==> Reply(c2, ops, k) == Reply(c1, ops, k)
  {
    CapacityInclusion(c1, c2, ops);
    RunWellFormed(c2, ops);
    SubLookup(Run(c1, ops), Run(c2, ops), k);
  }

  function HitCount<K(==), V>(cap: Capacity, ops: seq<Op<K, V>>): nat {
    if ops == [] then 0
    else
      var before, op := ops[..|ops| - 1], ops[|ops| - 1];
      HitCount(cap, before) + if op.Get? && Reply(cap, before, op.key).Some? then 1 else 0
  }

  /** Enlarging the cache never loses hits (no Belady anomaly), even with removals and clears. */
  lemma {:induction false} HitCountMonotone<K, V>(c1: Capacity, c2: Capacity, ops: seq<Op<K, V>>)
    requires c1 <= c2
    ensures HitCount(c1, ops) <= HitCount(c2, ops)
  {
    if ops != [] {
      var before, op := ops[..|ops| - 1], ops[|ops| - 1];
      HitCountMonotone(c1, c2, before);
      if op.Get? {
        HitsIncluded(c1, c2, before, op.key);
      }
    }
  }

  // ---------- the order of the list is the order of last touch ----------

  /** A put of k, or a get of k that hits. */
  ghost predicate Touches<K, V>(cap: Capacity, before: seq<Op<K, V>>, op: Op<K, V>, k: K) {
    (op.Put? && op.key == k) || (op.Get? && op.key == k && Resident(Run(cap, before), k))
  }

  /** The index of the last call that touched k, or -1. */
  ghost function LastTouch<K, V>(cap: Capacity, ops: seq<Op<K, V>>, k: K): int {
    if ops == [] then -1
    else
      var before, op := ops[..|ops| - 1], ops[|ops| - 1];
      if Touches(cap, before, op, k) then |before| else LastTouch(cap, before, k)
  }

  lemma {:induction false} LastTouchRange<K, V>(cap: Capacity, ops: seq<Op<K, V>>, k: K)
    ensures -1 <= LastTouch(cap, ops, k) < |ops|
  {
    if ops != [] {
      LastTouchRange(cap, ops[..|ops| - 1], k);
    }
  }

  ghost predicate OrderedByTouch<K, V>(cap: Capacity, ops: seq<Op<K, V>>, l: seq<Entry<K, V>>) {
    && (forall i :: 0 <= i < |l| ==> 0 <= LastTouch(cap, ops, l[i].key))
    && (forall i, j :: 0 <= i < j < |l| ==> LastTouch(cap, ops, l[i].key) > LastTouch(cap, ops, l[j].key))
  }

  /** The part of the list that a call on key k leaves in place. */
  ghost function Kept<K, V>(cap: Capacity, l: seq<Entry<K, V>>, op: Op<K, V>): seq<Entry<K, V>>
    requires !op.Clear?
  {
    if Resident(l, op.key) then Without(l, op.key)
    else if op.Put? && |l| >= cap then l[..|l| - 1] else l
  }

  lemma KeptOrdered<K, V>(cap: Capacity, ops: seq<Op<K, V>>, l: seq<Entry<K, V>>, op: Op<K, V>)
    requires !op.Clear? && DistinctKeys(l) && OrderedByTouch(cap, ops, l)
    ensures OrderedByTouch(cap, ops, Kept(cap, l, op))
    ensures forall i :: 0 <= i < |Kept(cap, l, op)| ==> Kept(cap, l, op)[i].key != op.key
  {
    hide Lookup, Without, LastTouch;
    LookupFound(l, op.key);
    if i :| 0 <= i < |l| && l[i].key == op.key {
      WithoutAt(l, i);
    }
  }

  lemma {:induction false} StepKept<K, V>(cap: Capacity, before: seq<Op<K, V>>, op: Op<K, V>)
    requires !op.Clear?
    ensures var l := Run(cap, before);
            var m := Step(cap, l, op);
            if Touches(cap, before, op, op.key) then m != [] && m[0].key == op.key && m[1..] == Kept(cap, l, op)
            else m == Kept(cap, l, op)
  {
    var l := Run(cap, before);
    if !Resident(l, op.key) {
      WithoutAbsent(l, op.key);
    }
  }

  /** After any trace the list is strictly ordered by last touch, most recent first. */
  lemma {:induction false} ListOrderedByTouch<K, V>(cap: Capacity, ops: seq<Op<K, V>>)
    ensures OrderedByTouch(cap, ops, Run(cap, ops))
  {
    if ops != [] {
      var before, op := ops[..|ops| - 1], ops[|ops| - 1];
      ListOrderedByTouch(cap, before);
      RunWellFormed(cap, before);
      if !op.Clear? {
        var rest := Kept(cap, Run(cap, before), op);
        KeptOrdered(cap, before, Run(cap, before), op);
        StepKept(cap, before, op);
        forall i | 0 <= i < |rest|
          ensures LastTouch(cap, ops, rest[i].key) == LastTouch(cap, before, rest[i].key) < |before|
        {
          LastTouchRange(cap, before, rest[i].key);
        }
        assert OrderedByTouch(cap, ops, rest);
        var m := Run(cap, ops);
        assert Touches(cap, before, op, op.key) ==> forall i :: 1 <= i < |m| ==> m[i] == rest[i - 1];
      }
    }
  }

  /** k is cached, and no cached key was touched longer ago. */
  ghost predicate Oldest<K(!new), V>(cap: Capacity, ops: seq<Op<K, V>>, k: K) {
    && Resident(Run(cap, ops), k)
    && forall k' :: Resident(Run(cap, ops), k') ==> LastTouch(cap, ops, k) <= LastTouch(cap, ops, k')
  }

  /** This call is a put of an uncached key into a full cache. */
  ghost predicate FullPut<K, V>(cap: Capacity, before: seq<Op<K, V>>, op: Op<K, V>) {
    op.Put? && !Resident(Run(cap, before), op.key) && |Run(cap, before)| >= cap
  }

  lemma OldestIsLast<K(!new), V>(cap: Capacity, ops: seq<Op<K, V>>, k: K)
    requires Run(cap, ops) != []
    ensures Oldest(cap, ops, k) <==> Run(cap, ops)[|Run(cap, ops)| - 1].key == k
  {
    hide Run, LastTouch, Lookup;
    var l := Run(cap, ops);
    ListOrderedByTouch(cap, ops);
    RunWellFormed(cap, ops);
    LookupAt(l, |l| - 1);
    forall k' | Resident(l, k')
      ensures LastTouch(cap, ops, l[|l| - 1].key) <= LastTouch(cap, ops, k')
      ensures LastTouch(cap, ops, l[|l| - 1].key) == LastTouch(cap, ops, k') ==> k' == l[|l| - 1].key
    {
      LookupFound(l, k');
    }
  }

  /** A put of a new key into a full cache drops exactly the key with the oldest touch. */
  lemma VictimIsOldest<K(!new), V>(cap: Capacity, before: seq<Op<K, V>>, op: Op<K, V>, k: K)
    requires FullPut(cap, before, op) && Resident(Run(cap, before), k)
    ensures !Resident(Run(cap, before + [op]), k) <==> Oldest(cap, before, k)
  {
    var ops := before + [op];
    assert ops[..|ops| - 1] == before;
    RunWellFormed(cap, before);
    StepLookup(cap, Run(cap, before), op, k);
    OldestIsLast(cap, before, k);
  }

  /** Call j removes k, clears the cache, evicts k, or overwrites k. */
  ghost predicate Displaces<K(!new), V>(cap: Capacity, ops: seq<Op<K, V>>, j: nat, k: K)
    requires j < |ops|
  {
    || ops[j].Clear?
    || ((ops[j].Remove? || ops[j].Put?) && ops[j].key == k)
    || (FullPut(cap, ops[..j], ops[j]) && Oldest(cap, ops[..j], k))
  }

  /** Call i was a put of (k, v), and nothing has displaced it since. */
  ghost predicate LiveSince<K(!new), V>(cap: Capacity, ops: seq<Op<K, V>>, k: K, v: V, i: int) {
    && 0 <= i < |ops|
    && ops[i] == Put(k, v)
    && forall j :: i < j < |ops| ==> !Displaces(cap, ops, j, k)
  }

  /** Get returns v exactly when v was the latest put of the key, not since removed, cleared
      or evicted as the least recently touched key of a full cache. */
  lemma {:induction false} GetReturnsLatestPut<K(!new), V>(cap: Capacity, ops: seq<Op<K, V>>, k: K, v: V)
    ensures Reply(cap, ops, k) == Some(v) <==> exists i :: LiveSince(cap, ops, k, v, i)
  {
    if ops != [] {
      var n := |ops| - 1;
      var before, op := ops[..n], ops[n];
      GetReturnsLatestPut(cap, before, k, v);
      RunWellFormed(cap, before);
      StepLookup(cap, Run(cap, before), op, k);
      if FullPut(cap, before, op) {
        OldestIsLast(cap, before, k);
      }
      forall j | 0 <= j < n ensures Displaces(cap, ops, j, k) <==> Displaces(cap, before, j, k) {
        assert ops[..j] == before[..j];
      }
      if op == Put(k, v) {
        assert LiveSince(cap, ops, k, v, n);
      } else {
        forall i
          ensures LiveSince(cap, ops, k, v, i) <==> LiveSince(cap, before, k, v, i) && !Displaces(cap, ops, n, k)
        {
          assert 0 <= i < n ==> before[i] == ops[i];
        }
      }
    }
  }
}
