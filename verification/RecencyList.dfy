/** The LRU policy on values: a cache is the list of its entries, most recently touched first.
    The heap class in LruCache.dfy is proved to behave as this list; the theorems about whole
    traces of cache operations are stated here. */
module RecencyList {
  import opened Wrappers

  datatype Entry<+K, +V> = Entry(key: K, value: V)

  /** One call on the cache. */
  datatype Op<+K, +V> = Get(key: K) | Put(key: K, value: V) | Remove(key: K) | Clear

  /** With capacity 0 the eviction branch would unlink the head sentinel. */
  type Capacity = c: nat | 1 <= c witness 1

  ghost predicate DistinctKeys<K, V>(l: seq<Entry<K, V>>) {
    forall i, j :: 0 <= i < j < |l| ==> l[i].key != l[j].key
  }

  function Lookup<K(==), V>(l: seq<Entry<K, V>>, k: K): Option<V> {
    if l == [] then None
    else if l[0].key == k then Some(l[0].value)
    else Lookup(l[1..], k)
  }

  predicate Resident<K(==), V>(l: seq<Entry<K, V>>, k: K) {
    Lookup(l, k).Some?
  }

  function Without<K(==), V>(l: seq<Entry<K, V>>, k: K): seq<Entry<K, V>> {
    if l == [] then []
    else if l[0].key == k then Without(l[1..], k)
    else [l[0]] + Without(l[1..], k)
  }

  function Touch<K(==), V>(l: seq<Entry<K, V>>, k: K, v: V): seq<Entry<K, V>> {
    [Entry(k, v)] + Without(l, k)
  }

  function AfterGet<K(==), V>(l: seq<Entry<K, V>>, k: K): seq<Entry<K, V>> {
    match Lookup(l, k)
    case Some(v) => Touch(l, k, v)
    case None => l
  }

  function AfterPut<K(==), V>(cap: Capacity, l: seq<Entry<K, V>>, k: K, v: V): seq<Entry<K, V>> {
    if Resident(l, k) then Touch(l, k, v)
    else if |l| >= cap then [Entry(k, v)] + l[..|l| - 1]
    else [Entry(k, v)] + l
  }

  function Step<K(==), V>(cap: Capacity, l: seq<Entry<K, V>>, op: Op<K, V>): seq<Entry<K, V>> {
    match op
    case Get(k) => AfterGet(l, k)
    case Put(k, v) => AfterPut(cap, l, k, v)
    case Remove(k) => Without(l, k)
    case Clear => []
  }

  /** The list after a whole trace of calls on an empty cache. */
  function Run<K(==), V>(cap: Capacity, ops: seq<Op<K, V>>): seq<Entry<K, V>> {
    if ops == [] then [] else Step(cap, Run(cap, ops[..|ops| - 1]), ops[|ops| - 1])
  }

  // ---------- lookup and removal by position ----------

  lemma {:induction false} LookupAt<K, V>(l: seq<Entry<K, V>>, i: nat)
    requires DistinctKeys(l) && i < |l|
    ensures Lookup(l, l[i].key) == Some(l[i].value)
  {
    if i > 0 {
      LookupAt(l[1..], i - 1);
    }
  }

  lemma {:induction false} LookupFound<K, V>(l: seq<Entry<K, V>>, k: K)
    ensures Resident(l, k) <==> exists i :: 0 <= i < |l| && l[i].key == k
    ensures Resident(l, k) ==> Entry(k, Lookup(l, k).value) in l
  {
    if l != [] {
      LookupFound(l[1..], k);
      if i :| 0 <= i < |l| && l[i].key == k {
        if i > 0 {
          assert l[1..][i - 1].key == k;
        }
      }
    }
  }

  /** With distinct keys, looking a key up and finding its entry in the list are the same. */
  lemma LookupIsMembership<K, V>(l: seq<Entry<K, V>>, k: K, v: V)
    requires DistinctKeys(l)
    ensures Lookup(l, k) == Some(v) <==> Entry(k, v) in l
  {
    LookupFound(l, k);
    if Entry(k, v) in l {
      var i :| 0 <= i < |l| && l[i] == Entry(k, v);
      LookupAt(l, i);
    }
  }

  lemma {:induction false} WithoutAbsent<K, V>(l: seq<Entry<K, V>>, k: K)
    requires !Resident(l, k)
    ensures Without(l, k) == l
  {
    if l != [] {
      WithoutAbsent(l[1..], k);
    }
  }

  lemma {:induction false} WithoutAt<K, V>(l: seq<Entry<K, V>>, i: nat)
    requires DistinctKeys(l) && i < |l|
    ensures Without(l, l[i].key) == l[..i] + l[i + 1..]
  {
    if i == 0 {
      LookupFound(l[1..], l[0].key);
      WithoutAbsent(l[1..], l[0].key);
    } else {
      WithoutAt(l[1..], i - 1);
      assert l[..i] + l[i + 1..] == [l[0]] + (l[1..][..i - 1] + l[1..][i..]);
    }
  }

  /** Removing a key keeps every other entry, and nothing else. */
  lemma {:induction false} WithoutMembers<K, V>(l: seq<Entry<K, V>>, k: K)
    ensures forall e :: e in Without(l, k) <==> e in l && e.key != k
    ensures |Without(l, k)| <= |l|
    ensures Resident(l, k) ==> |Without(l, k)| < |l|
  {
    if l != [] {
      WithoutMembers(l[1..], k);
    }
  }

  lemma {:induction false} WithoutDistinct<K, V>(l: seq<Entry<K, V>>, k: K)
    requires DistinctKeys(l)
    ensures DistinctKeys(Without(l, k))
    ensures Resident(l, k) ==> |Without(l, k)| == |l| - 1
  {
    LookupFound(l, k);
    if i :| 0 <= i < |l| && l[i].key == k {
      WithoutAt(l, i);
    } else {
      WithoutAbsent(l, k);
    }
  }

  /** Every operation keeps the keys distinct and the length within the capacity. */
  lemma StepWellFormed<K, V>(cap: Capacity, l: seq<Entry<K, V>>, op: Op<K, V>)
    requires DistinctKeys(l) && |l| <= cap
    ensures DistinctKeys(Step(cap, l, op)) && |Step(cap, l, op)| <= cap
  {
    if !op.Clear? {
      var k := op.key;
      WithoutDistinct(l, k);
      WithoutMembers(l, k);
      LookupFound(Without(l, k), k);
      LookupFound(l, k);
    }
  }

  lemma {:induction false} RunWellFormed<K, V>(cap: Capacity, ops: seq<Op<K, V>>)
    ensures DistinctKeys(Run(cap, ops)) && |Run(cap, ops)| <= cap
  {
    if ops != [] {
      RunWellFormed(cap, ops[..|ops| - 1]);
      StepWellFormed(cap, Run(cap, ops[..|ops| - 1]), ops[|ops| - 1]);
    }
  }

  lemma {:induction false} WithoutLookup<K, V>(l: seq<Entry<K, V>>, k: K, k': K)
    ensures Lookup(Without(l, k), k') == if k' == k then None else Lookup(l, k')
  {
    if l != [] {
      WithoutLookup(l[1..], k, k');
      assert ([l[0]] + Without(l[1..], k))[1..] == Without(l[1..], k);
    }
  }

  lemma {:induction false} DropLastLookup<K, V>(l: seq<Entry<K, V>>, k: K)
    requires l != [] && DistinctKeys(l)
    ensures Lookup(l[..|l| - 1], k) == if l[|l| - 1].key == k then None else Lookup(l, k)
  {
    if |l| > 1 {
      DropLastLookup(l[1..], k);
      assert l[..|l| - 1][1..] == l[1..][..|l| - 2];
    }
  }

  lemma ConsLookup<K, V>(e: Entry<K, V>, l: seq<Entry<K, V>>, k: K)
    ensures Lookup([e] + l, k) == if e.key == k then Some(e.value) else Lookup(l, k)
  {
    assert ([e] + l)[1..] == l;
  }

  /** A put is found by the next lookup. */
  lemma PutFound<K, V>(cap: Capacity, l: seq<Entry<K, V>>, k: K, v: V)
    ensures Lookup(AfterPut(cap, l, k, v), k) == Some(v)
  {
  }

  /** A get that misses changes nothing. */
  lemma AbsentGet<K, V>(l: seq<Entry<K, V>>, k: K)
    requires Lookup(l, k) == None
    ensures AfterGet(l, k) == l
  {
  }

  /** What one step does to the entry of one key: the list as a key-value store. */
  lemma StepLookup<K, V>(cap: Capacity, l: seq<Entry<K, V>>, op: Op<K, V>, k: K)
    requires DistinctKeys(l) && |l| <= cap
    ensures Lookup(Step(cap, l, op), k) ==
            if op.Clear? then None
            else if op.Put? && op.key == k then Some(op.value)
            else if op.Remove? && op.key == k then None
            else if op.Put? && !Resident(l, op.key) && |l| >= cap && l[|l| - 1].key == k then None
            else Lookup(l, k)
  {
    hide Lookup, Without;
    match op
    case Get(key) =>
      WithoutLookup(l, key, k);
      if Resident(l, key) {
        ConsLookup(Entry(key, Lookup(l, key).value), Without(l, key), k);
      }
    case Put(key, v) =>
      WithoutLookup(l, key, k);
      ConsLookup(Entry(key, v), Without(l, key), k);
      ConsLookup(Entry(key, v), l, k);
      if |l| >= cap {
        DropLastLookup(l, k);
        ConsLookup(Entry(key, v), l[..|l| - 1], k);
      }
    case Remove(key) => WithoutLookup(l, key, k);
    case Clear => assert Lookup<K, V>([], k) == None by { EmptyLookup<K, V>(k); }
  }

  lemma EmptyLookup<K, V>(k: K)
    ensures Lookup<K, V>([], k) == None
  {
  }
}
