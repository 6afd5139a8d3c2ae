/** The cache as the C++ class builds it: a doubly linked list between two sentinels plus a map
    from keys to list nodes, all updated in place. Each method is one critical section of the
    class's mutex, so it runs as one step. */
module LruCache {
  import opened Wrappers
  import opened RecencyList

  class Node<K, V> {
    var key: K
    var value: V
    var prev: Node?<K, V>
    var next: Node?<K, V>

    constructor (k: K, v: V)
      ensures key == k && value == v && prev == null && next == null
    {
      key, value, prev, next := k, v, null, null;
    }
  }

  class Cache<K(0, ==, !new), V(0)> {
    const capacity: Capacity
    var currentCapacity: int
    var cacheMap: map<K, Node<K, V>>
    var head: Node<K, V>
    var tail: Node<K, V>

    ghost var chain: seq<Node<K, V>>    // head, the entries' nodes, tail: following next
    ghost var created: set<Node<K, V>>  // every node this cache ever allocated
    ghost var freed: set<Node<K, V>>    // every node it has deleted
    ghost var Repr: set<object>

    /** The chain is well linked in both directions and ends at the sentinels. */
    ghost predicate Linked()
      reads `chain, `head, `tail, chain`prev, chain`next
    {
      && |chain| >= 2
      && head == chain[0] && tail == chain[|chain| - 1]
      && head.prev == null && tail.next == null
      && (forall i, j :: 0 <= i < j < |chain| ==> chain[i] != chain[j])
      && (forall i {:trigger chain[i].next} :: 0 <= i < |chain| - 1 ==> chain[i].next == chain[i + 1])
      && (forall i {:trigger chain[i].prev} :: 0 < i < |chain| ==> chain[i].prev == chain[i - 1])
    }

    /** The map and the chain hold the same nodes, filed under their own keys. */
    ghost predicate Mapped()
      reads `chain, `head, `tail, `cacheMap, chain`key
    {
      && (forall n :: n in chain && n != head && n != tail ==> n.key in cacheMap && cacheMap[n.key] == n)
      && (forall k :: k in cacheMap ==>
            cacheMap[k] in chain && cacheMap[k] != head && cacheMap[k] != tail && cacheMap[k].key == k)
    }

    /** Nodes are either linked or freed, never both, and none is lost. */
    ghost predicate Accounted()
      reads `chain, `created, `freed
    {
      created == (set n | n in chain) + freed && (set n | n in chain) !! freed
    }

    ghost predicate Valid()
      reads this, Repr
      ensures Valid() ==> this in Repr && Linked() && (forall n :: n in chain ==> n in Repr)
    {
      && this in Repr
      && (forall n :: n in chain ==> n in Repr)
      && Linked() && Mapped() && Accounted()
      && currentCapacity == |chain| - 2 <= capacity
    }

    /** The abstract value: the entries in recency order. */
    ghost function Entries(): (l: seq<Entry<K, V>>)
      reads this, chain
      requires |chain| >= 2
      ensures |l| == |chain| - 2
      ensures forall i :: 0 <= i < |l| ==> l[i] == Entry(chain[i + 1].key, chain[i + 1].value)
    {
      var nodes := chain;
      seq(|nodes| - 2, i requires 0 <= i < |nodes| - 2 reads nodes => Entry(nodes[i + 1].key, nodes[i + 1].value))
    }

    constructor (cap: Capacity)
      ensures Valid() && fresh(Repr) && capacity == cap
      ensures Entries() == [] && freed == {}
    {
      capacity := cap;
      currentCapacity := 0;
      cacheMap := map[];
      var k: K, v: V := *, *;  // KeyType() and ValueType()
      var h := new Node(k, v);
      var t := new Node(k, v);
      head, tail := h, t;
      chain, created, freed := [h, t], {h, t}, {};
      new;
      head.next := tail;
      tail.prev := head;
      Repr := {this, head, tail};
    }

    /** The abstract list sees what the map sees. */
    lemma EntriesMatchMap(k: K)
      requires Valid()
      ensures DistinctKeys(Entries())
      ensures Resident(Entries(), k) <==> k in cacheMap
      ensures k in cacheMap ==> Lookup(Entries(), k) == Some(cacheMap[k].value)
    {
      hide Entries;
      LookupFound(Entries(), k);
      assert forall i :: 0 <= i < |Entries()| ==> Entries()[i].key == chain[i + 1].key;
      if k in cacheMap {
        var i :| 0 <= i < |chain| && chain[i] == cacheMap[k];
        assert Entries()[i - 1].key == k;
        LookupAt(Entries(), i - 1);
      }
    }

    /** Unlinks the node at position i; the node itself is not freed here. */
    method RemoveNode(node: Node<K, V>, ghost i: nat)
      requires Linked() && 0 < i < |chain| - 1 && node == chain[i]
      modifies this`chain, chain`next, chain`prev
      ensures Linked() && chain == old(chain[..i] + chain[i + 1..])
      ensures forall n :: n in chain <==> n in old(chain) && n != node
      ensures Entries() == old(Entries()[..i - 1] + Entries()[i..])
    {
      hide Entries;
      assert chain == chain[..i] + [node] + chain[i + 1..];
      node.prev.next := node.next;
      node.next.prev := node.prev;
      chain := chain[..i] + chain[i + 1..];
    }

    /** Links a node that is not in the list right after the head sentinel. */
    method AddNode(node: Node<K, V>)
      requires Linked() && node !in chain
      modifies this`chain, node`next, node`prev, chain`next, chain`prev
      ensures Linked() && chain == old([head, node] + chain[1..])
      ensures forall n :: n in chain <==> n == node || n in old(chain)
      ensures Entries() == [Entry(node.key, node.value)] + old(Entries())
    {
      hide Entries;
      ghost var before := chain;
      assert head.next == before[1];
      node.next := head.next;
      node.prev := head;
      head.next.prev := node;
      head.next := node;
      chain := [head, node] + before[1..];
      assert forall i :: 2 <= i < |chain| ==> chain[i] == before[i - 1];
    }

    method MoveToFront(node: Node<K, V>, ghost i: nat)
      requires Linked() && 0 < i < |chain| - 1 && node == chain[i]
      modifies this`chain, chain`next, chain`prev
      ensures Linked() && |chain| == old(|chain|)
      ensures forall n :: n in chain <==> n in old(chain)
      ensures Entries() == [Entry(node.key, node.value)] + old(Entries()[..i - 1] + Entries()[i..])
    {
      hide Entries;
      ghost var before := chain;
      assert before == [head] + before[1..i] + [node] + before[i + 1..];
      RemoveNode(node, i);
      assert chain[1..] == before[1..i] + before[i + 1..];
      AddNode(node);
    }

    /** delete: a node is freed at most once, and only after it was allocated here. */
    ghost method Delete(node: Node<K, V>)
      requires node in created && node !in freed
      modifies this`freed
      ensures freed == old(freed) + {node}
    {
      freed := freed + {node};
    }

    /** Moving the node of a cached key to the front is a touch of that key. */
    method TouchNode(node: Node<K, V>)
      requires Valid() && node.key in cacheMap && cacheMap[node.key] == node
      modifies this`chain, chain`next, chain`prev
      ensures Valid()
      ensures Entries() == Touch(old(Entries()), node.key, node.value)
    {
      hide Entries, Without, Lookup;
      EntriesMatchMap(node.key);
      ghost var i :| 0 < i < |chain| - 1 && chain[i] == node;
      WithoutAt(Entries(), i - 1);
      MoveToFront(node, i);
    }

    method Get(key: K) returns (r: Option<V>)
      requires Valid()
      modifies Repr
      ensures Valid() && Repr == old(Repr)
      ensures r == Lookup(old(Entries()), key)
      ensures Entries() == AfterGet(old(Entries()), key)
      ensures freed == old(freed)
    {
      EntriesMatchMap(key);
      if key !in cacheMap {
        return None;
      }
      var valueNode := cacheMap[key];
      TouchNode(valueNode);
      var val := valueNode.value;
      return Some(val);
    }

    /** The steps shared by put's eviction and remove: unlink, unfile, free and uncount one node. */
    method Discard(node: Node<K, V>, ghost i: nat)
      requires Valid() && 0 < i < |chain| - 1 && chain[i] == node
      modifies this, chain
      ensures Valid() && Repr == old(Repr)
      ensures Entries() == old(Entries()[..i - 1] + Entries()[i..])
      ensures currentCapacity == old(currentCapacity) - 1
      ensures cacheMap == old(cacheMap - {node.key})
      ensures freed == old(freed + {node})
    {
      RemoveNode(node, i);
      cacheMap := cacheMap - {node.key};
      Delete(node);
      currentCapacity := currentCapacity - 1;
    }

    /** Links, files and counts a newly allocated node. */
    method Insert(node: Node<K, V>)
      requires Valid() && node !in created && node.key !in cacheMap && currentCapacity < capacity
      modifies this, chain, node`prev, node`next
      ensures Valid() && Repr == old(Repr) + {node}
      ensures Entries() == [Entry(node.key, node.value)] + old(Entries())
      ensures freed == old(freed)
    {
      AddNode(node);
      cacheMap := cacheMap[node.key := node];
      created, Repr := created + {node}, Repr + {node};
      currentCapacity := currentCapacity + 1;
    }

    method InsertFront(key: K, value: V)
      requires Valid() && key !in cacheMap && currentCapacity < capacity
      modifies this, chain
      ensures Valid() && fresh(Repr - old(Repr))
      ensures Entries() == [Entry(key, value)] + old(Entries())
      ensures freed == old(freed)
    {
      var node := new Node(key, value);
      Insert(node);
    }

    method Put(key: K, value: V)
      requires Valid()
      modifies Repr
      ensures Valid() && fresh(Repr - old(Repr))
      ensures Entries() == AfterPut(capacity, old(Entries()), key, value)
      ensures freed == old(freed) +
                       if key !in old(cacheMap) && old(currentCapacity) >= capacity then {old(tail.prev)} else {}
    {
      EntriesMatchMap(key);
      if key !in cacheMap {
        if currentCapacity >= capacity {
          ghost var l := Entries();
          var last := tail.prev;
          Discard(last, |chain| - 2);
          assert Entries() == l[..|l| - 1];
        }
        InsertFront(key, value);
      } else {
        var node := cacheMap[key];
        UpdateValue(node, value);
        TouchNode(node);
      }
    }

    /** node->value = value: only that entry's value changes. */
    method UpdateValue(node: Node<K, V>, value: V)
      requires Valid() && node.key in cacheMap && cacheMap[node.key] == node
      modifies node`value
      ensures Valid() && node.value == value
      ensures Without(Entries(), node.key) == Without(old(Entries()), node.key)
    {
      hide Entries;
      EntriesMatchMap(node.key);
      ghost var i :| 0 < i < |chain| - 1 && chain[i] == node;
      ghost var l := Entries();
      WithoutAt(l, i - 1);
      node.value := value;
      EntriesMatchMap(node.key);
      assert Entries()[i - 1].key == node.key;
      WithoutAt(Entries(), i - 1);
      assert Entries()[..i - 1] == l[..i - 1] && Entries()[i..] == l[i..];
    }

    method Remove(key: K) returns (b: bool)
      requires Valid()
      modifies Repr
      ensures Valid() && Repr == old(Repr)
      ensures b == Resident(old(Entries()), key)
      ensures Entries() == Without(old(Entries()), key)
      ensures freed == old(freed + if key in cacheMap then {cacheMap[key]} else {})
    {
      EntriesMatchMap(key);
      if key in cacheMap {
        var node := cacheMap[key];
        ghost var i :| 0 < i < |chain| - 1 && chain[i] == node;
        WithoutAt(Entries(), i - 1);
        Discard(node, i);
        return true;
      }
      WithoutAbsent(Entries(), key);
      return false;
    }

    method Clear()
      requires Valid()
      modifies Repr
      ensures Valid() && Repr == old(Repr)
      ensures Entries() == []
      ensures freed == old(freed) + set i | 0 < i < old(|chain|) - 1 :: old(chain[i])
    {
      hide Entries;
      var curr := head.next;
      ghost var k := 1;
      ghost var was := freed;
      while curr != tail
        modifies this`freed
        invariant 1 <= k <= |chain| - 1 && curr == chain[k]
        invariant freed == was + (set i | 0 < i < k :: chain[i])
        decreases |chain| - k
      {
        assert curr !in freed;  // the read below is not a use after free
        var next := curr.next;
        Delete(curr);
        curr, k := next, k + 1;
      }
      head.next := tail;
      tail.prev := head;
      cacheMap := map[];
      currentCapacity := 0;
      chain := [head, tail];
    }

    /** The destructor: walks the list from the head sentinel and frees every node, sentinels included. */
    method Destroy()
      requires Valid()
      modifies this`freed
      ensures freed == created
    {
      var curr: Node?<K, V> := head;
      ghost var k := 0;
      ghost var was := freed;
      while curr != null
        invariant 0 <= k <= |chain|
        invariant curr == if k < |chain| then chain[k] else null
        invariant freed == was + (set i | 0 <= i < k :: chain[i])
        decreases |chain| - k
      {
        assert curr !in freed;
        var next := curr.next;
        Delete(curr);
        curr, k := next, k + 1;
      }
    }
  }
}
