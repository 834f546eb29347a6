/**
  The shape of the cache's internal structure, stated over values. A node is named by
  its key (the cache keeps exactly one node per key), so the node's fields become maps
  from keys: the entry (value and expiry) and the heap slot. This module says when
  such maps and the slice of heap slots form an indexed binary min-heap.
 */
module LruLayout {
  import opened HeapOrder
  import S = CacheSpec

  /** Every key of the map is on the list and every listed key is in the map. */
  ghost predicate Filed<K, V>(items: map<K, S.Entry<V>>, order: seq<K>) {
    (forall k :: k in items ==> k in order) && (forall k :: k in order ==> k in items)
  }

  /**
    Every heap slot's node records that slot, every other node records -1, and the
    nodes with a slot record are exactly the cache's nodes.
   */
  ghost predicate Indexed<K, V>(items: map<K, S.Entry<V>>, h: seq<K>, hidx: map<K, int>) {
    (forall k :: k in hidx ==> k in items) && (forall k :: k in items ==> k in hidx)
    && (forall i :: 0 <= i < |h| ==> h[i] in hidx && hidx[h[i]] == i)
    && (forall k :: k in hidx ==> -1 <= hidx[k] < |h| && (0 <= hidx[k] ==> h[hidx[k]] == k))
  }

  /** The expiry times of the heap's slots, in slot order. */
  function Times<K, V>(items: map<K, S.Entry<V>>, h: seq<K>): (r: seq<int>)
    requires forall i :: 0 <= i < |h| ==> h[i] in items
    ensures |r| == |h|
  {
    seq(|h|, i requires 0 <= i < |h| => items[h[i]].expireAt)
  }

  /**
    The expiry heap is whole: indexed, in min-heap order by expiry time, and holding
    exactly the nodes whose expiry is not zero.
   */
  ghost predicate HeapOk<K, V>(items: map<K, S.Entry<V>>, h: seq<K>, hidx: map<K, int>) {
    Indexed(items, h, hidx)
    && Ordered(Times(items, h), |h|)
    && (forall k :: k in items ==> (items[k].expireAt == 0 <==> hidx[k] == -1))
  }

  /** Apart from the keys in `except`, the same nodes are in the heap before and after. */
  ghost predicate SameSlots<K>(h0: map<K, int>, h1: map<K, int>, except: set<K>) {
    forall k :: k in h0 && k in h1 && k !in except ==> (h0[k] == -1 <==> h1[k] == -1)
  }

  lemma TimesSwap<K, V>(items: map<K, S.Entry<V>>, h: seq<K>, i: int, j: int)
    requires forall k :: 0 <= k < |h| ==> h[k] in items
    requires 0 <= i < |h| && 0 <= j < |h|
    ensures Times(items, h[i := h[j]][j := h[i]]) == HeapOrder.Swap(Times(items, h), i, j)
  {
  }

  lemma TimesPush<K, V>(items: map<K, S.Entry<V>>, h: seq<K>, k: K)
    requires forall i :: 0 <= i < |h| ==> h[i] in items
    requires k in items
    ensures Times(items, h + [k]) == Times(items, h) + [items[k].expireAt]
  {
  }

  lemma TimesPrefix<K, V>(items: map<K, S.Entry<V>>, h: seq<K>, n: int)
    requires forall i :: 0 <= i < |h| ==> h[i] in items
    requires 0 <= n <= |h|
    ensures Times(items, h[..n]) == Times(items, h)[..n]
  {
  }

  /** A node's expiry shows in the heap's times exactly at its slot. */
  lemma TimesUpdate<K, V>(items: map<K, S.Entry<V>>, h: seq<K>, hidx: map<K, int>, k: K, e: S.Entry<V>)
    requires Indexed(items, h, hidx) && k in items
    ensures Indexed(items[k := e], h, hidx)
    ensures hidx[k] == -1 ==> Times(items[k := e], h) == Times(items, h)
    ensures hidx[k] >= 0 ==> Times(items[k := e], h) == Times(items, h)[hidx[k] := e.expireAt]
  {
  }

  /** A node filed outside the heap leaves the heap whole. */
  lemma FileOutside<K, V>(items: map<K, S.Entry<V>>, h: seq<K>, hidx: map<K, int>, k: K, e: S.Entry<V>)
    requires Indexed(items, h, hidx) && k !in items
    ensures Indexed(items[k := e], h, hidx[k := -1])
    ensures Times(items[k := e], h) == Times(items, h)
  {
  }

  /**
    A node outside the heap can be unfiled without disturbing the heap, even when its
    own expiry no longer matches its slot record.
   */
  lemma Unfile<K, V>(items: map<K, S.Entry<V>>, h: seq<K>, hidx: map<K, int>, k: K)
    requires Indexed(items, h, hidx) && Ordered(Times(items, h), |h|)
    requires k in items && hidx[k] == -1
    requires forall j :: j in items && j != k ==> (items[j].expireAt == 0 <==> hidx[j] == -1)
    ensures HeapOk(items - {k}, h, hidx - {k})
  {
    assert Times(items - {k}, h) == Times(items, h);
  }

  /** Slot records kept for every node but `k` keep the heap's membership rule for them. */
  lemma SlotsKept<K, V>(items: map<K, S.Entry<V>>, h0: map<K, int>, h1: map<K, int>, k: K)
    requires forall j :: j in items ==> j in h0 && j in h1
    requires forall j :: j in items ==> (items[j].expireAt == 0 <==> h0[j] == -1)
    requires SameSlots(h0, h1, {k})
    ensures forall j :: j in items && j != k ==> (items[j].expireAt == 0 <==> h1[j] == -1)
  {
  }

  /** The root of a non-empty heap holds the earliest expiry of all the expiring nodes. */
  lemma RootEarliest<K, V>(items: map<K, S.Entry<V>>, h: seq<K>, hidx: map<K, int>)
    requires HeapOk(items, h, hidx) && |h| > 0
    ensures h[0] in items && items[h[0]].expireAt != 0
    ensures forall k :: k in items && items[k].expireAt != 0 ==> items[h[0]].expireAt <= items[k].expireAt
  {
    forall k | k in items && items[k].expireAt != 0
      ensures items[h[0]].expireAt <= items[k].expireAt
    {
      RootIsMin(Times(items, h), |h|, hidx[k]);
    }
  }

  /** With an empty heap no node expires. */
  lemma EmptyHeap<K, V>(items: map<K, S.Entry<V>>, h: seq<K>, hidx: map<K, int>)
    requires HeapOk(items, h, hidx) && |h| == 0
    ensures forall k :: k in items ==> items[k].expireAt == 0
  {
    forall k | k in items
      ensures items[k].expireAt == 0
    {
      assert -1 <= hidx[k] < |h|;
    }
  }

  /** A heap whose root has not expired by `now` holds no node that has. */
  lemma NoneExpired<K, V>(items: map<K, S.Entry<V>>, h: seq<K>, hidx: map<K, int>, now: int)
    requires HeapOk(items, h, hidx)
    requires |h| > 0 ==> !S.Expired(items[h[0]], now)
    ensures forall k :: k in items ==> !S.Expired(items[k], now)
  {
    if |h| == 0 {
      EmptyHeap(items, h, hidx);
    } else {
      RootEarliest(items, h, hidx);
    }
  }

  /**
    Entries left after removing only expired keys, none of them expired, are exactly
    the unexpired entries, listed in their old order.
   */
  lemma PurgedExactly<K, V>(entries: map<K, S.Entry<V>>, recency: seq<K>, gone: set<K>,
                            items: map<K, S.Entry<V>>, now: int)
    requires Filed(entries, recency) && gone <= entries.Keys
    requires forall k :: k in gone ==> S.Expired(entries[k], now)
    requires items == entries - gone
    requires forall k :: k in items ==> !S.Expired(items[k], now)
    ensures items == map k | k in entries && !S.Expired(entries[k], now) :: entries[k]
    ensures S.Keep(recency, entries.Keys - gone) == S.Live(recency, entries, now)
  {
    forall k | k in entries
      ensures k in gone <==> S.Expired(entries[k], now)
    {
      if k !in gone {
        assert k in items;
      }
    }
    S.KeepLive(recency, entries.Keys - gone, entries, now);
  }

  /** A key dropped from both the map and the list leaves them filed. */
  lemma FiledRemove<K, V>(items: map<K, S.Entry<V>>, order: seq<K>, k: K)
    requires Filed(items, order)
    ensures Filed(items - {k}, S.Remove(order, k))
  {
  }

  /** A new key added to the map and put at the front of the list leaves them filed. */
  lemma FiledCons<K, V>(items: map<K, S.Entry<V>>, order: seq<K>, k: K, e: S.Entry<V>)
    requires Filed(items, order) && k !in items
    ensures k !in order && Filed(items[k := e], [k] + order)
  {
  }

  /** A listed key moved to the front of the list stays filed. */
  lemma FiledFront<K, V>(items: map<K, S.Entry<V>>, order: seq<K>, k: K)
    requires Filed(items, order) && k in items
    ensures Filed(items, [k] + S.Remove(order, k))
  {
  }

  /** An existing key rewritten and moved to the front of the list stays filed. */
  lemma FiledMove<K, V>(items: map<K, S.Entry<V>>, order: seq<K>, k: K, e: S.Entry<V>)
    requires Filed(items, order) && k in items
    ensures Filed(items[k := e], [k] + S.Remove(order, k))
  {
  }

  /** On a list that spells out `order`, the keys are as many as the positions. */
  lemma FiledSize<K, V>(items: map<K, S.Entry<V>>, order: seq<K>)
    requires Filed(items, order) && S.Distinct(order)
    ensures |items| == |order|
  {
    S.DistinctCardinality(order);
    assert items.Keys == set x | x in order;
  }
}
