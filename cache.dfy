/**
  The LRU + TTL cache: a map from keys to nodes, a recency list through the nodes
  (most recent at the head), and a binary min-heap of the expiring nodes ordered by
  expiry time, each node remembering its heap slot. Every operation takes the current
  time as `now` instead of reading the clock; 0 is "no expiry".

  A node is named by its key: `items[k]` holds node `k`'s value and expiry and
  `hidx[k]` its heap slot; `order` is the recency list as the keys from head to tail
  (the pointer rewiring behind it is modelled in `LruLinks`). `Model()` reads the
  structure as a `CacheSpec.State`, and every operation is proved to act on it as the
  corresponding `CacheSpec` function does.
 */
module LruCache {
  import opened Wrappers
  import opened HeapOrder
  import opened LruLayout
  import CacheOptions
  import S = CacheSpec

  class Cache<K(==), V> {
    var items: map<K, S.Entry<V>>
    var hidx: map<K, int>
    var capacity: int
    var order: seq<K>
    var expHeap: seq<K>
    var closed: bool
    var cleanupInterval: int
    var janitorEnabled: bool

    /** Everything but the capacity bound, which `Set` breaks until it evicts. */
    ghost predicate Coherent()
      reads this`items, this`hidx, this`order, this`expHeap
      reads this`capacity, this`cleanupInterval
    {
      S.Distinct(order)
      && Filed(items, order)
      && HeapOk(items, expHeap, hidx)
      && 1 <= capacity && 0 < cleanupInterval
    }

    ghost predicate Valid()
      reads this`items, this`hidx, this`order, this`expHeap
      reads this`capacity, this`cleanupInterval
    {
      Coherent() && |order| <= capacity
    }

    /** The cache as a value: its entries, recency order, capacity and closed flag. */
    ghost function Model(): S.State<K, V>
      reads this`items, this`order, this`capacity, this`closed
    {
      S.State(items, order, capacity, closed)
    }

    lemma ModelWellFormed()
      requires Valid()
      ensures S.WellFormed(Model())
    {
    }

    // -------------------------------------------------------------------------
    // The recency list (`insertFront`, `removeNodeLocked`, `moveToFront`), as the
    // sequence of keys its `prev`/`next` pointers spell from head to tail

    /** `insertFront`: the node, not on the list, becomes its head. */
    method InsertFront(k: K)
      requires S.Distinct(order) && k !in order
      modifies this`order
      ensures order == [k] + old(order) && S.Distinct(order)
    {
      S.ConsDistinct(k, order);
      order := [k] + order;
    }

    /** `removeNodeLocked`: the node leaves the list; the others keep their order. */
    method RemoveNode(k: K)
      requires S.Distinct(order) && k in order
      modifies this`order
      ensures order == S.Remove(old(order), k) && S.Distinct(order)
      ensures |order| == |old(order)| - 1
    {
      S.RemoveDistinct(order, k);
      S.RemoveLength(order, k);
      order := S.Remove(order, k);
    }

    /** `moveToFront`: the node becomes the head (nothing moves when it already is). */
    method MoveToFront(k: K)
      requires S.Distinct(order) && k in order
      modifies this`order
      ensures order == [k] + S.Remove(old(order), k) && S.Distinct(order)
      ensures |order| == |old(order)|
    {
      S.RemoveLength(order, k);
      if order[0] == k {
        S.RemoveAt(order, 0);
        assert order == [k] + order[1..];
        return;
      }
      RemoveNode(k);
      InsertFront(k);
    }

    // -------------------------------------------------------------------------
    // The expiry heap (`expiryHeap` and the `container/heap` functions it uses)

    /** `expiryHeap.Swap`: two slots trade nodes and each node records its new slot. */
    method Swap(i: int, j: int)
      requires Indexed(items, expHeap, hidx) && 0 <= i < |expHeap| && 0 <= j < |expHeap|
      modifies this`expHeap, this`hidx
      ensures Indexed(items, expHeap, hidx)
      ensures expHeap == old(expHeap)[i := old(expHeap)[j]][j := old(expHeap)[i]]
      ensures Times(items, expHeap) == HeapOrder.Swap(old(Times(items, expHeap)), i, j)
      ensures SameSlots(old(hidx), hidx, {})
    {
      TimesSwap(items, expHeap, i, j);
      ghost var h0 := expHeap;
      expHeap := expHeap[i := expHeap[j]][j := expHeap[i]];
      hidx := hidx[expHeap[i] := i][expHeap[j] := j];
      forall k | k in hidx && 0 <= hidx[k] ensures expHeap[hidx[k]] == k {
        if k != expHeap[i] && k != expHeap[j] {
          assert h0[hidx[k]] == k;
        }
      }
    }

    /** `up`: the node at slot `j0` rises while it expires before its parent. */
    method Up(j0: int, ghost n: int)
      requires Indexed(items, expHeap, hidx) && 0 <= j0 < n <= |expHeap|
      requires UpInv(Times(items, expHeap), n, j0)
      modifies this`expHeap, this`hidx
      ensures Indexed(items, expHeap, hidx) && |expHeap| == |old(expHeap)|
      ensures Ordered(Times(items, expHeap), n)
      ensures forall k :: n <= k < |expHeap| ==> expHeap[k] == old(expHeap)[k]
      ensures SameSlots(old(hidx), hidx, {})
    {
      var j := j0;
      while true
        invariant Indexed(items, expHeap, hidx) && 0 <= j < n && |expHeap| == |old(expHeap)|
        invariant UpInv(Times(items, expHeap), n, j)
        invariant forall k :: n <= k < |expHeap| ==> expHeap[k] == old(expHeap)[k]
        invariant SameSlots(old(hidx), hidx, {})
        decreases j
      {
        // Go's (j - 1) / 2 truncates toward zero, so the root is its own parent.
        ghost var s := Times(items, expHeap);
        var i := if j == 0 then 0 else (j - 1) / 2;
        if i == j || !(items[expHeap[j]].expireAt < items[expHeap[i]].expireAt) {
          UpDone(s, n, j);
          break;
        }
        UpStep(s, n, j);
        Swap(i, j);
        j := i;
      }
    }

    /**
      `down`: the node at slot `i0` sinks below the earlier of its children among the
      first `n` slots while that child expires before it; reports whether it moved.
     */
    method Down(i0: int, n: int) returns (moved: bool)
      requires Indexed(items, expHeap, hidx) && 0 <= i0 <= n <= |expHeap|
      requires i0 < n ==> DownInv(Times(items, expHeap), n, i0, i0)
      modifies this`expHeap, this`hidx
      ensures Indexed(items, expHeap, hidx) && |expHeap| == |old(expHeap)|
      ensures moved ==> Ordered(Times(items, expHeap), n)
      ensures !moved && i0 < n ==> UpInv(Times(items, expHeap), n, i0)
      ensures forall k :: n <= k < |expHeap| ==> expHeap[k] == old(expHeap)[k]
      ensures SameSlots(old(hidx), hidx, {})
    {
      var i := i0;
      while true
        invariant Indexed(items, expHeap, hidx) && i0 <= i && |expHeap| == |old(expHeap)|
        invariant i0 < n ==> i < n && DownInv(Times(items, expHeap), n, i, i0)
        invariant i > i0 ==> i0 < n
        invariant forall k :: n <= k < |expHeap| ==> expHeap[k] == old(expHeap)[k]
        invariant SameSlots(old(hidx), hidx, {})
        decreases n - i
      {
        if 2 * i + 1 >= n {
          if i0 < n {
            DownDone(Times(items, expHeap), n, i, i0);
          }
          break;
        }
        var j := DownRound(i, i0, n);
        if j < 0 {
          break;
        }
        i := j;
      }
      moved := i > i0;
    }

    /**
      The rest of one round of `down`'s loop, at slot `i` with a child below `n`: the
      earlier child `j` is chosen and, when it expires before `i`'s node, the two swap
      and the round returns `j`; otherwise the loop is over and it returns -1.
     */
    method DownRound(i: int, ghost i0: int, n: int) returns (j: int)
      requires Indexed(items, expHeap, hidx) && 0 <= i0 <= i && 2 * i + 1 < n <= |expHeap|
      requires DownInv(Times(items, expHeap), n, i, i0)
      modifies this`expHeap, this`hidx
      ensures Indexed(items, expHeap, hidx) && |expHeap| == |old(expHeap)|
      ensures j < 0 ==> (i > i0 ==> Ordered(Times(items, expHeap), n))
      ensures j < 0 ==> (i == i0 ==> UpInv(Times(items, expHeap), n, i0))
      ensures 0 <= j ==> i < j < n && DownInv(Times(items, expHeap), n, j, i0)
      ensures forall k :: n <= k < |expHeap| ==> expHeap[k] == old(expHeap)[k]
      ensures SameSlots(old(hidx), hidx, {})
    {
      ghost var s := Times(items, expHeap);
      var j1 := 2 * i + 1;
      j := j1;
      var j2 := j1 + 1;
      if j2 < n && items[expHeap[j2]].expireAt < items[expHeap[j1]].expireAt {
        j := j2;
      }
      if !(items[expHeap[j]].expireAt < items[expHeap[i]].expireAt) {
        DownDone(s, n, i, i0);
        return -1;
      }
      DownStep(s, n, i, i0, j);
      Swap(i, j);
    }

    /** The heap's own `Pop`: the last slot is dropped and its node marked out of the heap. */
    method PopLast() returns (x: K)
      requires Indexed(items, expHeap, hidx) && |expHeap| > 0
      modifies this`expHeap, this`hidx
      ensures x == old(expHeap)[|old(expHeap)| - 1]
      ensures expHeap == old(expHeap)[..|old(expHeap)| - 1]
      ensures hidx == old(hidx)[x := -1]
      ensures Indexed(items, expHeap, hidx)
    {
      var n := |expHeap|;
      x := expHeap[n - 1];
      expHeap := expHeap[..n - 1];
      hidx := hidx[x := -1];
    }

    /** `heap.Push` with the heap's own `Push`: the node takes the next slot, then rises. */
    method Push(k: K)
      requires Indexed(items, expHeap, hidx) && Ordered(Times(items, expHeap), |expHeap|)
      requires k in hidx && hidx[k] == -1
      modifies this`expHeap, this`hidx
      ensures Indexed(items, expHeap, hidx) && Ordered(Times(items, expHeap), |expHeap|)
      ensures hidx[k] != -1 && SameSlots(old(hidx), hidx, {k})
    {
      ghost var times := Times(items, expHeap);
      TimesPush(items, expHeap, k);
      PushStart(times, items[k].expireAt);
      hidx := hidx[k := |expHeap|];
      expHeap := expHeap + [k];
      Up(|expHeap| - 1, |expHeap|);
    }

    /**
      The first half of `heap.Remove`: unless `i` is the last slot, the last node takes
      slot `i` and sinks or rises among the other slots; the old node at `i` ends up last.
     */
    method FillFromLast(i: int)
      requires Indexed(items, expHeap, hidx) && Ordered(Times(items, expHeap), |expHeap|)
      requires 0 <= i < |expHeap|
      modifies this`expHeap, this`hidx
      ensures Indexed(items, expHeap, hidx) && |expHeap| == |old(expHeap)|
      ensures Ordered(Times(items, expHeap), |expHeap| - 1)
      ensures expHeap[|expHeap| - 1] == old(expHeap)[i]
      ensures SameSlots(old(hidx), hidx, {})
    {
      var n := |expHeap| - 1;
      if n != i {
        RemoveStart(Times(items, expHeap), i, n);
        Swap(i, n);
        var moved := Down(i, n);
        if !moved {
          Up(i, n);
        }
      }
    }

    /**
      The first half of `heap.Pop`: the last node takes the root's slot and sinks among
      the other slots; the old root ends up last.
     */
    method SinkLast()
      requires Indexed(items, expHeap, hidx) && Ordered(Times(items, expHeap), |expHeap|)
      requires |expHeap| > 0
      modifies this`expHeap, this`hidx
      ensures Indexed(items, expHeap, hidx) && |expHeap| == |old(expHeap)|
      ensures Ordered(Times(items, expHeap), |expHeap| - 1)
      ensures expHeap[|expHeap| - 1] == old(expHeap)[0]
      ensures SameSlots(old(hidx), hidx, {})
    {
      var n := |expHeap| - 1;
      if 0 < n {
        RemoveStart(Times(items, expHeap), 0, n);
      }
      Swap(0, n);
      var moved := Down(0, n);
      if !moved && 0 < n {
        UpDone(Times(items, expHeap), n, 0);
      }
    }

    /** The heap's own `Pop` on a heap whose slots but the last are in order. */
    method DropLast() returns (x: K)
      requires Indexed(items, expHeap, hidx) && |expHeap| > 0
      requires Ordered(Times(items, expHeap), |expHeap| - 1)
      modifies this`expHeap, this`hidx
      ensures x == old(expHeap)[|old(expHeap)| - 1] && hidx == old(hidx)[x := -1]
      ensures Indexed(items, expHeap, hidx) && Ordered(Times(items, expHeap), |expHeap|)
      ensures |expHeap| == |old(expHeap)| - 1
    {
      TimesPrefix(items, expHeap, |expHeap| - 1);
      OrderedPrefix(Times(items, expHeap), |expHeap| - 1);
      x := PopLast();
    }

    /** `heap.Remove`: the last node fills slot `i` and is sifted; the old node at `i` leaves. */
    method Remove(i: int) returns (x: K)
      requires Indexed(items, expHeap, hidx) && Ordered(Times(items, expHeap), |expHeap|)
      requires 0 <= i < |expHeap|
      modifies this`expHeap, this`hidx
      ensures Indexed(items, expHeap, hidx) && Ordered(Times(items, expHeap), |expHeap|)
      ensures x == old(expHeap)[i] && x in hidx && hidx[x] == -1
      ensures SameSlots(old(hidx), hidx, {x})
    {
      FillFromLast(i);
      x := DropLast();
    }

    /** `heap.Pop`: the root leaves; the last node takes its slot and sinks. */
    method Pop() returns (x: K)
      requires Indexed(items, expHeap, hidx) && Ordered(Times(items, expHeap), |expHeap|)
      requires |expHeap| > 0
      modifies this`expHeap, this`hidx
      ensures Indexed(items, expHeap, hidx) && Ordered(Times(items, expHeap), |expHeap|)
      ensures x == old(expHeap)[0] && x in hidx && hidx[x] == -1
      ensures |expHeap| == |old(expHeap)| - 1
      ensures SameSlots(old(hidx), hidx, {x})
    {
      SinkLast();
      x := DropLast();
    }

    /** `heap.Fix`: after slot `i`'s node changed its expiry, sift it down, or else up. */
    method Fix(i: int)
      requires Indexed(items, expHeap, hidx) && 0 <= i < |expHeap|
      requires DownInv(Times(items, expHeap), |expHeap|, i, i)
      modifies this`expHeap, this`hidx
      ensures Indexed(items, expHeap, hidx) && Ordered(Times(items, expHeap), |expHeap|)
      ensures SameSlots(old(hidx), hidx, {})
    {
      var moved := Down(i, |expHeap|);
      if !moved {
        Up(i, |expHeap|);
      }
    }

    /**
      `expiryHeap.remove`: a node whose recorded slot is out of range is left alone;
      otherwise the node at that slot is removed.
     */
    method RemoveFromHeap(k: K)
      requires Indexed(items, expHeap, hidx) && Ordered(Times(items, expHeap), |expHeap|)
      requires k in hidx
      modifies this`expHeap, this`hidx
      ensures Indexed(items, expHeap, hidx) && Ordered(Times(items, expHeap), |expHeap|)
      ensures hidx[k] == -1 && SameSlots(old(hidx), hidx, {k})
    {
      if hidx[k] < 0 || hidx[k] >= |expHeap| {
        return;
      }
      var _ := Remove(hidx[k]);
    }

    // -------------------------------------------------------------------------
    // The cache's operations

    /**
      `New`: the options are applied in order over the defaults, a capacity below 1
      becomes 1 and a non-positive cleanup interval one minute; the cache starts empty.
     */
    constructor (opts: seq<CacheOptions.OptionFn>)
      ensures Valid()
      ensures Model() == S.State(map[], [], CacheOptions.Clamp(CacheOptions.ApplyAll(opts, CacheOptions.Defaults())).capacity, false)
      ensures cleanupInterval == CacheOptions.Clamp(CacheOptions.ApplyAll(opts, CacheOptions.Defaults())).cleanupInterval
      ensures janitorEnabled == CacheOptions.ApplyAll(opts, CacheOptions.Defaults()).enableJanitor
    {
      var o := CacheOptions.ApplyOptions(opts);
      if o.capacity < 1 {
        o := o.(capacity := 1);
      }
      if o.cleanupInterval <= 0 {
        o := o.(cleanupInterval := CacheOptions.Minute);
      }
      items := map[];
      hidx := map[];
      capacity := o.capacity;
      expHeap := [];
      closed := false;
      cleanupInterval := o.cleanupInterval;
      janitorEnabled := o.enableJanitor;
      order := [];
    }

    /**
      The lines `Get`, `Delete` and `evictOldestLocked` share: the node leaves the list
      (`removeNodeLocked`), the map and, when it has a slot, the heap. (The list is
      left last here; the two halves touch disjoint state.)
     */
    method Drop(k: K)
      requires Coherent() && k in items
      modifies this`items, this`hidx, this`order, this`expHeap
      ensures Coherent() && |order| == |old(order)| - 1
      ensures Model() == old(Model()).(entries := old(items) - {k}, recency := S.Remove(old(order), k))
    {
      FiledRemove(items, order, k);
      Forget(k);
      RemoveNode(k);
    }

    /** The map and heap half of `Drop`: the node leaves the heap when it has a slot, and the map. */
    method Forget(k: K)
      requires HeapOk(items, expHeap, hidx) && k in items
      modifies this`items, this`hidx, this`expHeap
      ensures HeapOk(items, expHeap, hidx) && items == old(items) - {k}
    {
      if hidx[k] >= 0 {
        ghost var h0 := hidx;
        RemoveFromHeap(k);
        SlotsKept(items, h0, hidx, k);
      }
      Unfile(items, expHeap, hidx, k);
      items := items - {k};
      hidx := hidx - {k};
    }

    /** `evictOldestLocked`: the tail's entry, the least recently used, is dropped. */
    method EvictOldest()
      requires Coherent()
      modifies this`items, this`hidx, this`order, this`expHeap
      ensures Coherent() && Model() == S.EvictOne(old(Model()))
    {
      if |order| == 0 {
        return;
      }
      var k := order[|order| - 1];
      S.RemoveAt(order, |order| - 1);
      Drop(k);
    }

    /**
      The rewrite inside `Set` of an existing node: it takes the new value, and the heap
      gains, loses or re-sifts the node so that it still holds exactly the nodes with a
      non-zero expiry.
     */
    method Rewrite(k: K, value: V, exp: int)
      requires HeapOk(items, expHeap, hidx) && k in items
      modifies this`items, this`expHeap, this`hidx
      ensures HeapOk(items, expHeap, hidx)
      ensures items == old(items)[k := S.Entry(value, exp)]
    {
      var e := items[k];
      var e1 := S.Entry(value, exp);
      if e.expireAt == 0 && exp != 0 {
        TimesUpdate(items, expHeap, hidx, k, e1);
        items := items[k := e1];
        Push(k);
      } else if e.expireAt != 0 && exp == 0 {
        RemoveFromHeap(k);
        TimesUpdate(items, expHeap, hidx, k, e1);
        items := items[k := e1];
      } else {
        Retime(k, e1);
      }
    }

    /**
      The rest of the rewrite: the node stays in the heap or out of it; when its expiry
      changes while it stays in, `heap.Fix` restores the order from its slot.
     */
    method Retime(k: K, e1: S.Entry<V>)
      requires HeapOk(items, expHeap, hidx) && k in items
      requires items[k].expireAt == 0 <==> e1.expireAt == 0
      modifies this`items, this`expHeap, this`hidx
      ensures HeapOk(items, expHeap, hidx)
      ensures items == old(items)[k := e1]
    {
      var exp := e1.expireAt;
      if items[k].expireAt != exp {
        var slot := hidx[k];
        ghost var times := Times(items, expHeap);
        TimesUpdate(items, expHeap, hidx, k, e1);
        items := items[k := e1];
        if exp != 0 {
          ChangeStart(times, |expHeap|, slot, exp);
          Fix(slot);
        }
      } else {
        TimesUpdate(items, expHeap, hidx, k, e1);
        items := items[k := e1];
      }
    }

    /**
      `Set`: a closed cache ignores it; an existing key takes the new value and expiry
      and moves to the front; a new key is inserted at the front, and the least
      recently used entries are evicted while the cache is over capacity.
     */
    method Set(key: K, value: V, ttl: int, now: nat) returns (err: Option<string>)
      requires Valid()
      modifies this
      ensures Valid() && err == None
      ensures Model() == S.Set(old(Model()), key, value, ttl, now)
    {
      var exp := 0;
      if ttl > 0 {
        exp := now + ttl;
      }
      if closed {
        return None;
      }
      if key in items {
        Update(key, value, exp);
        return None;
      }
      Insert(key, value, exp);
      EvictOverflow();
      err := None;
    }

    /**
      The existing-key half of `Set`: the node takes the value and expiry and moves to
      the front. (The move comes first here; the two touch disjoint state.)
     */
    method Update(key: K, value: V, exp: int)
      requires Valid() && key in items
      modifies this`items, this`hidx, this`order, this`expHeap
      ensures Valid()
      ensures Model() == old(Model()).(entries := old(items)[key := S.Entry(value, exp)],
                                        recency := [key] + S.Remove(old(order), key))
    {
      FiledMove(items, order, key, S.Entry(value, exp));
      MoveToFront(key);
      Rewrite(key, value, exp);
    }

    /**
      The new-key half of `Set` up to the eviction loop: a node outside the heap is
      filed, put at the front, and pushed on the heap when it expires. (The source puts
      it at the front before pushing it; the two touch disjoint state.)
     */
    method Insert(key: K, value: V, exp: int)
      requires Valid() && key !in items
      modifies this`items, this`hidx, this`order, this`expHeap
      ensures Coherent() && |order| <= capacity + 1
      ensures Model() == old(Model()).(entries := old(items)[key := S.Entry(value, exp)],
                                        recency := [key] + old(order))
    {
      FiledCons(items, order, key, S.Entry(value, exp));
      FileOutside(items, expHeap, hidx, key, S.Entry(value, exp));
      items := items[key := S.Entry(value, exp)];
      hidx := hidx[key := -1];
      if exp != 0 {
        Push(key);
      }
      InsertFront(key);
    }

    /** The eviction loop closing `Set`: the least recently used entry goes while over capacity. */
    method EvictOverflow()
      requires Coherent() && |order| <= capacity + 1
      modifies this`items, this`hidx, this`order, this`expHeap
      ensures Valid() && Model() == S.Evict(old(Model()))
    {
      FiledSize(items, order);
      while |items| > capacity
        invariant Coherent() && |order| <= capacity + 1 && |items| == |order|
        invariant S.Evict(Model()) == S.Evict(old(Model()))
        decreases |items|
      {
        EvictOldest();
        FiledSize(items, order);
      }
    }

    /**
      `Get`: a miss on a closed cache or a missing key; an expired entry is dropped and
      missed; otherwise the entry moves to the front and its value is returned.
     */
    method Get(key: K, now: nat) returns (value: Option<V>)
      requires Valid()
      modifies this
      ensures Valid()
      ensures (Model(), value) == S.Get(old(Model()), key, now)
    {
      if closed {
        return None;
      }
      if key !in items {
        return None;
      }
      var e := items[key];
      if e.expireAt != 0 && e.expireAt <= now {
        Drop(key);
        return None;
      }
      Hit(key);
      value := Some(e.value);
    }

    /** The hit half of `Get`: the entry moves to the front and nothing else changes. */
    method Hit(key: K)
      requires Valid() && key in items
      modifies this`order
      ensures Valid()
      ensures Model() == old(Model()).(recency := [key] + S.Remove(old(order), key))
    {
      FiledFront(items, order, key);
      MoveToFront(key);
    }

    /** `Delete`: a closed cache or a missing key is left alone; otherwise the entry is dropped. */
    method Delete(key: K)
      requires Valid()
      modifies this
      ensures Valid() && Model() == S.Delete(old(Model()), key)
    {
      if closed {
        return;
      }
      if key !in items {
        return;
      }
      Drop(key);
    }

    /** `Len`: the number of entries stored, expired or not; never more than the capacity. */
    method Len() returns (n: int)
      requires Valid()
      ensures n == |Model().entries| && n <= Model().capacity
    {
      FiledSize(items, order);
      n := |items|;
    }

    /** `Close`: the cache becomes inert; closing again changes nothing. */
    method Close()
      requires Valid()
      modifies this`closed
      ensures Valid() && Model() == S.Close(old(Model()))
    {
      if closed {
        return;
      }
      closed := true;
    }

    /** `nextExpiryLocked`: the earliest expiry among the entries, or 0 when none expires. */
    method NextExpiry() returns (t: int)
      requires Valid()
      ensures t == 0 <==> forall k :: k in Model().entries ==> Model().entries[k].expireAt == 0
      ensures t != 0 ==> exists k :: k in Model().entries && Model().entries[k].expireAt == t
      ensures forall k :: k in Model().entries && Model().entries[k].expireAt != 0 ==> t <= Model().entries[k].expireAt
    {
      if |expHeap| == 0 {
        EmptyHeap(items, expHeap, hidx);
        return 0;
      }
      RootEarliest(items, expHeap, hidx);
      t := items[expHeap[0]].expireAt;
      assert expHeap[0] in Model().entries;
    }

    /**
      One round of `purgeExpired`'s loop past its check: the root leaves the heap and,
      as it is still in the map, the list and the map.
     */
    method PurgeRoot() returns (x: K)
      requires Coherent() && |expHeap| > 0
      modifies this`items, this`hidx, this`order, this`expHeap
      ensures Coherent() && x == old(expHeap[0]) && |expHeap| == |old(expHeap)| - 1
      ensures x in old(items)
      ensures items == old(items) - {x} && order == S.Remove(old(order), x)
    {
      ghost var h0 := hidx;
      x := Pop();
      SlotsKept(items, h0, hidx, x);
      if x in items {
        RemoveNode(x);
        Unfile(items, expHeap, hidx, x);
        items := items - {x};
        hidx := hidx - {x};
      }
    }

    /**
      The state `purgeExpired`'s loop keeps, starting from `m0`: the keys in `gone` have
      expired and left the map and the list, and nothing else has changed.
     */
    ghost predicate Purging(m0: S.State<K, V>, gone: set<K>, now: int)
      reads this`items, this`hidx, this`order, this`expHeap
      reads this`capacity, this`cleanupInterval, this`closed
    {
      Valid() && capacity == m0.capacity && closed == m0.closed
      && Filed(m0.entries, m0.recency) && gone <= m0.entries.Keys
      && (forall k :: k in gone ==> S.Expired(m0.entries[k], now))
      && items == m0.entries - gone
      && order == S.Keep(m0.recency, m0.entries.Keys - gone)
    }

    /**
      `purgeExpired`: while the heap's root has expired by `now`, it is popped and its
      entry dropped; at the end exactly the expired entries are gone.
     */
    method PurgeExpired(now: int)
      requires Valid()
      modifies this
      ensures Valid() && Model() == S.Purge(old(Model()), now)
    {
      if closed {
        return;
      }
      ghost var m0 := Model();
      ghost var gone: set<K> := {};
      S.KeepAll(m0.recency, m0.entries.Keys);
      assert m0.entries - gone == m0.entries;
      while |expHeap| > 0
        invariant Purging(m0, gone, now)
        decreases |expHeap|
      {
        var root := expHeap[0];
        var e := items[root];
        if e.expireAt > now || e.expireAt == 0 {
          break;
        }
        gone := PurgeStep(now, m0, gone);
      }
      PurgeDone(m0, gone, now);
    }

    /** One round of `purgeExpired`'s loop past its check, with the loop's state carried along. */
    method PurgeStep(now: int, ghost m0: S.State<K, V>, ghost gone: set<K>) returns (ghost gone1: set<K>)
      requires Purging(m0, gone, now) && |expHeap| > 0
      requires S.Expired(items[expHeap[0]], now)
      modifies this`items, this`hidx, this`order, this`expHeap
      ensures Purging(m0, gone1, now) && |expHeap| < old(|expHeap|)
    {
      var x := PurgeRoot();
      S.KeepRemove(m0.recency, m0.entries.Keys - gone, x);
      assert m0.entries.Keys - gone - {x} == m0.entries.Keys - (gone + {x});
      gone1 := gone + {x};
      assert items == m0.entries - gone1;
    }

    /** When the loop stops, the keys gone are exactly the expired ones: the purge is complete. */
    lemma PurgeDone(m0: S.State<K, V>, gone: set<K>, now: int)
      requires Purging(m0, gone, now) && !m0.closed
      requires |expHeap| > 0 ==> !S.Expired(items[expHeap[0]], now)
      ensures Model() == S.Purge(m0, now)
    {
      NoneExpired(items, expHeap, hidx, now);
      PurgedExactly(m0.entries, m0.recency, gone, items, now);
    }
  }
}
