/**
  The cache's recency list at the level of its pointers. Nodes are named by their
  keys; `links[k]` holds node `k`'s `prev` and `next`, and `head` and `tail` are the
  cache's two ends. `insertFront`, `removeNodeLinks` and `removeNodeLocked` are
  written out statement by statement, and `Linked` says when the pointers spell a
  given key sequence, the view the cache class works with.

  `moveToFront` as written unlinks the node with `removeNodeLinks`, which never moves
  `tail`: moving the tail node to the front leaves `tail` on the new head. The
  corrected `MoveToFront` unlinks with `removeNodeLocked` instead.
 */
module LruLinks {
  import opened Wrappers
  import S = CacheSpec

  /** A node's `prev` and `next` pointers. */
  datatype Links<K> = Links(prev: Option<K>, next: Option<K>)

  datatype List<K> = List(links: map<K, Links<K>>, head: Option<K>, tail: Option<K>)

  /** Every pointer, `head` and `tail` included, names a node. */
  predicate Closed<K>(l: List<K>) {
    (l.head.Some? ==> l.head.value in l.links)
    && (l.tail.Some? ==> l.tail.value in l.links)
    && (forall k :: k in l.links && l.links[k].prev.Some? ==> l.links[k].prev.value in l.links)
    && (forall k :: k in l.links && l.links[k].next.Some? ==> l.links[k].next.value in l.links)
  }

  /** The pointers position `i` of `order` has in a list spelling `order`. */
  function LinksAt<K>(order: seq<K>, i: int): Links<K>
    requires 0 <= i < |order|
  {
    Links(if i == 0 then None else Some(order[i - 1]),
          if i + 1 == |order| then None else Some(order[i + 1]))
  }

  /** Starting at `head` and following `next` visits exactly `order`, and `prev` goes back. */
  ghost predicate Linked<K>(order: seq<K>, l: List<K>) {
    S.Distinct(order)
    && (forall k :: k in order ==> k in l.links)
    && l.head == (if |order| == 0 then None else Some(order[0]))
    && l.tail == (if |order| == 0 then None else Some(order[|order| - 1]))
    && (forall i {:trigger l.links[order[i]]} :: 0 <= i < |order| ==> l.links[order[i]] == LinksAt(order, i))
  }

  /** `n.prev = p` when `at` names node `n`, nothing for nil. */
  function SetPrev<K>(links: map<K, Links<K>>, at: Option<K>, p: Option<K>): (r: map<K, Links<K>>)
    requires at.Some? ==> at.value in links
    ensures r.Keys == links.Keys
    ensures forall k :: k in links && Some(k) != at ==> r[k] == links[k]
    ensures at.Some? ==> r[at.value] == links[at.value].(prev := p)
  {
    if at.Some? then links[at.value := links[at.value].(prev := p)] else links
  }

  /** `n.next = p` when `at` names node `n`, nothing for nil. */
  function SetNext<K>(links: map<K, Links<K>>, at: Option<K>, p: Option<K>): (r: map<K, Links<K>>)
    requires at.Some? ==> at.value in links
    ensures r.Keys == links.Keys
    ensures forall k :: k in links && Some(k) != at ==> r[k] == links[k]
    ensures at.Some? ==> r[at.value] == links[at.value].(next := p)
  {
    if at.Some? then links[at.value := links[at.value].(next := p)] else links
  }

  /** `insertFront`: `n` points at the old head, the old head back at `n`; `n` is the head. */
  function InsertFront<K>(l: List<K>, n: K): (r: List<K>)
    requires Closed(l) && n in l.links
    ensures Closed(r) && r.links.Keys == l.links.Keys
  {
    var links1 := l.links[n := Links(None, l.head)];
    var links2 := SetPrev(links1, l.head, Some(n));
    List(links2, Some(n), if l.tail.None? then Some(n) else l.tail)
  }

  /** `removeNodeLinks`: the neighbours of `n` are joined; `head`, `tail` and `n` stay. */
  function RemoveLinks<K>(l: List<K>, n: K): (r: List<K>)
    requires Closed(l) && n in l.links
    ensures Closed(r) && r.head == l.head && r.tail == l.tail && r.links.Keys == l.links.Keys
  {
    var links1 := SetNext(l.links, l.links[n].prev, l.links[n].next);
    var links2 := SetPrev(links1, links1[n].next, links1[n].prev);
    l.(links := links2)
  }

  /** `removeNodeLocked`: `removeNodeLinks`, then `head` and `tail` step past `n`, whose pointers are cleared. */
  function RemoveNode<K>(l: List<K>, n: K): (r: List<K>)
    requires Closed(l) && n in l.links
    ensures Closed(r) && r.links.Keys == l.links.Keys
  {
    var l1 := RemoveLinks(l, n);
    var head := if l1.head == Some(n) then l1.links[n].next else l1.head;
    var tail := if l1.tail == Some(n) then l1.links[n].prev else l1.tail;
    List(l1.links[n := Links(None, None)], head, tail)
  }

  /** `moveToFront` as written: unlinked with `removeNodeLinks`, then `insertFront`. */
  function MoveToFrontAsWritten<K>(l: List<K>, n: K): (r: List<K>)
    requires Closed(l) && n in l.links
  {
    if l.head == Some(n) then l else InsertFront(RemoveLinks(l, n), n)
  }

  /** `moveToFront` corrected: unlinked with `removeNodeLocked`, then `insertFront`. */
  function MoveToFront<K>(l: List<K>, n: K): (r: List<K>)
    requires Closed(l) && n in l.links
  {
    if l.head == Some(n) then l else InsertFront(RemoveNode(l, n), n)
  }

  // ---------------------------------------------------------------------------
  // The pointer operations against the key sequence they spell

  /** The list spells `order`, every node off the list has both pointers nil, and every pointer names a node. */
  ghost predicate Spells<K>(order: seq<K>, l: List<K>) {
    Linked(order, l)
    && (forall k :: k in l.links && k !in order ==> l.links[k] == Links(None, None))
    && Closed(l)
  }

  /** `insertFront` of a node off the list puts it at the head of the sequence. */
  lemma InsertFrontSpells<K>(order: seq<K>, l: List<K>, n: K)
    requires Spells(order, l) && n in l.links && n !in order
    ensures Spells([n] + order, InsertFront(l, n))
  {
    var o := [n] + order;
    var r := InsertFront(l, n);
    S.ConsDistinct(n, order);
    forall i | 0 <= i < |o|
      ensures r.links[o[i]] == LinksAt(o, i)
    {
      if i == 1 {
        assert l.links[order[0]] == LinksAt(order, 0);
      } else if i > 1 {
        assert o[i] == order[i - 1] && l.links[order[i - 1]] == LinksAt(order, i - 1);
      }
    }
  }

  /**
    `removeNodeLocked` of the node at position `i`: its neighbours point at each other,
    the ends step past it, its own pointers are cleared, and no other node changes.
   */
  lemma RemoveNodeShape<K>(order: seq<K>, l: List<K>, i: int)
    requires Spells(order, l) && 0 <= i < |order|
    ensures (var r := RemoveNode(l, order[i]);
             var p := if i == 0 then None else Some(order[i - 1]);
             var q := if i + 1 == |order| then None else Some(order[i + 1]);
             r.links[order[i]] == Links(None, None)
             && (i > 0 ==> r.links[order[i - 1]] == Links(l.links[order[i - 1]].prev, q))
             && (i + 1 < |order| ==> r.links[order[i + 1]] == Links(p, l.links[order[i + 1]].next))
             && (forall x :: x in l.links && x != order[i] && Some(x) != p && Some(x) != q ==> r.links[x] == l.links[x])
             && r.head == (if i == 0 then q else l.head)
             && r.tail == (if i + 1 == |order| then p else l.tail))
  {
    var n := order[i];
    var ln := l.links[n];
    assert ln == LinksAt(order, i);
    var links1 := SetNext(l.links, ln.prev, ln.next);
    assert links1[n] == ln;
    if i > 0 {
      assert l.links[order[i - 1]] == LinksAt(order, i - 1);
    }
    if i + 1 < |order| {
      assert l.links[order[i + 1]] == LinksAt(order, i + 1);
    }
  }

  /** `removeNodeLocked` of the node at position `i` cuts that position out of the sequence. */
  lemma RemoveNodeSpells<K>(order: seq<K>, l: List<K>, i: int)
    requires Spells(order, l) && 0 <= i < |order|
    ensures Spells(order[..i] + order[i + 1..], RemoveNode(l, order[i]))
  {
    RemoveNodePointwise(order, l, i);
    RemoveNodeEnds(order, l, i);
    RemoveNodeDetached(order, l, i);
    S.RemoveAt(order, i);
    S.RemoveDistinct(order, order[i]);
  }

  /** The ends of the list after `removeNodeLocked` are the ends of the cut sequence. */
  lemma RemoveNodeEnds<K>(order: seq<K>, l: List<K>, i: int)
    requires Spells(order, l) && 0 <= i < |order|
    ensures (var o := order[..i] + order[i + 1..];
             var r := RemoveNode(l, order[i]);
             r.head == (if |o| == 0 then None else Some(o[0]))
             && r.tail == (if |o| == 0 then None else Some(o[|o| - 1])))
  {
    RemoveNodeEndsAt(order, l, i);
    CutEnds(order, i);
  }

  /** The first and last positions of `s` with position `i` cut out. */
  lemma CutEnds<T>(s: seq<T>, i: int)
    requires 0 <= i < |s|
    ensures (var o := s[..i] + s[i + 1..];
             |o| == |s| - 1
             && (|o| > 0 ==> o[0] == (if i == 0 then s[1] else s[0])
                             && o[|o| - 1] == (if i + 1 == |s| then s[i - 1] else s[|s| - 1])))
  {
  }

  /** `removeNodeLocked` moves `head` and `tail` past the node at position `i`, and only them. */
  lemma RemoveNodeEndsAt<K>(order: seq<K>, l: List<K>, i: int)
    requires Spells(order, l) && 0 <= i < |order|
    ensures (var r := RemoveNode(l, order[i]);
             r.head == (if i == 0 then (if i + 1 == |order| then None else Some(order[i + 1])) else l.head)
             && r.tail == (if i + 1 == |order| then (if i == 0 then None else Some(order[i - 1])) else l.tail))
  {
    var n := order[i];
    assert l.links[n] == LinksAt(order, i);
    assert RemoveLinks(l, n).links[n] == l.links[n];
  }

  /** After `removeNodeLocked`, every node off the cut sequence has both pointers nil. */
  lemma RemoveNodeDetached<K>(order: seq<K>, l: List<K>, i: int)
    requires Spells(order, l) && 0 <= i < |order|
    ensures (var o := order[..i] + order[i + 1..];
             var r := RemoveNode(l, order[i]);
             forall k :: k in r.links && k !in o ==> r.links[k] == Links(None, None))
  {
    RemoveNodeShape(order, l, i);
    S.RemoveAt(order, i);
    var n := order[i];
    var o := order[..i] + order[i + 1..];
    var r := RemoveNode(l, n);
    forall k | k in r.links && k !in o
      ensures r.links[k] == Links(None, None)
    {
      if k != n {
        assert k !in order;
        assert i > 0 ==> k != order[i - 1];
        assert i + 1 < |order| ==> k != order[i + 1];
      }
    }
  }

  /** The pointwise half of `RemoveNodeSpells`: each remaining node has its new neighbours. */
  lemma RemoveNodePointwise<K>(order: seq<K>, l: List<K>, i: int)
    requires Spells(order, l) && 0 <= i < |order|
    ensures (var o := order[..i] + order[i + 1..];
             var r := RemoveNode(l, order[i]);
             forall j :: 0 <= j < |o| ==> o[j] in r.links && r.links[o[j]] == LinksAt(o, j))
  {
    var o := order[..i] + order[i + 1..];
    forall j | 0 <= j < |o|
      ensures o[j] in RemoveNode(l, order[i]).links
      ensures RemoveNode(l, order[i]).links[o[j]] == LinksAt(o, j)
    {
      RemoveNodeAt(order, l, i, j);
    }
  }

  /** One remaining node after `removeNodeLocked`, at position `j` of the cut sequence. */
  lemma RemoveNodeAt<K>(order: seq<K>, l: List<K>, i: int, j: int)
    requires Spells(order, l) && 0 <= i < |order| && 0 <= j < |order| - 1
    ensures (var o := order[..i] + order[i + 1..];
             var r := RemoveNode(l, order[i]);
             o[j] in r.links && r.links[o[j]] == LinksAt(o, j))
  {
    RemoveNodeShape(order, l, i);
    CutLinks(order, i, j);
    var k := if j < i then j else j + 1;
    assert l.links[order[k]] == LinksAt(order, k);
    assert order[k] != order[i];
    if i > 0 && k != i - 1 {
      assert order[k] != order[i - 1];
    }
    if i + 1 < |order| && k != i + 1 {
      assert order[k] != order[i + 1];
    }
  }

  /**
    The pointers of position `j` once position `i` is cut out: those of the position
    it came from, except that the two former neighbours of `i` now point at each other.
   */
  lemma CutLinks<T>(s: seq<T>, i: int, j: int)
    requires 0 <= i < |s| && 0 <= j < |s| - 1
    ensures (var o := s[..i] + s[i + 1..];
             var k := if j < i then j else j + 1;
             var p := if i == 0 then None else Some(s[i - 1]);
             var q := if i + 1 == |s| then None else Some(s[i + 1]);
             |o| == |s| - 1 && o[j] == s[k]
             && LinksAt(o, j) == Links(if k == i + 1 then p else LinksAt(s, k).prev,
                                       if k == i - 1 then q else LinksAt(s, k).next))
  {
    CutAt(s, i, j);
    if j > 0 {
      CutAt(s, i, j - 1);
    }
    if j + 1 < |s| - 1 {
      CutAt(s, i, j + 1);
    }
  }

  /** Position `j` of `s` with position `i` cut out. */
  lemma CutAt<T>(s: seq<T>, i: int, j: int)
    requires 0 <= i < |s| && 0 <= j < |s| - 1
    ensures |s[..i] + s[i + 1..]| == |s| - 1
    ensures (s[..i] + s[i + 1..])[j] == if j < i then s[j] else s[j + 1]
  {
  }

  /** The corrected `moveToFront` makes the node the head and keeps the others in order. */
  lemma MoveToFrontSpells<K>(order: seq<K>, l: List<K>, n: K)
    requires Spells(order, l) && n in order
    ensures Spells([n] + S.Remove(order, n), MoveToFront(l, n))
  {
    if l.head == Some(n) {
      MoveHeadSpells(order, l, n);
    } else {
      MoveInnerSpells(order, l, n);
    }
  }

  /** The head stays where it is. */
  lemma MoveHeadSpells<K>(order: seq<K>, l: List<K>, n: K)
    requires Spells(order, l) && n in order && l.head == Some(n)
    ensures Spells([n] + S.Remove(order, n), MoveToFront(l, n))
  {
    assert order[0] == n;
    S.RemoveAt(order, 0);
    assert order[..0] + order[1..] == order[1..];
    var m := [n] + S.Remove(order, n);
    assert m == order;
  }

  /** A node other than the head is cut out and put back in front. */
  lemma MoveInnerSpells<K>(order: seq<K>, l: List<K>, n: K)
    requires Spells(order, l) && n in order && l.head != Some(n)
    ensures Spells([n] + S.Remove(order, n), MoveToFront(l, n))
  {
    var i :| 0 <= i < |order| && order[i] == n;
    RemoveNodeSpells(order, l, i);
    S.RemoveAt(order, i);
    InsertFrontSpells(order[..i] + order[i + 1..], RemoveNode(l, n), n);
  }

  /**
    `moveToFront` as written, on the tail node of a list of two or more: the node is
    the new head, `tail` still names it although it now has a successor, and so the
    list no longer spells the intended order.
   */
  lemma StaleTail<K>(order: seq<K>, l: List<K>)
    requires Spells(order, l) && |order| >= 2
    ensures (var n := order[|order| - 1];
             var r := MoveToFrontAsWritten(l, n);
             r.head == Some(n) && r.tail == Some(n) && r.links[n].next == Some(order[0])
             && !Linked([n] + S.Remove(order, n), r))
  {
    var m := |order| - 1;
    var n := order[m];
    assert l.links[order[m]] == LinksAt(order, m);
    assert l.links[order[m - 1]] == LinksAt(order, m - 1);
    S.RemoveAt(order, m);
    assert ([n] + S.Remove(order, n))[m] == order[m - 1];
  }

  /** Away from the tail, `moveToFront` as written and corrected agree. */
  lemma AsWrittenOffTail<K>(order: seq<K>, l: List<K>, n: K)
    requires Spells(order, l) && n in order && l.tail != Some(n)
    ensures MoveToFrontAsWritten(l, n) == MoveToFront(l, n)
  {
    if l.head != Some(n) {
      var l1 := RemoveLinks(l, n);
      var l2 := RemoveNode(l, n);
      assert l2.head == l1.head && l2.tail == l1.tail;
      assert l2.links[n := Links(None, l2.head)] == l1.links[n := Links(None, l2.head)];
    }
  }

  /** Three nodes, none on the list yet. */
  function Nodes(): (l: List<int>)
    ensures Closed(l) && l.links.Keys == {1, 2, 3} && l.head == None && l.tail == None
  {
    List(map[1 := Links(None, None), 2 := Links(None, None), 3 := Links(None, None)], None, None)
  }

  /**
    With capacity 2: `Set(1)`, `Set(2)`, a `Get(1)` hit, then `Set(3)`. Before the
    eviction, the list as written has `tail` on node 1, the key just read, so
    `evictOldestLocked` drops it; corrected, `tail` is on node 2.
   */
  lemma ReadThenInsert()
    ensures (var l2 := InsertFront(InsertFront(Nodes(), 1), 2);
             InsertFront(MoveToFrontAsWritten(l2, 1), 3).tail == Some(1)
             && InsertFront(MoveToFront(l2, 1), 3).tail == Some(2))
  {
    var l2 := TwoInserted();
    StaleTail([2, 1], l2);
    MoveToFrontSpells([2, 1], l2, 1);
    assert S.Remove([2, 1], 1) == [2] by {
      assert S.Remove([1], 1) == [];
    }
  }

  /** After `Set(1)` and `Set(2)` the list spells [2, 1]. */
  lemma TwoInserted() returns (l2: List<int>)
    ensures l2 == InsertFront(InsertFront(Nodes(), 1), 2)
    ensures Spells([2, 1], l2)
  {
    var l0 := Nodes();
    assert Spells([], l0);
    InsertFrontSpells([], l0, 1);
    assert [1] + [] == [1];
    InsertFrontSpells([1], InsertFront(l0, 1), 2);
    l2 := InsertFront(InsertFront(l0, 1), 2);
  }

  /** The same operations on the cache's meaning keep 1, the key just read, and drop 2. */
  lemma ReadThenInsertMeaning(v: int, now: nat)
    ensures (var s0 := S.State(map[], [], 2, false);
             var s2 := S.Set(S.Set(s0, 1, v, 0, now), 2, v, 0, now);
             var s3 := S.Set(S.Get(s2, 1, now).0, 3, v, 0, now);
             s3.entries.Keys == {1, 3} && s3.recency == [3, 1])
  {
    var e := S.Entry(v, 0);
    assert S.ExpiryOf(0, now) == 0;
    var s1 := S.Set(S.State(map[], [], 2, false), 1, v, 0, now);
    assert s1 == S.State(map[1 := e], [1], 2, false);
    var s2 := S.Set(s1, 2, v, 0, now);
    assert s2 == S.State(map[1 := e, 2 := e], [2, 1], 2, false);
    assert S.Remove([2, 1], 1) == [2] by {
      assert S.Remove([1], 1) == [];
    }
    var g := S.Get(s2, 1, now).0;
    assert g == S.State(map[1 := e, 2 := e], [1, 2], 2, false);
    var full := S.State(map[1 := e, 2 := e, 3 := e], [3, 1, 2], 2, false);
    assert 3 !in g.entries;
    assert [3] + g.recency == [3, 1, 2];
    assert S.Set(g, 3, v, 0, now) == S.Evict(full);
    var s3 := S.State(map[1 := e, 3 := e], [3, 1], 2, false);
    assert S.EvictOne(full) == s3 by {
      assert full.recency[..2] == [3, 1];
      assert full.entries - {2} == s3.entries;
    }
    assert S.Evict(s3) == s3;
  }
}
