/**
  The ordering facts behind the cache's expiry heap, stated over the sequence of
  expiry times the heap slots hold: the binary min-heap property, the partially
  repaired states the `container/heap` sift-up and sift-down loops pass through, and
  the step lemmas those loops use.
 */
module HeapOrder {

  /** The parent slot of slot `c`. */
  function Parent(c: int): int
    requires c > 0
  {
    (c - 1) / 2
  }

  function Swap(s: seq<int>, i: int, j: int): (r: seq<int>)
    requires 0 <= i < |s| && 0 <= j < |s|
    ensures |r| == |s| && r[i] == s[j] && r[j] == s[i]
    ensures forall k :: 0 <= k < |s| && k != i && k != j ==> r[k] == s[k]
  {
    s[i := s[j]][j := s[i]]
  }

  /** Every slot below `n` holds a time no earlier than its parent's. */
  predicate Ordered(s: seq<int>, n: int)
    requires n <= |s|
  {
    forall c {:trigger Parent(c)} :: 0 < c < n ==> s[Parent(c)] <= s[c]
  }

  /**
    The state sift-up works in: every edge below `n` is in order except the one above
    slot `j`, and `j`'s parent is no later than `j`'s children.
   */
  predicate UpInv(s: seq<int>, n: int, j: int)
    requires 0 <= j < n <= |s|
  {
    (forall c {:trigger Parent(c)} :: 0 < c < n && c != j ==> s[Parent(c)] <= s[c])
    && (j > 0 ==> forall c {:trigger Parent(c)} :: 0 < c < n && Parent(c) == j ==> s[Parent(j)] <= s[c])
  }

  /**
    The state sift-down works in, sifting from `i0` and now at `i`: every edge below
    `n` is in order except those below `i` and, while nothing has moved, the one above
    `i0`; and `i`'s parent is no later than `i`'s children.
   */
  predicate DownInv(s: seq<int>, n: int, i: int, i0: int)
    requires 0 <= i0 <= i < n <= |s|
  {
    (forall c {:trigger Parent(c)} :: 0 < c < n && Parent(c) != i && !(c == i0 && i == i0) ==> s[Parent(c)] <= s[c])
    && (i > 0 ==> forall c {:trigger Parent(c)} :: 0 < c < n && Parent(c) == i ==> s[Parent(i)] <= s[c])
  }

  /** One swap of sift-up keeps its state, one level higher. */
  lemma UpStep(s: seq<int>, n: int, j: int)
    requires 0 < j < n <= |s| && UpInv(s, n, j) && s[j] < s[Parent(j)]
    ensures UpInv(Swap(s, Parent(j), j), n, Parent(j))
  {
    var p := Parent(j);
    var r := Swap(s, p, j);
    forall c | 0 < c < n && c != p
      ensures r[Parent(c)] <= r[c]
    {
      if c == j {
      } else if Parent(c) == j {
        assert s[p] <= s[c];
      } else if Parent(c) == p {
        assert s[p] <= s[c];
      } else {
        assert s[Parent(c)] <= s[c];
      }
    }
    if p > 0 {
      forall c | 0 < c < n && Parent(c) == p
        ensures r[Parent(p)] <= r[c]
      {
        assert s[Parent(p)] <= s[p];
        if c != j {
          assert s[p] <= s[c];
        }
      }
    }
  }

  /** Sift-up stops at the root or below a parent no later than itself: the heap is whole. */
  lemma UpDone(s: seq<int>, n: int, j: int)
    requires 0 <= j < n <= |s| && UpInv(s, n, j)
    requires j == 0 || s[Parent(j)] <= s[j]
    ensures Ordered(s, n)
  {
  }

  /** One swap of sift-down with the earlier child keeps its state, one level lower. */
  lemma DownStep(s: seq<int>, n: int, i: int, i0: int, j: int)
    requires 0 <= i0 <= i < n <= |s| && DownInv(s, n, i, i0)
    requires j < n && (j == 2 * i + 1 || j == 2 * i + 2)
    requires j == 2 * i + 2 ==> s[j] < s[j - 1]
    requires j == 2 * i + 1 && j + 1 < n ==> s[j] <= s[j + 1]
    requires s[j] < s[i]
    ensures DownInv(Swap(s, i, j), n, j, i0)
  {
    var r := Swap(s, i, j);
    var sib := if j == 2 * i + 1 then j + 1 else j - 1;
    assert Parent(j) == i;
    forall c | 0 < c < n && Parent(c) != j && !(c == i0 && j == i0)
      ensures r[Parent(c)] <= r[c]
    {
      if c == j {
      } else if c == i {
        assert s[Parent(i)] <= s[j];
      } else if Parent(c) == i {
        assert c == sib;
      } else {
        assert s[Parent(c)] <= s[c];
      }
    }
    forall c | 0 < c < n && Parent(c) == j
      ensures r[Parent(j)] <= r[c]
    {
    }
  }

  /**
    Sift-down stops when no child below `n` is earlier: if it moved, the heap is whole;
    if not, only the edge above `i0` may be out of order, as sift-up expects.
   */
  lemma DownDone(s: seq<int>, n: int, i: int, i0: int)
    requires 0 <= i0 <= i < n <= |s| && DownInv(s, n, i, i0)
    requires 2 * i + 1 < n ==> s[i] <= s[2 * i + 1]
    requires 2 * i + 2 < n ==> s[i] <= s[2 * i + 2]
    ensures i > i0 ==> Ordered(s, n)
    ensures i == i0 ==> UpInv(s, n, i0)
  {
    forall c | 0 < c < n && Parent(c) == i
      ensures s[i] <= s[c]
    {
      assert c == 2 * i + 1 || c == 2 * i + 2;
    }
  }

  /** A whole heap is in sift-up's state for its last slot, so a pushed slot can rise. */
  lemma PushStart(s: seq<int>, x: int)
    requires Ordered(s, |s|)
    ensures UpInv(s + [x], |s| + 1, |s|)
  {
    var r := s + [x];
    forall c | 0 < c < |s| + 1 && c != |s|
      ensures r[Parent(c)] <= r[c]
    {
      assert s[Parent(c)] <= s[c];
    }
  }

  /** A whole heap whose slot `i` gets any new time is in sift-down's state at `i`. */
  lemma ChangeStart(s: seq<int>, n: int, i: int, x: int)
    requires 0 <= i < n <= |s| && Ordered(s, n)
    ensures DownInv(s[i := x], n, i, i)
  {
    var r := s[i := x];
    forall c | 0 < c < n && Parent(c) != i && c != i
      ensures r[Parent(c)] <= r[c]
    {
      assert s[Parent(c)] <= s[c];
    }
    if i > 0 {
      forall c | 0 < c < n && Parent(c) == i
        ensures r[Parent(i)] <= r[c]
      {
        assert s[Parent(i)] <= s[i] <= s[c];
      }
    }
  }

  /**
    Swapping slot `i` with the last slot `m` and then leaving the last slot out puts a
    whole heap into sift-down's state at `i` over the first `m` slots.
   */
  lemma RemoveStart(s: seq<int>, i: int, m: int)
    requires 0 <= i < m && m + 1 == |s| && Ordered(s, |s|)
    ensures DownInv(Swap(s, i, m), m, i, i)
  {
    var r := Swap(s, i, m);
    forall c | 0 < c < m && Parent(c) != i && c != i
      ensures r[Parent(c)] <= r[c]
    {
      assert s[Parent(c)] <= s[c];
    }
    if i > 0 {
      forall c | 0 < c < m && Parent(c) == i
        ensures r[Parent(i)] <= r[c]
      {
        assert s[Parent(i)] <= s[i] <= s[c];
      }
    }
  }

  /** The earliest time sits at the root of a whole heap. */
  lemma {:induction false} RootIsMin(s: seq<int>, n: int, k: int)
    requires 0 <= k < n <= |s| && Ordered(s, n)
    ensures s[0] <= s[k]
    decreases k
  {
    if k > 0 {
      RootIsMin(s, n, Parent(k));
    }
  }

  /** Dropping the slots from `n` on leaves a whole heap whole. */
  lemma OrderedPrefix(s: seq<int>, n: int)
    requires 0 <= n <= |s| && Ordered(s, n)
    ensures Ordered(s[..n], n)
  {
  }
}
