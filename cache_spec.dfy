/**
  What the LRU + TTL cache means, as a value: the entries by key, the keys from most
  to least recently used, the capacity and the closed flag. An expiry time of 0 means
  the entry never expires; times are nanoseconds.
 */
module CacheSpec {
  import opened Wrappers

  datatype Entry<V> = Entry(value: V, expireAt: int)

  datatype State<K, V> = State(
    entries: map<K, Entry<V>>,
    recency: seq<K>,
    capacity: int,
    closed: bool)

  /** An entry is expired once its non-zero expiry time is not after `now`. */
  predicate Expired<V>(e: Entry<V>, now: int) {
    e.expireAt != 0 && e.expireAt <= now
  }

  /** The expiry `Set` computes: none for a non-positive ttl, otherwise `now + ttl`. */
  function ExpiryOf(ttl: int, now: nat): (exp: int)
    ensures exp == 0 <==> ttl <= 0
    ensures exp != 0 ==> exp > now
  {
    if ttl > 0 then now + ttl else 0
  }

  predicate Distinct<T(==)>(s: seq<T>) {
    forall i, j :: 0 <= i < j < |s| ==> s[i] != s[j]
  }

  /** Every key is listed once in recency order, and no more keys than the capacity. */
  predicate WellFormed<K, V>(s: State<K, V>) {
    Distinct(s.recency)
    && (forall k :: k in s.entries ==> k in s.recency)
    && (forall k :: k in s.recency ==> k in s.entries)
    && 1 <= s.capacity
    && |s.recency| <= s.capacity
  }

  /** `s` without `k`. */
  function Remove<T(==)>(s: seq<T>, k: T): (r: seq<T>)
    ensures forall x :: x in r ==> x in s && x != k
    ensures forall x :: x in s && x != k ==> x in r
    ensures |r| <= |s|
    decreases |s|
  {
    if |s| == 0 then []
    else (if s[0] == k then [] else [s[0]]) + Remove(s[1..], k)
  }

  /** `evictOldestLocked`: the least recently used key, the last listed, leaves. */
  function EvictOne<K, V>(s: State<K, V>): (r: State<K, V>)
    ensures |s.recency| > 0 ==> |r.recency| == |s.recency| - 1
    ensures r.closed == s.closed && r.capacity == s.capacity
  {
    if |s.recency| == 0 then s
    else
      var last := s.recency[|s.recency| - 1];
      s.(entries := s.entries - {last}, recency := s.recency[..|s.recency| - 1])
  }

  /** The eviction loop: drop the least recently used key while over capacity. */
  function Evict<K, V>(s: State<K, V>): (r: State<K, V>)
    ensures r.closed == s.closed && r.capacity == s.capacity
    decreases |s.recency|
  {
    if |s.recency| > s.capacity && |s.recency| > 0 then Evict(EvictOne(s))
    else s
  }

  /** `Set`: write the entry and make it the most recent; evict only when the key is new. */
  function Set<K, V>(s: State<K, V>, key: K, value: V, ttl: int, now: nat): State<K, V> {
    if s.closed then s
    else
      var e := Entry(value, ExpiryOf(ttl, now));
      if key in s.entries then
        s.(entries := s.entries[key := e], recency := [key] + Remove(s.recency, key))
      else
        Evict(s.(entries := s.entries[key := e], recency := [key] + s.recency))
  }

  /** `Get`: a live entry's value, made most recent; an expired entry is dropped and missed. */
  function Get<K, V>(s: State<K, V>, key: K, now: int): (State<K, V>, Option<V>) {
    if s.closed || key !in s.entries then (s, None)
    else if Expired(s.entries[key], now) then
      (s.(entries := s.entries - {key}, recency := Remove(s.recency, key)), None)
    else
      (s.(recency := [key] + Remove(s.recency, key)), Some(s.entries[key].value))
  }

  /** `Delete`. */
  function Delete<K, V>(s: State<K, V>, key: K): State<K, V> {
    if s.closed || key !in s.entries then s
    else s.(entries := s.entries - {key}, recency := Remove(s.recency, key))
  }

  /** The keys of `r` whose entries are not expired at `now`, in order. */
  function Live<K, V>(r: seq<K>, entries: map<K, Entry<V>>, now: int): (l: seq<K>)
    ensures |l| <= |r|
    decreases |r|
  {
    if |r| == 0 then []
    else
      (if r[0] in entries && Expired(entries[r[0]], now) then [] else [r[0]])
      + Live(r[1..], entries, now)
  }

  /** `purgeExpired`: drop every expired entry. */
  function Purge<K, V>(s: State<K, V>, now: int): State<K, V> {
    if s.closed then s
    else
      s.(entries := map k | k in s.entries && !Expired(s.entries[k], now) :: s.entries[k],
         recency := Live(s.recency, s.entries, now))
  }

  function Close<K, V>(s: State<K, V>): State<K, V> {
    s.(closed := true)
  }

  // ---------------------------------------------------------------------------
  // Sequence facts

  lemma {:induction false} RemoveDistinct<T>(s: seq<T>, k: T)
    requires Distinct(s)
    ensures Distinct(Remove(s, k))
    decreases |s|
  {
    if |s| > 0 {
      RemoveDistinct(s[1..], k);
      var rest := Remove(s[1..], k);
      if s[0] != k {
        assert s[0] !in rest by {
          assert s[0] !in s[1..];
        }
        var r := [s[0]] + rest;
        forall i, j | 0 <= i < j < |r| ensures r[i] != r[j] {
          if i > 0 {
            assert r[i] == rest[i - 1] && r[j] == rest[j - 1];
          } else {
            assert r[j] in rest;
          }
        }
      }
    }
  }

  /** Removing a key that is listed once shortens the list by one. */
  lemma {:induction false} RemoveLength<T>(s: seq<T>, k: T)
    requires Distinct(s) && k in s
    ensures |Remove(s, k)| == |s| - 1
    decreases |s|
  {
    if s[0] == k {
      assert k !in s[1..];
      RemoveAbsent(s[1..], k);
    } else {
      RemoveLength(s[1..], k);
    }
  }

  lemma {:induction false} RemoveAbsent<T>(s: seq<T>, k: T)
    requires k !in s
    ensures Remove(s, k) == s
    decreases |s|
  {
    if |s| > 0 {
      RemoveAbsent(s[1..], k);
      assert s == [s[0]] + s[1..];
    }
  }

  /** A distinct list has one entry per key. */
  lemma {:induction false} DistinctCardinality<T>(s: seq<T>)
    requires Distinct(s)
    ensures |set x | x in s| == |s|
    decreases |s|
  {
    if |s| > 0 {
      var init := s[..|s| - 1];
      var last := s[|s| - 1];
      DistinctCardinality(init);
      assert (set x | x in s) == (set x | x in init) + {last};
      assert last !in (set x | x in init);
    }
  }

  /** A well-formed state's recency list is as long as its entry map. */
  lemma SizeAgrees<K, V>(s: State<K, V>)
    requires WellFormed(s)
    ensures |s.entries| == |s.recency|
  {
    DistinctCardinality(s.recency);
    assert s.entries.Keys == set x | x in s.recency;
  }

  /** Removing the key at position `i` of a distinct list cuts out exactly that position. */
  lemma {:induction false} RemoveAt<T>(s: seq<T>, i: int)
    requires Distinct(s) && 0 <= i < |s|
    ensures Remove(s, s[i]) == s[..i] + s[i + 1..]
    decreases |s|
  {
    var k := s[i];
    if i == 0 {
      assert k !in s[1..];
      RemoveAbsent(s[1..], k);
    } else {
      var t := s[1..];
      assert Distinct(t) by {
        forall a, b | 0 <= a < b < |t|
          ensures t[a] != t[b]
        {
          assert t[a] == s[a + 1] && t[b] == s[b + 1];
        }
      }
      assert t[i - 1] == k && s[0] != k;
      assert Remove(s, k) == [s[0]] + Remove(t, k);
      RemoveAt(t, i - 1);
      assert s[..i] == [s[0]] + t[..i - 1];
      assert s[i + 1..] == t[i..];
    }
  }

  /** The keys of `r` that are in `keys`, in order. */
  function Keep<K(==)>(r: seq<K>, keys: set<K>): (l: seq<K>)
    ensures |l| <= |r|
    decreases |r|
  {
    if |r| == 0 then []
    else (if r[0] in keys then [r[0]] else []) + Keep(r[1..], keys)
  }

  lemma {:induction false} KeepAll<K>(r: seq<K>, keys: set<K>)
    requires forall k :: k in r ==> k in keys
    ensures Keep(r, keys) == r
    decreases |r|
  {
    if |r| > 0 {
      KeepAll(r[1..], keys);
      assert r == [r[0]] + r[1..];
    }
  }

  /** Dropping a key from the kept set drops it from the kept list. */
  lemma {:induction false} KeepRemove<K>(r: seq<K>, keys: set<K>, k: K)
    ensures Keep(r, keys - {k}) == Remove(Keep(r, keys), k)
    decreases |r|
  {
    if |r| > 0 {
      KeepRemove(r[1..], keys, k);
      var head := if r[0] in keys then [r[0]] else [];
      assert Keep(r, keys) == head + Keep(r[1..], keys);
      RemoveAppend(head, Keep(r[1..], keys), k);
    }
  }

  lemma RemoveAppend<T>(a: seq<T>, b: seq<T>, k: T)
    requires |a| <= 1
    ensures Remove(a + b, k) == Remove(a, k) + Remove(b, k)
  {
    if |a| == 1 {
      assert (a + b)[1..] == b;
    } else {
      assert a + b == b;
    }
  }

  /** Keeping exactly the unexpired keys of `r` is `Live`. */
  lemma {:induction false} KeepLive<K, V>(r: seq<K>, keys: set<K>, entries: map<K, Entry<V>>, now: int)
    requires forall k :: k in r ==> (k in keys <==> !(k in entries && Expired(entries[k], now)))
    ensures Keep(r, keys) == Live(r, entries, now)
    decreases |r|
  {
    if |r| > 0 {
      assert r[0] in r;
      KeepLive(r[1..], keys, entries, now);
    }
  }

  lemma EvictOnce<K, V>(s: State<K, V>)
    requires Distinct(s.recency)
    requires (forall k :: k in s.entries ==> k in s.recency) && (forall k :: k in s.recency ==> k in s.entries)
    requires 1 <= s.capacity && |s.recency| == s.capacity + 1
    ensures var last := s.recency[|s.recency| - 1];
      Evict(s) == s.(entries := s.entries - {last}, recency := s.recency[..|s.recency| - 1])
  {
  }

  // ---------------------------------------------------------------------------
  // Properties of the cache

  /** Putting a key that is not listed in front of a distinct list keeps it distinct. */
  lemma ConsDistinct<T>(x: T, s: seq<T>)
    requires Distinct(s) && x !in s
    ensures Distinct([x] + s)
  {
    var r := [x] + s;
    forall i, j | 0 <= i < j < |r| ensures r[i] != r[j] {
      if i > 0 {
        assert r[i] == s[i - 1] && r[j] == s[j - 1];
      } else {
        assert r[j] in s;
      }
    }
  }

  /** Moving a listed key to the front keeps the list distinct and of the same length. */
  lemma MoveFrontDistinct<T>(s: seq<T>, k: T)
    requires Distinct(s) && k in s
    ensures Distinct([k] + Remove(s, k)) && |[k] + Remove(s, k)| == |s|
  {
    RemoveDistinct(s, k);
    RemoveLength(s, k);
    ConsDistinct(k, Remove(s, k));
  }

  lemma SetNewWellFormed<K, V>(s: State<K, V>, key: K, e: Entry<V>)
    requires WellFormed(s) && key !in s.entries
    ensures WellFormed(Evict(s.(entries := s.entries[key := e], recency := [key] + s.recency)))
  {
    var t := s.(entries := s.entries[key := e], recency := [key] + s.recency);
    ConsDistinct(key, s.recency);
    if |t.recency| == s.capacity + 1 {
      EvictOnce(t);
      var r := Evict(t);
      var last := t.recency[|t.recency| - 1];
      forall k | k in r.recency ensures k in r.entries {
        var i :| 0 <= i < |r.recency| && r.recency[i] == k;
        assert t.recency[i] == k;
      }
      forall k | k in r.entries ensures k in r.recency {
        assert k in t.recency && k != last;
        var i :| 0 <= i < |t.recency| && t.recency[i] == k;
        assert i < |t.recency| - 1;
        assert r.recency[i] == k;
      }
    }
  }

  /** Every `Set` keeps the state well formed: in particular no more entries than the capacity. */
  lemma SetWellFormed<K, V>(s: State<K, V>, key: K, value: V, ttl: int, now: nat)
    requires WellFormed(s)
    ensures WellFormed(Set(s, key, value, ttl, now))
    ensures |Set(s, key, value, ttl, now).entries| <= s.capacity
  {
    if !s.closed {
      var e := Entry(value, ExpiryOf(ttl, now));
      if key in s.entries {
        MoveFrontDistinct(s.recency, key);
      } else {
        SetNewWellFormed(s, key, e);
      }
    }
    SizeAgrees(Set(s, key, value, ttl, now));
  }

  /** `Set` makes the key the most recently used, holding the new value and expiry. */
  lemma SetMostRecent<K, V>(s: State<K, V>, key: K, value: V, ttl: int, now: nat)
    requires WellFormed(s) && !s.closed
    ensures var r := Set(s, key, value, ttl, now);
      |r.recency| > 0 && r.recency[0] == key
      && key in r.entries && r.entries[key] == Entry(value, ExpiryOf(ttl, now))
  {
    var e := Entry(value, ExpiryOf(ttl, now));
    if key !in s.entries {
      var t := s.(entries := s.entries[key := e], recency := [key] + s.recency);
      if |t.recency| > s.capacity {
        EvictOnce(t);
        assert key !in s.recency;
      }
    }
  }

  /**
    Inserting a new key into a full cache evicts exactly the least recently used key, the
    last of the recency list; the others keep their order behind the new key.
   */
  lemma SetEvictsLeastRecent<K, V>(s: State<K, V>, key: K, value: V, ttl: int, now: nat)
    requires WellFormed(s) && !s.closed && key !in s.entries && |s.recency| == s.capacity
    ensures var r := Set(s, key, value, ttl, now);
      var last := s.recency[|s.recency| - 1];
      r.recency == [key] + s.recency[..|s.recency| - 1]
      && r.entries == (s.entries - {last})[key := Entry(value, ExpiryOf(ttl, now))]
  {
    var e := Entry(value, ExpiryOf(ttl, now));
    var t := s.(entries := s.entries[key := e], recency := [key] + s.recency);
    ConsDistinct(key, s.recency);
    EvictOnce(t);
    assert t.recency[..|t.recency| - 1] == [key] + s.recency[..|s.recency| - 1];
    var last := s.recency[|s.recency| - 1];
    assert last != key;
  }

  /** Updating an existing key keeps the same keys, so the length is unchanged. */
  lemma SetExistingKeepsKeys<K, V>(s: State<K, V>, key: K, value: V, ttl: int, now: nat)
    requires WellFormed(s) && key in s.entries
    ensures Set(s, key, value, ttl, now).entries.Keys == s.entries.Keys
    ensures |Set(s, key, value, ttl, now).entries| == |s.entries|
  {
  }

  /** What was set is read back until it expires, unless the cache is closed. */
  lemma SetThenGet<K, V>(s: State<K, V>, key: K, value: V, ttl: int, now: nat, later: int)
    requires WellFormed(s) && !s.closed
    requires ttl <= 0 || later < now + ttl
    ensures Get(Set(s, key, value, ttl, now), key, later).1 == Some(value)
  {
    SetMostRecent(s, key, value, ttl, now);
  }

  /** A `Get` of an entry whose expiry has passed removes the key and misses. */
  lemma GetExpiredRemoves<K, V>(s: State<K, V>, key: K, now: int)
    requires !s.closed && key in s.entries && Expired(s.entries[key], now)
    ensures Get(s, key, now).1 == None
    ensures key !in Get(s, key, now).0.entries && key !in Get(s, key, now).0.recency
    ensures Get(s, key, now).0.entries == s.entries - {key}
  {
  }

  /** A `Get` hit returns the stored value and makes the key the most recently used. */
  lemma GetHitMostRecent<K, V>(s: State<K, V>, key: K, now: int)
    requires WellFormed(s) && !s.closed && key in s.entries && !Expired(s.entries[key], now)
    ensures Get(s, key, now).1 == Some(s.entries[key].value)
    ensures Get(s, key, now).0.recency[0] == key
    ensures Get(s, key, now).0.entries == s.entries
    ensures WellFormed(Get(s, key, now).0)
  {
    MoveFrontDistinct(s.recency, key);
  }

  /** Deleting a missing key changes nothing; after a delete the key is gone. */
  lemma DeleteProperties<K, V>(s: State<K, V>, key: K, now: int)
    requires WellFormed(s)
    ensures key !in s.entries ==> Delete(s, key) == s
    ensures !s.closed ==> key !in Delete(s, key).entries && Get(Delete(s, key), key, now).1 == None
    ensures WellFormed(Delete(s, key))
  {
    if !s.closed && key in s.entries {
      RemoveDistinct(s.recency, key);
      RemoveLength(s.recency, key);
    }
  }

  /** A closed cache is inert: nothing changes it, every read misses, and closing again is a no-op. */
  lemma ClosedInert<K, V>(s: State<K, V>, key: K, value: V, ttl: int, now: nat)
    requires s.closed
    ensures Set(s, key, value, ttl, now) == s
    ensures Get(s, key, now) == (s, None)
    ensures Delete(s, key) == s
    ensures Purge(s, now) == s
    ensures Close(s) == s
  {
  }

  lemma {:induction false} LiveMembers<K, V>(r: seq<K>, entries: map<K, Entry<V>>, now: int)
    ensures forall k :: k in Live(r, entries, now) ==> k in r && !(k in entries && Expired(entries[k], now))
    ensures forall k :: k in r && !(k in entries && Expired(entries[k], now)) ==> k in Live(r, entries, now)
    decreases |r|
  {
    if |r| > 0 {
      LiveMembers(r[1..], entries, now);
      assert r == [r[0]] + r[1..];
    }
  }

  lemma {:induction false} LiveDistinct<K, V>(r: seq<K>, entries: map<K, Entry<V>>, now: int)
    requires Distinct(r)
    ensures Distinct(Live(r, entries, now))
    decreases |r|
  {
    if |r| > 0 {
      LiveDistinct(r[1..], entries, now);
      LiveMembers(r[1..], entries, now);
      var rest := Live(r[1..], entries, now);
      var l := Live(r, entries, now);
      if l != rest {
        assert r[0] !in r[1..];
        forall i, j | 0 <= i < j < |l| ensures l[i] != l[j] {
          if i > 0 {
            assert l[i] == rest[i - 1] && l[j] == rest[j - 1];
          } else {
            assert l[j] in rest;
          }
        }
      }
    }
  }

  /**
    `purgeExpired` drops exactly the entries whose non-zero expiry is not after `now`,
    keeps the others untouched and in recency order, and keeps the state well formed.
   */
  lemma PurgeExact<K, V>(s: State<K, V>, now: int)
    requires WellFormed(s) && !s.closed
    ensures forall k :: k in Purge(s, now).entries ==> k in s.entries && !Expired(s.entries[k], now)
    ensures forall k :: k in s.entries && !Expired(s.entries[k], now) ==> k in Purge(s, now).entries
    ensures forall k :: k in Purge(s, now).entries ==> Purge(s, now).entries[k] == s.entries[k]
    ensures WellFormed(Purge(s, now))
  {
    LiveMembers(s.recency, s.entries, now);
    LiveDistinct(s.recency, s.entries, now);
  }
}
