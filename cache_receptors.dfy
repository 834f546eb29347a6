/**
  The receptor cache refresher: its configuration check, its started flag, and the job
  that copies each group's mobile numbers into the LRU cache under "mobiles_" and the
  group's name, with no expiry. The group repository's answer is given by the caller;
  the cache is the `LruCache.Cache` the service is built with.
 */
module CacheReceptors {
  import opened Wrappers
  import S = CacheSpec
  import LruCache

  datatype Config = Config(startAt: int, interval: int, workers: int, queueSize: int)

  /** A receptor group with its members' mobile numbers. */
  datatype GroupWithMobiles = GroupWithMobiles(groupId: string, groupName: string, mobiles: seq<string>)

  type MobileCache = S.State<string, seq<string>>

  /** The cache key of a group's mobiles. */
  function Key(groupName: string): (k: string)
    ensures |k| == |groupName| + 8 && k[..8] == "mobiles_" && k[8..] == groupName
  {
    "mobiles_" + groupName
  }

  class Refresher {
    const cache: LruCache.Cache<string, seq<string>>
    var conf: Config
    var started: bool
    /** The capacity of `taskCh`. */
    var queueCapacity: int

    constructor (cache: LruCache.Cache<string, seq<string>>, conf: Config)
      ensures this.cache == cache && this.conf == conf && !started && queueCapacity == conf.queueSize
    {
      this.cache := cache;
      this.conf := conf;
      this.started := false;
      this.queueCapacity := conf.queueSize;
    }

    /** `Start`: refused while started; otherwise started, with a fresh task queue. */
    method Start() returns (err: Option<string>)
      modifies this`started, this`queueCapacity
      ensures old(started) ==> (err == Some("scheduler already started") && started
                                && queueCapacity == old(queueCapacity))
      ensures !old(started) ==> err.None? && started && queueCapacity == conf.queueSize
    {
      if started {
        return Some("scheduler already started");
      }
      started := true;
      queueCapacity := conf.queueSize;
      err := None;
    }

    /** `Stop`: always succeeds; the scheduler is stopped afterwards and may start again. */
    method Stop() returns (err: Option<string>)
      modifies this`started
      ensures err.None? && !started
    {
      if !started {
        return None;
      }
      started := false;
      err := None;
    }

    /**
      `setMobilesOnCache`: a repository error leaves the cache alone; otherwise each
      group's key is deleted and set again with ttl 0, in the repository's order.
     */
    method SetMobilesOnCache(groups: Result<seq<GroupWithMobiles>, string>, now: nat)
      requires cache.Valid()
      modifies cache
      ensures cache.Valid()
      ensures groups.Err? ==> cache.Model() == old(cache.Model())
      ensures groups.Ok? ==> cache.Model() == Refreshed(old(cache.Model()), groups.value, now)
    {
      if groups.Err? {
        return;
      }
      var gn := groups.value;
      var i := 0;
      while i < |gn|
        invariant 0 <= i <= |gn|
        invariant cache.Valid()
        invariant cache.Model() == Refreshed(old(cache.Model()), gn[..i], now)
      {
        assert gn[..i + 1][..i] == gn[..i];
        var group := gn[i];
        cache.Delete(Key(group.groupName));
        var err := cache.Set(Key(group.groupName), group.mobiles, 0, now);
        i := i + 1;
      }
      assert gn[..i] == gn;
    }
  }

  /**
    `NewCacheReceptorsScheduler`: the interval and the worker count are checked, then a
    non-positive queue size becomes the worker count before the configuration is stored.
   */
  method NewCacheReceptorsScheduler(cache: LruCache.Cache<string, seq<string>>, config: Config)
    returns (r: Result<Refresher, string>)
    ensures config.interval <= 0 ==> r == Err("interval must be > 0")
    ensures config.interval > 0 && config.workers < 1 ==> r == Err("workers must be >= 1")
    ensures r.Ok? <==> config.interval > 0 && config.workers >= 1
    ensures r.Ok? ==> (fresh(r.value) && r.value.cache == cache && !r.value.started
                       && r.value.conf == StoredConfig(config)
                       && r.value.queueCapacity == r.value.conf.queueSize)
  {
    if config.interval <= 0 {
      return Err("interval must be > 0");
    }
    if config.workers < 1 {
      return Err("workers must be >= 1");
    }
    var conf := config;
    if conf.queueSize <= 0 {
      conf := conf.(queueSize := conf.workers);
    }
    var s := new Refresher(cache, conf);
    r := Ok(s);
  }

  /** The configuration stored: a non-positive queue size is replaced by the worker count. */
  function StoredConfig(config: Config): (c: Config)
    ensures c.startAt == config.startAt && c.interval == config.interval && c.workers == config.workers
    ensures config.queueSize > 0 ==> c.queueSize == config.queueSize
    ensures config.queueSize <= 0 ==> c.queueSize == config.workers
  {
    if config.queueSize <= 0 then config.(queueSize := config.workers) else config
  }

  /** A valid configuration leaves a positive queue size. */
  lemma StoredQueuePositive(config: Config)
    requires config.workers >= 1
    ensures StoredConfig(config).queueSize >= 1
  {
  }

  // ---------------------------------------------------------------------------
  // What a refresh leaves in the cache

  /** One group: its key deleted, then set with no expiry. */
  function Refresh(s: MobileCache, g: GroupWithMobiles, now: nat): MobileCache {
    S.Set(S.Delete(s, Key(g.groupName)), Key(g.groupName), g.mobiles, 0, now)
  }

  /** The groups in order. */
  function Refreshed(s: MobileCache, groups: seq<GroupWithMobiles>, now: nat): MobileCache
    decreases |groups|
  {
    if |groups| == 0 then s
    else Refresh(Refreshed(s, groups[..|groups| - 1], now), groups[|groups| - 1], now)
  }

  /** The mobiles of the last group in `groups` whose key is `k`. */
  function LastFor(groups: seq<GroupWithMobiles>, k: string): (r: Option<seq<string>>)
    ensures r.Some? ==> exists i :: 0 <= i < |groups| && Key(groups[i].groupName) == k && groups[i].mobiles == r.value
    ensures r.None? ==> forall i :: 0 <= i < |groups| ==> Key(groups[i].groupName) != k
    decreases |groups|
  {
    if |groups| == 0 then None
    else
      var last := groups[|groups| - 1];
      if Key(last.groupName) == k then Some(last.mobiles)
      else LastFor(groups[..|groups| - 1], k)
  }

  lemma DeleteWellFormed(s: MobileCache, k: string)
    requires S.WellFormed(s)
    ensures S.WellFormed(S.Delete(s, k))
  {
    if !s.closed && k in s.entries {
      S.RemoveDistinct(s.recency, k);
    }
  }

  /** Eviction only drops entries; what stays is unchanged. */
  lemma {:induction false} EvictKeeps(s: MobileCache)
    ensures forall k :: k in S.Evict(s).entries ==> k in s.entries && S.Evict(s).entries[k] == s.entries[k]
    decreases |s.recency|
  {
    if |s.recency| > s.capacity && |s.recency| > 0 {
      EvictKeeps(S.EvictOne(s));
    }
  }

  /**
    One group's refresh on an open cache: its key holds its mobiles with no expiry and
    is the most recent; every other key left was there before, unchanged.
   */
  lemma RefreshEntries(s: MobileCache, g: GroupWithMobiles, now: nat)
    requires S.WellFormed(s) && !s.closed
    ensures var r := Refresh(s, g, now);
      S.WellFormed(r) && !r.closed && r.capacity == s.capacity
      && Key(g.groupName) in r.entries && r.entries[Key(g.groupName)] == S.Entry(g.mobiles, 0)
      && |r.recency| > 0 && r.recency[0] == Key(g.groupName)
      && forall k :: k in r.entries && k != Key(g.groupName) ==> k in s.entries && r.entries[k] == s.entries[k]
  {
    var k0 := Key(g.groupName);
    var d := S.Delete(s, k0);
    DeleteWellFormed(s, k0);
    S.SetWellFormed(d, k0, g.mobiles, 0, now);
    S.SetMostRecent(d, k0, g.mobiles, 0, now);
    EvictKeeps(d.(entries := d.entries[k0 := S.Entry(g.mobiles, 0)], recency := [k0] + d.recency));
  }

  /**
    After a refresh of an open cache, every key of a refreshed group that is still cached
    holds the mobiles of the last group with that key, with no expiry; every other key
    still cached holds what it held before.
   */
  lemma {:induction false} RefreshedEntries(s: MobileCache, groups: seq<GroupWithMobiles>, now: nat)
    requires S.WellFormed(s) && !s.closed
    ensures var r := Refreshed(s, groups, now);
      S.WellFormed(r) && !r.closed && r.capacity == s.capacity
      && (forall k :: k in r.entries && LastFor(groups, k).Some? ==> r.entries[k] == S.Entry(LastFor(groups, k).value, 0))
      && (forall k :: k in r.entries && LastFor(groups, k).None? ==> k in s.entries && r.entries[k] == s.entries[k])
    decreases |groups|
  {
    if |groups| > 0 {
      var init := groups[..|groups| - 1];
      var g := groups[|groups| - 1];
      RefreshedEntries(s, init, now);
      var p := Refreshed(s, init, now);
      RefreshEntries(p, g, now);
    }
  }

  /** The last group refreshed is cached, most recent, with its mobiles and no expiry. */
  lemma LastGroupCached(s: MobileCache, groups: seq<GroupWithMobiles>, now: nat)
    requires S.WellFormed(s) && !s.closed && |groups| > 0
    ensures var r := Refreshed(s, groups, now);
      var k := Key(groups[|groups| - 1].groupName);
      k in r.entries && r.entries[k] == S.Entry(groups[|groups| - 1].mobiles, 0)
      && |r.recency| > 0 && r.recency[0] == k
  {
    RefreshedEntries(s, groups[..|groups| - 1], now);
    RefreshEntries(Refreshed(s, groups[..|groups| - 1], now), groups[|groups| - 1], now);
  }

  /** A closed cache is left as it is. */
  lemma {:induction false} ClosedUntouched(s: MobileCache, groups: seq<GroupWithMobiles>, now: nat)
    requires s.closed
    ensures Refreshed(s, groups, now) == s
    decreases |groups|
  {
    if |groups| > 0 {
      ClosedUntouched(s, groups[..|groups| - 1], now);
    }
  }
}
