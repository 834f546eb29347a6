/**
  The cache's construction options: the defaults, the three option constructors and
  the in-order application `New` performs before it clamps the result. Durations are
  nanoseconds, as in Go's `time.Duration`.
 */
module CacheOptions {

  const Minute: int := 60_000_000_000
  const DefaultCapacity: int := 1024

  datatype Options = Options(capacity: int, cleanupInterval: int, enableJanitor: bool)

  /** An option: what the closure returned by `WithCapacity`, `WithCleanupInterval` or `WithJanitor` writes. */
  datatype OptionFn =
    | WithCapacity(n: int)
    | WithCleanupInterval(d: int)
    | WithJanitor(enable: bool)

  /** `defaultOptions`. */
  function Defaults(): (o: Options)
    ensures o.capacity == 1024 && o.cleanupInterval == Minute && o.enableJanitor
  {
    Options(DefaultCapacity, Minute, true)
  }

  /** Running one option's closure on `*Options`: exactly its own field is written. */
  function Apply(fn: OptionFn, o: Options): (r: Options)
    ensures fn.WithCapacity? ==> r == o.(capacity := fn.n)
    ensures fn.WithCleanupInterval? ==> r == o.(cleanupInterval := fn.d)
    ensures fn.WithJanitor? ==> r == o.(enableJanitor := fn.enable)
  {
    match fn
    case WithCapacity(n) => o.(capacity := n)
    case WithCleanupInterval(d) => o.(cleanupInterval := d)
    case WithJanitor(enable) => o.(enableJanitor := enable)
  }

  /** The options after applying `opts` in order to `o`. */
  function ApplyAll(opts: seq<OptionFn>, o: Options): Options
    decreases |opts|
  {
    if |opts| == 0 then o else Apply(opts[|opts| - 1], ApplyAll(opts[..|opts| - 1], o))
  }

  /** The loop at the head of `New`: each option runs on the same value, in order. */
  method ApplyOptions(opts: seq<OptionFn>) returns (o: Options)
    ensures o == ApplyAll(opts, Defaults())
  {
    o := Defaults();
    for i := 0 to |opts|
      invariant o == ApplyAll(opts[..i], Defaults())
    {
      assert opts[..i + 1][..i] == opts[..i];
      o := Apply(opts[i], o);
    }
    assert opts[..|opts|] == opts;
  }

  /** The value of the capacity field after a sequence of options. */
  function LastCapacity(opts: seq<OptionFn>, dflt: int): int
    decreases |opts|
  {
    if |opts| == 0 then dflt
    else if opts[|opts| - 1].WithCapacity? then opts[|opts| - 1].n
    else LastCapacity(opts[..|opts| - 1], dflt)
  }

  /**
    Options are applied in order: the capacity is the one named by the last
    `WithCapacity`, or the default when there is none; the other options leave it alone.
   */
  lemma {:induction false} CapacityIsLastWritten(opts: seq<OptionFn>, o: Options)
    ensures ApplyAll(opts, o).capacity == LastCapacity(opts, o.capacity)
    decreases |opts|
  {
    if |opts| > 0 {
      CapacityIsLastWritten(opts[..|opts| - 1], o);
    }
  }

  /** A later option overrides an earlier one on the same field. */
  lemma LaterOverrides(opts: seq<OptionFn>, o: Options, n: int, d: int, b: bool)
    ensures ApplyAll(opts + [WithCapacity(n)], o).capacity == n
    ensures ApplyAll(opts + [WithCleanupInterval(d)], o).cleanupInterval == d
    ensures ApplyAll(opts + [WithJanitor(b)], o).enableJanitor == b
  {
    assert (opts + [WithCapacity(n)])[..|opts|] == opts;
    assert (opts + [WithCleanupInterval(d)])[..|opts|] == opts;
    assert (opts + [WithJanitor(b)])[..|opts|] == opts;
  }

  /** The settings `New` keeps: capacity below 1 becomes 1, a non-positive interval one minute. */
  function Clamp(o: Options): (r: Options)
    ensures r.capacity >= 1 && r.cleanupInterval > 0 && r.enableJanitor == o.enableJanitor
    ensures o.capacity >= 1 ==> r.capacity == o.capacity
    ensures o.capacity < 1 ==> r.capacity == 1
    ensures o.cleanupInterval > 0 ==> r.cleanupInterval == o.cleanupInterval
    ensures o.cleanupInterval <= 0 ==> r.cleanupInterval == Minute
  {
    Options(if o.capacity < 1 then 1 else o.capacity,
            if o.cleanupInterval <= 0 then Minute else o.cleanupInterval,
            o.enableJanitor)
  }
}
