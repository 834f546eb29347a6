/**
  The alert dispatcher's construction: `NewScheduler` fills in defaults for the
  worker count, the queue size and the polling interval, and sizes the alert queue.
  Durations are in nanoseconds, as Go's `time.Duration`.
 */
module AlertConfig {

  const Second: int := 1_000_000_000
  const DefaultWorkers: int := 1
  const DefaultQueueSize: int := 100
  const DefaultInterval: int := 10 * Second
  /** The period `Start` gives its ticker, whatever the configured interval. */
  const TickPeriod: int := 5 * Second

  datatype Config = Config(interval: int, workers: int, queueSize: int)

  /** What the constructed scheduler holds: the normalised configuration and the queue's capacity. */
  datatype Scheduler = Scheduler(cfg: Config, queueCapacity: int)

  /**
    `NewScheduler`: each non-positive setting is replaced by its default and every
    positive one is kept; the queue is made with exactly the normalised queue size.
   */
  function NewScheduler(cfg: Config): (s: Scheduler)
    ensures s.cfg.workers == if cfg.workers <= 0 then DefaultWorkers else cfg.workers
    ensures s.cfg.queueSize == if cfg.queueSize <= 0 then DefaultQueueSize else cfg.queueSize
    ensures s.cfg.interval == if cfg.interval <= 0 then DefaultInterval else cfg.interval
    ensures s.queueCapacity == s.cfg.queueSize
  {
    var c1 := if cfg.workers <= 0 then cfg.(workers := DefaultWorkers) else cfg;
    var c2 := if c1.queueSize <= 0 then c1.(queueSize := DefaultQueueSize) else c1;
    var c3 := if c2.interval <= 0 then c2.(interval := DefaultInterval) else c2;
    Scheduler(c3, c3.queueSize)
  }

  /** Whatever the configuration, the scheduler has a worker, room in its queue and a positive interval. */
  lemma SchedulerUsable(cfg: Config)
    ensures NewScheduler(cfg).cfg.workers >= 1
    ensures NewScheduler(cfg).queueCapacity >= 1
    ensures NewScheduler(cfg).cfg.interval > 0
  {
  }

  /** Normalising twice is normalising once. */
  lemma NewSchedulerIdempotent(cfg: Config)
    ensures NewScheduler(NewScheduler(cfg).cfg) == NewScheduler(cfg)
  {
  }

  /**
    `Start` ticks at `TickPeriod`: the configured interval does not reach the ticker,
    so any interval other than five seconds is ignored.
   */
  function StartPeriod(s: Scheduler): (period: int)
    ensures period == TickPeriod
    ensures s.cfg.interval != TickPeriod ==> period != s.cfg.interval
  {
    TickPeriod
  }
}
