/**
 * The increment-on-timeout connection acquiring strategy: on an acquisition
 * timeout it raises the pool's max size by one, up to a ceiling, and retries,
 * recording every size it tries and every growth it makes.
 */
module Strategy {
  import opened Attempts
  import opened PoolAdapters
  import opened Metric
  import opened AcquisitionRun

  /** The fixed names under which the two histograms are resolved. */
  const MaxPoolSizeHistogram: string := "max-pool-size"
  const OverflowPoolSizeHistogram: string := "overflow-pool-size"

  class IncrementPoolOnTimeoutStrategy<X, C, E> {
    const pool: PoolAdapter<X, C, E>
    const maxPoolSizeHistogram: Histogram
    const overflowPoolSizeHistogram: Histogram
    const maxOverflowPoolSize: int  // the ceiling the pool may be grown to

    ghost predicate Valid()
      reads pool
    {
      pool.Valid() && maxPoolSizeHistogram != overflowPoolSizeHistogram
    }

    /** Binds the strategy to a pool adapter and resolves both histograms once. */
    constructor (maxOverflowPoolSize: int, pool: PoolAdapter<X, C, E>, metrics: Metrics)
      requires pool.Valid() && metrics.Valid()
      modifies metrics
      ensures Valid()
      ensures this.pool == pool && this.maxOverflowPoolSize == maxOverflowPoolSize
      ensures metrics.Valid()
      ensures MaxPoolSizeHistogram in metrics.histograms
      ensures OverflowPoolSizeHistogram in metrics.histograms
      ensures maxPoolSizeHistogram == metrics.histograms[MaxPoolSizeHistogram]
      ensures overflowPoolSizeHistogram == metrics.histograms[OverflowPoolSizeHistogram]
      ensures old(metrics.histograms).Keys + {MaxPoolSizeHistogram, OverflowPoolSizeHistogram}
              == metrics.histograms.Keys
      ensures forall name :: name in old(metrics.histograms) ==>
                metrics.histograms[name] == old(metrics.histograms[name])
      ensures MaxPoolSizeHistogram !in old(metrics.histograms) ==>
                fresh(maxPoolSizeHistogram) && maxPoolSizeHistogram.observations == []
      ensures OverflowPoolSizeHistogram !in old(metrics.histograms) ==>
                fresh(overflowPoolSizeHistogram) && overflowPoolSizeHistogram.observations == []
    {
      this.pool := pool;
      this.maxOverflowPoolSize := maxOverflowPoolSize;
      var maxHistogram := metrics.GetHistogram(MaxPoolSizeHistogram);
      var overflowHistogram := metrics.GetHistogram(OverflowPoolSizeHistogram);
      maxPoolSizeHistogram := maxHistogram;
      overflowPoolSizeHistogram := overflowHistogram;
    }

    /** One attempt of the loop: record the size tried, then ask the adapter. */
    method RecordAndAttempt(context: X, size: int) returns (attempt: Attempt<C, E>)
      requires Valid()
      modifies pool, maxPoolSizeHistogram
      ensures Valid()
      ensures attempt == old(pool.answers[0]) && pool.answers == Advance(old(pool.answers))
      ensures maxPoolSizeHistogram.observations == old(maxPoolSizeHistogram.observations) + [size]
      ensures pool.requests == old(pool.requests) + [context]
      ensures pool.maxPoolSize == old(pool.maxPoolSize) && pool.sizeReads == old(pool.sizeReads)
      ensures pool.setCalls == old(pool.setCalls)
    {
      maxPoolSizeHistogram.Update(size);
      attempt := pool.GetConnection(context);
    }

    /** One growth: hand the adapter the new size, then record the overflow count. */
    method Grow(size: int, overflow: nat)
      requires Valid()
      modifies pool, overflowPoolSizeHistogram
      ensures Valid()
      ensures pool.setCalls == old(pool.setCalls) + [size]
      ensures pool.maxPoolSize == if pool.followsSetter then size else old(pool.maxPoolSize)
      ensures overflowPoolSizeHistogram.observations == old(overflowPoolSizeHistogram.observations) + [overflow]
      ensures pool.answers == old(pool.answers) && pool.requests == old(pool.requests)
      ensures pool.sizeReads == old(pool.sizeReads)
    {
      pool.SetMaxPoolSize(size);
      overflowPoolSizeHistogram.Update(overflow);
    }

    /**
     * getConnection: reads the capacity once and tracks it locally from then
     * on; records it, attempts, and on a timeout below the ceiling grows the
     * pool by one and retries. The whole effect of the call is the run
     * Acquire describes.
     */
    method GetConnection(context: X) returns (r: Outcome<C, E>)
      requires Valid()
      modifies pool, maxPoolSizeHistogram, overflowPoolSizeHistogram
      ensures Valid()
      ensures var run := Acquire(old(pool.maxPoolSize), 0, maxOverflowPoolSize, old(pool.answers));
              && r == run.outcome
              && pool.sizeReads == old(pool.sizeReads) + 1
              && pool.maxPoolSize == (if pool.followsSetter then run.finalSize else old(pool.maxPoolSize))
              && pool.setCalls == old(pool.setCalls) + run.setCalls
              && pool.answers == run.rest
              && pool.requests == old(pool.requests) + seq(|run.maxPoolSizes|, _ => context)
              && maxPoolSizeHistogram.observations == old(maxPoolSizeHistogram.observations) + run.maxPoolSizes
              && overflowPoolSizeHistogram.observations == old(overflowPoolSizeHistogram.observations) + run.overflows
    {
      ghost var reported := pool.maxPoolSize;
      var maxPoolSize := pool.GetMaxPoolSize();
      var overflowPoolSize: nat := 0;
      ghost var run := Acquire(maxPoolSize, 0, maxOverflowPoolSize, pool.answers);
      assert run == Acquire(old(pool.maxPoolSize), 0, maxOverflowPoolSize, old(pool.answers));
      ghost var rem := run;  // what the remaining passes of the loop will do
      ghost var attempts: nat := 0;
      while true
        invariant Valid() && pool.sizeReads == old(pool.sizeReads) + 1
        invariant pool.maxPoolSize == if pool.followsSetter then maxPoolSize else reported
        invariant rem == Acquire(maxPoolSize, overflowPoolSize, maxOverflowPoolSize, pool.answers)
        invariant rem.outcome == run.outcome && rem.finalSize == run.finalSize && rem.rest == run.rest
        invariant |run.maxPoolSizes| == attempts + |rem.maxPoolSizes|
        invariant pool.setCalls + rem.setCalls == old(pool.setCalls) + run.setCalls
        invariant maxPoolSizeHistogram.observations + rem.maxPoolSizes
                  == old(maxPoolSizeHistogram.observations) + run.maxPoolSizes
        invariant overflowPoolSizeHistogram.observations + rem.overflows
                  == old(overflowPoolSizeHistogram.observations) + run.overflows
        invariant pool.requests == old(pool.requests) + seq(attempts, _ => context)
        decreases maxOverflowPoolSize - maxPoolSize
      {
        ghost var answers := pool.answers;
        ghost var setCalls := pool.setCalls;
        ghost var maxPoolSizes := maxPoolSizeHistogram.observations;
        ghost var overflows := overflowPoolSizeHistogram.observations;
        var attempt := RecordAndAttempt(context, maxPoolSize);
        assert seq(attempts + 1, _ => context) == seq(attempts, _ => context) + [context];
        attempts := attempts + 1;
        if attempt.TimedOut? && maxPoolSize < maxOverflowPoolSize {
          ghost var next := Acquire(maxPoolSize + 1, overflowPoolSize + 1, maxOverflowPoolSize, pool.answers);
          AcquireGrows(maxPoolSize, overflowPoolSize, maxOverflowPoolSize, answers);
          AppendShift(setCalls, maxPoolSize + 1, next.setCalls);
          AppendShift(maxPoolSizes, maxPoolSize, next.maxPoolSizes);
          AppendShift(overflows, overflowPoolSize + 1, next.overflows);
          maxPoolSize := maxPoolSize + 1;
          overflowPoolSize := overflowPoolSize + 1;
          Grow(maxPoolSize, overflowPoolSize);
          rem := next;
        } else {
          AcquireStops(maxPoolSize, overflowPoolSize, maxOverflowPoolSize, answers);
          LastPass(setCalls, old(pool.setCalls), run.setCalls, maxPoolSizes, maxPoolSize,
                   old(maxPoolSizeHistogram.observations), run.maxPoolSizes, overflows,
                   old(overflowPoolSizeHistogram.observations), run.overflows, rem);
          r := match attempt
               case Acquired(conn) => Connected(conn)
               case Failed(error) => Propagated(error)
               case TimedOut(root) => Exhausted(root);
          return;
        }
      }
    }
  }

  /** Factory(ceiling).newInstance: a strategy for the given adapter and metrics. */
  class Factory {
    const maxOverflowPoolSize: int

    constructor (maxOverflowPoolSize: int)
      ensures this.maxOverflowPoolSize == maxOverflowPoolSize
    {
      this.maxOverflowPoolSize := maxOverflowPoolSize;
    }

    method NewInstance<X, C, E>(pool: PoolAdapter<X, C, E>, metrics: Metrics)
      returns (s: IncrementPoolOnTimeoutStrategy<X, C, E>)
      requires pool.Valid() && metrics.Valid()
      modifies metrics
      ensures fresh(s) && s.Valid() && metrics.Valid()
      ensures s.pool == pool && s.maxOverflowPoolSize == maxOverflowPoolSize
      ensures MaxPoolSizeHistogram in metrics.histograms
      ensures OverflowPoolSizeHistogram in metrics.histograms
      ensures s.maxPoolSizeHistogram == metrics.histograms[MaxPoolSizeHistogram]
      ensures s.overflowPoolSizeHistogram == metrics.histograms[OverflowPoolSizeHistogram]
      ensures old(metrics.histograms).Keys + {MaxPoolSizeHistogram, OverflowPoolSizeHistogram}
              == metrics.histograms.Keys
      ensures forall name :: name in old(metrics.histograms) ==>
                metrics.histograms[name] == old(metrics.histograms[name])
      ensures MaxPoolSizeHistogram !in old(metrics.histograms) ==>
                fresh(s.maxPoolSizeHistogram) && s.maxPoolSizeHistogram.observations == []
      ensures OverflowPoolSizeHistogram !in old(metrics.histograms) ==>
                fresh(s.overflowPoolSizeHistogram) && s.overflowPoolSizeHistogram.observations == []
    {
      s := new IncrementPoolOnTimeoutStrategy(maxOverflowPoolSize, pool, metrics);
    }
  }
}
