/**
 * The three scenarios of the strategy's unit test, stated as methods whose
 * ensures Dafny proves about the strategy class: a fresh metrics registry, a
 * scripted pool adapter and Factory(5). The first two adapters report a fixed
 * capacity, as a thenReturn stub does; the third follows the setter, as the
 * AtomicInteger-backed stub does.
 */
module StrategyTest {
  import opened Attempts
  import opened PoolAdapters
  import opened Metric
  import opened AcquisitionRun
  import opened Strategy

  /** Capacity 1, the first attempt succeeds. */
  method ConnectionAcquiredInOneAttempt<X, C, E>(context: X, connection: C)
    returns (r: Outcome<C, E>, sizeReads: nat, requests: seq<X>, setCalls: seq<int>,
             maxPoolSizes: seq<int>, overflows: seq<int>)
    ensures r == Connected(connection)
    ensures sizeReads == 1
    ensures requests == [context]
    ensures setCalls == []
    ensures maxPoolSizes == [1]
    ensures overflows == []
  {
    var pool := new PoolAdapter<X, C, E>(1, false, [Acquired(connection)]);
    var metrics := new Metrics();
    var factory := new Factory(5);
    var strategy := factory.NewInstance(pool, metrics);
    r := strategy.GetConnection(context);
    sizeReads, requests, setCalls := pool.sizeReads, pool.requests, pool.setCalls;
    maxPoolSizes := strategy.maxPoolSizeHistogram.observations;
    overflows := strategy.overflowPoolSizeHistogram.observations;
  }

  /** Capacity 2, one timeout and then a connection. */
  method ConnectionAcquiredInTwoAttempts<X, C, E>(context: X, connection: C, root: E)
    returns (r: Outcome<C, E>, sizeReads: nat, reportedSize: int, requests: seq<X>,
             setCalls: seq<int>, maxPoolSizes: seq<int>, overflows: seq<int>)
    ensures r == Connected(connection)
    ensures sizeReads == 1 && reportedSize == 2
    ensures requests == [context, context]
    ensures setCalls == [3]
    ensures maxPoolSizes == [2, 3]
    ensures overflows == [1]
  {
    var pool := new PoolAdapter<X, C, E>(2, false, [TimedOut(root), Acquired(connection)]);
    var metrics := new Metrics();
    var factory := new Factory(5);
    var strategy := factory.NewInstance(pool, metrics);
    r := strategy.GetConnection(context);
    sizeReads, reportedSize := pool.sizeReads, pool.maxPoolSize;
    requests, setCalls := pool.requests, pool.setCalls;
    maxPoolSizes := strategy.maxPoolSizeHistogram.observations;
    overflows := strategy.overflowPoolSizeHistogram.observations;
  }

  /** Capacity 2, every attempt times out: growth to 5, then failure with the root cause. */
  method ConnectionNotAcquiredAfterAllAttempts<X, C, E>(context: X, rootException: E)
    returns (r: Outcome<C, E>, sizeReads: nat, finalSize: int, setCalls: seq<int>,
             maxPoolSizes: seq<int>, overflows: seq<int>)
    ensures r == Exhausted(rootException)
    ensures sizeReads == 1
    ensures finalSize == 5
    ensures setCalls == [3, 4, 5]
    ensures maxPoolSizes == [2, 3, 4, 5]
    ensures overflows == [1, 2, 3]
  {
    var pool := new PoolAdapter<X, C, E>(2, true, [TimedOut(rootException)]);
    var metrics := new Metrics();
    var factory := new Factory(5);
    var strategy := factory.NewInstance(pool, metrics);
    r := strategy.GetConnection(context);
    sizeReads, finalSize, setCalls := pool.sizeReads, pool.maxPoolSize, pool.setCalls;
    maxPoolSizes := strategy.maxPoolSizeHistogram.observations;
    overflows := strategy.overflowPoolSizeHistogram.observations;
  }
}
