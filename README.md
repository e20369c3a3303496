# Increment-on-timeout connection acquiring strategy (flexy-pool)

A Dafny model of flexy-pool's `IncrementPoolOnTimeoutConnectionAcquiringStrategy`.
This strategy sits in front of a connection pool. Each `getConnection` call:

1. reads the pool adapter's max pool size (once per call, in this model);
2. records the size in the `max-pool-size` histogram;
3. asks the adapter for a connection;
4. on an acquisition timeout below the ceiling given to `Factory(ceiling)`:
   raises the max pool size by one through `setMaxPoolSize`, records the
   running overflow count in the `overflow-pool-size` histogram, and goes back to step 2;
5. on a timeout at or above the ceiling: fails with an `SQLException` whose
   cause is the timeout's root exception.

The implementation class is not part of this model. Its behaviour is taken
from the assertions of its unit test, `flexy-pool-core/src/test/java/com/vladmihalcea/flexypool/strategy/IncrementPoolOnTimeoutConnectionAcquiringStrategyTest.java`.

Files:

- `attempts.dfy`: what one adapter attempt produces (`Acquired`, `TimedOut`, `Failed`) and
  what a call returns (`Connected`, `Exhausted`, `Propagated`).
- `pool_adapter.dfy`: the pool adapter as the test uses it. It is a class with a mutable
  `maxPoolSize`, a count of `getMaxPoolSize` calls, a log of setter arguments, a log of
  request contexts, and a script of answers. The answers are used in order and the last one
  repeats, as with the test's consecutive stubbing. A flag fixed at construction says whether
  the reported size follows the setter (the `AtomicInteger`-backed stub of the third test) or
  stays at its initial value (the plain `thenReturn` stubs of the first two tests).
- `metric.dfy`: `Histogram` (an append-only list of observations) and `Metrics`
  (looks up a histogram by name and returns the same one for the same name).
- `acquisition_run.dfy`: `Acquire`, a pure function giving the whole observable
  effect of one call, and the lemmas about it.
- `strategy.dfy`: the strategy class and its `Factory`. `GetConnection` is a
  `while` loop with `decreases ceiling - size`, proved to have exactly the effect
  `Acquire` describes.
- `strategy_test.dfy`: the three test cases, written as methods over the strategy class whose
  `ensures` clauses Dafny proves.

## Model

| member | source | states |
|---|---|---|
| `Strategy.IncrementPoolOnTimeoutStrategy.GetConnection` | flexy-pool-core/src/test/java/com/vladmihalcea/flexypool/strategy/IncrementPoolOnTimeoutConnectionAcquiringStrategyTest.java:84-145 | `getMaxPoolSize` is called exactly once per call. The call's result, the setter calls, both histograms' new observations and the contexts passed to the adapter (the caller's, once per attempt) are exactly those of the `Acquire` run from that size, with overflow 0 and the factory's ceiling. The adapter then reports the run's final size if its size follows the setter, and its unchanged size otherwise. |
| `AcquisitionRun.Acquire` | flexy-pool-core/src/test/java/com/vladmihalcea/flexypool/strategy/IncrementPoolOnTimeoutConnectionAcquiringStrategyTest.java:84-145 | The pure model of one `getConnection` call from a given size: record the size, attempt, and on a timeout below the ceiling grow by one, record the overflow count and retry. A connection or a non-timeout failure ends the call where it is; a timeout at or above the ceiling ends it exhausted. The function has no contract of its own: its properties are the lemmas below and `GetConnection`'s ensures. |
| `Strategy.IncrementPoolOnTimeoutStrategy.constructor` | flexy-pool-core/src/test/java/com/vladmihalcea/flexypool/strategy/IncrementPoolOnTimeoutConnectionAcquiringStrategyTest.java:78-79 | Binds the histograms registered under `max-pool-size` and `overflow-pool-size` in the metrics registry. The two series are distinct. Histograms already registered are left alone. A newly created one starts empty. |
| `Strategy.Factory.NewInstance` | flexy-pool-core/src/test/java/com/vladmihalcea/flexypool/strategy/IncrementPoolOnTimeoutConnectionAcquiringStrategyTest.java:88 | `Factory(ceiling).newInstance` returns a fresh strategy for the given adapter and ceiling, with both histograms bound and no change to the adapter. The registry gains exactly the two names. Histograms already registered keep their entries, so two strategies built on one registry share them. A newly created one starts empty. |
| `Metric.Metrics.GetHistogram` | flexy-pool-core/src/test/java/com/vladmihalcea/flexypool/strategy/IncrementPoolOnTimeoutConnectionAcquiringStrategyTest.java:78-79 | Looking up a name twice returns the same histogram. An unknown name gets a new empty histogram. Different names never share a histogram. |
| `Metric.Histogram.Update` | flexy-pool-core/src/test/java/com/vladmihalcea/flexypool/strategy/IncrementPoolOnTimeoutConnectionAcquiringStrategyTest.java:91 | An update appends exactly one observation. |
| `PoolAdapters.PoolAdapter.GetMaxPoolSize` | flexy-pool-core/src/test/java/com/vladmihalcea/flexypool/strategy/IncrementPoolOnTimeoutConnectionAcquiringStrategyTest.java:114-120 | Returns the size the adapter currently reports (a fixed `thenReturn` value, or the `AtomicInteger` the setter writes) and counts the read. Nothing else changes. |
| `PoolAdapters.PoolAdapter.SetMaxPoolSize` | flexy-pool-core/src/test/java/com/vladmihalcea/flexypool/strategy/IncrementPoolOnTimeoutConnectionAcquiringStrategyTest.java:121-128 | Each call is logged once, in order. For an adapter whose size follows the setter, as the `AtomicInteger`-backed stub does, the new size is what later reads return; otherwise the reported size stays put. Nothing else changes. |
| `PoolAdapters.PoolAdapter.GetConnection` | flexy-pool-core/src/test/java/com/vladmihalcea/flexypool/strategy/IncrementPoolOnTimeoutConnectionAcquiringStrategyTest.java:97-99 | Gives the next scripted answer (the last answer repeats), logs the request context, and leaves the size untouched. |
| `AcquisitionRun.AcquireShape` | flexy-pool-core/src/test/java/com/vladmihalcea/flexypool/strategy/IncrementPoolOnTimeoutConnectionAcquiringStrategyTest.java:135-144 | A call that grows k times has these effects: setter calls are size+1 .. size+k, `max-pool-size` records size .. size+k, and `overflow-pool-size` records 1 .. k (counting from the call's start). The final size is size+k. k is at most the distance to the ceiling (0 when size ≥ ceiling), so growth never passes the ceiling. |
| `AcquisitionRun.AcquireOutcome` | flexy-pool-core/src/test/java/com/vladmihalcea/flexypool/strategy/IncrementPoolOnTimeoutConnectionAcquiringStrategyTest.java:111-134 | The answer to the last attempt decides the result, and every earlier attempt timed out. A returned connection is the one the adapter produced on that attempt. An exhausted call ends on a timeout at or above the ceiling and carries that timeout's root cause unchanged. |
| `AcquisitionRun.RecordedOnce` | flexy-pool-core/src/test/java/com/vladmihalcea/flexypool/strategy/IncrementPoolOnTimeoutConnectionAcquiringStrategyTest.java:138-144 | Counted the way `times(1)`/`never()` count: every size visited (the final one included) is recorded in `max-pool-size` exactly once, and no other value is. Each growth target is set exactly once. Each overflow count of the call is recorded exactly once. |
| `AcquisitionRun.FirstAttemptSucceeds` | flexy-pool-core/src/test/java/com/vladmihalcea/flexypool/strategy/IncrementPoolOnTimeoutConnectionAcquiringStrategyTest.java:85-93 | If the first attempt succeeds, the adapter's connection is returned, there is no setter call, the size is recorded once, and there is no overflow observation. This holds for any size and ceiling. |
| `AcquisitionRun.TimeoutThenSucceeds` | flexy-pool-core/src/test/java/com/vladmihalcea/flexypool/strategy/IncrementPoolOnTimeoutConnectionAcquiringStrategyTest.java:96-107 | For any size below the ceiling, one timeout then success gives exactly one setter call (size+1), observations `[size, size+1]`, an overflow observation `[1]`, and the adapter's connection. |
| `AcquisitionRun.AlwaysTimesOut` | flexy-pool-core/src/test/java/com/vladmihalcea/flexypool/strategy/IncrementPoolOnTimeoutConnectionAcquiringStrategyTest.java:110-145 | If every attempt times out, the pool grows one step at a time up to the ceiling (no growth if it starts at or above it). Every size up to and including the ceiling is recorded. Overflow counts run 1, 2, 3, …. The call fails with the root cause of the timeout at the ceiling. |
| `StrategyTest.ConnectionAcquiredInOneAttempt` | flexy-pool-core/src/test/java/com/vladmihalcea/flexypool/strategy/IncrementPoolOnTimeoutConnectionAcquiringStrategyTest.java:85-93 | Size 1 from a fixed `thenReturn(1)` stub, `Factory(5)`, a succeeding adapter: returns the adapter's connection, reads the size once, passes the caller's context once, sets nothing, records `[1]`, and records no overflow. |
| `StrategyTest.ConnectionAcquiredInTwoAttempts` | flexy-pool-core/src/test/java/com/vladmihalcea/flexypool/strategy/IncrementPoolOnTimeoutConnectionAcquiringStrategyTest.java:96-107 | Size 2 from a fixed `thenReturn(2)` stub, `Factory(5)`, timeout then success: returns the adapter's connection, reads the size once (the adapter still reports 2 afterwards), passes the context twice, sets `[3]`, records `[2, 3]`, and records overflow `[1]`. |
| `StrategyTest.ConnectionNotAcquiredAfterAllAttempts` | flexy-pool-core/src/test/java/com/vladmihalcea/flexypool/strategy/IncrementPoolOnTimeoutConnectionAcquiringStrategyTest.java:110-145 | Size 2, `Factory(5)`, an adapter whose size follows the setter, always timing out: fails with the root exception, reads the size once, sets `[3, 4, 5]`, records `[2, 3, 4, 5]` and overflow `[1, 2, 3]`, and leaves the size at 5. |

Notes on how the model reads the test:

- In `testConnectionAcquiredInTwoAttempts` the `getMaxPoolSize` stub always returns 2, even after
  `setMaxPoolSize(3)`. The model's adapter for that case reports a fixed size too. A strategy
  that re-read the size at the top of each pass would record 2 twice there. The test does not
  count reads, so the single read is the model's own rule, stated by `GetConnection`'s
  `sizeReads` ensures.
- `testConnectionNotAcquiredAfterAllAttempts` would also pass if no exception were thrown, since it has
  a `try`/`catch` and no `fail()`. The model states the stronger fact: the call does fail, and its cause is that root exception.
- Connections and root exceptions are type parameters. "The same object" (`assertSame`) is
  modelled as equality of the value the adapter produced. The strategy cannot make such values up.

## Left out

- The strategy's implementation file, `AcquireTimeoutException`, `Metrics` and `Histogram` are not part of this model. Only the contract the test observes is modelled.
- Non-timeout failures from the adapter: no test pins down their handling. The model passes such a failure back to the caller unchanged (`Failed` becomes `Propagated` with the same error), with no growth and no overflow observation.
- Order across the adapter and the two histograms within one pass: each keeps its own log, and only the order inside each log is stated, as the test's `verify` calls (with no `InOrder`) check.
- Concurrent callers, and serialising growth across them: the test is single-threaded.
- Growth steps other than one: the test only builds `Factory(ceiling)`, which grows by one.
- The `Configuration.Builder`, `PoolAdapterFactory`, `MetricsFactory` and `ConfigurationProperties` wiring (lines 61-77): `Factory.NewInstance` takes the adapter and the metrics registry directly.
- The contents of `ConnectionRequestContext` and the adapter's wait budget and timing: the context is an opaque value passed through to the adapter.
- Mockito's mocks and verification: replaced by plain state and logs.
- Java `int` / `long` widths: sizes and counts are unbounded integers. Growth happens only while the size is below an `int` ceiling, so `size + 1` cannot wrap in the source either.
