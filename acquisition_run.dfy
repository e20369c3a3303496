/**
 * The observable effect of one getConnection call of the increment-on-timeout
 * strategy, as a pure function of the capacity it read, the ceiling and the
 * adapter's scripted answers; and what the tests promise about it.
 */
module AcquisitionRun {
  import opened Attempts

  /** Everything one call leaves behind. */
  datatype Run<C, E> = Run(
    outcome: Outcome<C, E>,
    setCalls: seq<int>,      // arguments of setMaxPoolSize, in order
    maxPoolSizes: seq<int>,  // observations of the max-pool-size histogram
    overflows: seq<int>,     // observations of the overflow-pool-size histogram
    finalSize: int,          // the capacity the call leaves configured
    rest: seq<Attempt<C, E>>)  // the answers the adapter has left

  /** The integers from, from+1, ..., from+n-1, in ascending order. */
  function Consecutive(from: int, n: nat): (s: seq<int>)
    ensures |s| == n
    ensures forall i :: 0 <= i < n ==> s[i] == from + i
    decreases n
  {
    if n == 0 then [] else [from] + Consecutive(from + 1, n - 1)
  }

  /** How many times a call starting at `size` may grow the pool. */
  function Headroom(size: int, ceiling: int): (n: nat)
  {
    if size < ceiling then ceiling - size else 0
  }

  /**
   * One pass of the retry loop at capacity `size`, `overflow` growths into the
   * call: record the size, attempt, and on a timeout below the ceiling grow by
   * one, record the overflow count and go round again.
   */
  function Acquire<C, E>(size: int, overflow: nat, ceiling: int, answers: seq<Attempt<C, E>>): (r: Run<C, E>)
    requires |answers| > 0
    decreases ceiling - size
  {
    var rest := Advance(answers);
    match answers[0]
    case Acquired(c) => Run(Connected(c), [], [size], [], size, rest)
    case Failed(e) => Run(Propagated(e), [], [size], [], size, rest)
    case TimedOut(e) =>
      if size < ceiling then
        var r := Acquire(size + 1, overflow + 1, ceiling, rest);
        Run(r.outcome, [size + 1] + r.setCalls, [size] + r.maxPoolSizes,
            [overflow + 1] + r.overflows, r.finalSize, r.rest)
      else
        Run(Exhausted(e), [], [size], [], size, rest)
  }

  /** Moving one element from the front of the rest to the end of the log so far. */
  lemma AppendShift<T>(log: seq<T>, x: T, rest: seq<T>)
    ensures (log + [x]) + rest == log + ([x] + rest)
  {
  }

  /** The logs left by the last pass, which grows nothing and records its size once. */
  lemma LastPass<C, E>(setCalls: seq<int>, setCalls0: seq<int>, runSetCalls: seq<int>,
                       maxPoolSizes: seq<int>, size: int, maxPoolSizes0: seq<int>, runMaxPoolSizes: seq<int>,
                       overflows: seq<int>, overflows0: seq<int>, runOverflows: seq<int>, rem: Run<C, E>)
    requires rem.setCalls == [] && rem.maxPoolSizes == [size] && rem.overflows == []
    requires setCalls + rem.setCalls == setCalls0 + runSetCalls
    requires maxPoolSizes + rem.maxPoolSizes == maxPoolSizes0 + runMaxPoolSizes
    requires overflows + rem.overflows == overflows0 + runOverflows
    ensures setCalls == setCalls0 + runSetCalls
    ensures maxPoolSizes + [size] == maxPoolSizes0 + runMaxPoolSizes
    ensures overflows == overflows0 + runOverflows
  {
    assert setCalls + [] == setCalls;
    assert overflows + [] == overflows;
  }

  /** One growth step: a timeout below the ceiling, then the run one size up. */
  lemma AcquireGrows<C, E>(size: int, overflow: nat, ceiling: int, answers: seq<Attempt<C, E>>)
    requires |answers| > 0 && answers[0].TimedOut? && size < ceiling
    ensures var r := Acquire(size, overflow, ceiling, answers);
            var t := Acquire(size + 1, overflow + 1, ceiling, Advance(answers));
            && r.outcome == t.outcome && r.finalSize == t.finalSize && r.rest == t.rest
            && r.setCalls == [size + 1] + t.setCalls
            && r.maxPoolSizes == [size] + t.maxPoolSizes
            && r.overflows == [overflow + 1] + t.overflows
  {
  }

  /** A pass that does not grow ends the call after recording its size once. */
  lemma AcquireStops<C, E>(size: int, overflow: nat, ceiling: int, answers: seq<Attempt<C, E>>)
    requires |answers| > 0 && !(answers[0].TimedOut? && size < ceiling)
    ensures var r := Acquire(size, overflow, ceiling, answers);
            && r.outcome == (match answers[0]
                             case Acquired(c) => Connected(c)
                             case Failed(e) => Propagated(e)
                             case TimedOut(e) => Exhausted(e))
            && r.setCalls == [] && r.maxPoolSizes == [size] && r.overflows == []
            && r.finalSize == size && r.rest == Advance(answers)
  {
  }

  /**
   * A call that grows k times sets the capacities size+1 .. size+k, records
   * the sizes size .. size+k and the overflow counts overflow+1 .. overflow+k,
   * and k never takes the capacity past the ceiling.
   */
  lemma {:induction false} AcquireShape<C, E>(size: int, overflow: nat, ceiling: int, answers: seq<Attempt<C, E>>)
    requires |answers| > 0
    ensures var r := Acquire(size, overflow, ceiling, answers);
            var k := |r.setCalls|;
            && k <= Headroom(size, ceiling)
            && r.finalSize == size + k
            && r.setCalls == Consecutive(size + 1, k)
            && r.maxPoolSizes == Consecutive(size, k + 1)
            && r.overflows == Consecutive(overflow + 1, k)
    decreases ceiling - size
  {
    if answers[0].TimedOut? && size < ceiling {
      AcquireShape(size + 1, overflow + 1, ceiling, Advance(answers));
    }
  }

  /**
   * The outcome is decided by the answer to the last attempt: every earlier
   * attempt timed out, a connection returned is the very one the adapter
   * produced, and a call gives up only on a timeout at or above the ceiling,
   * passing on that timeout's root cause.
   */
  lemma {:induction false} AcquireOutcome<C, E>(size: int, overflow: nat, ceiling: int, answers: seq<Attempt<C, E>>)
    requires |answers| > 0
    ensures var r := Acquire(size, overflow, ceiling, answers);
            var k := |r.setCalls|;
            && (forall j :: 0 <= j < k ==> AnswerAt(answers, j).TimedOut?)
            && (r.outcome.Connected? ==> AnswerAt(answers, k) == Acquired(r.outcome.conn))
            && (r.outcome.Propagated? ==> AnswerAt(answers, k) == Failed(r.outcome.error))
            && (r.outcome.Exhausted? ==>
                  AnswerAt(answers, k) == TimedOut(r.outcome.cause) && size + k >= ceiling)
    decreases ceiling - size
  {
    if answers[0].TimedOut? && size < ceiling {
      var rest := Advance(answers);
      AcquireOutcome(size + 1, overflow + 1, ceiling, rest);
      var t := Acquire(size + 1, overflow + 1, ceiling, rest);
      var k := |t.setCalls|;
      AnswerAtAdvance(answers, k);
      forall j | 0 <= j <= k
        ensures AnswerAt(answers, j).TimedOut?
      {
        if j > 0 { AnswerAtAdvance(answers, j - 1); }
      }
    }
  }

  /** A first attempt that succeeds: no growth, the size recorded once, no overflow. */
  lemma FirstAttemptSucceeds<C, E>(size: int, ceiling: int, answers: seq<Attempt<C, E>>, c: C)
    requires |answers| > 0 && answers[0] == Acquired(c)
    ensures var r := Acquire(size, 0, ceiling, answers);
            && r.outcome == Connected(c)
            && r.setCalls == []
            && r.maxPoolSizes == [size]
            && r.overflows == []
            && r.finalSize == size
  {
  }

  /** One timeout below the ceiling, then a connection: exactly one growth. */
  lemma TimeoutThenSucceeds<C, E>(size: int, ceiling: int, answers: seq<Attempt<C, E>>, c: C)
    requires |answers| > 0 && answers[0].TimedOut? && size < ceiling
    requires AnswerAt(answers, 1) == Acquired(c)
    ensures var r := Acquire(size, 0, ceiling, answers);
            && r.outcome == Connected(c)
            && r.setCalls == [size + 1]
            && r.maxPoolSizes == [size, size + 1]
            && r.overflows == [1]
            && r.finalSize == size + 1
  {
    AnswerAtAdvance(answers, 0);
  }

  /**
   * An adapter that always times out: the pool is grown one step at a time
   * up to the ceiling, every size visited (the ceiling included) is recorded,
   * the overflow counts run 1, 2, 3, ..., and the call fails with the root
   * cause of the timeout met at the ceiling.
   */
  lemma AlwaysTimesOut<C, E>(size: int, ceiling: int, answers: seq<Attempt<C, E>>)
    requires |answers| > 0
    requires forall a :: a in answers ==> a.TimedOut?
    ensures var r := Acquire(size, 0, ceiling, answers);
            var n := Headroom(size, ceiling);
            && r.outcome == Exhausted(AnswerAt(answers, n).root)
            && r.setCalls == Consecutive(size + 1, n)
            && r.maxPoolSizes == Consecutive(size, n + 1)
            && r.overflows == Consecutive(1, n)
            && r.finalSize == (if size < ceiling then ceiling else size)
  {
    AcquireShape(size, 0, ceiling, answers);
    AcquireOutcome(size, 0, ceiling, answers);
    var r := Acquire(size, 0, ceiling, answers);
    var k := |r.setCalls|;
    assert AnswerAt(answers, k).TimedOut?;
    assert r.outcome.Exhausted? && size + k >= ceiling;
    assert k == Headroom(size, ceiling);
  }

  /** Each value in a run of consecutive integers occurs exactly once. */
  lemma {:induction false} ConsecutiveCount(from: int, n: nat, v: int)
    ensures multiset(Consecutive(from, n))[v] == if from <= v < from + n then 1 else 0
    decreases n
  {
    if n > 0 {
      ConsecutiveCount(from + 1, n - 1, v);
    }
  }

  /**
   * Counted as the test's verify(..., times(1)) and never() do: every size
   * visited is recorded exactly once and no other, every growth target is set
   * exactly once, and every overflow count of the call is recorded exactly once.
   */
  lemma RecordedOnce<C, E>(size: int, overflow: nat, ceiling: int, answers: seq<Attempt<C, E>>, v: int)
    requires |answers| > 0
    ensures var r := Acquire(size, overflow, ceiling, answers);
            var k := |r.setCalls|;
            && multiset(r.maxPoolSizes)[v] == (if size <= v <= r.finalSize then 1 else 0)
            && multiset(r.setCalls)[v] == (if size < v <= r.finalSize then 1 else 0)
            && multiset(r.overflows)[v] == (if overflow < v <= overflow + k then 1 else 0)
  {
    var r := Acquire(size, overflow, ceiling, answers);
    AcquireShape(size, overflow, ceiling, answers);
    var k := |r.setCalls|;
    assert r.maxPoolSizes == Consecutive(size, k + 1) && r.finalSize == size + k;
    assert r.setCalls == Consecutive(size + 1, k);
    assert r.overflows == Consecutive(overflow + 1, k);
    ConsecutiveCount(size, k + 1, v);
    ConsecutiveCount(size + 1, k, v);
    ConsecutiveCount(overflow + 1, k, v);
  }
}
