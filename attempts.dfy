/** Values exchanged between the strategy, the pool adapter and the caller. */
module Attempts {

  /** What one call of the pool adapter's getConnection produced. */
  datatype Attempt<C, E> =
    | Acquired(conn: C)   // the pool handed out a connection
    | TimedOut(root: E)   // an AcquireTimeoutException carrying its root cause
    | Failed(error: E)    // any other SQLException raised by the adapter

  /** What the strategy's getConnection gives back to its caller. */
  datatype Outcome<C, E> =
    | Connected(conn: C)    // the connection the adapter produced
    | Exhausted(cause: E)   // SQLException whose cause is the last timeout's root
    | Propagated(error: E)  // a non-timeout failure passed through unchanged

  /**
   * The adapter's answers are scripted: each call consumes the first one,
   * and the last one keeps answering every further call.
   */
  function Advance<T>(answers: seq<T>): (rest: seq<T>)
    requires |answers| > 0
    ensures |rest| > 0
  {
    if |answers| > 1 then answers[1..] else answers
  }

  /** The answer given to the call numbered `j` (from 0) of a scripted adapter. */
  function AnswerAt<T>(answers: seq<T>, j: nat): (a: T)
    requires |answers| > 0
    ensures a in answers
  {
    answers[if j < |answers| then j else |answers| - 1]
  }

  lemma AnswerAtAdvance<T>(answers: seq<T>, j: nat)
    requires |answers| > 0
    ensures AnswerAt(Advance(answers), j) == AnswerAt(answers, j + 1)
  {
  }
}
