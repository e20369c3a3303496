/** The pool adapter the strategy decorates, as the test stands it in. */
module PoolAdapters {
  import opened Attempts

  /**
   * A pool adapter that logs every capacity it is given, every request
   * context it is asked with and every read of its capacity, and whose
   * getConnection answers come from a script. The capacity it reports either
   * follows the setter (the AtomicInteger-backed stub) or stays at its
   * initial value whatever the setter is given (a plain thenReturn stub).
   */
  class PoolAdapter<X, C, E> {
    var maxPoolSize: int      // the capacity getMaxPoolSize reports
    const followsSetter: bool
    var sizeReads: nat        // number of getMaxPoolSize calls
    var setCalls: seq<int>
    var requests: seq<X>
    var answers: seq<Attempt<C, E>>

    ghost predicate Valid()
      reads this
    {
      |answers| > 0
    }

    constructor (maxPoolSize: int, followsSetter: bool, answers: seq<Attempt<C, E>>)
      requires |answers| > 0
      ensures Valid()
      ensures this.maxPoolSize == maxPoolSize && this.followsSetter == followsSetter
      ensures this.answers == answers
      ensures sizeReads == 0 && setCalls == [] && requests == []
    {
      this.maxPoolSize := maxPoolSize;
      this.followsSetter := followsSetter;
      this.answers := answers;
      sizeReads := 0;
      setCalls := [];
      requests := [];
    }

    /** getMaxPoolSize: the capacity currently reported; the read is counted. */
    method GetMaxPoolSize() returns (size: int)
      modifies this`sizeReads
      ensures size == maxPoolSize
      ensures sizeReads == old(sizeReads) + 1
    {
      size := maxPoolSize;
      sizeReads := sizeReads + 1;
    }

    /** setMaxPoolSize: logged; later reads return it when the capacity follows the setter. */
    method SetMaxPoolSize(size: int)
      modifies this
      ensures maxPoolSize == if followsSetter then size else old(maxPoolSize)
      ensures setCalls == old(setCalls) + [size]
      ensures sizeReads == old(sizeReads) && requests == old(requests) && answers == old(answers)
    {
      if followsSetter {
        maxPoolSize := size;
      }
      setCalls := setCalls + [size];
    }

    /** getConnection: one bounded attempt, answered by the next scripted outcome. */
    method GetConnection(context: X) returns (a: Attempt<C, E>)
      requires Valid()
      modifies this
      ensures Valid()
      ensures a == old(answers[0]) && answers == Advance(old(answers))
      ensures requests == old(requests) + [context]
      ensures maxPoolSize == old(maxPoolSize) && sizeReads == old(sizeReads)
      ensures setCalls == old(setCalls)
    {
      a := answers[0];
      answers := Advance(answers);
      requests := requests + [context];
    }
  }
}
