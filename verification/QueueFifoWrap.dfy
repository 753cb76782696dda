/** With one producer and one consumer no thread's loaded position ever lags, so the
    64-bit queue is linearizable without any condition on its counters. */
module QueueFifoWrap {
  import opened Wrappers
  import opened Words
  import opened MpmcQueue
  import opened QueueInvariant
  import opened QueueFifo
  import opened QueueWrap

  /** How a state of the unbounded machine looks under an arithmetic. */
  function View<T>(ar: Arithmetic, q: Queue<T>): (v: Queue<T>)
    ensures |v.slots| == |q.slots| && |v.threads| == |q.threads|
  {
    match ar
    case Unbounded => q
    case Wrapping => Wrapped(q)
  }

  /** The capacities a queue may have: two slots at least and, on 64 bits, a power of two
      below half the address space. */
  ghost predicate Fits(ar: Arithmetic, capacity: nat) {
    capacity >= 2 && (ar.Wrapping? ==> IsPowerOfTwo(capacity) && capacity < HALF_WORD)
  }

  lemma AlwaysFresh<T>(s: Traced<T>, t: nat)
    requires FifoInv(s) && t < 2 && |s.q.slots| < HALF_WORD
    ensures Fresh(s.q, t)
  {
    assert ThreadOk(s.q, s.h, t);
  }

  lemma StartIsView<T>(ar: Arithmetic, capacity: nat)
    requires Fits(ar, capacity)
    ensures New<T>(capacity, 2) == View(ar, New(capacity, 2))
  {
  }

  /** Under either arithmetic a step shows the next state of the unbounded machine. */
  lemma NextIsView<T>(ar: Arithmetic, s: Traced<T>, a: Action<T>)
    requires FifoInv(s) && Fits(ar, |s.q.slots|)
    ensures Next(ar, View(ar, s.q), a) == View(ar, NextTraced(s, a).q)
  {
    if ar.Wrapping? {
      if a.tid < 2 { AlwaysFresh(s, a.tid); }
      StepsAgree(s, a);
    }
  }

  /** Replies look the same under either arithmetic, and so do calls under way. */
  lemma ThreadsInView<T>(ar: Arithmetic, q: Queue<T>, t: nat)
    requires t < |q.threads|
    ensures var th, v := q.threads[t], View(ar, q).threads[t];
            (AtRest(v) <==> AtRest(th)) && (AtRest(v) ==> v == th) && (v.Returned? <==> th.Returned?)
  {
  }

  /** Every run of the 64-bit queue with one producer and one consumer, overflow of its
      counters included, goes through the wrapped states of an unbounded run, whose replies
      are those of the atomic bounded FIFO. */
  lemma WrappingRunsAreFifoRuns<T>(capacity: nat, schedule: seq<Action<T>>)
    requires Fits(Wrapping, capacity) && AllWired(schedule)
    ensures var s := Reach(capacity, 2, schedule);
            && FifoInv(s)
            && Run(Wrapping, New(capacity, 2), schedule) == Wrapped(s.q)
            && FifoRun(capacity, Effects(capacity, schedule)) == Some(Contents(s))
  {
    RunsAreViews(Wrapping, capacity, schedule);
    RunsAreFifoRuns(capacity, schedule);
  }

  lemma {:induction false} RunsAreViews<T>(ar: Arithmetic, capacity: nat, schedule: seq<Action<T>>)
    requires Fits(ar, capacity) && AllWired(schedule)
    ensures FifoInv(Reach(capacity, 2, schedule))
    ensures Run(ar, New(capacity, 2), schedule) == View(ar, Reach(capacity, 2, schedule).q)
  {
    ReachableFifoInv(capacity, schedule);
    if schedule == [] {
      StartIsView<T>(ar, capacity);
    } else {
      RunsAreViews(ar, capacity, schedule[..|schedule| - 1]);
      NextIsView(ar, Reach(capacity, 2, schedule[..|schedule| - 1]), schedule[|schedule| - 1]);
    }
  }
}
