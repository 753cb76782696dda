/** One producer and one consumer per queue, as the pipeline wires it: every run is
    a run of an atomic bounded FIFO, in which each call takes effect at the step that
    gives its reply (for a success, its release store). */
module QueueFifo {
  import opened Wrappers
  import opened MpmcQueue
  import opened QueueInvariant
  import opened QueueSafety

  const PRODUCER: nat := 0
  const CONSUMER: nat := 1

  // ---- The atomic bounded FIFO ----

  datatype Effect<T> = Silent | Enqueued(item: T) | Dequeued(item: T) | RefusedFull(item: T) | RefusedEmpty

  /** The FIFO's contents after one effect, or `None` if it would not have replied so. */
  function FifoStep<T(==)>(capacity: nat, contents: seq<T>, e: Effect<T>): Option<seq<T>> {
    match e
    case Silent => Some(contents)
    case Enqueued(item) => if |contents| < capacity then Some(contents + [item]) else None
    case Dequeued(item) => if contents != [] && contents[0] == item then Some(contents[1..]) else None
    case RefusedFull(_) => if |contents| == capacity then Some(contents) else None
    case RefusedEmpty => if contents == [] then Some(contents) else None
  }

  function FifoRun<T(==)>(capacity: nat, effects: seq<Effect<T>>): Option<seq<T>> {
    if effects == [] then Some([])
    else
      match FifoRun(capacity, effects[..|effects| - 1])
      case None => None
      case Some(contents) => FifoStep(capacity, contents, effects[|effects| - 1])
  }

  // ---- The machine with one producer and one consumer ----

  predicate Wired<T>(a: Action<T>) {
    match a
    case CallPush(t, _) => t == PRODUCER
    case CallPop(t) => t == CONSUMER
    case Step(_, _) => true
  }

  ghost predicate AllWired<T>(schedule: seq<Action<T>>) {
    forall k :: 0 <= k < |schedule| ==> Wired(schedule[k])
  }

  predicate IsPushing<T>(th: Thread<T>) {
    th.PushLoad? || th.PushProbe? || th.PushCas? || th.PushWrite? || th.PushStore?
  }

  predicate IsPopping<T>(th: Thread<T>) {
    th.PopLoad? || th.PopProbe? || th.PopCas? || th.PopTake? || th.PopStore?
  }

  ghost predicate FifoInv<T>(s: Traced<T>) {
    && Inv(s) && |s.q.threads| == 2
    && !IsPopping(s.q.threads[PRODUCER]) && !IsPushing(s.q.threads[CONSUMER])
    && (forall p :: 0 <= p < |s.h.claims| ==> s.h.claims[p].tid == PRODUCER)
    && (forall p :: 0 <= p < |s.h.pops| ==> s.h.pops[p] == CONSUMER)
    && (match s.q.threads[PRODUCER]
        case PushProbe(_, pos) => pos == s.q.enqueuePos
        case PushCas(_, pos) => pos == s.q.enqueuePos
        case PushWrite(_, pos) => pos == s.q.enqueuePos - 1
        case PushStore(pos) => pos == s.q.enqueuePos - 1
        case _ => true)
    && (match s.q.threads[CONSUMER]
        case PopProbe(pos) => pos == s.q.dequeuePos
        case PopCas(pos) => pos == s.q.dequeuePos
        case PopTake(pos) => pos == s.q.dequeuePos - 1
        case PopStore(pos, _) => pos == s.q.dequeuePos - 1
        case _ => true)
  }

  /** How many pushes have done their release store. */
  function PublishedCount<T>(q: Queue<T>): int
    requires |q.threads| == 2
  {
    if OwnsNothing(q.threads[PRODUCER]) then q.enqueuePos else q.enqueuePos - 1
  }

  /** How many pops have done their release store. */
  function ReleasedCount<T>(q: Queue<T>): int
    requires |q.threads| == 2
  {
    if OwnsNothing(q.threads[CONSUMER]) then q.dequeuePos else q.dequeuePos - 1
  }

  lemma CountsInRange<T>(s: Traced<T>)
    requires FifoInv(s)
    ensures 0 <= ReleasedCount(s.q) <= PublishedCount(s.q) <= |s.h.claims|
    ensures PublishedCount(s.q) - ReleasedCount(s.q) <= |s.q.slots|
  {
    var q, h := s.q, s.h;
    assert ThreadOk(q, h, PRODUCER) && ThreadOk(q, h, CONSUMER);
    assert SlotOk(q, h, q.dequeuePos);
  }

  /** The items published and not yet released. */
  ghost function Contents<T>(s: Traced<T>): (items: seq<T>)
    requires FifoInv(s)
    ensures |items| == PublishedCount(s.q) - ReleasedCount(s.q) <= |s.q.slots|
  {
    CountsInRange(s);
    Items(s.h.claims)[ReleasedCount(s.q)..PublishedCount(s.q)]
  }

  /** What the caller of the moving thread sees: a reply, or nothing yet. */
  ghost function EffectOf<T>(s: Traced<T>, a: Action<T>): Effect<T>
    requires FifoInv(s)
  {
    if !a.Step? || a.tid >= 2 || AtRest(s.q.threads[a.tid]) then Silent else
    match Next(Unbounded, s.q, a).threads[a.tid]
    case Returned(PushOk) =>
      assert s.q.threads[a.tid].PushStore?;
      assert ThreadOk(s.q, s.h, a.tid);
      Enqueued(s.h.claims[s.q.threads[a.tid].pos].item)
    case Returned(PushErr(item)) => RefusedFull(item)
    case Returned(PopSome(item)) => Dequeued(item)
    case Returned(PopNone) => RefusedEmpty
    case _ => Silent
  }

  lemma ProducerKeepsFifoInv<T>(s: Traced<T>, a: Action<T>)
    requires FifoInv(s) && Wired(a) && a.tid == PRODUCER
    ensures FifoInv(NextTraced(s, a))
  {
    StepKeepsInv(s, a);
    assert ThreadOk(s.q, s.h, PRODUCER);
  }

  lemma ConsumerKeepsFifoInv<T>(s: Traced<T>, a: Action<T>)
    requires FifoInv(s) && Wired(a) && a.tid == CONSUMER
    ensures FifoInv(NextTraced(s, a))
  {
    StepKeepsInv(s, a);
    assert ThreadOk(s.q, s.h, CONSUMER);
  }

  lemma FifoInvKept<T>(s: Traced<T>, a: Action<T>)
    requires FifoInv(s) && Wired(a)
    ensures FifoInv(NextTraced(s, a))
  {
    if a.tid == PRODUCER {
      ProducerKeepsFifoInv(s, a);
    } else if a.tid == CONSUMER {
      ConsumerKeepsFifoInv(s, a);
    }
  }

  /** A push's release store is the instant its item enters the FIFO. */
  lemma PushStoreEnqueues<T>(s: Traced<T>, a: Action<T>)
    requires FifoInv(s) && a.Step? && a.tid == PRODUCER && s.q.threads[PRODUCER].PushStore?
    ensures FifoInv(NextTraced(s, a)) && EffectOf(s, a).Enqueued? && |Contents(s)| < |s.q.slots|
    ensures Contents(NextTraced(s, a)) == Contents(s) + [EffectOf(s, a).item]
  {
    ProducerKeepsFifoInv(s, a);
    var s' := NextTraced(s, a);
    CountsInRange(s);
    CountsInRange(s');
    assert s'.h == s.h;
    assert PublishedCount(s'.q) == PublishedCount(s.q) + 1 && ReleasedCount(s'.q) == ReleasedCount(s.q);
  }

  /** A pop's release store is the instant its item leaves the FIFO. */
  lemma PopStoreDequeues<T>(s: Traced<T>, a: Action<T>)
    requires FifoInv(s) && a.Step? && a.tid == CONSUMER && s.q.threads[CONSUMER].PopStore?
    ensures FifoInv(NextTraced(s, a)) && Contents(s) != []
    ensures EffectOf(s, a) == Dequeued(Contents(s)[0]) && Contents(NextTraced(s, a)) == Contents(s)[1..]
  {
    ConsumerKeepsFifoInv(s, a);
    var s' := NextTraced(s, a);
    var pos := s.q.threads[CONSUMER].pos;
    assert ThreadOk(s.q, s.h, CONSUMER);
    assert TakenOk(s.q, s.h, pos);
    CountsInRange(s);
    CountsInRange(s');
    assert s'.h == s.h;
    assert ReleasedCount(s'.q) == ReleasedCount(s.q) + 1 && PublishedCount(s'.q) == PublishedCount(s.q);
  }

  /** Contents are the same if the same pushes are published and the same pops released. */
  lemma SameContents<T>(s: Traced<T>, s': Traced<T>)
    requires FifoInv(s) && FifoInv(s') && s.h.claims <= s'.h.claims
    requires PublishedCount(s'.q) == PublishedCount(s.q) && ReleasedCount(s'.q) == ReleasedCount(s.q)
    ensures Contents(s') == Contents(s)
  {
    CountsInRange(s);
  }

  lemma ProducerKeepsCounts<T>(s: Traced<T>, a: Action<T>)
    requires FifoInv(s) && Wired(a) && a.tid == PRODUCER
    requires a.Step? ==> !s.q.threads[PRODUCER].PushStore?
    ensures var s' := NextTraced(s, a);
            && s.h.claims <= s'.h.claims
            && PublishedCount(s'.q) == PublishedCount(s.q) && ReleasedCount(s'.q) == ReleasedCount(s.q)
  {
    assert s.q.threads[CONSUMER] == NextTraced(s, a).q.threads[CONSUMER];
  }

  lemma ConsumerKeepsCounts<T>(s: Traced<T>, a: Action<T>)
    requires FifoInv(s) && Wired(a) && a.tid == CONSUMER
    requires a.Step? ==> !s.q.threads[CONSUMER].PopStore?
    ensures var s' := NextTraced(s, a);
            && s.h.claims <= s'.h.claims
            && PublishedCount(s'.q) == PublishedCount(s.q) && ReleasedCount(s'.q) == ReleasedCount(s.q)
  {
    assert s.q.threads[PRODUCER] == NextTraced(s, a).q.threads[PRODUCER];
  }

  /** Every other step leaves the FIFO's contents alone. */
  lemma OtherStepsKeepContents<T>(s: Traced<T>, a: Action<T>)
    requires FifoInv(s) && Wired(a)
    requires a.Step? && a.tid < 2 ==> !s.q.threads[a.tid].PushStore? && !s.q.threads[a.tid].PopStore?
    ensures FifoInv(NextTraced(s, a)) && Contents(NextTraced(s, a)) == Contents(s)
  {
    FifoInvKept(s, a);
    if a.tid == PRODUCER {
      ProducerKeepsCounts(s, a);
    } else if a.tid == CONSUMER {
      ConsumerKeepsCounts(s, a);
    }
    SameContents(s, NextTraced(s, a));
  }

  /** A push is refused exactly when the FIFO is full at its load of `seq`. */
  lemma RefusedOnlyFull<T>(s: Traced<T>, spurious: bool)
    requires FifoInv(s) && s.q.threads[PRODUCER].PushProbe?
    ensures EffectOf(s, Step(PRODUCER, spurious)).RefusedFull? <==> |Contents(s)| == |s.q.slots|
    ensures EffectOf(s, Step(PRODUCER, spurious)).RefusedFull? || EffectOf(s, Step(PRODUCER, spurious)).Silent?
  {
    PushRefusal(s, PRODUCER, spurious);
    assert ThreadOk(s.q, s.h, CONSUMER);
    CountsInRange(s);
  }

  /** A pop is refused exactly when the FIFO is empty at its load of `seq`. */
  lemma RefusedOnlyEmpty<T>(s: Traced<T>, spurious: bool)
    requires FifoInv(s) && s.q.threads[CONSUMER].PopProbe?
    ensures EffectOf(s, Step(CONSUMER, spurious)) == RefusedEmpty <==> Contents(s) == []
    ensures EffectOf(s, Step(CONSUMER, spurious)) == RefusedEmpty || EffectOf(s, Step(CONSUMER, spurious)).Silent?
  {
    PopRefusal(s, CONSUMER, spurious);
    assert ThreadOk(s.q, s.h, PRODUCER);
    CountsInRange(s);
  }

  lemma StepIsFifoStep<T>(s: Traced<T>, a: Action<T>)
    requires FifoInv(s) && Wired(a)
    ensures FifoInv(NextTraced(s, a))
    ensures FifoStep(|s.q.slots|, Contents(s), EffectOf(s, a)) == Some(Contents(NextTraced(s, a)))
  {
    if a.Step? && a.tid < 2 && s.q.threads[a.tid].PushStore? {
      PushStoreEnqueues(s, a);
    } else if a.Step? && a.tid < 2 && s.q.threads[a.tid].PopStore? {
      PopStoreDequeues(s, a);
    } else {
      OtherStepsKeepContents(s, a);
      if a.Step? && a.tid == PRODUCER && s.q.threads[PRODUCER].PushProbe? {
        RefusedOnlyFull(s, a.spurious);
      } else if a.Step? && a.tid == CONSUMER && s.q.threads[CONSUMER].PopProbe? {
        RefusedOnlyEmpty(s, a.spurious);
      }
    }
  }

  lemma {:induction false} ReachableFifoInv<T>(capacity: nat, schedule: seq<Action<T>>)
    requires capacity >= 2 && AllWired(schedule)
    ensures FifoInv(Reach(capacity, 2, schedule))
  {
    ReachableInv(capacity, 2, schedule);
    if schedule != [] {
      ReachableFifoInv(capacity, schedule[..|schedule| - 1]);
      FifoInvKept(Reach(capacity, 2, schedule[..|schedule| - 1]), schedule[|schedule| - 1]);
    }
  }

  /** The replies of a whole schedule, in the order they are given. */
  ghost function Effects<T>(capacity: nat, schedule: seq<Action<T>>): (effects: seq<Effect<T>>)
    requires capacity >= 2 && AllWired(schedule)
    ensures |effects| == |schedule|
  {
    if schedule == [] then []
    else
      var before := schedule[..|schedule| - 1];
      ReachableFifoInv(capacity, before);
      Effects(capacity, before) + [EffectOf(Reach(capacity, 2, before), schedule[|schedule| - 1])]
  }

  /** Linearizability: the atomic FIFO accepts the replies of every run, in the order
      they are given, and ends with what the ring buffer holds. */
  lemma {:induction false} RunsAreFifoRuns<T>(capacity: nat, schedule: seq<Action<T>>)
    requires capacity >= 2 && AllWired(schedule)
    ensures FifoInv(Reach(capacity, 2, schedule))
    ensures FifoRun(capacity, Effects(capacity, schedule)) == Some(Contents(Reach(capacity, 2, schedule)))
  {
    ReachableFifoInv(capacity, schedule);
    if schedule != [] {
      var before := schedule[..|schedule| - 1];
      RunsAreFifoRuns(capacity, before);
      var effects := Effects(capacity, schedule);
      assert effects[..|effects| - 1] == Effects(capacity, before);
      StepIsFifoStep(Reach(capacity, 2, before), schedule[|schedule| - 1]);
    }
  }
}
