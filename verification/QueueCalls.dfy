/** A call on a one-producer, one-consumer queue, seen by its caller step by step. */
module QueueCalls {
  import opened MpmcQueue
  import opened QueueInvariant
  import opened QueueFifo

  /** The producer is in the middle of pushing this item. */
  ghost predicate Carrying<T>(s: Traced<T>, item: T) {
    && |s.q.threads| == 2
    && match s.q.threads[PRODUCER]
       case PushLoad(it) => it == item
       case PushProbe(it, _) => it == item
       case PushCas(it, _) => it == item
       case PushWrite(it, _) => it == item
       case PushStore(pos) => pos < |s.h.claims| && s.h.claims[pos].item == item
       case _ => false
  }

  /** What a finished push of an item has handed over. */
  function Handed<T>(th: Thread<T>, item: T): seq<T> {
    if th.Returned? && th.reply.PushOk? then [item] else []
  }

  /** What one step of a push means to its caller: if it is accepted there was room and
      the item is now last, if it is refused the queue is full, else it goes on. */
  ghost predicate PushStepped<T>(s: Traced<T>, item: T, s': Traced<T>)
    requires FifoInv(s)
  {
    && FifoInv(s') && |s'.q.slots| == |s.q.slots| && s'.q.threads[CONSUMER] == s.q.threads[CONSUMER]
    && var th := s'.q.threads[PRODUCER];
       && Contents(s') == Contents(s) + Handed(th, item)
       && (th == Returned(PushOk) ==> |Contents(s)| < |s.q.slots|)
       && (th.Returned? && !th.reply.PushOk? ==> |Contents(s)| == |s.q.slots|)
       && (if AtRest(th) then th.Returned? else Carrying(s', item))
  }

  /** What a finished pop hands over. */
  function Gained<T>(th: Thread<T>): seq<T> {
    if th.Returned? && th.reply.PopSome? then [th.reply.item] else []
  }

  /** What one step of a pop means to its caller: an item means it was first and is gone,
      `None` means empty, else the call goes on. */
  ghost predicate PopStepped<T>(s: Traced<T>, s': Traced<T>)
    requires FifoInv(s)
  {
    && FifoInv(s') && |s'.q.slots| == |s.q.slots|
    && s'.q.threads[PRODUCER] == s.q.threads[PRODUCER] && s'.h.claims == s.h.claims
    && var th := s'.q.threads[CONSUMER];
       && Contents(s) == Gained(th) + Contents(s')
       && (th == Returned(PopNone) ==> Contents(s) == [])
       && (if AtRest(th) then th.Returned? && (th.reply.PopSome? || th.reply.PopNone?) else IsPopping(th))
  }

  lemma StepOfPush<T>(s: Traced<T>, item: T, spurious: bool)
    requires FifoInv(s) && Carrying(s, item)
    ensures PushStepped(s, item, NextTraced(s, Step(PRODUCER, spurious)))
  {
    StepIsFifoStep(s, Step(PRODUCER, spurious));
    assert ThreadOk(s.q, s.h, PRODUCER);
  }

  lemma StepOfPop<T>(s: Traced<T>, spurious: bool)
    requires FifoInv(s) && IsPopping(s.q.threads[CONSUMER])
    ensures PopStepped(s, NextTraced(s, Step(CONSUMER, spurious)))
  {
    StepIsFifoStep(s, Step(CONSUMER, spurious));
  }

  /** A call that begins changes nothing but its own thread. */
  lemma PushBegins<T>(s: Traced<T>, item: T)
    requires FifoInv(s) && AtRest(s.q.threads[PRODUCER])
    ensures var s' := NextTraced(s, CallPush(PRODUCER, item));
            && FifoInv(s') && |s'.q.slots| == |s.q.slots| && Contents(s') == Contents(s)
            && Carrying(s', item) && s'.q.threads[CONSUMER] == s.q.threads[CONSUMER]
  {
    StepIsFifoStep(s, CallPush(PRODUCER, item));
  }

  lemma PopBegins<T>(s: Traced<T>)
    requires FifoInv(s) && AtRest(s.q.threads[CONSUMER])
    ensures var s' := NextTraced(s, CallPop(CONSUMER));
            && FifoInv(s') && |s'.q.slots| == |s.q.slots| && Contents(s') == Contents(s)
            && IsPopping(s'.q.threads[CONSUMER])
            && s'.q.threads[PRODUCER] == s.q.threads[PRODUCER] && s'.h.claims == s.h.claims
  {
    StepIsFifoStep(s, CallPop(CONSUMER));
  }

  /** What the queue holds after a schedule. */
  ghost function Held<T>(capacity: nat, schedule: seq<Action<T>>): (items: seq<T>)
    requires capacity >= 2 && AllWired(schedule)
    ensures |items| <= capacity
  {
    ReachableFifoInv(capacity, schedule);
    Contents(Reach(capacity, 2, schedule))
  }

  /** One more wired move. */
  lemma HeldNext<T>(capacity: nat, schedule: seq<Action<T>>, a: Action<T>)
    requires capacity >= 2 && AllWired(schedule) && Wired(a)
    ensures var s, s' := Reach(capacity, 2, schedule), Reach(capacity, 2, schedule + [a]);
            && AllWired(schedule + [a]) && s' == NextTraced(s, a) && FifoInv(s) && FifoInv(s')
            && Held(capacity, schedule) == Contents(s) && Held(capacity, schedule + [a]) == Contents(s')
  {
    ReachableFifoInv(capacity, schedule);
    assert (schedule + [a])[..|schedule|] == schedule;
    ReachableFifoInv(capacity, schedule + [a]);
  }
}
