/** What the slot protocol guarantees in every state that any number of threads can
    reach under any schedule. */
module QueueSafety {
  import opened Wrappers
  import opened Words
  import opened MpmcQueue
  import opened QueueInvariant

  // ---- Exclusive access ----

  /** No two threads are between a successful compare-exchange and its release store
      on one slot; a push overwrites nothing; a claimed pop finds an item. */
  ghost predicate ExclusiveAccess<T>(q: Queue<T>)
    requires |q.slots| > 0
  {
    && (forall t, u :: 0 <= t < u < |q.threads| && !OwnsNothing(q.threads[t]) && !OwnsNothing(q.threads[u]) ==>
          SlotIndex(q, t) != SlotIndex(q, u))
    && (forall t :: 0 <= t < |q.threads| && q.threads[t].PushWrite? ==> q.slots[SlotIndex(q, t)].value.None?)
    && (forall t :: 0 <= t < |q.threads| && q.threads[t].PopTake? ==> q.slots[SlotIndex(q, t)].value.Some?)
  }

  function SlotIndex<T>(q: Queue<T>, t: nat): (i: nat)
    requires |q.slots| > 0 && t < |q.threads| && !OwnsNothing(q.threads[t])
    ensures i < |q.slots|
  {
    IndexOf(Unbounded, q.threads[t].pos, |q.slots|)
  }

  lemma WritesIntoNone<T>(s: Traced<T>, t: nat)
    requires Inv(s) && t < |s.q.threads| && s.q.threads[t].PushWrite?
    ensures s.q.slots[SlotIndex(s.q, t)].value.None?
  {
    assert ThreadOk(s.q, s.h, t);
    assert SlotOk(s.q, s.h, s.q.threads[t].pos);
  }

  lemma TakesFromSome<T>(s: Traced<T>, t: nat)
    requires Inv(s) && t < |s.q.threads| && s.q.threads[t].PopTake?
    ensures s.q.slots[SlotIndex(s.q, t)].value.Some?
  {
    var q := s.q;
    assert ThreadOk(q, s.h, t);
    Periodic(|q.slots|, q.threads[t].pos);
    assert SlotOk(q, s.h, q.threads[t].pos + |q.slots|);
  }

  lemma InvGivesExclusiveAccess<T>(s: Traced<T>)
    requires Inv(s)
    ensures ExclusiveAccess(s.q)
  {
    var q := s.q;
    forall t, u | 0 <= t < u < |q.threads| && !OwnsNothing(q.threads[t]) && !OwnsNothing(q.threads[u])
      ensures SlotIndex(q, t) != SlotIndex(q, u)
    {
      OwnersDiffer(s, t, u);
    }
    forall t | 0 <= t < |q.threads| && q.threads[t].PushWrite?
      ensures q.slots[SlotIndex(q, t)].value.None?
    {
      WritesIntoNone(s, t);
    }
    forall t | 0 <= t < |q.threads| && q.threads[t].PopTake?
      ensures q.slots[SlotIndex(q, t)].value.Some?
    {
      TakesFromSome(s, t);
    }
  }

  lemma AlwaysExclusive<T>(capacity: nat, threadCount: nat, schedule: seq<Action<T>>)
    requires capacity >= 2
    ensures ExclusiveAccess(Reach(capacity, threadCount, schedule).q)
  {
    ReachableInv(capacity, threadCount, schedule);
    InvGivesExclusiveAccess(Reach(capacity, threadCount, schedule));
  }

  /** A fresh single-slot queue: the second push finds `published` and `free for the
      next lap` to be the same number, and is about to overwrite the first item. */
  lemma OneSlotOverwrites() returns (schedule: seq<Action<int>>)
    ensures !ExclusiveAccess(Reach(1, 1, schedule).q)
  {
    var start := Start<int>(1, 1);
    ReachSolo(1, 1, [], CallPush(0, 7), 5);
    SoloPushFinishes(start, 0, 7);
    var first := [] + [CallPush(0, 7)] + Steps(0, 5);
    var one := Reach(1, 1, first);
    assert one.q == Queue([Slot(1, Some(7))], 1, 0, [Returned(PushOk)]);
    ReachSolo(1, 1, first, CallPush(0, 8), 3);
    SoloPushClaims(one, 0, 8);
    schedule := first + [CallPush(0, 8)] + Steps(0, 3);
    assert Reach(1, 1, schedule).q.threads[0] == PushWrite(8, 1);
  }

  /** `new` accepts every power of two. The protocol is sound for exactly those
      capacities that have at least two slots. */
  lemma SoundExactlyFromTwoSlots(capacity: nat)
    requires IsPowerOfTwo(capacity)
    ensures (forall threadCount: nat, schedule: seq<Action<int>> ::
               ExclusiveAccess(Reach(capacity, threadCount, schedule).q)) <==> capacity >= 2
  {
    if capacity >= 2 {
      forall threadCount: nat, schedule: seq<Action<int>>
        ensures ExclusiveAccess(Reach(capacity, threadCount, schedule).q)
      {
        AlwaysExclusive(capacity, threadCount, schedule);
      }
    } else {
      assert capacity == 1;
      var schedule := OneSlotOverwrites();
      assert !ExclusiveAccess(Reach(1, 1, schedule).q);
    }
  }

  // ---- Nothing lost, nothing delivered twice ----

  function Items<T>(claims: seq<Claim<T>>): (items: seq<T>)
    ensures |items| == |claims| && forall p :: 0 <= p < |claims| ==> items[p] == claims[p].item
  {
    seq(|claims|, p requires 0 <= p < |claims| => claims[p].item)
  }

  /** A thread holding what it took for position `pos` hands back the item that the
      push of `pos` claimed it with, in the name of the one thread that claimed `pos`. */
  lemma PopReturnsThePushedItem<T>(capacity: nat, threadCount: nat, schedule: seq<Action<T>>, t: nat)
    requires capacity >= 2 && t < threadCount
    requires Reach(capacity, threadCount, schedule).q.threads[t].PopStore?
    ensures var s := Reach(capacity, threadCount, schedule);
            var pos := s.q.threads[t].pos;
            && pos < |s.h.pops| && pos < |s.h.claims| && s.h.pops[pos] == t
            && NextTraced(s, Step(t, false)).q.threads[t] == Returned(PopSome(s.h.claims[pos].item))
  {
    ReachableInv(capacity, threadCount, schedule);
    var s := Reach(capacity, threadCount, schedule);
    assert ThreadOk(s.q, s.h, t);
    assert TakenOk(s.q, s.h, s.q.threads[t].pos);
  }

  /** Every dequeue position below the counter was taken with the item claimed at the
      same enqueue position, or its one claimant still stands right before the take. */
  lemma TakesMatchClaims<T>(capacity: nat, threadCount: nat, schedule: seq<Action<T>>)
    requires capacity >= 2
    ensures var s := Reach(capacity, threadCount, schedule);
            && |s.h.claims| == s.q.enqueuePos && |s.h.pops| == s.q.dequeuePos
            && s.q.dequeuePos <= s.q.enqueuePos <= s.q.dequeuePos + capacity
            && (forall p :: p in s.h.taken ==> p < s.q.dequeuePos && s.h.taken[p] == Some(s.h.claims[p].item))
            && (forall p :: 0 <= p < s.q.dequeuePos && p !in s.h.taken ==>
                  s.h.pops[p] < threadCount && s.q.threads[s.h.pops[p]] == PopTake(p))
  {
    ReachableInv(capacity, threadCount, schedule);
    var s := Reach(capacity, threadCount, schedule);
    forall p | 0 <= p < s.q.dequeuePos
      ensures if p in s.h.taken then s.h.taken[p] == Some(s.h.claims[p].item)
              else s.h.pops[p] < threadCount && s.q.threads[s.h.pops[p]] == PopTake(p)
    {
      assert TakenOk(s.q, s.h, p);
    }
  }

  /** A take is written down once: no later move changes or erases it. */
  lemma TakenOnce<T>(capacity: nat, threadCount: nat, schedule: seq<Action<T>>, a: Action<T>)
    requires capacity >= 2
    ensures var s := Reach(capacity, threadCount, schedule);
            forall p :: p in s.h.taken ==> p in NextTraced(s, a).h.taken && NextTraced(s, a).h.taken[p] == s.h.taken[p]
  {
    ReachableInv(capacity, threadCount, schedule);
    var s := Reach(capacity, threadCount, schedule);
    if a.tid < threadCount { assert ThreadOk(s.q, s.h, a.tid); }
  }

  ghost predicate Quiet<T>(q: Queue<T>) {
    forall t :: 0 <= t < |q.threads| ==> AtRest(q.threads[t])
  }

  /** The items delivered so far, in the order their positions were claimed. */
  function Delivered<T>(h: History<T>): seq<T>
    requires forall p :: 0 <= p < |h.pops| ==> p in h.taken && h.taken[p].Some?
  {
    seq(|h.pops|, p requires 0 <= p < |h.pops| => h.taken[p].value)
  }

  /** With no call under way, everything claimed was either delivered, in claim order
      and exactly once, or sits in its slot; every other slot is empty. */
  lemma QuietAccountsForEverything<T>(capacity: nat, threadCount: nat, schedule: seq<Action<T>>)
    requires capacity >= 2 && Quiet(Reach(capacity, threadCount, schedule).q)
    ensures var s := Reach(capacity, threadCount, schedule);
            && (forall p :: 0 <= p < |s.h.pops| ==> p in s.h.taken && s.h.taken[p].Some?)
            && Delivered(s.h) <= Items(s.h.claims)
            && (forall p :: s.q.dequeuePos <= p < s.q.enqueuePos ==>
                  p < |s.h.claims| && SlotFor(s.q, p) == Slot(p + 1, Some(s.h.claims[p].item)))
            && (forall p :: s.q.enqueuePos <= p < s.q.dequeuePos + capacity ==> SlotFor(s.q, p) == Slot(p, None))
  {
    ReachableInv(capacity, threadCount, schedule);
    TakesMatchClaims(capacity, threadCount, schedule);
    var s := Reach(capacity, threadCount, schedule);
    var q, h := s.q, s.h;
    forall p | 0 <= p < |h.pops| ensures p in h.taken && h.taken[p] == Some(h.claims[p].item) {
      assert AtRest(q.threads[h.pops[p]]);
    }
    assert Delivered(h) == Items(h.claims)[..|h.pops|];
    forall p | q.dequeuePos <= p < q.dequeuePos + capacity
      ensures SlotFor(q, p) == if p < q.enqueuePos then Slot(p + 1, Some(h.claims[p].item)) else Slot(p, None)
    {
      assert SlotOk(q, h, p);
    }
  }

  // ---- What a refusal means ----

  /** The item of position `p` is published: its push has done its release store. */
  ghost predicate Published<T>(s: Traced<T>, p: nat)
    requires Shape(s.q, s.h)
  {
    && p < s.q.enqueuePos
    && var th := s.q.threads[s.h.claims[p].tid];
       !(th == PushWrite(s.h.claims[p].item, p) || th == PushStore(p))
  }

  /** The slot of position `p` is released: its pop has done its release store. */
  ghost predicate Released<T>(s: Traced<T>, p: nat)
    requires Shape(s.q, s.h)
  {
    && p < s.q.dequeuePos
    && var th := s.q.threads[s.h.pops[p]];
       !((th.PopTake? || th.PopStore?) && th.pos == p)
  }

  /** A slot never runs behind a position that was once before the head. */
  lemma StaleSlotIsAhead<T>(s: Traced<T>, p: nat)
    requires Inv(s) && p < s.q.dequeuePos
    ensures SlotFor(s.q, p).sequence >= p + 1
    decreases s.q.dequeuePos - p
  {
    var capacity := |s.q.slots|;
    Periodic(capacity, p);
    if p + capacity < s.q.dequeuePos {
      StaleSlotIsAhead(s, p + capacity);
    } else {
      assert SlotOk(s.q, s.h, p + capacity);
    }
  }

  /** `push` refuses exactly when, at its load of `seq`, the position one lap behind
      its own was claimed by a push and not yet released by a pop. */
  lemma PushRefusedExactlyWhen<T>(capacity: nat, threadCount: nat, schedule: seq<Action<T>>, t: nat, spurious: bool)
    requires capacity >= 2 && t < threadCount
    requires Reach(capacity, threadCount, schedule).q.threads[t].PushProbe?
    ensures var s := Reach(capacity, threadCount, schedule);
            var pos := s.q.threads[t].pos;
            && Shape(s.q, s.h)
            && (Next(Unbounded, s.q, Step(t, spurious)).threads[t].Returned? <==>
                capacity <= pos && pos - capacity < s.q.enqueuePos && !Released(s, pos - capacity))
  {
    ReachableInv(capacity, threadCount, schedule);
    var s := Reach(capacity, threadCount, schedule);
    PushRefusal(s, t, spurious);
  }

  lemma PushRefusal<T>(s: Traced<T>, t: nat, spurious: bool)
    requires Inv(s) && t < |s.q.threads| && s.q.threads[t].PushProbe?
    ensures var pos := s.q.threads[t].pos;
            Next(Unbounded, s.q, Step(t, spurious)).threads[t].Returned? <==>
            |s.q.slots| <= pos && pos - |s.q.slots| < s.q.enqueuePos && !Released(s, pos - |s.q.slots|)
  {
    var q, h, pos, capacity := s.q, s.h, s.q.threads[t].pos, |s.q.slots|;
    assert ThreadOk(q, h, t);
    if capacity <= pos && pos - capacity < q.dequeuePos { assert ThreadOk(q, h, h.pops[pos - capacity]); }
    if pos >= capacity { Periodic(capacity, pos - capacity); }
    if pos < q.dequeuePos {
      StaleSlotIsAhead(s, pos);
    } else if pos < q.dequeuePos + capacity {
      assert SlotOk(q, h, pos);
    } else {
      assert SlotOk(q, h, pos - capacity);
    }
  }

  /** `pop` refuses exactly when, at its load of `seq`, the push of its position had
      not published. */
  lemma PopRefusedExactlyWhen<T>(capacity: nat, threadCount: nat, schedule: seq<Action<T>>, t: nat, spurious: bool)
    requires capacity >= 2 && t < threadCount
    requires Reach(capacity, threadCount, schedule).q.threads[t].PopProbe?
    ensures var s := Reach(capacity, threadCount, schedule);
            && Shape(s.q, s.h)
            && (Next(Unbounded, s.q, Step(t, spurious)).threads[t].Returned? <==> !Published(s, s.q.threads[t].pos))
  {
    ReachableInv(capacity, threadCount, schedule);
    PopRefusal(Reach(capacity, threadCount, schedule), t, spurious);
  }

  lemma PopRefusal<T>(s: Traced<T>, t: nat, spurious: bool)
    requires Inv(s) && t < |s.q.threads| && s.q.threads[t].PopProbe?
    ensures Next(Unbounded, s.q, Step(t, spurious)).threads[t].Returned? <==> !Published(s, s.q.threads[t].pos)
  {
    var q, h, pos := s.q, s.h, s.q.threads[t].pos;
    assert ThreadOk(q, h, t);
    if pos < q.enqueuePos { assert ThreadOk(q, h, h.claims[pos].tid); }
    if pos < q.dequeuePos { StaleSlotIsAhead(s, pos); } else { assert SlotOk(q, h, pos); }
  }

  /** No other call is under way. */
  ghost predicate Alone<T>(q: Queue<T>, t: nat) {
    forall u :: 0 <= u < |q.threads| && u != t ==> AtRest(q.threads[u])
  }

  /** With no other call under way, refusals mean exactly full and exactly empty. */
  lemma AloneRefusalsAreExact<T>(capacity: nat, threadCount: nat, schedule: seq<Action<T>>, t: nat, spurious: bool)
    requires capacity >= 2 && t < threadCount
    requires Alone(Reach(capacity, threadCount, schedule).q, t)
    ensures var q := Reach(capacity, threadCount, schedule).q;
            var th, th' := q.threads[t], Next(Unbounded, q, Step(t, spurious)).threads[t];
            && (th.PushProbe? && th'.Returned? ==> q.enqueuePos - q.dequeuePos == capacity)
            && (th.PushProbe? && th.pos == q.enqueuePos ==>
                  (th'.Returned? <==> q.enqueuePos - q.dequeuePos == capacity))
            && (th.PopProbe? && th'.Returned? ==> q.enqueuePos == q.dequeuePos)
            && (th.PopProbe? && th.pos == q.dequeuePos ==> (th'.Returned? <==> q.enqueuePos == q.dequeuePos))
  {
    ReachableInv(capacity, threadCount, schedule);
    var s := Reach(capacity, threadCount, schedule);
    assert ThreadOk(s.q, s.h, t);
    if s.q.threads[t].PushProbe? { PushRefusal(s, t, spurious); }
    if s.q.threads[t].PopProbe? { PopRefusal(s, t, spurious); }
  }

  lemma OneStalls() returns (schedule: seq<Action<int>>)
    ensures Reach(2, 3, schedule) ==
            Traced(Queue([Slot(0, None), Slot(1, None)], 1, 0, [PushWrite(7, 0), Idle, Idle]),
                   History([Claim(0, 7)], [], map[]))
  {
    ReachSolo(2, 3, [], CallPush(0, 7), 3);
    SoloPushClaims(Start<int>(2, 3), 0, 7);
    schedule := [] + [CallPush(0, 7)] + Steps(0, 3);
  }

  lemma OneStallsOnePublishes() returns (schedule: seq<Action<int>>)
    ensures Reach(2, 3, schedule) ==
            Traced(Queue([Slot(0, None), Slot(2, Some(8))], 2, 0, [PushWrite(7, 0), Returned(PushOk), Idle]),
                   History([Claim(0, 7), Claim(1, 8)], [], map[]))
  {
    var before := OneStalls();
    ReachSolo(2, 3, before, CallPush(1, 8), 5);
    SoloPushFinishes(Reach(2, 3, before), 1, 8);
    schedule := before + [CallPush(1, 8)] + Steps(1, 5);
  }

  /** With two producers `None` need not mean empty: producer 0 claims position 0 and
      stalls, producer 1 publishes position 1 and returns, and then a pop is refused. */
  lemma NoneDespiteACompletedPush() returns (schedule: seq<Action<int>>)
    ensures var s := Reach(2, 3, schedule);
            && s.q.threads == [PushWrite(7, 0), Returned(PushOk), Returned(PopNone)]
            && s.h == History([Claim(0, 7), Claim(1, 8)], [], map[])
  {
    var before := OneStallsOnePublishes();
    ReachSolo(2, 3, before, CallPop(2), 2);
    SoloPopRefused(Reach(2, 3, before), 2);
    schedule := before + [CallPop(2)] + Steps(2, 2);
  }
}
