/** What can go wrong on 64 bits when a thread sleeps for too long: runs in which a push loads
    a position, sleeps while other calls take the counters all the way round, and is then
    refused by an empty queue, or overwrites an item. */
module QueueStale {
  import opened Wrappers
  import opened Words
  import opened MpmcQueue
  import opened QueueInvariant
  import opened QueueSafety
  import opened QueueWrap

  // ---- One thread at work, the others asleep ----

  /** The ring after `enq` pushes and `deq` pops of an item by a thread that is now at rest. */
  ghost predicate Holds(q: Queue<int>, t: nat, item: int, deq: nat, enq: nat) {
    && |q.slots| > 0 && t < |q.threads| && AtRest(q.threads[t])
    && q.dequeuePos == deq && q.enqueuePos == enq && deq <= enq <= deq + |q.slots|
    && forall p :: deq <= p < deq + |q.slots| ==> SlotHolds(q, item, enq, p)
  }

  ghost predicate SlotHolds(q: Queue<int>, item: int, enq: nat, p: nat)
    requires |q.slots| > 0
  {
    SlotFor(q, p) == if p < enq then Slot(p + 1, Some(item)) else Slot(p, None)
  }

  lemma PushHolds(q: Queue<int>, q': Queue<int>, t: nat, item: int, deq: nat, enq: nat)
    requires Holds(q, t, item, deq, enq) && enq < deq + |q.slots|
    requires q' == SetThread(q, t, Returned(PushOk))
                   .(enqueuePos := enq + 1,
                     slots := q.slots[IndexOf(Unbounded, enq, |q.slots|) := Slot(enq + 1, Some(item))])
    ensures Holds(q', t, item, deq, enq + 1)
  {
    var enq' := enq + 1;
    forall p | deq <= p < deq + |q'.slots| ensures SlotHolds(q', item, enq', p) {
      assert SlotHolds(q, item, enq, p);
      if p < enq { ResiduesDiffer(|q.slots|, p, enq); }
      if enq < p { ResiduesDiffer(|q.slots|, enq, p); }
    }
  }

  lemma PopHolds(q: Queue<int>, q': Queue<int>, t: nat, item: int, deq: nat, enq: nat, reply: Reply<int>)
    requires Holds(q, t, item, deq, enq) && deq < enq
    requires q' == SetThread(q, t, Returned(reply))
                   .(dequeuePos := deq + 1,
                     slots := q.slots[IndexOf(Unbounded, deq, |q.slots|) := Slot(deq + |q.slots|, None)])
    ensures Holds(q', t, item, deq + 1, enq)
  {
    var deq' := deq + 1;
    forall p | deq' <= p < deq' + |q'.slots| ensures SlotHolds(q', item, enq, p) {
      if p < deq + |q.slots| {
        assert SlotHolds(q, item, enq, p);
        ResiduesDiffer(|q.slots|, deq, p);
      } else {
        Periodic(|q.slots|, deq);
      }
    }
  }

  lemma PushesOne(s: Traced<int>, t: nat, item: int, deq: nat, enq: nat)
    requires Holds(s.q, t, item, deq, enq) && enq < deq + |s.q.slots|
    ensures s.q.slots[IndexOf(Unbounded, enq, |s.q.slots|)].sequence == enq
    ensures var q' := Solo(NextTraced(s, CallPush(t, item)), t, 5).q;
            Holds(q', t, item, deq, enq + 1) && q'.threads == s.q.threads[t := Returned(PushOk)]
  {
    assert SlotHolds(s.q, item, enq, enq);
    SoloPushFinishes(s, t, item);
    PushHolds(s.q, Solo(NextTraced(s, CallPush(t, item)), t, 5).q, t, item, deq, enq);
  }

  lemma PopsOne(s: Traced<int>, t: nat, item: int, deq: nat, enq: nat)
    requires Holds(s.q, t, item, deq, enq) && deq < enq
    ensures s.q.slots[IndexOf(Unbounded, deq, |s.q.slots|)].sequence == deq + 1
    ensures var q' := Solo(NextTraced(s, CallPop(t)), t, 5).q;
            Holds(q', t, item, deq + 1, enq) && q'.threads == s.q.threads[t := Returned(PopSome(item))]
  {
    assert SlotHolds(s.q, item, enq, deq);
    SoloPopFinishes(s, t);
    PopHolds(s.q, Solo(NextTraced(s, CallPop(t)), t, 5).q, t, item, deq, enq, PopSome(item));
  }

  // ---- The 64-bit queue follows ----

  ghost predicate Agrees(capacity: nat, threadCount: nat, schedule: seq<Action<int>>) {
    && IsPowerOfTwo(capacity) && capacity > 0
    && Run(Wrapping, New(capacity, threadCount), schedule) == Wrapped(Reach(capacity, threadCount, schedule).q)
  }

  lemma NewFollows(capacity: nat, threadCount: nat)
    requires IsPowerOfTwo(capacity)
    ensures Agrees(capacity, threadCount, [])
  {
    NewAgrees<int>(capacity, threadCount, []);
  }

  lemma AgreesNext(capacity: nat, threadCount: nat, schedule: seq<Action<int>>, a: Action<int>)
    requires Agrees(capacity, threadCount, schedule) && SameBranch(Reach(capacity, threadCount, schedule).q, a)
    ensures Agrees(capacity, threadCount, schedule + [a])
  {
    StepAgreesExactlyWhen(Reach(capacity, threadCount, schedule).q, a);
    ReachStep(capacity, threadCount, schedule, a);
    assert (schedule + [a])[..|schedule|] == schedule;
  }

  lemma AgreesOneLonger(capacity: nat, threadCount: nat, schedule: seq<Action<int>>, t: nat, n: nat)
    requires Agrees(capacity, threadCount, schedule + Steps(t, n))
    requires SameBranch(Solo(Reach(capacity, threadCount, schedule), t, n).q, Step(t, false))
    ensures Agrees(capacity, threadCount, schedule + Steps(t, n + 1))
  {
    ReachAlone(capacity, threadCount, schedule, t, n);
    AgreesNext(capacity, threadCount, schedule + Steps(t, n), Step(t, false));
    OneStepLonger(schedule, t, n);
  }

  lemma {:induction false} AgreesAlone(capacity: nat, threadCount: nat, schedule: seq<Action<int>>, t: nat, n: nat)
    requires Agrees(capacity, threadCount, schedule)
    requires forall k :: 0 <= k < n ==>
               SameBranch(Solo(Reach(capacity, threadCount, schedule), t, k).q, Step(t, false))
    ensures Agrees(capacity, threadCount, schedule + Steps(t, n))
  {
    if n == 0 {
      assert schedule + Steps(t, 0) == schedule;
    } else {
      AgreesAlone(capacity, threadCount, schedule, t, n - 1);
      AgreesOneLonger(capacity, threadCount, schedule, t, n - 1);
    }
  }

  lemma PushBranchesAlike(s: Traced<int>, t: nat, item: int, k: nat)
    requires |s.q.slots| > 0 && t < |s.q.threads| && AtRest(s.q.threads[t]) && k < 5
    requires s.q.slots[IndexOf(Unbounded, s.q.enqueuePos, |s.q.slots|)].sequence == s.q.enqueuePos
    ensures SameBranch(Solo(NextTraced(s, CallPush(t, item)), t, k).q, Step(t, false))
  {
    SoloPushClaims(s, t, item);
    var q := Solo(NextTraced(s, CallPush(t, item)), t, k).q;
    if k == 0 {
      assert q.threads[t].PushLoad?;
    } else if k <= 2 {
      StandsAtTail(s.q, q, t, item);
    } else {
      if k == 4 { SoloPushStores(s, t, item); }
      OwnersBranchAlike(q, t);
    }
  }

  lemma StandsAtTail(q: Queue<int>, q': Queue<int>, t: nat, item: int)
    requires |q.slots| > 0 && t < |q.threads|
    requires q' == SetThread(q, t, PushProbe(item, q.enqueuePos)) || q' == SetThread(q, t, PushCas(item, q.enqueuePos))
    requires q.slots[IndexOf(Unbounded, q.enqueuePos, |q.slots|)].sequence == q.enqueuePos
    ensures SameBranch(q', Step(t, false))
  {
  }

  lemma OwnersBranchAlike(q: Queue<int>, t: nat)
    requires |q.slots| > 0 && t < |q.threads| && !OwnsNothing(q.threads[t])
    ensures SameBranch(q, Step(t, false))
  {
  }

  lemma SoloPushStores(s: Traced<int>, t: nat, item: int)
    requires |s.q.slots| > 0 && t < |s.q.threads| && AtRest(s.q.threads[t])
    requires s.q.slots[IndexOf(Unbounded, s.q.enqueuePos, |s.q.slots|)].sequence == s.q.enqueuePos
    ensures Solo(NextTraced(s, CallPush(t, item)), t, 4).q.threads[t].PushStore?
  {
    SoloPushClaims(s, t, item);
  }

  lemma SoloPopStores(s: Traced<int>, t: nat)
    requires |s.q.slots| > 0 && t < |s.q.threads| && AtRest(s.q.threads[t])
    requires s.q.slots[IndexOf(Unbounded, s.q.dequeuePos, |s.q.slots|)].sequence == s.q.dequeuePos + 1
    ensures Solo(NextTraced(s, CallPop(t)), t, 4).q.threads[t].PopStore?
  {
    SoloPopClaims(s, t);
  }

  lemma StandsAtHead(q: Queue<int>, q': Queue<int>, t: nat)
    requires |q.slots| > 0 && t < |q.threads|
    requires q' == SetThread(q, t, PopProbe(q.dequeuePos)) || q' == SetThread(q, t, PopCas(q.dequeuePos))
    requires q.slots[IndexOf(Unbounded, q.dequeuePos, |q.slots|)].sequence == q.dequeuePos + 1
    ensures SameBranch(q', Step(t, false))
  {
  }

  lemma PopBranchesAlike(s: Traced<int>, t: nat, k: nat)
    requires |s.q.slots| > 0 && t < |s.q.threads| && AtRest(s.q.threads[t]) && k < 5
    requires s.q.slots[IndexOf(Unbounded, s.q.dequeuePos, |s.q.slots|)].sequence == s.q.dequeuePos + 1
    ensures SameBranch(Solo(NextTraced(s, CallPop(t)), t, k).q, Step(t, false))
  {
    SoloPopClaims(s, t);
    var q := Solo(NextTraced(s, CallPop(t)), t, k).q;
    if k == 0 {
      assert q.threads[t].PopLoad?;
    } else if k <= 2 {
      StandsAtHead(s.q, q, t);
    } else {
      if k == 4 { SoloPopStores(s, t); }
      OwnersBranchAlike(q, t);
    }
  }

  /** A call and the first `n` of its five steps, on a slot that lets it through. */
  lemma PushAgrees(capacity: nat, threadCount: nat, schedule: seq<Action<int>>, t: nat, item: int, n: nat)
    requires Agrees(capacity, threadCount, schedule) && t < threadCount && n <= 5
    requires var q := Reach(capacity, threadCount, schedule).q;
             AtRest(q.threads[t]) && q.slots[IndexOf(Unbounded, q.enqueuePos, capacity)].sequence == q.enqueuePos
    ensures Agrees(capacity, threadCount, schedule + [CallPush(t, item)] + Steps(t, n))
  {
    var s, a := Reach(capacity, threadCount, schedule), CallPush(t, item);
    AgreesNext(capacity, threadCount, schedule, a);
    ReachStep(capacity, threadCount, schedule, a);
    forall k | 0 <= k < n
      ensures SameBranch(Solo(Reach(capacity, threadCount, schedule + [a]), t, k).q, Step(t, false))
    {
      PushBranchesAlike(s, t, item, k);
    }
    AgreesAlone(capacity, threadCount, schedule + [a], t, n);
  }

  lemma PopAgrees(capacity: nat, threadCount: nat, schedule: seq<Action<int>>, t: nat)
    requires Agrees(capacity, threadCount, schedule) && t < threadCount
    requires var q := Reach(capacity, threadCount, schedule).q;
             AtRest(q.threads[t]) && q.slots[IndexOf(Unbounded, q.dequeuePos, capacity)].sequence == q.dequeuePos + 1
    ensures Agrees(capacity, threadCount, schedule + [CallPop(t)] + Steps(t, 5))
  {
    var s, a := Reach(capacity, threadCount, schedule), Action<int>.CallPop(t);
    AgreesNext(capacity, threadCount, schedule, a);
    ReachStep(capacity, threadCount, schedule, a);
    forall k | 0 <= k < 5
      ensures SameBranch(Solo(Reach(capacity, threadCount, schedule + [a]), t, k).q, Step(t, false))
    {
      PopBranchesAlike(s, t, k);
    }
    AgreesAlone(capacity, threadCount, schedule + [a], t, 5);
  }

  // ---- Laps ----

  /** After a schedule both machines hold so many items, and every thread but `t` stands
      where `asleep` says. */
  ghost predicate Stands(capacity: nat, asleep: seq<Thread<int>>, t: nat, item: int,
                         schedule: seq<Action<int>>, deq: nat, enq: nat)
  {
    && Agrees(capacity, |asleep|, schedule)
    && var q := Reach(capacity, |asleep|, schedule).q;
       Holds(q, t, item, deq, enq) && q.threads == asleep[t := q.threads[t]]
  }

  lemma StandsPush(capacity: nat, asleep: seq<Thread<int>>, t: nat, item: int,
                   schedule: seq<Action<int>>, deq: nat, enq: nat)
    returns (longer: seq<Action<int>>)
    requires t < |asleep| && Stands(capacity, asleep, t, item, schedule, deq, enq) && enq < deq + capacity
    ensures Stands(capacity, asleep, t, item, longer, deq, enq + 1)
  {
    longer := schedule + [CallPush(t, item)] + Steps(t, 5);
    PushesOne(Reach(capacity, |asleep|, schedule), t, item, deq, enq);
    PushAgrees(capacity, |asleep|, schedule, t, item, 5);
    ReachSolo(capacity, |asleep|, schedule, CallPush(t, item), 5);
  }

  lemma StandsPop(capacity: nat, asleep: seq<Thread<int>>, t: nat, item: int,
                  schedule: seq<Action<int>>, deq: nat, enq: nat)
    returns (longer: seq<Action<int>>)
    requires t < |asleep| && Stands(capacity, asleep, t, item, schedule, deq, enq) && deq < enq
    ensures Stands(capacity, asleep, t, item, longer, deq + 1, enq)
  {
    longer := schedule + [CallPop(t)] + Steps(t, 5);
    PopsOne(Reach(capacity, |asleep|, schedule), t, item, deq, enq);
    PopAgrees(capacity, |asleep|, schedule, t);
    ReachSolo(capacity, |asleep|, schedule, CallPop(t), 5);
  }

  /** `n` pushes, each followed by a pop. */
  lemma {:induction false} Laps(capacity: nat, asleep: seq<Thread<int>>, t: nat, item: int,
                                schedule: seq<Action<int>>, n: nat)
    returns (longer: seq<Action<int>>)
    requires t < |asleep| && Stands(capacity, asleep, t, item, schedule, 0, 0)
    ensures Stands(capacity, asleep, t, item, longer, n, n)
  {
    longer := schedule;
    if n > 0 {
      longer := Laps(capacity, asleep, t, item, schedule, n - 1);
      longer := StandsPush(capacity, asleep, t, item, longer, n - 1, n - 1);
      longer := StandsPop(capacity, asleep, t, item, longer, n - 1, n);
    }
  }

  /** `n` pushes with no pop. */
  lemma {:induction false} Fills(capacity: nat, asleep: seq<Thread<int>>, t: nat, item: int,
                                 schedule: seq<Action<int>>, deq: nat, n: nat)
    returns (longer: seq<Action<int>>)
    requires t < |asleep| && Stands(capacity, asleep, t, item, schedule, deq, deq) && n <= capacity
    ensures Stands(capacity, asleep, t, item, longer, deq, deq + n)
  {
    longer := schedule;
    if n > 0 {
      longer := Fills(capacity, asleep, t, item, schedule, deq, n - 1);
      longer := StandsPush(capacity, asleep, t, item, longer, deq, deq + (n - 1));
    }
  }

  // ---- Falling asleep ----

  lemma StartStands(capacity: nat, threadCount: nat, t: nat, item: int)
    requires IsPowerOfTwo(capacity) && t < threadCount
    ensures Stands(capacity, seq(threadCount, (i: nat) => Idle), t, item, [], 0, 0)
  {
    NewFollows(capacity, threadCount);
    var q := Reach<int>(capacity, threadCount, []).q;
    forall p | 0 <= p < capacity ensures SlotHolds(q, item, 0, p) {
      ModuloUnique(p, capacity, 0, p);
    }
  }

  /** Thread 0 begins a push and goes to sleep before the probe, or, if `probed`, before the
      compare-exchange; the others have not moved. */
  function Asleep(threadCount: nat, mine: int, probed: bool): (asleep: seq<Thread<int>>)
    requires threadCount >= 2
    ensures |asleep| == threadCount
  {
    seq(threadCount, (i: nat) => Idle)[0 := if probed then PushCas(mine, 0) else PushProbe(mine, 0)]
  }

  lemma FallsAsleep(capacity: nat, threadCount: nat, mine: int, item: int, probed: bool)
    returns (schedule: seq<Action<int>>)
    requires IsPowerOfTwo(capacity) && threadCount >= 2
    ensures Stands(capacity, Asleep(threadCount, mine, probed), 1, item, schedule, 0, 0)
  {
    StartStands(capacity, threadCount, 1, item);
    var n := if probed then 2 else 1;
    var start := Reach<int>(capacity, threadCount, []);
    schedule := [] + [CallPush(0, mine)] + Steps(0, n);
    assert SlotHolds(start.q, item, 0, 0);
    PushAgrees(capacity, threadCount, [], 0, mine, n);
    ReachSolo(capacity, threadCount, [], CallPush(0, mine), n);
    SoloPushClaims(start, 0, mine);
    var q := Reach(capacity, threadCount, schedule).q;
    forall p | 0 <= p < capacity ensures SlotHolds(q, item, 0, p) {
      assert SlotHolds(start.q, item, 0, p);
    }
  }

  // ---- A push refused by an empty queue ----

  lemma WholeLaps(capacity: nat, laps: nat)
    requires capacity > 0
    ensures capacity * laps % capacity == 0
  {
    ModuloUnique(capacity * laps, capacity, laps, 0);
  }

  lemma HalfWordIsWholeLaps(capacity: nat)
    requires IsPowerOfTwo(capacity)
    ensures capacity > 0 && HALF_WORD % capacity == 0 && WORD % capacity == 0
  {
    var k: nat :| k < 64 && capacity == Pow2(k);
    Pow2Of64();
    Pow2Sum(k, 63 - k);
    Pow2Sum(k, 64 - k);
    WholeLaps(capacity, Pow2(63 - k));
    WholeLaps(capacity, Pow2(64 - k));
  }

  lemma AllEmpty(q: Queue<int>, item: int, deq: nat)
    requires Holds(q, 1, item, deq, deq) && deq % |q.slots| == 0
    ensures forall i :: 0 <= i < |q.slots| ==> q.slots[i].value.None?
  {
    forall i | 0 <= i < |q.slots| ensures q.slots[i].value.None? {
      assert SlotHolds(q, item, deq, deq + i);
      ModuloUnique(deq + i, |q.slots|, deq / |q.slots|, i);
    }
  }

  lemma StaleProbe(q: Queue<int>, mine: int, item: int)
    requires IsPowerOfTwo(|q.slots|) && Holds(q, 1, item, HALF_WORD, HALF_WORD) && q.threads[0] == PushProbe(mine, 0)
    ensures Next(Unbounded, q, Step(0, false)).threads[0] == PushLoad(mine)
    ensures var w := Next(Wrapping, Wrapped(q), Step(0, false));
            w.threads[0] == Returned(PushErr(mine)) && forall i :: 0 <= i < |w.slots| ==> w.slots[i].value.None?
  {
    HalfWordIsWholeLaps(|q.slots|);
    AllEmpty(q, item, HALF_WORD);
    assert SlotHolds(q, item, HALF_WORD, HALF_WORD);
    WrappedSlot(q, 0);
    assert SlotFor(q, 0) == SlotFor(q, HALF_WORD);
  }

  /** After half a word of laps the 64-bit queue refuses the sleeping push although it is
      empty; the unbounded one sees that the counter has moved and tries again. */
  lemma StalePushIsRefused(capacity: nat, threadCount: nat, mine: int) returns (schedule: seq<Action<int>>)
    requires IsPowerOfTwo(capacity) && threadCount >= 2
    ensures capacity > 0
    ensures var q := Run(Wrapping, New(capacity, threadCount), schedule);
            q.threads[0] == Returned(PushErr(mine)) && forall i :: 0 <= i < capacity ==> q.slots[i].value.None?
    ensures Reach(capacity, threadCount, schedule).q.threads[0] == PushLoad(mine)
  {
    var asleep := Asleep(threadCount, mine, false);
    var laps := FallsAsleep(capacity, threadCount, mine, mine, false);
    laps := Laps(capacity, asleep, 1, mine, laps, HALF_WORD);
    schedule := laps + [Step(0, false)];
    ReachStep(capacity, threadCount, laps, Step(0, false));
    StaleProbe(Reach(capacity, threadCount, laps).q, mine, mine);
    assert schedule[..|schedule| - 1] == laps;
  }

  // ---- A push that overwrites an item ----

  lemma StaleClaim(q: Queue<int>, mine: int, item: int)
    requires IsPowerOfTwo(|q.slots|) && |q.slots| <= WORD && Holds(q, 1, item, WORD - |q.slots|, WORD)
    requires q.threads[0] == PushCas(mine, 0)
    ensures var w := Next(Wrapping, Wrapped(q), Step(0, false));
            w.threads[0] == PushWrite(mine, 0) && w.slots[0].value == Some(item)
  {
    var capacity := |q.slots|;
    HalfWordIsWholeLaps(capacity);
    assert SlotHolds(q, item, WORD, WORD - capacity);
    Periodic(capacity, WORD - capacity);
    assert SlotFor(q, WORD - capacity) == q.slots[0];
  }

  /** Whatever the capacity, once the counter has gone all the way round the sleeping push's
      compare-exchange succeeds although the queue is full: it is about to overwrite an item
      that was pushed and not popped. */
  lemma StaleClaimOverwrites(capacity: nat, threadCount: nat, mine: int, item: int)
    returns (schedule: seq<Action<int>>)
    requires IsPowerOfTwo(capacity) && threadCount >= 2
    ensures capacity > 0
    ensures var q := Run(Wrapping, New(capacity, threadCount), schedule);
            q.threads[0] == PushWrite(mine, 0) && q.slots[0].value == Some(item) && !ExclusiveAccess(q)
  {
    PowerFitsHalfWord(capacity);
    var asleep := Asleep(threadCount, mine, true);
    var round := FallsAsleep(capacity, threadCount, mine, item, true);
    round := Laps(capacity, asleep, 1, item, round, WORD - capacity);
    round := Fills(capacity, asleep, 1, item, round, WORD - capacity, capacity);
    schedule := round + [Step(0, false)];
    StaleClaim(Reach(capacity, threadCount, round).q, mine, item);
    assert schedule[..|schedule| - 1] == round;
  }

  lemma OneSlotFilled() returns (schedule: seq<Action<int>>)
    ensures Agrees(1, 1, schedule) && |schedule| == 6
    ensures Reach(1, 1, schedule).q == Queue([Slot(1, Some(7))], 1, 0, [Returned(PushOk)])
  {
    assert Pow2(0) == 1;
    NewFollows(1, 1);
    schedule := [] + [CallPush(0, 7)] + Steps(0, 5);
    PushAgrees(1, 1, [], 0, 7, 5);
    ReachSolo(1, 1, [], CallPush(0, 7), 5);
    SoloPushFinishes(Start<int>(1, 1), 0, 7);
  }

  /** A single slot needs no sleeper: the second push of one thread overwrites the first. */
  lemma OneSlotOverwritesOn64Bits() returns (schedule: seq<Action<int>>)
    ensures !ExclusiveAccess(Run(Wrapping, New(1, 1), schedule)) && |schedule| == 10
  {
    var first := OneSlotFilled();
    var one := Reach(1, 1, first);
    schedule := first + [CallPush(0, 8)] + Steps(0, 3);
    PushAgrees(1, 1, first, 0, 8, 3);
    ReachSolo(1, 1, first, CallPush(0, 8), 3);
    SoloPushClaims(one, 0, 8);
    var q := Run(Wrapping, New(1, 1), schedule);
    assert q == Wrapped(Reach(1, 1, schedule).q);
    assert q.threads[0] == PushWrite(8, 1) && q.slots[0] == Slot(1, Some(7));
  }
}
