/** The 64-bit queue with any number of threads. Beside its words it is given the true
    positions they stand for; then a probe may take a wrong branch and do no harm, and the one
    mistake that matters is a compare-exchange that takes a counter for the one it loaded
    although it has gone all the way round. */
module Queue64 {
  import opened Words
  import opened MpmcQueue
  import opened QueueInvariant
  import opened QueueSafety
  import opened QueueWrap
  import QueueStale

  /** The move is a compare-exchange that succeeds on 64 bits although its counter has moved,
      by a whole multiple of 2^64, since the thread loaded it. */
  predicate FalseClaim<T>(q: Queue<T>, a: Action<T>) {
    && a.Step? && !a.spurious && a.tid < |q.threads|
    && match q.threads[a.tid]
       case PushCas(_, pos) => q.enqueuePos != pos && q.enqueuePos % WORD == pos % WORD
       case PopCas(pos) => q.dequeuePos != pos && q.dequeuePos % WORD == pos % WORD
       case _ => false
  }

  /** Where a probe sends its thread, by what the words show of the slot's true sequence. */
  function Probed<T>(th: Thread<T>, sequence: nat): (th': Thread<T>)
    requires th.PushProbe? || th.PopProbe?
    ensures OwnsNothing(th')
  {
    match th
    case PushProbe(item, pos) =>
      var diff := Diff(Wrapping, sequence % WORD, pos % WORD);
      if diff == 0 then PushCas(item, pos) else if diff < 0 then Returned(PushErr(item)) else PushLoad(item)
    case PopProbe(pos) =>
      var diff := Diff(Wrapping, sequence % WORD, (pos + 1) % WORD);
      if diff == 0 then PopCas(pos) else if diff < 0 then Returned(PopNone) else PopLoad
  }

  predicate Probes<T>(q: Queue<T>, a: Action<T>) {
    a.Step? && a.tid < |q.threads| && (q.threads[a.tid].PushProbe? || q.threads[a.tid].PopProbe?)
  }

  /** The 64-bit machine's step on true positions: it probes by the words, and claims by the
      true counters. */
  function TrueNext<T>(s: Traced<T>, a: Action<T>): (s': Traced<T>)
    requires |s.q.slots| > 0
    ensures |s'.q.slots| == |s.q.slots| && |s'.q.threads| == |s.q.threads|
  {
    if Probes(s.q, a) then
      var th := s.q.threads[a.tid];
      Traced(SetThread(s.q, a.tid, Probed(th, SlotFor(s.q, th.pos).sequence)), s.h)
    else NextTraced(s, a)
  }

  function TrueReach<T>(capacity: nat, threadCount: nat, schedule: seq<Action<T>>): (s: Traced<T>)
    requires capacity > 0
    ensures |s.q.slots| == capacity && |s.q.threads| == threadCount
  {
    if schedule == [] then Start(capacity, threadCount)
    else TrueNext(TrueReach(capacity, threadCount, schedule[..|schedule| - 1]), schedule[|schedule| - 1])
  }

  // ---- One step ----

  lemma ProbeFollows<T>(s: Traced<T>, a: Action<T>)
    requires IsPowerOfTwo(|s.q.slots|) && Probes(s.q, a)
    ensures |s.q.slots| > 0 && Next(Wrapping, Wrapped(s.q), a) == Wrapped(TrueNext(s, a).q)
  {
    var pos := s.q.threads[a.tid].pos;
    WrappedSlot(s.q, pos);
    WrapSum(pos, 1);
    WrapSetThread(s.q, a.tid, TrueNext(s, a).q.threads[a.tid]);
  }

  /** In every state one step of the 64-bit machine is the step on true positions, unless it
      is a false claim. */
  lemma StepFollowsExactlyWhen<T>(s: Traced<T>, a: Action<T>)
    requires IsPowerOfTwo(|s.q.slots|)
    ensures |s.q.slots| > 0
    ensures Next(Wrapping, Wrapped(s.q), a) == Wrapped(TrueNext(s, a).q) <==> !FalseClaim(s.q, a)
  {
    if Probes(s.q, a) {
      ProbeFollows(s, a);
    } else {
      StepAgreesExactlyWhen(s.q, a);
    }
  }

  lemma SameModuloWord(x: int, y: int)
    requires (x - y) % WORD == 0 && 0 - WORD < x - y < WORD
    ensures x == y
  {
  }

  /** Equal words of a slot's sequence and of the counter itself are equal numbers. */
  lemma EqualAtTheCounter<T>(s: Traced<T>, pos: nat, expected: nat)
    requires Inv(s) && IsPowerOfTwo(|s.q.slots|) && (pos == s.q.enqueuePos || pos == s.q.dequeuePos)
    requires expected == pos || expected == pos + 1
    requires Diff(Wrapping, SlotFor(s.q, pos).sequence % WORD, expected % WORD) == 0
    ensures SlotFor(s.q, pos).sequence == expected
  {
    var sequence := SlotFor(s.q, pos).sequence;
    PowerFitsHalfWord(|s.q.slots|);
    SequenceRange(s, pos);
    WrapDifference(sequence, expected);
    SameModuloWord(sequence, expected);
  }

  /** A probe keeps the invariant, whatever branch the words make it take. */
  lemma ProbeKeepsInv<T>(s: Traced<T>, a: Action<T>)
    requires Inv(s) && IsPowerOfTwo(|s.q.slots|) && Probes(s.q, a)
    ensures Inv(TrueNext(s, a))
  {
    var th := s.q.threads[a.tid];
    var th' := Probed(th, SlotFor(s.q, th.pos).sequence);
    assert ThreadOk(s.q, s.h, a.tid);
    if th'.PushCas? && th.pos == s.q.enqueuePos { EqualAtTheCounter(s, th.pos, th.pos); }
    if th'.PopCas? && th.pos == s.q.dequeuePos { EqualAtTheCounter(s, th.pos, th.pos + 1); }
    LocalStepKeepsInv(s, a.tid, th');
  }

  lemma TrueNextKeepsInv<T>(s: Traced<T>, a: Action<T>)
    requires Inv(s) && IsPowerOfTwo(|s.q.slots|)
    ensures Inv(TrueNext(s, a))
  {
    if Probes(s.q, a) { ProbeKeepsInv(s, a); } else { StepKeepsInv(s, a); }
  }

  // ---- Whole runs ----

  ghost predicate NoFalseClaim<T>(capacity: nat, threadCount: nat, schedule: seq<Action<T>>)
    requires capacity > 0
  {
    forall k :: 0 <= k < |schedule| ==> !FalseClaim(TrueReach(capacity, threadCount, schedule[..k]).q, schedule[k])
  }

  lemma NoFalseClaimBefore<T>(capacity: nat, threadCount: nat, schedule: seq<Action<T>>, k: nat)
    requires capacity > 0 && NoFalseClaim(capacity, threadCount, schedule) && k <= |schedule|
    ensures NoFalseClaim(capacity, threadCount, schedule[..k])
  {
    forall j | 0 <= j < k ensures !FalseClaim(TrueReach(capacity, threadCount, schedule[..k][..j]).q, schedule[j]) {
      assert schedule[..k][..j] == schedule[..j];
    }
  }

  lemma {:induction false} TrueReachInv<T>(capacity: nat, threadCount: nat, schedule: seq<Action<T>>)
    requires capacity >= 2 && IsPowerOfTwo(capacity)
    ensures Inv(TrueReach(capacity, threadCount, schedule))
  {
    if schedule == [] {
      ReachableInv<T>(capacity, threadCount, []);
    } else {
      TrueReachInv(capacity, threadCount, schedule[..|schedule| - 1]);
      TrueNextKeepsInv(TrueReach(capacity, threadCount, schedule[..|schedule| - 1]), schedule[|schedule| - 1]);
    }
  }

  /** As long as no compare-exchange is a false claim, the words of the 64-bit machine are
      those of the true positions, whatever branches its probes took. */
  lemma {:induction false} WordsFollow<T>(capacity: nat, threadCount: nat, schedule: seq<Action<T>>)
    requires IsPowerOfTwo(capacity) && capacity > 0 && NoFalseClaim(capacity, threadCount, schedule)
    ensures Run(Wrapping, New(capacity, threadCount), schedule) == Wrapped(TrueReach(capacity, threadCount, schedule).q)
  {
    if schedule == [] {
      NewAgrees<T>(capacity, threadCount, []);
    } else {
      var k := |schedule| - 1;
      NoFalseClaimBefore(capacity, threadCount, schedule, k);
      WordsFollow(capacity, threadCount, schedule[..k]);
      StepFollowsExactlyWhen(TrueReach(capacity, threadCount, schedule[..k]), schedule[k]);
      assert !FalseClaim(TrueReach(capacity, threadCount, schedule[..k]).q, schedule[k]);
    }
  }

  // ---- Exclusive access on 64 bits ----

  lemma WrappedSlotIndex<T>(q: Queue<T>, t: nat)
    requires IsPowerOfTwo(|q.slots|) && t < |q.threads| && !OwnsNothing(q.threads[t])
    ensures |q.slots| > 0 && SlotIndex(Wrapped(q), t) == SlotIndex(q, t)
  {
    var pos := q.threads[t].pos;
    var k: nat :| k < 64 && |q.slots| == Pow2(k);
    WrapKeepsResidue(pos, k);
    assert Wrapped(q).threads[t].pos == pos % WORD;
  }

  lemma WrappedIsExclusive<T>(q: Queue<T>)
    requires |q.slots| > 0 && IsPowerOfTwo(|q.slots|) && ExclusiveAccess(q)
    ensures ExclusiveAccess(Wrapped(q))
  {
    var w := Wrapped(q);
    forall t | 0 <= t < |q.threads| && !OwnsNothing(q.threads[t])
      ensures !OwnsNothing(w.threads[t]) && SlotIndex(w, t) == SlotIndex(q, t)
    {
      WrappedSlotIndex(q, t);
    }
  }

  /** With two slots or more, every run of the 64-bit machine without a false claim keeps
      exclusive access, whatever the number of threads. */
  lemma ExclusiveWithoutFalseClaims<T>(capacity: nat, threadCount: nat, schedule: seq<Action<T>>)
    requires capacity >= 2 && IsPowerOfTwo(capacity) && NoFalseClaim(capacity, threadCount, schedule)
    ensures ExclusiveAccess(Run(Wrapping, New(capacity, threadCount), schedule))
  {
    WordsFollow(capacity, threadCount, schedule);
    TrueReachInv(capacity, threadCount, schedule);
    InvGivesExclusiveAccess(TrueReach(capacity, threadCount, schedule));
    WrappedIsExclusive(TrueReach(capacity, threadCount, schedule).q);
  }

  /** What a 64-bit push decides on true positions: if its own position is fresh, it is
      refused exactly when the position one lap behind was claimed and not yet released,
      however long other threads have slept. */
  lemma PushRefusedOn64BitsExactlyWhen<T>(s: Traced<T>, t: nat, spurious: bool)
    requires Inv(s) && IsPowerOfTwo(|s.q.slots|) && t < |s.q.threads| && s.q.threads[t].PushProbe? && Fresh(s.q, t)
    ensures var pos := s.q.threads[t].pos;
            TrueNext(s, Step(t, spurious)).q.threads[t].Returned? <==>
            |s.q.slots| <= pos && pos - |s.q.slots| < s.q.enqueuePos && !Released(s, pos - |s.q.slots|)
  {
    FreshBranchesAlike(s, Step(t, spurious));
    AlikeIsTrue(s, Step(t, spurious));
    PushRefusal(s, t, spurious);
  }

  /** And a pop exactly when the push of its position has not published. */
  lemma PopRefusedOn64BitsExactlyWhen<T>(s: Traced<T>, t: nat, spurious: bool)
    requires Inv(s) && IsPowerOfTwo(|s.q.slots|) && t < |s.q.threads| && s.q.threads[t].PopProbe? && Fresh(s.q, t)
    ensures TrueNext(s, Step(t, spurious)).q.threads[t].Returned? <==> !Published(s, s.q.threads[t].pos)
  {
    FreshBranchesAlike(s, Step(t, spurious));
    AlikeIsTrue(s, Step(t, spurious));
    PopRefusal(s, t, spurious);
  }

  /** And a pop hands back the item that the push of the same position claimed it with, in
      the name of the one thread that claimed the position. */
  lemma PopReturnsThePushedItemOn64Bits<T>(capacity: nat, threadCount: nat, schedule: seq<Action<T>>, t: nat)
    requires capacity >= 2 && IsPowerOfTwo(capacity) && NoFalseClaim(capacity, threadCount, schedule)
    requires t < threadCount && Run(Wrapping, New(capacity, threadCount), schedule).threads[t].PopStore?
    ensures var s, w := TrueReach(capacity, threadCount, schedule), Run(Wrapping, New(capacity, threadCount), schedule);
            && s.q.threads[t].PopStore?
            && var pos := s.q.threads[t].pos;
               && w.threads[t].pos == pos % WORD
               && pos < |s.h.pops| && pos < |s.h.claims| && s.h.pops[pos] == t
               && Next(Wrapping, w, Step(t, false)).threads[t] == Returned(PopSome(s.h.claims[pos].item))
  {
    WordsFollow(capacity, threadCount, schedule);
    TrueReachInv(capacity, threadCount, schedule);
    HandsBack(TrueReach(capacity, threadCount, schedule), t);
  }

  lemma HandsBack<T>(s: Traced<T>, t: nat)
    requires Inv(s) && IsPowerOfTwo(|s.q.slots|) && t < |s.q.threads| && Wrapped(s.q).threads[t].PopStore?
    ensures s.q.threads[t].PopStore?
    ensures var pos, w := s.q.threads[t].pos, Wrapped(s.q);
            && w.threads[t].pos == pos % WORD
            && pos < |s.h.pops| && pos < |s.h.claims| && s.h.pops[pos] == t
            && Next(Wrapping, w, Step(t, false)).threads[t] == Returned(PopSome(s.h.claims[pos].item))
  {
    assert s.q.threads[t].PopStore?;
    assert ThreadOk(s.q, s.h, t);
    assert TakenOk(s.q, s.h, s.q.threads[t].pos);
  }

  // ---- When there are no false claims ----

  /** A run whose moves branch alike on the words and on the true values has none. */
  lemma {:induction false} AlikeMeansTrue<T>(capacity: nat, threadCount: nat, schedule: seq<Action<T>>)
    requires IsPowerOfTwo(capacity) && capacity > 0
    requires forall k :: 0 <= k < |schedule| ==> BranchesAt(capacity, threadCount, schedule, k)
    ensures NoFalseClaim(capacity, threadCount, schedule)
    ensures TrueReach(capacity, threadCount, schedule) == Reach(capacity, threadCount, schedule)
  {
    if schedule != [] {
      var k := |schedule| - 1;
      var before := schedule[..k];
      forall j | 0 <= j < k ensures BranchesAt(capacity, threadCount, before, j) {
        assert BranchesAt(capacity, threadCount, schedule, j) && before[..j] == schedule[..j];
      }
      AlikeMeansTrue(capacity, threadCount, before);
      assert BranchesAt(capacity, threadCount, schedule, k);
      AlikeIsTrue(Reach(capacity, threadCount, before), schedule[k]);
      NoFalseClaimStep(capacity, threadCount, schedule);
    }
  }

  lemma AlikeIsTrue<T>(s: Traced<T>, a: Action<T>)
    requires |s.q.slots| > 0 && SameBranch(s.q, a)
    ensures !FalseClaim(s.q, a) && TrueNext(s, a) == NextTraced(s, a)
  {
  }

  lemma NoFalseClaimStep<T>(capacity: nat, threadCount: nat, schedule: seq<Action<T>>)
    requires capacity > 0 && schedule != []
    requires var k := |schedule| - 1;
             && NoFalseClaim(capacity, threadCount, schedule[..k])
             && !FalseClaim(TrueReach(capacity, threadCount, schedule[..k]).q, schedule[k])
    ensures NoFalseClaim(capacity, threadCount, schedule)
  {
    var before := schedule[..|schedule| - 1];
    forall j | 0 <= j < |schedule| ensures !FalseClaim(TrueReach(capacity, threadCount, schedule[..j]).q, schedule[j]) {
      if j < |before| {
        assert before[..j] == schedule[..j];
        assert !FalseClaim(TrueReach(capacity, threadCount, before[..j]).q, before[j]);
      }
    }
  }

  /** The counters have moved at most once per move. */
  lemma {:induction false} CountersBehind<T>(capacity: nat, threadCount: nat, schedule: seq<Action<T>>)
    requires capacity > 0
    ensures TrueReach(capacity, threadCount, schedule).q.enqueuePos <= |schedule|
    ensures TrueReach(capacity, threadCount, schedule).q.dequeuePos <= |schedule|
  {
    if schedule != [] { CountersBehind(capacity, threadCount, schedule[..|schedule| - 1]); }
  }

  lemma NoFalseClaimYet<T>(s: Traced<T>, a: Action<T>)
    requires Inv(s) && s.q.enqueuePos < WORD && s.q.dequeuePos < WORD
    ensures !FalseClaim(s.q, a)
  {
    if a.tid < |s.q.threads| { assert ThreadOk(s.q, s.h, a.tid); }
  }

  /** No counter goes all the way round within 2^64 moves. */
  lemma ShortRunsMakeNone<T>(capacity: nat, threadCount: nat, schedule: seq<Action<T>>)
    requires capacity >= 2 && IsPowerOfTwo(capacity) && |schedule| <= WORD
    ensures NoFalseClaim(capacity, threadCount, schedule)
  {
    forall k | 0 <= k < |schedule| ensures !FalseClaim(TrueReach(capacity, threadCount, schedule[..k]).q, schedule[k]) {
      TrueReachInv(capacity, threadCount, schedule[..k]);
      CountersBehind(capacity, threadCount, schedule[..k]);
      NoFalseClaimYet(TrueReach(capacity, threadCount, schedule[..k]), schedule[k]);
    }
  }

  lemma {:induction false} ReachCountersBehind<T>(capacity: nat, threadCount: nat, schedule: seq<Action<T>>)
    requires capacity > 0
    ensures Reach(capacity, threadCount, schedule).q.enqueuePos <= |schedule|
    ensures Reach(capacity, threadCount, schedule).q.dequeuePos <= |schedule|
  {
    if schedule != [] { ReachCountersBehind(capacity, threadCount, schedule[..|schedule| - 1]); }
  }

  /** Within half a word of moves, less the capacity, no probe takes a wrong branch either:
      there everything proved of the unbounded machine holds of the 64-bit one. */
  lemma ShortRunsAgree<T>(capacity: nat, threadCount: nat, schedule: seq<Action<T>>)
    requires capacity >= 2 && IsPowerOfTwo(capacity) && |schedule| <= HALF_WORD - capacity
    ensures Run(Wrapping, New(capacity, threadCount), schedule) == Wrapped(Reach(capacity, threadCount, schedule).q)
  {
    forall k | 0 <= k < |schedule| && schedule[k].tid < threadCount
      ensures Fresh(Reach(capacity, threadCount, schedule[..k]).q, schedule[k].tid)
    {
      ReachCountersBehind(capacity, threadCount, schedule[..k]);
    }
    RunsAgree(capacity, threadCount, schedule);
  }

  /** A single thread stands at the counters: no other can have moved them. */
  predicate AtCounters<T>(q: Queue<T>) {
    |q.threads| == 1 && match q.threads[0]
                        case PushProbe(_, pos) => pos == q.enqueuePos
                        case PushCas(_, pos) => pos == q.enqueuePos
                        case PopProbe(pos) => pos == q.dequeuePos
                        case PopCas(pos) => pos == q.dequeuePos
                        case _ => true
  }

  lemma {:induction false} OneThreadAtCounters<T>(capacity: nat, schedule: seq<Action<T>>)
    requires capacity > 0
    ensures AtCounters(TrueReach(capacity, 1, schedule).q)
  {
    if schedule != [] {
      OneThreadAtCounters(capacity, schedule[..|schedule| - 1]);
      StaysAtCounters(TrueReach(capacity, 1, schedule[..|schedule| - 1]), schedule[|schedule| - 1]);
    }
  }

  lemma StaysAtCounters<T>(s: Traced<T>, a: Action<T>)
    requires |s.q.slots| > 0 && AtCounters(s.q)
    ensures AtCounters(TrueNext(s, a).q) && !FalseClaim(s.q, a)
  {
  }

  lemma OneThreadMakesNone<T>(capacity: nat, schedule: seq<Action<T>>)
    requires capacity > 0
    ensures NoFalseClaim(capacity, 1, schedule)
  {
    forall k | 0 <= k < |schedule| ensures !FalseClaim(TrueReach(capacity, 1, schedule[..k]).q, schedule[k]) {
      OneThreadAtCounters(capacity, schedule[..k]);
      StaysAtCounters(TrueReach(capacity, 1, schedule[..k]), schedule[k]);
    }
  }

  // ---- The capacities and thread counts for which the 64-bit queue is sound ----

  ghost predicate AlwaysExclusiveOn64Bits(capacity: nat, threadCount: nat) {
    && capacity > 0
    && forall schedule: seq<Action<int>> :: ExclusiveAccess(Run(Wrapping, New(capacity, threadCount), schedule))
  }

  /** No bound on the run: of the capacities `new` accepts and the numbers of threads, the
      64-bit queue is sound for no thread at all, and for a single one with two slots. */
  lemma SoundForeverExactlyWhen(capacity: nat, threadCount: nat)
    requires IsPowerOfTwo(capacity)
    ensures AlwaysExclusiveOn64Bits(capacity, threadCount) <==> threadCount == 0 || (threadCount == 1 && capacity >= 2)
  {
    PowerFitsHalfWord(capacity);
    if threadCount >= 2 {
      var schedule := QueueStale.StaleClaimOverwrites(capacity, threadCount, 7, 8);
      assert !ExclusiveAccess(Run(Wrapping, New(capacity, threadCount), schedule));
    } else if threadCount == 1 && capacity == 1 {
      var schedule := QueueStale.OneSlotOverwritesOn64Bits();
      assert !ExclusiveAccess(Run(Wrapping, New(1, 1), schedule));
    } else {
      forall schedule: seq<Action<int>> ensures ExclusiveAccess(Run(Wrapping, New(capacity, threadCount), schedule)) {
        if threadCount == 1 {
          OneThreadMakesNone(capacity, schedule);
          ExclusiveWithoutFalseClaims(capacity, 1, schedule);
        }
      }
    }
  }

  ghost predicate ExclusiveFor(capacity: nat, threadCount: nat, moves: nat) {
    && capacity > 0
    && forall schedule: seq<Action<int>> :: |schedule| <= moves ==>
         ExclusiveAccess(Run(Wrapping, New(capacity, threadCount), schedule))
  }

  /** With runs of at most 2^64 moves: for exactly the capacities of two slots or more, with
      any number of threads. */
  lemma ShortRunsSoundExactlyFromTwoSlots(capacity: nat)
    requires IsPowerOfTwo(capacity)
    ensures (forall threadCount: nat :: ExclusiveFor(capacity, threadCount, WORD)) <==> capacity >= 2
  {
    PowerFitsHalfWord(capacity);
    if capacity >= 2 {
      forall threadCount: nat, schedule: seq<Action<int>> | |schedule| <= WORD
        ensures ExclusiveAccess(Run(Wrapping, New(capacity, threadCount), schedule))
      {
        ShortRunsMakeNone(capacity, threadCount, schedule);
        ExclusiveWithoutFalseClaims(capacity, threadCount, schedule);
      }
    } else {
      var schedule := QueueStale.OneSlotOverwritesOn64Bits();
      assert !ExclusiveFor(1, 1, WORD);
    }
  }
}
