/** Any number of producers and consumers: every call that succeeds takes effect at its
    compare-exchange, as if on an atomic bounded FIFO. (Refusals do not: see
    `QueueSafety.NoneDespiteACompletedPush`.) */
module QueueOrder {
  import opened Wrappers
  import opened Words
  import opened MpmcQueue
  import opened QueueInvariant
  import opened QueueSafety
  import opened QueueFifo
  import opened QueueWrap
  import opened Queue64

  /** The items claimed by pushes and not yet by pops, in claim order. */
  ghost function Outstanding<T>(s: Traced<T>): (items: seq<T>)
    requires Inv(s)
    ensures |items| == s.q.enqueuePos - s.q.dequeuePos
  {
    Items(s.h.claims)[s.q.dequeuePos..]
  }

  /** What a move does to the FIFO: a successful compare-exchange enqueues its own item, or
      dequeues the item that was claimed for the same position. */
  ghost function EffectAt<T>(s: Traced<T>, a: Action<T>): Effect<T>
    requires Inv(s)
  {
    if !Claims(s, a) then Silent
    else if s.q.threads[a.tid].PushCas? then Enqueued(s.q.threads[a.tid].item)
    else
      PopClaimIsSafe(s, a.tid);
      Dequeued(s.h.claims[s.q.dequeuePos].item)
  }

  /** A move of the unbounded machine, or one that claims nothing and records nothing. */
  ghost predicate Moves<T>(s: Traced<T>, a: Action<T>, s': Traced<T>) {
    && |s.q.slots| > 0
    && (s' == NextTraced(s, a) ||
        (!Claims(s, a) && s'.h == s.h && s'.q.enqueuePos == s.q.enqueuePos && s'.q.dequeuePos == s.q.dequeuePos))
  }

  lemma OthersKeepOutstanding<T>(s: Traced<T>, a: Action<T>, s': Traced<T>)
    requires Inv(s) && Inv(s') && Moves(s, a, s') && !Claims(s, a)
    ensures s'.h.claims == s.h.claims && s'.q.dequeuePos == s.q.dequeuePos && Outstanding(s') == Outstanding(s)
  {
  }

  lemma PushClaimEnqueues<T>(s: Traced<T>, a: Action<T>, s': Traced<T>)
    requires Inv(s) && Inv(s') && Moves(s, a, s') && Claims(s, a) && s.q.threads[a.tid].PushCas?
    ensures |Outstanding(s)| < |s.q.slots| && Outstanding(s') == Outstanding(s) + [s.q.threads[a.tid].item]
    ensures Items(s'.h.claims) == Items(s.h.claims) + [s.q.threads[a.tid].item] && s'.q.dequeuePos == s.q.dequeuePos
  {
    PushClaimIsSafe(s, a.tid);
    assert Items(s'.h.claims) == Items(s.h.claims) + [s.q.threads[a.tid].item];
  }

  lemma PopClaimDequeues<T>(s: Traced<T>, a: Action<T>, s': Traced<T>)
    requires Inv(s) && Inv(s') && Moves(s, a, s') && Claims(s, a) && s.q.threads[a.tid].PopCas?
    ensures Outstanding(s) != [] && EffectAt(s, a) == Dequeued(Outstanding(s)[0])
    ensures Outstanding(s') == Outstanding(s)[1..]
    ensures s'.h.claims == s.h.claims && s'.q.dequeuePos == s.q.dequeuePos + 1
  {
    PopClaimIsSafe(s, a.tid);
  }

  /** Every move is what the atomic FIFO does with its effect. */
  lemma MoveIsFifoStep<T>(s: Traced<T>, a: Action<T>, s': Traced<T>)
    requires Inv(s) && Inv(s') && Moves(s, a, s')
    ensures FifoStep(|s.q.slots|, Outstanding(s), EffectAt(s, a)) == Some(Outstanding(s'))
  {
    if !Claims(s, a) {
      OthersKeepOutstanding(s, a, s');
    } else if s.q.threads[a.tid].PushCas? {
      PushClaimEnqueues(s, a, s');
    } else {
      PopClaimDequeues(s, a, s');
    }
  }

  // ---- Whole runs, of either machine ----

  /** `run` gives the states that a schedule leads through. */
  ghost predicate RunsThrough<T(!new)>(capacity: nat, run: seq<Action<T>> -> Traced<T>) {
    && run([]).h == History([], [], map[]) && Inv(run([])) && |run([]).q.slots| == capacity
    && run([]).q.enqueuePos == run([]).q.dequeuePos == 0
    && forall before: seq<Action<T>>, a: Action<T> {:trigger run(before + [a])} ::
         RunMoves(capacity, run(before), a, run(before + [a]))
  }

  ghost predicate RunMoves<T>(capacity: nat, s: Traced<T>, a: Action<T>, s': Traced<T>) {
    Inv(s) && Inv(s') && Moves(s, a, s') && |s.q.slots| == |s'.q.slots| == capacity
  }

  /** The effects of a schedule, in the order of its compare-exchanges. */
  ghost function EffectsOf<T(!new)>(capacity: nat, run: seq<Action<T>> -> Traced<T>, schedule: seq<Action<T>>)
    : (effects: seq<Effect<T>>)
    requires RunsThrough(capacity, run)
  {
    if schedule == [] then []
    else
      var before, a := schedule[..|schedule| - 1], schedule[|schedule| - 1];
      assert before + [a] == schedule;
      assert RunMoves(capacity, run(before), a, run(before + [a]));
      EffectsOf(capacity, run, before) + [EffectAt(run(before), a)]
  }

  function EnqueuedBy<T>(effects: seq<Effect<T>>): seq<T> {
    if effects == [] then []
    else
      var e := effects[|effects| - 1];
      EnqueuedBy(effects[..|effects| - 1]) + if e.Enqueued? then [e.item] else []
  }

  function DequeuedBy<T>(effects: seq<Effect<T>>): seq<T> {
    if effects == [] then []
    else
      var e := effects[|effects| - 1];
      DequeuedBy(effects[..|effects| - 1]) + if e.Dequeued? then [e.item] else []
  }

  /** The atomic FIFO gives out what it took in, in order, less what it holds. */
  lemma {:induction false} FifoConserves<T>(capacity: nat, effects: seq<Effect<T>>)
    requires FifoRun(capacity, effects).Some?
    ensures EnqueuedBy(effects) == DequeuedBy(effects) + FifoRun(capacity, effects).value
  {
    if effects != [] {
      var before, e := effects[..|effects| - 1], effects[|effects| - 1];
      FifoConserves(capacity, before);
      var contents := FifoRun(capacity, before).value;
      if e.Dequeued? { assert contents == [e.item] + contents[1..]; }
    }
  }

  /** What a schedule's effects took in, and what they gave out, in the order of positions. */
  ghost predicate Accounts<T>(capacity: nat, effects: seq<Effect<T>>, s: Traced<T>)
    requires Inv(s)
  {
    && FifoRun(capacity, effects) == Some(Outstanding(s))
    && EnqueuedBy(effects) == Items(s.h.claims)
    && DequeuedBy(effects) == Items(s.h.claims)[..s.q.dequeuePos]
  }

  lemma EffectsGrow<T>(effects: seq<Effect<T>>, e: Effect<T>)
    ensures EnqueuedBy(effects + [e]) == EnqueuedBy(effects) + if e.Enqueued? then [e.item] else []
    ensures DequeuedBy(effects + [e]) == DequeuedBy(effects) + if e.Dequeued? then [e.item] else []
  {
    assert (effects + [e])[..|effects|] == effects;
  }

  lemma FifoRunGrows<T>(capacity: nat, effects: seq<Effect<T>>, e: Effect<T>, contents: seq<T>, contents': seq<T>)
    requires FifoRun(capacity, effects) == Some(contents) && FifoStep(capacity, contents, e) == Some(contents')
    ensures FifoRun(capacity, effects + [e]) == Some(contents')
  {
    assert (effects + [e])[..|effects|] == effects;
  }

  lemma AccountsNext<T>(capacity: nat, effects: seq<Effect<T>>, s: Traced<T>, a: Action<T>, s': Traced<T>)
    requires RunMoves(capacity, s, a, s') && Accounts(capacity, effects, s)
    ensures Accounts(capacity, effects + [EffectAt(s, a)], s')
  {
    var e := EffectAt(s, a);
    MoveIsFifoStep(s, a, s');
    FifoRunGrows(capacity, effects, e, Outstanding(s), Outstanding(s'));
    EffectsGrow(effects, e);
    FifoConserves(capacity, effects + [e]);
    if !Claims(s, a) {
      OthersKeepOutstanding(s, a, s');
    } else if s.q.threads[a.tid].PushCas? {
      PushClaimEnqueues(s, a, s');
    } else {
      PopClaimDequeues(s, a, s');
    }
  }

  lemma {:induction false} RunAccounts<T(!new)>(capacity: nat, run: seq<Action<T>> -> Traced<T>,
                                               schedule: seq<Action<T>>)
    requires RunsThrough(capacity, run)
    ensures Inv(run(schedule)) && Accounts(capacity, EffectsOf(capacity, run, schedule), run(schedule))
  {
    if schedule != [] {
      var before, a := schedule[..|schedule| - 1], schedule[|schedule| - 1];
      assert before + [a] == schedule;
      RunAccounts(capacity, run, before);
      assert RunMoves(capacity, run(before), a, run(before + [a]));
      AccountsNext(capacity, EffectsOf(capacity, run, before), run(before), a, run(schedule));
    }
  }

  /** A push about to succeed was the enqueuing of its position, in its own thread's name;
      a pop about to succeed was the dequeuing of its position, and returns that item. */
  lemma RepliesAreEffects<T>(capacity: nat, effects: seq<Effect<T>>, s: Traced<T>, t: nat)
    requires Inv(s) && Accounts(capacity, effects, s) && t < |s.q.threads|
    ensures s.q.threads[t].PushStore? ==>
              var pos := s.q.threads[t].pos;
              && pos < |EnqueuedBy(effects)| && s.h.claims[pos] == Claim(t, EnqueuedBy(effects)[pos])
              && NextTraced(s, Step(t, false)).q.threads[t] == Returned(PushOk)
    ensures s.q.threads[t].PopStore? ==>
              var pos := s.q.threads[t].pos;
              && pos < |DequeuedBy(effects)| && s.h.pops[pos] == t
              && NextTraced(s, Step(t, false)).q.threads[t] == Returned(PopSome(DequeuedBy(effects)[pos]))
  {
    assert ThreadOk(s.q, s.h, t);
    if s.q.threads[t].PopStore? { assert TakenOk(s.q, s.h, s.q.threads[t].pos); }
  }

  /** The unbounded machine after a schedule. */
  function Reached<T>(capacity: nat, threadCount: nat): seq<Action<T>> -> Traced<T>
    requires capacity > 0
  {
    (schedule: seq<Action<T>>) => Reach(capacity, threadCount, schedule)
  }

  /** The 64-bit machine after a schedule, with its true positions. */
  function TrulyReached<T>(capacity: nat, threadCount: nat): seq<Action<T>> -> Traced<T>
    requires capacity > 0
  {
    (schedule: seq<Action<T>>) => TrueReach(capacity, threadCount, schedule)
  }

  lemma ReachRuns<T(!new)>(capacity: nat, threadCount: nat)
    requires capacity >= 2
    ensures RunsThrough(capacity, Reached<T>(capacity, threadCount))
  {
    ReachableInv<T>(capacity, threadCount, []);
    forall before: seq<Action<T>>, a: Action<T>
      ensures RunMoves(capacity, Reach(capacity, threadCount, before), a, Reach(capacity, threadCount, before + [a]))
    {
      ReachableInv(capacity, threadCount, before);
      ReachableInv(capacity, threadCount, before + [a]);
      ReachStep(capacity, threadCount, before, a);
    }
  }

  lemma TrueNextMoves<T>(s: Traced<T>, a: Action<T>)
    requires |s.q.slots| > 0
    ensures Moves(s, a, TrueNext(s, a))
  {
  }

  lemma TrueReachRuns<T(!new)>(capacity: nat, threadCount: nat)
    requires capacity >= 2 && IsPowerOfTwo(capacity)
    ensures RunsThrough(capacity, TrulyReached<T>(capacity, threadCount))
  {
    TrueReachInv<T>(capacity, threadCount, []);
    forall before: seq<Action<T>>, a: Action<T>
      ensures RunMoves(capacity, TrueReach(capacity, threadCount, before), a,
                       TrueReach(capacity, threadCount, before + [a]))
    {
      TrueReachInv(capacity, threadCount, before);
      TrueReachInv(capacity, threadCount, before + [a]);
      assert (before + [a])[..|before|] == before;
      TrueNextMoves(TrueReach(capacity, threadCount, before), a);
    }
  }

  /** For any number of threads the calls that succeed are linearizable: the atomic FIFO
      accepts the compare-exchanges of every run, ends with the claimed items that no pop has
      claimed, and took in and gave out exactly the items of the positions, in order. */
  lemma SuccessesLinearize<T(!new)>(capacity: nat, threadCount: nat, schedule: seq<Action<T>>)
    requires capacity >= 2
    ensures RunsThrough(capacity, Reached<T>(capacity, threadCount)) && Inv(Reach(capacity, threadCount, schedule))
    ensures var effects := EffectsOf(capacity, Reached<T>(capacity, threadCount), schedule);
            Accounts(capacity, effects, Reach(capacity, threadCount, schedule))
  {
    ReachRuns<T>(capacity, threadCount);
    RunAccounts(capacity, Reached<T>(capacity, threadCount), schedule);
  }

  /** So they are on 64 bits in every run without a false claim, whatever wrong branches its
      probes take. */
  lemma SuccessesLinearizeOn64Bits<T(!new)>(capacity: nat, threadCount: nat, schedule: seq<Action<T>>)
    requires capacity >= 2 && IsPowerOfTwo(capacity) && NoFalseClaim(capacity, threadCount, schedule)
    ensures Run(Wrapping, New(capacity, threadCount), schedule) == Wrapped(TrueReach(capacity, threadCount, schedule).q)
    ensures RunsThrough(capacity, TrulyReached<T>(capacity, threadCount))
    ensures Inv(TrueReach(capacity, threadCount, schedule))
    ensures var effects := EffectsOf(capacity, TrulyReached<T>(capacity, threadCount), schedule);
            Accounts(capacity, effects, TrueReach(capacity, threadCount, schedule))
  {
    WordsFollow(capacity, threadCount, schedule);
    TrueReachRuns<T>(capacity, threadCount);
    RunAccounts(capacity, TrulyReached<T>(capacity, threadCount), schedule);
  }
}
