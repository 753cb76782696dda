/** Lock-freedom as a count: retries are paid for by other threads' successes. */
module QueueProgress {
  import opened Wrappers
  import opened MpmcQueue
  import opened QueueInvariant

  datatype Side = Pushing | Popping

  /** The threads that claimed the positions of one side, in position order. */
  function Claimants<T>(h: History<T>, side: Side): seq<nat> {
    match side
    case Pushing => seq(|h.claims|, p requires 0 <= p < |h.claims| => h.claims[p].tid)
    case Popping => h.pops
  }

  /** The position a thread inside the retry loop of one side last loaded. */
  function Loaded<T>(th: Thread<T>, side: Side): Option<nat> {
    match side
    case Pushing => if th.PushProbe? || th.PushCas? then Some(th.pos) else None
    case Popping => if th.PopProbe? || th.PopCas? then Some(th.pos) else None
  }

  /** The move goes round the retry loop of one side: the slot was ahead of the loaded
      position, or the counter no longer held it. A weak compare-exchange that fails
      although the counter holds the position is a spurious failure, not counted. */
  predicate Retries<T>(q: Queue<T>, a: Action<T>, side: Side)
    requires |q.slots| > 0
  {
    && a.Step? && a.tid < |q.threads|
    && var th, th' := q.threads[a.tid], Next(Unbounded, q, a).threads[a.tid];
       match side
       case Pushing => (th.PushProbe? && th'.PushLoad?) || (th.PushCas? && q.enqueuePos != th.pos)
       case Popping => (th.PopProbe? && th'.PopLoad?) || (th.PopCas? && q.dequeuePos != th.pos)
  }

  /** How often thread `t` goes round the loop of one side in a whole schedule. */
  function RetryCount<T>(capacity: nat, threadCount: nat, schedule: seq<Action<T>>, t: nat, side: Side): nat
    requires capacity > 0
  {
    if schedule == [] then 0
    else
      var before, a := schedule[..|schedule| - 1], schedule[|schedule| - 1];
      RetryCount(capacity, threadCount, before, t, side)
      + if a.tid == t && Retries(Reach(capacity, threadCount, before).q, a, side) then 1 else 0
  }

  /** How many of these claims were made by threads other than `t`. */
  function ByOthers(claimants: seq<nat>, t: nat): nat {
    if claimants == [] then 0
    else ByOthers(claimants[..|claimants| - 1], t) + if claimants[|claimants| - 1] != t then 1 else 0
  }

  lemma {:induction false} ByOthersGrows(claimants: seq<nat>, t: nat, k: nat)
    requires k <= |claimants|
    ensures ByOthers(claimants[..k], t) <= ByOthers(claimants, t)
    ensures k < |claimants| && (forall p :: k <= p < |claimants| ==> claimants[p] != t) ==>
              ByOthers(claimants[..k], t) < ByOthers(claimants, t)
  {
    if k < |claimants| {
      var shorter := claimants[..|claimants| - 1];
      ByOthersGrows(shorter, t, k);
      assert shorter[..k] == claimants[..k];
    } else {
      assert claimants[..k] == claimants;
    }
  }

  /** Each retry is paid for: since the thread loaded its position, the counter moved
      on, and every position it moved over was claimed by another thread. */
  ghost predicate Paid<T>(s: Traced<T>, t: nat, side: Side)
    requires t < |s.q.threads|
  {
    var loaded, claimants := Loaded(s.q.threads[t], side), Claimants(s.h, side);
    loaded.Some? ==> loaded.value <= |claimants| && forall p :: loaded.value <= p < |claimants| ==> claimants[p] != t
  }

  /** The claims a thread's retries so far are charged to: those below the position it
      last loaded while it is in the loop, all of them otherwise. */
  function Charged<T>(s: Traced<T>, t: nat, side: Side): seq<nat>
    requires t < |s.q.threads|
  {
    var loaded, claimants := Loaded(s.q.threads[t], side), Claimants(s.h, side);
    if loaded.Some? && loaded.value <= |claimants| then claimants[..loaded.value] else claimants
  }

  lemma TailSlotNotAhead<T>(s: Traced<T>)
    requires Inv(s)
    ensures SlotFor(s.q, s.q.enqueuePos).sequence <= s.q.enqueuePos
  {
    Periodic(|s.q.slots|, s.q.dequeuePos);
    assert SlotOk(s.q, s.h, s.q.dequeuePos);
    if s.q.enqueuePos < s.q.dequeuePos + |s.q.slots| { assert SlotOk(s.q, s.h, s.q.enqueuePos); }
  }

  /** A retry means the counter has moved past the loaded position. */
  lemma RetryMeansMoved<T>(s: Traced<T>, a: Action<T>, side: Side)
    requires Inv(s) && Retries(s.q, a, side)
    ensures Loaded(s.q.threads[a.tid], side).Some?
    ensures Loaded(s.q.threads[a.tid], side).value < |Claimants(s.h, side)|
  {
    assert ThreadOk(s.q, s.h, a.tid);
    assert SlotOk(s.q, s.h, s.q.dequeuePos);
    TailSlotNotAhead(s);
  }

  lemma ClaimantsGrow<T>(s: Traced<T>, a: Action<T>, side: Side)
    requires |s.q.slots| > 0
    ensures var before, after := Claimants(s.h, side), Claimants(NextTraced(s, a).h, side);
            after == before || (after == before + [a.tid] && a.tid < |s.q.threads| && a.Step? && Claims(s, a)
                                && Loaded(s.q.threads[a.tid], side).Some?
                                && Loaded(NextTraced(s, a).q.threads[a.tid], side).None?)
  {
  }

  lemma OthersStepCharges<T>(s: Traced<T>, a: Action<T>, t: nat, side: Side)
    requires Inv(s) && t < |s.q.threads| && Paid(s, t, side) && a.tid != t
    ensures ByOthers(Charged(s, t, side), t) <= ByOthers(Charged(NextTraced(s, a), t, side), t)
  {
    var s' := NextTraced(s, a);
    var claimants, claimants' := Claimants(s.h, side), Claimants(s'.h, side);
    ClaimantsGrow(s, a, side);
    assert s'.q.threads[t] == s.q.threads[t];
    assert claimants == claimants'[..|claimants|];
    var loaded := Loaded(s.q.threads[t], side);
    if loaded.Some? {
      assert claimants'[..loaded.value] == claimants[..loaded.value];
    } else {
      ByOthersGrows(claimants', t, |claimants|);
    }
  }

  /** Where a thread's own move leaves it: at the same loaded position, or charged with
      everything claimed so far. */
  lemma OwnStepLoads<T>(s: Traced<T>, a: Action<T>, side: Side)
    requires Inv(s) && a.tid < |s.q.threads|
    ensures var th, th' := s.q.threads[a.tid], NextTraced(s, a).q.threads[a.tid];
            || Loaded(th', side).None?
            || Loaded(th', side) == Some(|Claimants(NextTraced(s, a).h, side)|)
            || (Loaded(th', side) == Loaded(th, side) && !Retries(s.q, a, side))
  {
    assert ThreadOk(s.q, s.h, a.tid);
  }

  lemma StepKeepsPaid<T>(s: Traced<T>, a: Action<T>, t: nat, side: Side)
    requires Inv(s) && t < |s.q.threads| && Paid(s, t, side)
    ensures Paid(NextTraced(s, a), t, side)
  {
    ClaimantsGrow(s, a, side);
    if a.tid == t {
      OwnStepLoads(s, a, side);
    } else {
      assert NextTraced(s, a).q.threads[t] == s.q.threads[t];
    }
  }

  lemma OwnStepCharges<T>(s: Traced<T>, a: Action<T>, t: nat, side: Side)
    requires Inv(s) && t < |s.q.threads| && Paid(s, t, side) && a.tid == t
    ensures ByOthers(Charged(s, t, side), t) + (if Retries(s.q, a, side) then 1 else 0)
            <= ByOthers(Charged(NextTraced(s, a), t, side), t)
  {
    var s' := NextTraced(s, a);
    var claimants, claimants' := Claimants(s.h, side), Claimants(s'.h, side);
    var loaded := Loaded(s.q.threads[t], side);
    ClaimantsGrow(s, a, side);
    OwnStepLoads(s, a, side);
    if Retries(s.q, a, side) { RetryMeansMoved(s, a, side); }
    if loaded.Some? { ByOthersGrows(claimants, t, loaded.value); }
    assert claimants'[..|claimants'|] == claimants';
    if claimants' != claimants { assert claimants'[..|claimants|] == claimants; }
  }

  /** One move charges at most one retry, and only to a claim not charged before. */
  lemma StepCharges<T>(s: Traced<T>, a: Action<T>, t: nat, side: Side)
    requires Inv(s) && t < |s.q.threads| && Paid(s, t, side)
    ensures ByOthers(Charged(s, t, side), t) + (if a.tid == t && Retries(s.q, a, side) then 1 else 0)
            <= ByOthers(Charged(NextTraced(s, a), t, side), t)
  {
    if a.tid == t { OwnStepCharges(s, a, t, side); } else { OthersStepCharges(s, a, t, side); }
  }

  lemma {:induction false} RetriesCharged<T>(capacity: nat, threadCount: nat, schedule: seq<Action<T>>, t: nat,
                                             side: Side)
    requires capacity >= 2 && t < threadCount
    ensures var s := Reach(capacity, threadCount, schedule);
            && Paid(s, t, side)
            && RetryCount(capacity, threadCount, schedule, t, side) <= ByOthers(Charged(s, t, side), t)
  {
    if schedule != [] {
      var before, a := schedule[..|schedule| - 1], schedule[|schedule| - 1];
      var s := Reach(capacity, threadCount, before);
      RetriesCharged(capacity, threadCount, before, t, side);
      ReachableInv(capacity, threadCount, before);
      StepKeepsPaid(s, a, t, side);
      StepCharges(s, a, t, side);
    }
  }

  /** Over any schedule, a thread goes round its push (pop) loops at most as often as
      other threads claimed enqueue (dequeue) positions. */
  lemma RetriesBoundedByOthers<T>(capacity: nat, threadCount: nat, schedule: seq<Action<T>>, t: nat, side: Side)
    requires capacity >= 2 && t < threadCount
    ensures RetryCount(capacity, threadCount, schedule, t, side)
            <= ByOthers(Claimants(Reach(capacity, threadCount, schedule).h, side), t)
  {
    RetriesCharged(capacity, threadCount, schedule, t, side);
    var s := Reach(capacity, threadCount, schedule);
    var loaded := Loaded(s.q.threads[t], side);
    if loaded.Some? { ByOthersGrows(Claimants(s.h, side), t, loaded.value); }
  }

  /** A retry happens only if another thread claimed a position of that side since
      this thread last loaded the counter. */
  lemma RetryIsPaid<T>(capacity: nat, threadCount: nat, schedule: seq<Action<T>>, a: Action<T>, side: Side)
    requires capacity >= 2 && Retries(Reach(capacity, threadCount, schedule).q, a, side)
    ensures var s := Reach(capacity, threadCount, schedule);
            var claimants := Claimants(s.h, side);
            var loaded := Loaded(s.q.threads[a.tid], side);
            && loaded.Some? && loaded.value < |claimants|
            && forall p :: loaded.value <= p < |claimants| ==> claimants[p] != a.tid
  {
    RetriesCharged(capacity, threadCount, schedule, a.tid, side);
    ReachableInv(capacity, threadCount, schedule);
    RetryMeansMoved(Reach(capacity, threadCount, schedule), a, side);
  }

  // ---- A call that runs alone ----

  /** From any reachable state, a push that then runs alone without spurious failures
      makes one pass: it is refused after two accesses or succeeds after five, whatever
      the other threads were in the middle of. */
  lemma SoloPushMakesOnePass<T>(capacity: nat, threadCount: nat, schedule: seq<Action<T>>, t: nat, item: T)
    requires capacity >= 2 && t < threadCount
    requires AtRest(Reach(capacity, threadCount, schedule).q.threads[t])
    ensures var s := Reach(capacity, threadCount, schedule);
            var s0 := NextTraced(s, CallPush(t, item));
            || Solo(s0, t, 2) == Traced(SetThread(s.q, t, Returned(PushErr(item))), s.h)
            || (Solo(s0, t, 5).q.threads[t] == Returned(PushOk)
                && Solo(s0, t, 5).h.claims == s.h.claims + [Claim(t, item)])
  {
    ReachableInv(capacity, threadCount, schedule);
    var s := Reach(capacity, threadCount, schedule);
    var pos := s.q.enqueuePos;
    TailSlotNotAhead(s);
    if SlotFor(s.q, pos).sequence == pos {
      SoloPushFinishes(s, t, item);
    } else {
      SoloPushRefused(s, t, item);
    }
  }

  /** The same for a pop, which then takes the item claimed at the head. */
  lemma SoloPopMakesOnePass<T>(capacity: nat, threadCount: nat, schedule: seq<Action<T>>, t: nat)
    requires capacity >= 2 && t < threadCount
    requires AtRest(Reach(capacity, threadCount, schedule).q.threads[t])
    ensures var s := Reach(capacity, threadCount, schedule);
            var s0 := NextTraced(s, CallPop(t));
            || Solo(s0, t, 2) == Traced(SetThread(s.q, t, Returned(PopNone)), s.h)
            || (s.q.dequeuePos < |s.h.claims|
                && Solo(s0, t, 5).q.threads[t] == Returned(PopSome(s.h.claims[s.q.dequeuePos].item))
                && Solo(s0, t, 5).h.pops == s.h.pops + [t])
  {
    ReachableInv(capacity, threadCount, schedule);
    var s := Reach(capacity, threadCount, schedule);
    var pos := s.q.dequeuePos;
    assert SlotOk(s.q, s.h, pos);
    if SlotFor(s.q, pos).sequence == pos + 1 {
      SoloPopFinishes(s, t);
    } else {
      SoloPopRefused(s, t);
    }
  }
}
