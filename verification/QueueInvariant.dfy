/** The invariant of the slot protocol, kept by every step of every schedule. */
module QueueInvariant {
  import opened Wrappers
  import opened MpmcQueue
  import opened Words

  function SlotFor<T>(q: Queue<T>, pos: nat): Slot<T>
    requires |q.slots| > 0
  {
    q.slots[IndexOf(Unbounded, pos, |q.slots|)]
  }

  /** Sizes and thread numbers fit together. */
  ghost predicate Shape<T>(q: Queue<T>, h: History<T>) {
    && 2 <= |q.slots|
    && |h.claims| == q.enqueuePos
    && |h.pops| == q.dequeuePos
    && q.dequeuePos <= q.enqueuePos <= q.dequeuePos + |q.slots|
    && (forall p :: 0 <= p < |h.claims| ==> h.claims[p].tid < |q.threads|)
    && (forall p :: 0 <= p < |h.pops| ==> h.pops[p] < |q.threads|)
  }

  /** A claimed position that is not published yet: its claimant is still writing. */
  ghost predicate BeingPushed<T>(q: Queue<T>, h: History<T>, p: nat)
    requires Shape(q, h) && p < q.enqueuePos
  {
    var c := h.claims[p];
    || (q.threads[c.tid] == PushWrite(c.item, p) && SlotFor(q, p).value.None?)
    || (q.threads[c.tid] == PushStore(p) && SlotFor(q, p).value == Some(c.item))
  }

  /** A popped position that is not released yet: its claimant is still taking. */
  ghost predicate BeingPopped<T>(q: Queue<T>, h: History<T>, p: nat)
    requires Shape(q, h) && p < q.dequeuePos
  {
    var item := Some(h.claims[p].item);
    || (q.threads[h.pops[p]] == PopTake(p) && SlotFor(q, p).value == item)
    || (q.threads[h.pops[p]] == PopStore(p, item) && SlotFor(q, p).value.None?)
  }

  /** The state of the slot of each position of the window
      dequeuePos .. dequeuePos + capacity, which covers every slot once. */
  ghost predicate SlotOk<T>(q: Queue<T>, h: History<T>, p: nat)
    requires Shape(q, h)
  {
    var sl := SlotFor(q, p);
    var capacity := |q.slots|;
    if p < q.enqueuePos then
      || (sl.sequence == p && BeingPushed(q, h, p))
      || (sl.sequence == p + 1 && sl.value == Some(h.claims[p].item))
    else
      || (sl.sequence == p && sl.value.None?)
      || (capacity <= p < q.dequeuePos + capacity && sl.sequence == p - capacity + 1 && BeingPopped(q, h, p - capacity))
  }

  /** What a thread's locals say about the shared state, whatever the others did since. */
  ghost predicate ThreadOk<T>(q: Queue<T>, h: History<T>, t: nat)
    requires Shape(q, h) && t < |q.threads|
  {
    match q.threads[t]
    case Idle => true
    case Returned(_) => true
    case PushLoad(_) => true
    case PushProbe(_, pos) => pos <= q.enqueuePos
    case PushCas(_, pos) => pos <= q.enqueuePos && (pos == q.enqueuePos ==> SlotFor(q, pos).sequence == pos)
    case PushWrite(item, pos) =>
      q.dequeuePos <= pos < q.enqueuePos && h.claims[pos] == Claim(t, item) && SlotFor(q, pos).sequence == pos
    case PushStore(pos) =>
      q.dequeuePos <= pos < q.enqueuePos && h.claims[pos].tid == t && SlotFor(q, pos).sequence == pos
    case PopLoad => true
    case PopProbe(pos) => pos <= q.dequeuePos
    case PopCas(pos) => pos <= q.dequeuePos && (pos == q.dequeuePos ==> SlotFor(q, pos).sequence == pos + 1)
    case PopTake(pos) =>
      && pos < q.dequeuePos && q.enqueuePos <= pos + |q.slots|
      && h.pops[pos] == t && pos !in h.taken && SlotFor(q, pos).sequence == pos + 1
    case PopStore(pos, taken) =>
      && pos < q.dequeuePos && q.enqueuePos <= pos + |q.slots|
      && h.pops[pos] == t && pos in h.taken && h.taken[pos] == taken && SlotFor(q, pos).sequence == pos + 1
  }

  /** What a dequeue position's taker found, or that it has yet to look. */
  ghost predicate TakenOk<T>(q: Queue<T>, h: History<T>, p: nat)
    requires Shape(q, h) && p < q.dequeuePos
  {
    if p in h.taken then h.taken[p] == Some(h.claims[p].item)
    else q.threads[h.pops[p]] == PopTake(p)
  }

  ghost predicate Inv<T>(s: Traced<T>) {
    && Shape(s.q, s.h)
    && (forall p :: s.q.dequeuePos <= p < s.q.dequeuePos + |s.q.slots| ==> SlotOk(s.q, s.h, p))
    && (forall t :: 0 <= t < |s.q.threads| ==> ThreadOk(s.q, s.h, t))
    && (forall p :: 0 <= p < s.q.dequeuePos ==> TakenOk(s.q, s.h, p))
    && (forall p :: p in s.h.taken ==> p < s.q.dequeuePos)
  }

  // ---- Slots and positions ----

  lemma ResiduesDiffer(capacity: nat, p: nat, p': nat)
    requires p < p' < p + capacity
    ensures p % capacity != p' % capacity
  {
    var k := p' / capacity - p / capacity;
    assert p' - p == capacity * k + p' % capacity - p % capacity by {
      assert p == capacity * (p / capacity) + p % capacity;
      assert p' == capacity * (p' / capacity) + p' % capacity;
      assert capacity * k == capacity * (p' / capacity) - capacity * (p / capacity);
    }
    assert k >= 1 ==> capacity * k >= capacity;
    assert k <= 0 ==> capacity * k <= 0;
  }

  lemma Periodic(capacity: nat, p: nat)
    requires capacity > 0
    ensures IndexOf(Unbounded, p + capacity, capacity) == IndexOf(Unbounded, p, capacity)
  {
    assert p + capacity == capacity * (p / capacity + 1) + p % capacity;
    ModuloUnique(p + capacity, capacity, p / capacity + 1, p % capacity);
  }

  // ---- Every step keeps the invariant ----

  /** Steps that only move a thread between places where it owns no slot. */
  predicate OwnsNothing<T>(th: Thread<T>) {
    !th.PushWrite? && !th.PushStore? && !th.PopTake? && !th.PopStore?
  }

  lemma LocalStepKeepsInv<T>(s: Traced<T>, t: nat, th: Thread<T>)
    requires Inv(s) && t < |s.q.threads| && OwnsNothing(s.q.threads[t]) && OwnsNothing(th)
    requires ThreadOk(SetThread(s.q, t, th), s.h, t)
    ensures Inv(Traced(SetThread(s.q, t, th), s.h))
  {
    var q' := SetThread(s.q, t, th);
    forall p | q'.dequeuePos <= p < q'.dequeuePos + |q'.slots| ensures SlotOk(q', s.h, p) {
      assert SlotOk(s.q, s.h, p);
    }
    forall u | 0 <= u < |q'.threads| ensures ThreadOk(q', s.h, u) {
      assert ThreadOk(s.q, s.h, u);
    }
    forall p | 0 <= p < q'.dequeuePos ensures TakenOk(q', s.h, p) {
      assert TakenOk(s.q, s.h, p);
    }
  }

  /** The stability argument for a push: however long ago the thread read
      `seq == pos`, if its compare-exchange succeeds now then the slot is free now. */
  lemma PushClaimIsSafe<T>(s: Traced<T>, t: nat)
    requires Inv(s) && t < |s.q.threads| && s.q.threads[t].PushCas? && s.q.threads[t].pos == s.q.enqueuePos
    ensures var pos := s.q.enqueuePos;
            pos < s.q.dequeuePos + |s.q.slots| && SlotFor(s.q, pos) == Slot(pos, None)
  {
    var q, h, pos := s.q, s.h, s.q.enqueuePos;
    assert ThreadOk(q, h, t);
    Periodic(|q.slots|, q.dequeuePos);
    assert SlotOk(q, h, q.dequeuePos);
    assert pos < q.dequeuePos + |q.slots| ==> SlotOk(q, h, pos);
  }

  /** The same for a pop: the slot still holds the item of its position. */
  lemma PopClaimIsSafe<T>(s: Traced<T>, t: nat)
    requires Inv(s) && t < |s.q.threads| && s.q.threads[t].PopCas? && s.q.threads[t].pos == s.q.dequeuePos
    ensures var pos := s.q.dequeuePos;
            pos < s.q.enqueuePos && SlotFor(s.q, pos) == Slot(pos + 1, Some(s.h.claims[pos].item))
  {
    var q, h, pos := s.q, s.h, s.q.dequeuePos;
    assert ThreadOk(q, h, t);
    assert SlotOk(q, h, pos);
  }

  lemma PushClaimKeepsSlots<T>(s: Traced<T>, a: Action<T>, p: nat)
    requires Inv(s) && a.Step? && !a.spurious && a.tid < |s.q.threads|
    requires s.q.threads[a.tid].PushCas? && s.q.threads[a.tid].pos == s.q.enqueuePos
    requires s.q.dequeuePos <= p < s.q.dequeuePos + |s.q.slots|
    requires Shape(NextTraced(s, a).q, NextTraced(s, a).h)
    ensures SlotOk(NextTraced(s, a).q, NextTraced(s, a).h, p)
  {
    PushClaimIsSafe(s, a.tid);
    assert SlotOk(s.q, s.h, p);
  }

  lemma PushClaimKeepsThreads<T>(s: Traced<T>, a: Action<T>, u: nat)
    requires Inv(s) && a.Step? && !a.spurious && a.tid < |s.q.threads| && u < |s.q.threads|
    requires s.q.threads[a.tid].PushCas? && s.q.threads[a.tid].pos == s.q.enqueuePos
    requires Shape(NextTraced(s, a).q, NextTraced(s, a).h)
    ensures ThreadOk(NextTraced(s, a).q, NextTraced(s, a).h, u)
  {
    PushClaimIsSafe(s, a.tid);
    assert ThreadOk(s.q, s.h, u);
    if s.q.threads[u].PopTake? || s.q.threads[u].PopStore? { Periodic(|s.q.slots|, s.q.threads[u].pos); }
  }

  lemma PushClaimKeepsInv<T>(s: Traced<T>, a: Action<T>)
    requires Inv(s) && a.Step? && !a.spurious && a.tid < |s.q.threads|
    requires s.q.threads[a.tid].PushCas? && s.q.threads[a.tid].pos == s.q.enqueuePos
    ensures Inv(NextTraced(s, a))
  {
    var q, h := s.q, s.h;
    var s' := NextTraced(s, a);
    PushClaimIsSafe(s, a.tid);
    forall p | q.dequeuePos <= p < q.dequeuePos + |q.slots| ensures SlotOk(s'.q, s'.h, p) {
      PushClaimKeepsSlots(s, a, p);
    }
    forall u | 0 <= u < |q.threads| ensures ThreadOk(s'.q, s'.h, u) {
      PushClaimKeepsThreads(s, a, u);
    }
    forall p | 0 <= p < q.dequeuePos ensures TakenOk(s'.q, s'.h, p) {
      assert TakenOk(q, h, p);
    }
  }

  lemma PopClaimKeepsSlots<T>(s: Traced<T>, a: Action<T>, p: nat)
    requires Inv(s) && a.Step? && !a.spurious && a.tid < |s.q.threads|
    requires s.q.threads[a.tid].PopCas? && s.q.threads[a.tid].pos == s.q.dequeuePos
    requires Shape(NextTraced(s, a).q, NextTraced(s, a).h)
    requires s.q.dequeuePos < p <= s.q.dequeuePos + |s.q.slots|
    ensures SlotOk(NextTraced(s, a).q, NextTraced(s, a).h, p)
  {
    PopClaimIsSafe(s, a.tid);
    if p < s.q.dequeuePos + |s.q.slots| {
      assert SlotOk(s.q, s.h, p);
    } else {
      Periodic(|s.q.slots|, s.q.dequeuePos);
    }
  }

  lemma PopClaimKeepsThreads<T>(s: Traced<T>, a: Action<T>, u: nat)
    requires Inv(s) && a.Step? && !a.spurious && a.tid < |s.q.threads| && u < |s.q.threads|
    requires s.q.threads[a.tid].PopCas? && s.q.threads[a.tid].pos == s.q.dequeuePos
    requires Shape(NextTraced(s, a).q, NextTraced(s, a).h)
    ensures ThreadOk(NextTraced(s, a).q, NextTraced(s, a).h, u)
  {
    PopClaimIsSafe(s, a.tid);
    assert ThreadOk(s.q, s.h, u);
    assert s.q.dequeuePos !in s.h.taken;
  }

  lemma PopClaimKeepsInv<T>(s: Traced<T>, a: Action<T>)
    requires Inv(s) && a.Step? && !a.spurious && a.tid < |s.q.threads|
    requires s.q.threads[a.tid].PopCas? && s.q.threads[a.tid].pos == s.q.dequeuePos
    ensures Inv(NextTraced(s, a))
  {
    var q, h := s.q, s.h;
    var s', pos := NextTraced(s, a), q.dequeuePos;
    PopClaimIsSafe(s, a.tid);
    assert pos !in h.taken;
    forall p | pos + 1 <= p < pos + 1 + |q.slots| ensures SlotOk(s'.q, s'.h, p) {
      PopClaimKeepsSlots(s, a, p);
    }
    forall u | 0 <= u < |q.threads| ensures ThreadOk(s'.q, s'.h, u) {
      PopClaimKeepsThreads(s, a, u);
    }
    forall p | 0 <= p < pos + 1 ensures TakenOk(s'.q, s'.h, p) {
      if p < pos { assert TakenOk(q, h, p); }
    }
  }

  // A thread that owns a position changes that position's slot and its own place.

  /** The queue after thread `t`, owner of the slot of `pos`, changed that slot to `sl`. */
  function Touch<T>(q: Queue<T>, t: nat, pos: nat, sl: Slot<T>, th: Thread<T>): Queue<T>
    requires |q.slots| > 0 && t < |q.threads|
  {
    SetThread(q, t, th).(slots := q.slots[IndexOf(Unbounded, pos, |q.slots|) := sl])
  }

  /** The history after the same step: only a take writes anything down. */
  ghost predicate SameButTake<T>(h: History<T>, h': History<T>, pos: nat) {
    && h'.claims == h.claims && h'.pops == h.pops
    && h'.taken.Keys <= h.taken.Keys + {pos}
    && forall p :: p in h.taken && p != pos ==> p in h'.taken && h'.taken[p] == h.taken[p]
  }

  ghost predicate Owns<T>(q: Queue<T>, t: nat, pos: nat) {
    && t < |q.threads| && !OwnsNothing(q.threads[t])
    && q.threads[t].pos == pos
  }

  /** The position of the window that lives in the slot an owner is changing. */
  function WindowPos<T>(q: Queue<T>, t: nat): nat
    requires t < |q.threads| && !OwnsNothing(q.threads[t])
  {
    var th := q.threads[t];
    if th.PushWrite? || th.PushStore? then th.pos else th.pos + |q.slots|
  }

  lemma OtherSlotKept<T>(s: Traced<T>, s': Traced<T>, t: nat, pos: nat, sl: Slot<T>, th: Thread<T>, p: nat)
    requires Inv(s) && Owns(s.q, t, pos) && s'.q == Touch(s.q, t, pos, sl, th) && SameButTake(s.h, s'.h, pos)
    requires s.q.dequeuePos <= p < s.q.dequeuePos + |s.q.slots| && p != WindowPos(s.q, t)
    ensures SlotOk(s'.q, s'.h, p)
  {
    var capacity, p0 := |s.q.slots|, WindowPos(s.q, t);
    assert ThreadOk(s.q, s.h, t);
    assert SlotOk(s.q, s.h, p);
    Periodic(capacity, pos);
    if p < p0 { ResiduesDiffer(capacity, p, p0); } else { ResiduesDiffer(capacity, p0, p); }
    if p >= capacity { Periodic(capacity, p - capacity); }
  }

  /** Two threads never own the same slot. */
  lemma OwnersDiffer<T>(s: Traced<T>, t: nat, u: nat)
    requires Inv(s) && t < |s.q.threads| && u < |s.q.threads| && t != u
    requires !OwnsNothing(s.q.threads[t]) && !OwnsNothing(s.q.threads[u])
    ensures IndexOf(Unbounded, s.q.threads[t].pos, |s.q.slots|) != IndexOf(Unbounded, s.q.threads[u].pos, |s.q.slots|)
  {
    var capacity := |s.q.slots|;
    assert ThreadOk(s.q, s.h, t) && ThreadOk(s.q, s.h, u);
    var p, p' := s.q.threads[t].pos, s.q.threads[u].pos;
    if p < p' < p + capacity { ResiduesDiffer(capacity, p, p'); }
    if p' < p < p' + capacity { ResiduesDiffer(capacity, p', p); }
  }

  /** A slot that some thread could claim right now is owned by nobody. */
  lemma ClaimableIsUnowned<T>(s: Traced<T>, t: nat, u: nat)
    requires Inv(s) && t < |s.q.threads| && u < |s.q.threads| && !OwnsNothing(s.q.threads[t])
    requires var th := s.q.threads[u];
             (th.PushCas? && th.pos == s.q.enqueuePos) || (th.PopCas? && th.pos == s.q.dequeuePos)
    ensures IndexOf(Unbounded, s.q.threads[t].pos, |s.q.slots|) != IndexOf(Unbounded, s.q.threads[u].pos, |s.q.slots|)
  {
    assert ThreadOk(s.q, s.h, t);
    var pos, pos' := s.q.threads[t].pos, s.q.threads[u].pos;
    if s.q.threads[u].PushCas? { PushClaimIsSafe(s, u); } else { PopClaimIsSafe(s, u); }
    if pos < pos' < pos + |s.q.slots| { ResiduesDiffer(|s.q.slots|, pos, pos'); }
    if pos' < pos < pos' + |s.q.slots| { ResiduesDiffer(|s.q.slots|, pos', pos); }
  }

  lemma OtherThreadKept<T>(s: Traced<T>, s': Traced<T>, t: nat, pos: nat, sl: Slot<T>, th: Thread<T>, u: nat)
    requires Inv(s) && Owns(s.q, t, pos) && s'.q == Touch(s.q, t, pos, sl, th) && SameButTake(s.h, s'.h, pos)
    requires u < |s.q.threads| && u != t
    ensures ThreadOk(s'.q, s'.h, u)
  {
    var thu := s.q.threads[u];
    assert ThreadOk(s.q, s.h, u);
    if !OwnsNothing(thu) {
      OwnersDiffer(s, t, u);
    } else if (thu.PushCas? && thu.pos == s.q.enqueuePos) || (thu.PopCas? && thu.pos == s.q.dequeuePos) {
      ClaimableIsUnowned(s, t, u);
    }
  }

  /** An owner's step keeps the invariant if it leaves its own slot, its own place
      and its own history entry as the invariant wants them. */
  lemma OwnerStepKeepsInv<T>(s: Traced<T>, s': Traced<T>, t: nat, pos: nat, sl: Slot<T>, th: Thread<T>)
    requires Inv(s) && Owns(s.q, t, pos) && s'.q == Touch(s.q, t, pos, sl, th) && SameButTake(s.h, s'.h, pos)
    requires SlotOk(s'.q, s'.h, WindowPos(s.q, t)) && ThreadOk(s'.q, s'.h, t)
    requires pos < s.q.dequeuePos ==> TakenOk(s'.q, s'.h, pos)
    requires pos in s'.h.taken ==> pos < s.q.dequeuePos
    ensures Inv(s')
  {
    forall p | s'.q.dequeuePos <= p < s'.q.dequeuePos + |s'.q.slots| ensures SlotOk(s'.q, s'.h, p) {
      if p != WindowPos(s.q, t) { OtherSlotKept(s, s', t, pos, sl, th, p); }
    }
    forall u | 0 <= u < |s'.q.threads| ensures ThreadOk(s'.q, s'.h, u) {
      if u != t { OtherThreadKept(s, s', t, pos, sl, th, u); }
    }
    forall p | 0 <= p < s'.q.dequeuePos ensures TakenOk(s'.q, s'.h, p) {
      if p != pos { assert TakenOk(s.q, s.h, p); }
    }
  }

  lemma PushWriteKeepsInv<T>(s: Traced<T>, a: Action<T>)
    requires Inv(s) && a.Step? && a.tid < |s.q.threads| && s.q.threads[a.tid].PushWrite?
    ensures Inv(NextTraced(s, a))
  {
    var q, h, t := s.q, s.h, a.tid;
    var s' := NextTraced(s, a);
    var pos := q.threads[t].pos;
    assert ThreadOk(q, h, t);
    assert SlotOk(q, h, WindowPos(q, t));
    assert s'.q == Touch(q, t, pos, SlotFor(s'.q, pos), s'.q.threads[t]);
    OwnerStepKeepsInv(s, s', t, pos, SlotFor(s'.q, pos), s'.q.threads[t]);
  }

  lemma PushStoreKeepsInv<T>(s: Traced<T>, a: Action<T>)
    requires Inv(s) && a.Step? && a.tid < |s.q.threads| && s.q.threads[a.tid].PushStore?
    ensures Inv(NextTraced(s, a))
  {
    var q, h, t := s.q, s.h, a.tid;
    var s' := NextTraced(s, a);
    var pos := q.threads[t].pos;
    assert ThreadOk(q, h, t);
    assert SlotOk(q, h, WindowPos(q, t));
    assert s'.q == Touch(q, t, pos, SlotFor(s'.q, pos), s'.q.threads[t]);
    OwnerStepKeepsInv(s, s', t, pos, SlotFor(s'.q, pos), s'.q.threads[t]);
  }

  lemma PopTakeKeepsInv<T>(s: Traced<T>, a: Action<T>)
    requires Inv(s) && a.Step? && a.tid < |s.q.threads| && s.q.threads[a.tid].PopTake?
    ensures Inv(NextTraced(s, a))
  {
    var q, h, t := s.q, s.h, a.tid;
    var s' := NextTraced(s, a);
    var pos := q.threads[t].pos;
    assert ThreadOk(q, h, t);
    Periodic(|q.slots|, pos);
    assert SlotOk(q, h, WindowPos(q, t));
    assert TakenOk(q, h, pos);
    assert s'.q == Touch(q, t, pos, SlotFor(s'.q, pos), s'.q.threads[t]);
    OwnerStepKeepsInv(s, s', t, pos, SlotFor(s'.q, pos), s'.q.threads[t]);
  }

  lemma PopStoreKeepsInv<T>(s: Traced<T>, a: Action<T>)
    requires Inv(s) && a.Step? && a.tid < |s.q.threads| && s.q.threads[a.tid].PopStore?
    ensures Inv(NextTraced(s, a))
  {
    var q, h, t := s.q, s.h, a.tid;
    var s' := NextTraced(s, a);
    var pos := q.threads[t].pos;
    assert ThreadOk(q, h, t);
    Periodic(|q.slots|, pos);
    assert SlotOk(q, h, WindowPos(q, t));
    assert TakenOk(q, h, pos);
    assert s'.q == Touch(q, t, pos, SlotFor(s'.q, pos), s'.q.threads[t]);
    OwnerStepKeepsInv(s, s', t, pos, SlotFor(s'.q, pos), s'.q.threads[t]);
  }

  lemma LocalMoveKeepsInv<T>(s: Traced<T>, a: Action<T>)
    requires Inv(s) && a.tid < |s.q.threads| && OwnsNothing(s.q.threads[a.tid])
    requires NextTraced(s, a).h == s.h && !Claims(s, a)
    ensures Inv(NextTraced(s, a))
  {
    assert ThreadOk(s.q, s.h, a.tid);
    var th' := Next(Unbounded, s.q, a).threads[a.tid];
    assert Next(Unbounded, s.q, a) == SetThread(s.q, a.tid, th');
    LocalStepKeepsInv(s, a.tid, th');
  }

  /** The move is a successful compare-exchange. */
  predicate Claims<T>(s: Traced<T>, a: Action<T>) {
    && a.Step? && !a.spurious && a.tid < |s.q.threads|
    && var th := s.q.threads[a.tid];
       (th.PushCas? && th.pos == s.q.enqueuePos) || (th.PopCas? && th.pos == s.q.dequeuePos)
  }

  lemma StepKeepsInv<T>(s: Traced<T>, a: Action<T>)
    requires Inv(s)
    ensures Inv(NextTraced(s, a))
  {
    if a.tid < |s.q.threads| && (a.Step? || AtRest(s.q.threads[a.tid])) {
      var th := s.q.threads[a.tid];
      if Claims(s, a) {
        if th.PushCas? { PushClaimKeepsInv(s, a); } else { PopClaimKeepsInv(s, a); }
      } else if OwnsNothing(th) {
        LocalMoveKeepsInv(s, a);
      } else if th.PushWrite? {
        PushWriteKeepsInv(s, a);
      } else if th.PushStore? {
        PushStoreKeepsInv(s, a);
      } else if th.PopTake? {
        PopTakeKeepsInv(s, a);
      } else {
        PopStoreKeepsInv(s, a);
      }
    }
  }

  lemma {:induction false} ReachableInv<T>(capacity: nat, threadCount: nat, schedule: seq<Action<T>>)
    requires capacity >= 2
    ensures Inv(Reach(capacity, threadCount, schedule))
  {
    if schedule == [] {
      var s := Start<T>(capacity, threadCount);
      forall p | 0 <= p < capacity ensures SlotOk(s.q, s.h, p) {
        assert p % capacity == p;
      }
    } else {
      var before := schedule[..|schedule| - 1];
      ReachableInv(capacity, threadCount, before);
      StepKeepsInv(Reach(capacity, threadCount, before), schedule[|schedule| - 1]);
    }
  }
}
