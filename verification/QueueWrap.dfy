/** The 64-bit machine, whose counters wrap around, against the machine whose
    counters grow for ever. */
module QueueWrap {
  import opened Words
  import opened MpmcQueue
  import opened QueueInvariant

  // ---- What a 64-bit machine sees of an unbounded state ----

  function WrapSlot<T>(sl: Slot<T>): Slot<T> {
    sl.(sequence := sl.sequence % WORD)
  }

  function WrapThread<T>(th: Thread<T>): Thread<T> {
    match th
    case Idle => th
    case Returned(_) => th
    case PushLoad(_) => th
    case PushProbe(item, pos) => PushProbe(item, pos % WORD)
    case PushCas(item, pos) => PushCas(item, pos % WORD)
    case PushWrite(item, pos) => PushWrite(item, pos % WORD)
    case PushStore(pos) => PushStore(pos % WORD)
    case PopLoad => th
    case PopProbe(pos) => PopProbe(pos % WORD)
    case PopCas(pos) => PopCas(pos % WORD)
    case PopTake(pos) => PopTake(pos % WORD)
    case PopStore(pos, taken) => PopStore(pos % WORD, taken)
  }

  function Wrapped<T>(q: Queue<T>): (w: Queue<T>)
    ensures |w.slots| == |q.slots| && |w.threads| == |q.threads|
  {
    Queue(seq(|q.slots|, i requires 0 <= i < |q.slots| => WrapSlot(q.slots[i])),
          q.enqueuePos % WORD, q.dequeuePos % WORD,
          seq(|q.threads|, t requires 0 <= t < |q.threads| => WrapThread(q.threads[t])))
  }

  /** A thread's loaded `pos` is fresh enough: the counter it was loaded from has moved
      on by less than half a word, less the capacity. */
  ghost predicate Fresh<T>(q: Queue<T>, t: nat)
    requires t < |q.threads|
  {
    match q.threads[t]
    case PushProbe(_, pos) => q.enqueuePos - pos < HALF_WORD - |q.slots|
    case PushCas(_, pos) => q.enqueuePos - pos < HALF_WORD - |q.slots|
    case PopProbe(pos) => q.dequeuePos - pos < HALF_WORD - |q.slots|
    case PopCas(pos) => q.dequeuePos - pos < HALF_WORD - |q.slots|
    case _ => true
  }

  // ---- Arithmetic ----

  predicate SameSign(x: int, y: int) {
    (x == 0 <==> y == 0) && (x < 0 <==> y < 0)
  }

  /** Exactly when the wrapped difference takes the branch of the true one: modulo the
      word, the difference must still fall on its own side of half a word. */
  lemma WrappedBranchExactlyWhen(sequence: nat, pos: nat)
    ensures var diff := sequence - pos;
            SameSign(diff, Diff(Wrapping, sequence % WORD, pos % WORD)) <==>
            if diff == 0 then true
            else if diff > 0 then 0 < diff % WORD < HALF_WORD
            else diff % WORD >= HALF_WORD
  {
    WrapDifference(sequence, pos);
  }

  lemma WrapDifference(x: nat, y: nat)
    ensures (x % WORD - y % WORD) % WORD == (x - y) % WORD
  {
    var k := x / WORD - y / WORD - (x - y) / WORD;
    assert x % WORD - y % WORD == WORD * (-k) + (x - y) % WORD;
    ModuloUnique(x % WORD - y % WORD, WORD, -k, (x - y) % WORD);
  }

  lemma WrapSum(x: nat, d: nat)
    ensures Add(Wrapping, x % WORD, d) == (x + d) % WORD
  {
    var k := (x + d) / WORD - x / WORD;
    assert x % WORD + d == WORD * k + (x + d) % WORD;
    ModuloUnique(x % WORD + d, WORD, k, (x + d) % WORD);
  }

  lemma SmallDifferenceWraps(sequence: nat, pos: nat)
    requires 0 - HALF_WORD <= sequence - pos < HALF_WORD
    ensures Diff(Wrapping, sequence % WORD, pos % WORD) == sequence - pos
  {
    WrapDifference(sequence, pos);
    var diff := sequence - pos;
    ModuloUnique(diff, WORD, if diff < 0 then -1 else 0, if diff < 0 then diff + WORD else diff);
  }

  /** `pos & mask` on a wrapped counter finds the slot of the unbounded position. */
  lemma WrappedIndex(pos: nat, capacity: nat)
    requires IsPowerOfTwo(capacity)
    ensures capacity > 0 && IndexOf(Wrapping, pos % WORD, capacity) == IndexOf(Unbounded, pos, capacity)
  {
    var k: nat :| k < 64 && capacity == Pow2(k);
    MaskIsModulo(pos % WORD, k);
    WrapKeepsResidue(pos, k);
  }

  lemma PowerFitsHalfWord(capacity: nat)
    requires IsPowerOfTwo(capacity)
    ensures 1 <= capacity <= HALF_WORD
  {
    var k: nat :| k < 64 && capacity == Pow2(k);
    Pow2Of64();
    if k < 63 { Pow2Monotone(k, 63); }
  }

  lemma NearCountersWrapApart(counter: nat, pos: nat)
    requires pos <= counter < pos + WORD
    ensures counter % WORD == pos % WORD <==> counter == pos
  {
    ModuloUnique(pos + (counter - pos), WORD, pos / WORD + (if pos % WORD + (counter - pos) < WORD then 0 else 1),
                 pos % WORD + (counter - pos) - (if pos % WORD + (counter - pos) < WORD then 0 else WORD));
  }

  // ---- How far a slot's sequence can be from a thread's position ----

  lemma WindowSequenceRange<T>(s: Traced<T>, pos: nat)
    requires Inv(s) && s.q.dequeuePos <= pos < s.q.dequeuePos + |s.q.slots|
    ensures pos - |s.q.slots| <= SlotFor(s.q, pos).sequence <= s.q.dequeuePos + |s.q.slots|
  {
    assert SlotOk(s.q, s.h, pos);
  }

  /** A slot's sequence is at most one lap behind a position of its own, and at most
      one lap ahead of the head. */
  lemma {:induction false} SequenceRange<T>(s: Traced<T>, pos: nat)
    requires Inv(s) && (pos < s.q.dequeuePos + |s.q.slots| || pos == s.q.enqueuePos)
    ensures pos - |s.q.slots| <= SlotFor(s.q, pos).sequence <= s.q.dequeuePos + |s.q.slots|
    decreases s.q.dequeuePos + |s.q.slots| - pos
  {
    if pos < s.q.dequeuePos {
      Periodic(|s.q.slots|, pos);
      SequenceRange(s, pos + |s.q.slots|);
    } else if pos == s.q.dequeuePos + |s.q.slots| {
      Periodic(|s.q.slots|, s.q.dequeuePos);
      assert SlotOk(s.q, s.h, s.q.dequeuePos);
    } else {
      WindowSequenceRange(s, pos);
    }
  }

  // ---- One step, then whole runs ----

  lemma WrappedSlot<T>(q: Queue<T>, pos: nat)
    requires IsPowerOfTwo(|q.slots|)
    ensures |q.slots| > 0 && IndexOf(Wrapping, pos % WORD, |q.slots|) == IndexOf(Unbounded, pos, |q.slots|)
    ensures Wrapped(q).slots[IndexOf(Wrapping, pos % WORD, |q.slots|)] == WrapSlot(SlotFor(q, pos))
  {
    WrappedIndex(pos, |q.slots|);
  }

  lemma WrapSetThread<T>(q: Queue<T>, t: nat, th: Thread<T>)
    requires t < |q.threads|
    ensures Wrapped(SetThread(q, t, th)) == SetThread(Wrapped(q), t, WrapThread(th))
  {
  }

  lemma WrapSetSlot<T>(q: Queue<T>, i: nat, sl: Slot<T>)
    requires i < |q.slots|
    ensures Wrapped(q.(slots := q.slots[i := sl])) == Wrapped(q).(slots := Wrapped(q).slots[i := WrapSlot(sl)])
  {
  }

  /** Both machines change the same slot alike. */
  lemma OwnersAgree<T>(q: Queue<T>, t: nat, spurious: bool)
    requires IsPowerOfTwo(|q.slots|) && t < |q.threads| && !OwnsNothing(q.threads[t])
    ensures |q.slots| > 0
    ensures Next(Wrapping, Wrapped(q), Step(t, spurious)) == Wrapped(Next(Unbounded, q, Step(t, spurious)))
  {
    var pos := q.threads[t].pos;
    WrappedSlot(q, pos);
    WrapSum(pos, 1);
    WrapSum(pos, |q.slots| - 1);
    WrapSum(pos + |q.slots| - 1, 1);
    var q' := Next(Unbounded, q, Step(t, spurious));
    WrapSetThread(q, t, q'.threads[t]);
    WrapSetSlot(SetThread(q, t, q'.threads[t]), IndexOf(Unbounded, pos, |q.slots|), SlotFor(q', pos));
  }

  // ---- Exactly when the two machines agree ----

  /** The moving thread takes the same branch on the wrapped values as on the true ones. */
  predicate SameBranch<T>(q: Queue<T>, a: Action<T>)
    requires |q.slots| > 0
  {
    if !a.Step? || a.tid >= |q.threads| then true
    else
      match q.threads[a.tid]
      case PushProbe(_, pos) => WrapsAlike(SlotFor(q, pos).sequence, pos)
      case PopProbe(pos) => WrapsAlike(SlotFor(q, pos).sequence, pos + 1)
      case PushCas(_, pos) => a.spurious || (q.enqueuePos % WORD == pos % WORD <==> q.enqueuePos == pos)
      case PopCas(pos) => a.spurious || (q.dequeuePos % WORD == pos % WORD <==> q.dequeuePos == pos)
      case _ => true
  }

  /** The wrapped difference has the sign of the true one. */
  predicate WrapsAlike(x: nat, y: nat) {
    SameSign(x - y, Diff(Wrapping, x % WORD, y % WORD))
  }

  lemma ProbeAgreesExactlyWhen<T>(q: Queue<T>, t: nat, spurious: bool)
    requires IsPowerOfTwo(|q.slots|) && t < |q.threads| && (q.threads[t].PushProbe? || q.threads[t].PopProbe?)
    ensures |q.slots| > 0
    ensures Next(Wrapping, Wrapped(q), Step(t, spurious)) == Wrapped(Next(Unbounded, q, Step(t, spurious)))
            <==> SameBranch(q, Step(t, spurious))
  {
    var pos, a := q.threads[t].pos, Step(t, spurious);
    WrappedSlot(q, pos);
    WrapSum(pos, 1);
    WrapSetThread(q, t, Next(Unbounded, q, a).threads[t]);
    assert Wrapped(Next(Unbounded, q, a)).threads[t] == WrapThread(Next(Unbounded, q, a).threads[t]);
  }

  lemma ClaimAgreesExactlyWhen<T>(q: Queue<T>, t: nat, spurious: bool)
    requires IsPowerOfTwo(|q.slots|) && t < |q.threads| && (q.threads[t].PushCas? || q.threads[t].PopCas?)
    ensures |q.slots| > 0
    ensures Next(Wrapping, Wrapped(q), Step(t, spurious)) == Wrapped(Next(Unbounded, q, Step(t, spurious)))
            <==> SameBranch(q, Step(t, spurious))
  {
    var pos, a := q.threads[t].pos, Step(t, spurious);
    PowerFitsHalfWord(|q.slots|);
    WrapSum(pos, 1);
    WrapSetThread(q, t, Next(Unbounded, q, a).threads[t]);
    assert Wrapped(Next(Unbounded, q, a)).threads[t] == WrapThread(Next(Unbounded, q, a).threads[t]);
  }

  /** In every state, reachable or not, one step of the 64-bit machine is the wrapped step of
      the unbounded one exactly when the moving thread branches alike on both. */
  lemma StepAgreesExactlyWhen<T>(q: Queue<T>, a: Action<T>)
    requires IsPowerOfTwo(|q.slots|)
    ensures |q.slots| > 0
    ensures Next(Wrapping, Wrapped(q), a) == Wrapped(Next(Unbounded, q, a)) <==> SameBranch(q, a)
  {
    PowerFitsHalfWord(|q.slots|);
    var t := a.tid;
    if t < |q.threads| {
      var th := q.threads[t];
      if a.Step? && (th.PushProbe? || th.PopProbe?) {
        ProbeAgreesExactlyWhen(q, t, a.spurious);
      } else if a.Step? && (th.PushCas? || th.PopCas?) {
        ClaimAgreesExactlyWhen(q, t, a.spurious);
      } else if a.Step? && !OwnsNothing(th) {
        OwnersAgree(q, t, a.spurious);
      } else {
        WrapSetThread(q, t, Next(Unbounded, q, a).threads[t]);
      }
    }
  }

  /** The two machines agree after the first `k` moves of a schedule. */
  ghost predicate AgreeAfter<T>(capacity: nat, threadCount: nat, schedule: seq<Action<T>>, k: nat) {
    && capacity > 0 && k <= |schedule|
    && Run(Wrapping, New(capacity, threadCount), schedule[..k]) ==
       Wrapped(Reach(capacity, threadCount, schedule[..k]).q)
  }

  /** Move `k` of a schedule branches alike. */
  ghost predicate BranchesAt<T>(capacity: nat, threadCount: nat, schedule: seq<Action<T>>, k: nat) {
    && capacity > 0 && k < |schedule|
    && SameBranch(Reach(capacity, threadCount, schedule[..k]).q, schedule[k])
  }

  lemma AgreeNext<T>(capacity: nat, threadCount: nat, schedule: seq<Action<T>>, k: nat)
    requires IsPowerOfTwo(capacity) && k < |schedule| && AgreeAfter(capacity, threadCount, schedule, k)
    ensures AgreeAfter(capacity, threadCount, schedule, k + 1) <==> BranchesAt(capacity, threadCount, schedule, k)
  {
    var longer, before := schedule[..k + 1], schedule[..k];
    assert longer[..|longer| - 1] == before && longer[|longer| - 1] == schedule[k];
    StepAgreesExactlyWhen(Reach(capacity, threadCount, before).q, schedule[k]);
    assert Run(Wrapping, New(capacity, threadCount), longer) ==
           Next(Wrapping, Run(Wrapping, New(capacity, threadCount), before), schedule[k]);
    assert Reach(capacity, threadCount, longer) == NextTraced(Reach(capacity, threadCount, before), schedule[k]);
  }

  /** Agreement that each move keeps exactly on a condition. */
  lemma {:induction false} KeptExactlyWhen(agree: nat -> bool, same: nat -> bool, n: nat)
    requires agree(0) && forall k :: 0 <= k < n && agree(k) ==> (agree(k + 1) <==> same(k))
    ensures (forall k :: 0 <= k <= n ==> agree(k)) <==> (forall k :: 0 <= k < n ==> same(k))
  {
    if n > 0 {
      KeptExactlyWhen(agree, same, n - 1);
      assert agree(n - 1) ==> (agree(n - 1 + 1) <==> same(n - 1));
    }
  }

  lemma NewAgrees<T>(capacity: nat, threadCount: nat, schedule: seq<Action<T>>)
    requires IsPowerOfTwo(capacity)
    ensures AgreeAfter(capacity, threadCount, schedule, 0)
  {
    PowerFitsHalfWord(capacity);
    assert New<T>(capacity, threadCount) == Wrapped(New(capacity, threadCount));
  }

  /** For every schedule, of any length and for every capacity `new` accepts, the 64-bit
      machine goes through the wrapped states of the unbounded one exactly when each moving
      thread branches alike on both. */
  lemma RunsAgreeExactlyWhen<T>(capacity: nat, threadCount: nat, schedule: seq<Action<T>>)
    requires IsPowerOfTwo(capacity)
    ensures (forall k :: 0 <= k <= |schedule| ==> AgreeAfter(capacity, threadCount, schedule, k)) <==>
            (forall k :: 0 <= k < |schedule| ==> BranchesAt(capacity, threadCount, schedule, k))
  {
    var agree := (k: nat) => AgreeAfter(capacity, threadCount, schedule, k);
    var same := (k: nat) => BranchesAt(capacity, threadCount, schedule, k);
    NewAgrees(capacity, threadCount, schedule);
    forall k | 0 <= k < |schedule| && agree(k) ensures agree(k + 1) <==> same(k) {
      AgreeNext(capacity, threadCount, schedule, k);
    }
    KeptExactlyWhen(agree, same, |schedule|);
    assert forall k: nat :: AgreeAfter(capacity, threadCount, schedule, k) <==> agree(k);
    assert forall k: nat :: BranchesAt(capacity, threadCount, schedule, k) <==> same(k);
  }

  // ---- Fresh threads branch alike ----

  /** A thread whose loaded position lags by less than half a word, less the capacity,
      branches alike. */
  lemma FreshBranchesAlike<T>(s: Traced<T>, a: Action<T>)
    requires Inv(s) && IsPowerOfTwo(|s.q.slots|) && (a.tid < |s.q.threads| ==> Fresh(s.q, a.tid))
    ensures SameBranch(s.q, a)
  {
    var q := s.q;
    if a.Step? && a.tid < |q.threads| {
      assert ThreadOk(q, s.h, a.tid);
      PowerFitsHalfWord(|q.slots|);
      match q.threads[a.tid]
      case PushProbe(_, pos) =>
        SequenceRange(s, pos);
        SmallDifferenceWraps(SlotFor(q, pos).sequence, pos);
      case PopProbe(pos) =>
        SequenceRange(s, pos);
        SmallDifferenceWraps(SlotFor(q, pos).sequence, pos + 1);
      case PushCas(_, pos) => NearCountersWrapApart(q.enqueuePos, pos);
      case PopCas(pos) => NearCountersWrapApart(q.dequeuePos, pos);
      case _ =>
    }
  }

  lemma StepsAgree<T>(s: Traced<T>, a: Action<T>)
    requires Inv(s) && IsPowerOfTwo(|s.q.slots|) && (a.tid < |s.q.threads| ==> Fresh(s.q, a.tid))
    ensures Next(Wrapping, Wrapped(s.q), a) == Wrapped(Next(Unbounded, s.q, a))
  {
    FreshBranchesAlike(s, a);
    StepAgreesExactlyWhen(s.q, a);
  }

  /** For every schedule in which each thread that moves is fresh, the 64-bit machine
      goes through exactly the wrapped states of the unbounded one, counter overflow
      included. */
  lemma {:induction false} RunsAgree<T>(capacity: nat, threadCount: nat, schedule: seq<Action<T>>)
    requires capacity >= 2 && IsPowerOfTwo(capacity)
    requires forall k :: 0 <= k < |schedule| && schedule[k].tid < threadCount ==>
               Fresh(Reach(capacity, threadCount, schedule[..k]).q, schedule[k].tid)
    ensures Run(Wrapping, New(capacity, threadCount), schedule) == Wrapped(Reach(capacity, threadCount, schedule).q)
  {
    if schedule == [] {
      PowerFitsHalfWord(capacity);
      assert New<T>(capacity, threadCount) == Wrapped(New(capacity, threadCount));
    } else {
      var before := schedule[..|schedule| - 1];
      forall k | 0 <= k < |before| && before[k].tid < threadCount
        ensures Fresh(Reach(capacity, threadCount, before[..k]).q, before[k].tid)
      {
        assert before[..k] == schedule[..k];
      }
      RunsAgree(capacity, threadCount, before);
      ReachableInv(capacity, threadCount, before);
      StepsAgree(Reach(capacity, threadCount, before), schedule[|schedule| - 1]);
    }
  }
}
