/** The lock-free bounded MPMC ring buffer as a machine: any number of threads,
    one step per atomic access, one more for every plain access to a slot's value.

    The machine is written once over two arithmetics. `Wrapping` is what a 64-bit
    build computes; `Unbounded` lets the counters grow for ever, and is the one the
    protocol is proved over. `QueueWrap` says exactly when the two take the same branches,
    and `Queue64` what of the protocol a 64-bit build keeps when they do not. */
module MpmcQueue {
  import opened Wrappers
  import opened Words

  datatype Arithmetic = Unbounded | Wrapping

  datatype Slot<T> = Slot(sequence: nat, value: Option<T>)

  /** What a call hands back. A `pop` that takes an empty slot also returns `None`. */
  datatype Reply<T> = PushOk | PushErr(item: T) | PopSome(item: T) | PopNone

  /** Where a thread stands: the access it makes next, with its local variables. */
  datatype Thread<T> =
    | Idle
    | Returned(reply: Reply<T>)
    | PushLoad(item: T)              // loads enqueue_pos: on entry, or again after diff > 0
    | PushProbe(item: T, pos: nat)   // loads the slot's sequence and branches on diff
    | PushCas(item: T, pos: nat)     // read seq == pos, will try to claim pos
    | PushWrite(item: T, pos: nat)   // owns pos, will write the value
    | PushStore(pos: nat)            // wrote the value, will release the slot
    | PopLoad
    | PopProbe(pos: nat)
    | PopCas(pos: nat)
    | PopTake(pos: nat)
    | PopStore(pos: nat, taken: Option<T>)

  datatype Queue<T> = Queue(
    slots: seq<Slot<T>>,
    enqueuePos: nat,
    dequeuePos: nat,
    threads: seq<Thread<T>>)

  /** One move of the scheduler. A step marked `spurious` fails if it is a weak
      compare-exchange, whatever the counter holds. */
  datatype Action<T> =
    | CallPush(tid: nat, item: T)
    | CallPop(tid: nat)
    | Step(tid: nat, spurious: bool)

  function Add(ar: Arithmetic, x: nat, d: nat): nat {
    match ar
    case Unbounded => x + d
    case Wrapping => (x + d) % WORD
  }

  /** `seq as isize - pos as isize`. */
  function Diff(ar: Arithmetic, sequence: nat, pos: nat): int {
    match ar
    case Unbounded => sequence - pos
    case Wrapping => ToSigned((sequence - pos) % WORD)
  }

  /** The slot of a position: `pos & mask`, which is `pos` modulo the capacity. */
  function IndexOf(ar: Arithmetic, pos: nat, capacity: nat): (i: nat)
    requires capacity > 0
    ensures i < capacity
  {
    match ar
    case Unbounded => pos % capacity
    case Wrapping => BitAnd(pos, capacity - 1)
  }

  function New<T>(capacity: nat, threadCount: nat): Queue<T> {
    Queue(seq(capacity, (i: nat) => Slot(i, None)), 0, 0, seq(threadCount, (i: nat) => Idle))
  }

  function SetThread<T>(q: Queue<T>, t: nat, th: Thread<T>): Queue<T>
    requires t < |q.threads|
  {
    q.(threads := q.threads[t := th])
  }

  predicate AtRest<T>(th: Thread<T>) {
    th.Idle? || th.Returned?
  }

  /** What the machine does for one scheduler move; a move that makes no sense
      (no such thread, a call while one is running) changes nothing. */
  function Next<T>(ar: Arithmetic, q: Queue<T>, a: Action<T>): (q': Queue<T>)
    requires |q.slots| > 0
    ensures |q'.slots| == |q.slots| && |q'.threads| == |q.threads|
  {
    if a.tid >= |q.threads| then q else
    match a
    case CallPush(t, item) => if AtRest(q.threads[t]) then SetThread(q, t, PushLoad(item)) else q
    case CallPop(t) => if AtRest(q.threads[t]) then SetThread(q, t, PopLoad) else q
    case Step(t, spurious) => StepThread(ar, q, t, spurious)
  }

  function StepThread<T>(ar: Arithmetic, q: Queue<T>, t: nat, spurious: bool): (q': Queue<T>)
    requires |q.slots| > 0 && t < |q.threads|
    ensures |q'.slots| == |q.slots| && |q'.threads| == |q.threads|
  {
    var capacity := |q.slots|;
    match q.threads[t]
    case Idle => q
    case Returned(_) => q
    case PushLoad(item) => SetThread(q, t, PushProbe(item, q.enqueuePos))
    case PushProbe(item, pos) =>
      var diff := Diff(ar, q.slots[IndexOf(ar, pos, capacity)].sequence, pos);
      SetThread(q, t,
                if diff == 0 then PushCas(item, pos)
                else if diff < 0 then Returned(PushErr(item))
                else PushLoad(item))
    case PushCas(item, pos) =>
      if !spurious && q.enqueuePos == pos
      then SetThread(q, t, PushWrite(item, pos)).(enqueuePos := Add(ar, pos, 1))
      else SetThread(q, t, PushProbe(item, q.enqueuePos))
    case PushWrite(item, pos) =>
      var i := IndexOf(ar, pos, capacity);
      SetThread(q, t, PushStore(pos)).(slots := q.slots[i := q.slots[i].(value := Some(item))])
    case PushStore(pos) =>
      var i := IndexOf(ar, pos, capacity);
      SetThread(q, t, Returned(PushOk)).(slots := q.slots[i := q.slots[i].(sequence := Add(ar, pos, 1))])
    case PopLoad => SetThread(q, t, PopProbe(q.dequeuePos))
    case PopProbe(pos) =>
      var diff := Diff(ar, q.slots[IndexOf(ar, pos, capacity)].sequence, Add(ar, pos, 1));
      SetThread(q, t,
                if diff == 0 then PopCas(pos)
                else if diff < 0 then Returned(PopNone)
                else PopLoad)
    case PopCas(pos) =>
      if !spurious && q.dequeuePos == pos
      then SetThread(q, t, PopTake(pos)).(dequeuePos := Add(ar, pos, 1))
      else SetThread(q, t, PopProbe(q.dequeuePos))
    case PopTake(pos) =>
      var i := IndexOf(ar, pos, capacity);
      SetThread(q, t, PopStore(pos, q.slots[i].value)).(slots := q.slots[i := q.slots[i].(value := None)])
    case PopStore(pos, taken) =>
      var i := IndexOf(ar, pos, capacity);
      SetThread(q, t, Returned(if taken.Some? then PopSome(taken.value) else PopNone))
      .(slots := q.slots[i := q.slots[i].(sequence := Add(ar, Add(ar, pos, capacity - 1), 1))])
  }

  /** The machine after a whole schedule. */
  function Run<T>(ar: Arithmetic, q: Queue<T>, schedule: seq<Action<T>>): (q': Queue<T>)
    requires |q.slots| > 0
    ensures |q'.slots| == |q.slots| && |q'.threads| == |q.threads|
  {
    if schedule == [] then q
    else Next(ar, Run(ar, q, schedule[..|schedule| - 1]), schedule[|schedule| - 1])
  }

  // ---- Histories ----

  datatype Claim<T> = Claim(tid: nat, item: T)

  /** What an observer writes down beside the unbounded machine: who claimed each
      enqueue position and with which item, who claimed each dequeue position, and
      what the take at a dequeue position found. The machine never reads it. */
  datatype History<T> = History(
    claims: seq<Claim<T>>,
    pops: seq<nat>,
    taken: map<nat, Option<T>>)

  datatype Traced<T> = Traced(q: Queue<T>, h: History<T>)

  function Record<T>(q: Queue<T>, h: History<T>, a: Action<T>): History<T>
    requires |q.slots| > 0
  {
    if a.tid >= |q.threads| || !a.Step? then h else
    match q.threads[a.tid]
    case PushCas(item, pos) =>
      if !a.spurious && q.enqueuePos == pos then h.(claims := h.claims + [Claim(a.tid, item)]) else h
    case PopCas(pos) =>
      if !a.spurious && q.dequeuePos == pos then h.(pops := h.pops + [a.tid]) else h
    case PopTake(pos) =>
      h.(taken := h.taken[pos := q.slots[IndexOf(Unbounded, pos, |q.slots|)].value])
    case _ => h
  }

  function NextTraced<T>(s: Traced<T>, a: Action<T>): (s': Traced<T>)
    requires |s.q.slots| > 0
    ensures |s'.q.slots| == |s.q.slots| && |s'.q.threads| == |s.q.threads|
  {
    Traced(Next(Unbounded, s.q, a), Record(s.q, s.h, a))
  }

  function Start<T>(capacity: nat, threadCount: nat): Traced<T> {
    Traced(New(capacity, threadCount), History([], [], map[]))
  }

  /** The traced machine after a schedule from a fresh queue. */
  function Reach<T>(capacity: nat, threadCount: nat, schedule: seq<Action<T>>): (s: Traced<T>)
    requires capacity > 0
    ensures |s.q.slots| == capacity && |s.q.threads| == threadCount
  {
    if schedule == [] then Start(capacity, threadCount)
    else NextTraced(Reach(capacity, threadCount, schedule[..|schedule| - 1]), schedule[|schedule| - 1])
  }

  lemma {:induction false} ReachIsRun<T>(capacity: nat, threadCount: nat, schedule: seq<Action<T>>)
    requires capacity > 0
    ensures Reach(capacity, threadCount, schedule).q == Run(Unbounded, New(capacity, threadCount), schedule)
  {
    if schedule != [] { ReachIsRun(capacity, threadCount, schedule[..|schedule| - 1]); }
  }

  // ---- One thread running alone ----

  /** `n` moves of thread `t`, none of them failing spuriously. */
  function Solo<T>(s: Traced<T>, t: nat, n: nat): (s': Traced<T>)
    requires |s.q.slots| > 0
    ensures |s'.q.slots| == |s.q.slots| && |s'.q.threads| == |s.q.threads|
  {
    if n == 0 then s else NextTraced(Solo(s, t, n - 1), Step(t, false))
  }

  function Steps<T>(t: nat, n: nat): (moves: seq<Action<T>>)
    ensures |moves| == n
  {
    seq(n, i => Step(t, false))
  }

  lemma ReachStep<T>(capacity: nat, threadCount: nat, schedule: seq<Action<T>>, a: Action<T>)
    requires capacity > 0
    ensures Reach(capacity, threadCount, schedule + [a]) == NextTraced(Reach(capacity, threadCount, schedule), a)
  {
    assert (schedule + [a])[..|schedule|] == schedule;
  }

  lemma OneStepLonger<T>(schedule: seq<Action<T>>, t: nat, n: nat)
    ensures schedule + Steps(t, n + 1) == schedule + Steps(t, n) + [Step(t, false)]
  {
  }

  /** `n` moves of a thread after a schedule. */
  lemma {:induction false} ReachAlone<T>(capacity: nat, threadCount: nat, schedule: seq<Action<T>>, t: nat, n: nat)
    requires capacity > 0
    ensures Reach(capacity, threadCount, schedule + Steps(t, n)) == Solo(Reach(capacity, threadCount, schedule), t, n)
  {
    if n == 0 {
      assert schedule + Steps(t, 0) == schedule;
    } else {
      ReachAlone(capacity, threadCount, schedule, t, n - 1);
      OneStepLonger(schedule, t, n - 1);
      ReachStep(capacity, threadCount, schedule + Steps(t, n - 1), Step(t, false));
    }
  }

  /** A schedule that ends in a call followed by `n` moves of its thread. */
  lemma ReachSolo<T>(capacity: nat, threadCount: nat, schedule: seq<Action<T>>, call: Action<T>, n: nat)
    requires capacity > 0
    ensures Reach(capacity, threadCount, schedule + [call] + Steps(call.tid, n)) ==
            Solo(NextTraced(Reach(capacity, threadCount, schedule), call), call.tid, n)
  {
    ReachAlone(capacity, threadCount, schedule + [call], call.tid, n);
    ReachStep(capacity, threadCount, schedule, call);
  }

  lemma SoloPushClaims<T>(s: Traced<T>, t: nat, item: T)
    requires |s.q.slots| > 0 && t < |s.q.threads| && AtRest(s.q.threads[t])
    requires s.q.slots[IndexOf(Unbounded, s.q.enqueuePos, |s.q.slots|)].sequence == s.q.enqueuePos
    ensures var s0, pos := NextTraced(s, CallPush(t, item)), s.q.enqueuePos;
            && Solo(s0, t, 1) == Traced(SetThread(s.q, t, PushProbe(item, pos)), s.h)
            && Solo(s0, t, 2) == Traced(SetThread(s.q, t, PushCas(item, pos)), s.h)
            && Solo(s0, t, 3) == Traced(SetThread(s.q, t, PushWrite(item, pos)).(enqueuePos := pos + 1),
                                        s.h.(claims := s.h.claims + [Claim(t, item)]))
  {
    var pos := s.q.enqueuePos;
    var s0 := NextTraced(s, CallPush(t, item));
    assert Solo(s0, t, 1) == Traced(SetThread(s.q, t, PushProbe(item, pos)), s.h);
    assert Solo(s0, t, 2) == Traced(SetThread(s.q, t, PushCas(item, pos)), s.h);
  }

  lemma SoloPushFinishes<T>(s: Traced<T>, t: nat, item: T)
    requires |s.q.slots| > 0 && t < |s.q.threads| && AtRest(s.q.threads[t])
    requires s.q.slots[IndexOf(Unbounded, s.q.enqueuePos, |s.q.slots|)].sequence == s.q.enqueuePos
    ensures var pos := s.q.enqueuePos;
            var i := IndexOf(Unbounded, pos, |s.q.slots|);
            Solo(NextTraced(s, CallPush(t, item)), t, 5) ==
            Traced(SetThread(s.q, t, Returned(PushOk))
                   .(enqueuePos := pos + 1, slots := s.q.slots[i := Slot(pos + 1, Some(item))]),
                   s.h.(claims := s.h.claims + [Claim(t, item)]))
  {
    SoloPushClaims(s, t, item);
    var s0, pos := NextTraced(s, CallPush(t, item)), s.q.enqueuePos;
    var i := IndexOf(Unbounded, pos, |s.q.slots|);
    var s4 := Solo(s0, t, 4);
    assert s4.q.threads == s.q.threads[t := PushStore(pos)];
    assert s4.q.slots == s.q.slots[i := Slot(pos, Some(item))];
    var s5 := Solo(s0, t, 5);
    assert s5.q.threads == s.q.threads[t := Returned(PushOk)];
    assert s5.q.slots == s.q.slots[i := Slot(pos + 1, Some(item))];
  }

  lemma SoloPushRefused<T>(s: Traced<T>, t: nat, item: T)
    requires |s.q.slots| > 0 && t < |s.q.threads| && AtRest(s.q.threads[t])
    requires s.q.slots[IndexOf(Unbounded, s.q.enqueuePos, |s.q.slots|)].sequence < s.q.enqueuePos
    ensures Solo(NextTraced(s, CallPush(t, item)), t, 2) == Traced(SetThread(s.q, t, Returned(PushErr(item))), s.h)
  {
    var s0 := NextTraced(s, CallPush(t, item));
    assert Solo(s0, t, 1) == Traced(SetThread(s.q, t, PushProbe(item, s.q.enqueuePos)), s.h);
  }

  lemma SoloPopRefused<T>(s: Traced<T>, t: nat)
    requires |s.q.slots| > 0 && t < |s.q.threads| && AtRest(s.q.threads[t])
    requires s.q.slots[IndexOf(Unbounded, s.q.dequeuePos, |s.q.slots|)].sequence < s.q.dequeuePos + 1
    ensures Solo(NextTraced(s, CallPop(t)), t, 2) == Traced(SetThread(s.q, t, Returned(PopNone)), s.h)
  {
    var s0 := NextTraced(s, CallPop(t));
    assert Solo(s0, t, 1) == Traced(SetThread(s.q, t, PopProbe(s.q.dequeuePos)), s.h);
  }

  lemma SoloPopClaims<T>(s: Traced<T>, t: nat)
    requires |s.q.slots| > 0 && t < |s.q.threads| && AtRest(s.q.threads[t])
    requires s.q.slots[IndexOf(Unbounded, s.q.dequeuePos, |s.q.slots|)].sequence == s.q.dequeuePos + 1
    ensures var s0, pos := NextTraced(s, CallPop(t)), s.q.dequeuePos;
            && Solo(s0, t, 1) == Traced(SetThread(s.q, t, PopProbe(pos)), s.h)
            && Solo(s0, t, 2) == Traced(SetThread(s.q, t, PopCas(pos)), s.h)
            && Solo(s0, t, 3) ==
               Traced(SetThread(s.q, t, PopTake(pos)).(dequeuePos := pos + 1), s.h.(pops := s.h.pops + [t]))
  {
    var s0, pos := NextTraced(s, CallPop(t)), s.q.dequeuePos;
    assert Solo(s0, t, 1) == Traced(SetThread(s.q, t, PopProbe(pos)), s.h);
    assert Solo(s0, t, 2) == Traced(SetThread(s.q, t, PopCas(pos)), s.h);
  }

  lemma SoloPopFinishes<T>(s: Traced<T>, t: nat)
    requires |s.q.slots| > 0 && t < |s.q.threads| && AtRest(s.q.threads[t])
    requires var sl := s.q.slots[IndexOf(Unbounded, s.q.dequeuePos, |s.q.slots|)];
             sl.sequence == s.q.dequeuePos + 1 && sl.value.Some?
    ensures var pos := s.q.dequeuePos;
            var i := IndexOf(Unbounded, pos, |s.q.slots|);
            var taken := s.q.slots[i].value;
            Solo(NextTraced(s, CallPop(t)), t, 5) ==
            Traced(SetThread(s.q, t, Returned(PopSome(taken.value)))
                   .(dequeuePos := pos + 1, slots := s.q.slots[i := Slot(pos + |s.q.slots|, None)]),
                   s.h.(pops := s.h.pops + [t], taken := s.h.taken[pos := taken]))
  {
    SoloPopClaims(s, t);
    var s0, pos := NextTraced(s, CallPop(t)), s.q.dequeuePos;
    var i := IndexOf(Unbounded, pos, |s.q.slots|);
    var taken := s.q.slots[i].value;
    var s4 := Solo(s0, t, 4);
    assert s4.q.threads == s.q.threads[t := PopStore(pos, taken)];
    assert s4.q.slots == s.q.slots[i := Slot(pos + 1, None)];
    var s5 := Solo(s0, t, 5);
    assert s5.q.threads == s.q.threads[t := Returned(PopSome(taken.value))];
    assert s5.q.slots == s.q.slots[i := Slot(pos + |s.q.slots|, None)];
  }
}
