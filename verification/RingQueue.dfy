/** The ring buffer as one thread executes it: `push` and `pop` over the slot arrays,
    with 64-bit counters that wrap around and with weak compare-exchanges that may fail
    spuriously, against a bounded FIFO. */
module RingQueue {
  import opened Wrappers
  import opened Words
  import opened MpmcQueue
  import opened QueueInvariant
  import opened QueueWrap

  /** The slot of position `p`, when the positions from `head` on hold `contents`. */
  ghost predicate SlotHolds<T>(sequence: seq<nat>, value: seq<Option<T>>, head: nat, contents: seq<T>, p: nat)
    requires |sequence| == |value| > 0
  {
    var i := IndexOf(Unbounded, p, |sequence|);
    if head <= p < head + |contents|
    then sequence[i] == (p + 1) % WORD && value[i] == Some(contents[p - head])
    else sequence[i] == p % WORD && value[i] == None
  }

  /** Each slot once: the positions of one lap from `head` on. */
  ghost predicate LapHolds<T>(sequence: seq<nat>, value: seq<Option<T>>, head: nat, contents: seq<T>) {
    && |sequence| == |value| > 0
    && forall p :: head <= p < head + |sequence| ==> SlotHolds(sequence, value, head, contents, p)
  }

  /** Changing the slot of one position of the lap leaves the others alone. */
  lemma OtherIndex(capacity: nat, p: nat, p': nat)
    requires capacity > 0 && p < p' < p + capacity
    ensures IndexOf(Unbounded, p, capacity) != IndexOf(Unbounded, p', capacity)
  {
    ResiduesDiffer(capacity, p, p');
  }

  lemma PushedSlot<T>(sequence: seq<nat>, value: seq<Option<T>>, head: nat, contents: seq<T>, item: T, i: nat, p: nat)
    requires |sequence| == |value| > |contents| && i == IndexOf(Unbounded, head + |contents|, |sequence|)
    requires head <= p < head + |sequence| && SlotHolds(sequence, value, head, contents, p)
    ensures SlotHolds(sequence[i := (head + |contents| + 1) % WORD], value[i := Some(item)], head, contents + [item], p)
  {
    var tail, capacity := head + |contents|, |sequence|;
    if p < tail { OtherIndex(capacity, p, tail); }
    if tail < p { OtherIndex(capacity, tail, p); }
  }

  /** Writing and publishing at the tail appends. */
  lemma PushedLap<T>(sequence: seq<nat>, value: seq<Option<T>>, head: nat, contents: seq<T>, item: T, i: nat)
    requires LapHolds(sequence, value, head, contents) && |contents| < |sequence|
    requires i == IndexOf(Unbounded, head + |contents|, |sequence|)
    ensures LapHolds(sequence[i := (head + |contents| + 1) % WORD], value[i := Some(item)], head, contents + [item])
  {
    var sequence', value' := sequence[i := (head + |contents| + 1) % WORD], value[i := Some(item)];
    forall p | head <= p < head + |sequence| ensures SlotHolds(sequence', value', head, contents + [item], p) {
      PushedSlot(sequence, value, head, contents, item, i, p);
    }
  }

  lemma PoppedSlot<T>(sequence: seq<nat>, value: seq<Option<T>>, head: nat, contents: seq<T>, i: nat, p: nat)
    requires |sequence| == |value| >= |contents| > 0 && i == IndexOf(Unbounded, head, |sequence|)
    requires head < p < head + |sequence| && SlotHolds(sequence, value, head, contents, p)
    ensures SlotHolds(sequence[i := (head + |sequence|) % WORD], value[i := None], head + 1, contents[1..], p)
  {
    OtherIndex(|sequence|, head, p);
  }

  lemma ReleasedSlot<T>(sequence: seq<nat>, value: seq<Option<T>>, head: nat, contents: seq<T>, i: nat)
    requires |sequence| == |value| >= |contents| > 0 && i == IndexOf(Unbounded, head, |sequence|)
    ensures SlotHolds(sequence[i := (head + |sequence|) % WORD], value[i := None], head + 1, contents[1..],
                      head + |sequence|)
  {
    Periodic(|sequence|, head);
  }

  /** Emptying and releasing the slot at the head drops the first item. */
  lemma PoppedLap<T>(sequence: seq<nat>, value: seq<Option<T>>, head: nat, contents: seq<T>, i: nat)
    requires LapHolds(sequence, value, head, contents) && |sequence| >= |contents| > 0
    requires i == IndexOf(Unbounded, head, |sequence|)
    ensures LapHolds(sequence[i := (head + |sequence|) % WORD], value[i := None], head + 1, contents[1..])
  {
    var sequence', value' := sequence[i := (head + |sequence|) % WORD], value[i := None];
    var head', contents' := head + 1, contents[1..];
    forall p | head' <= p < head' + |sequence| ensures SlotHolds(sequence', value', head', contents', p) {
      if p < head + |sequence| {
        PoppedSlot(sequence, value, head, contents, i, p);
      } else {
        ReleasedSlot(sequence, value, head, contents, i);
      }
    }
  }

  lemma OneLapOn(head: nat, mask: nat)
    ensures Add(Wrapping, Add(Wrapping, head % WORD, mask), 1) == (head + mask + 1) % WORD
  {
    WrapSum(head, mask);
    WrapSum(head + mask, 1);
  }

  class RingQueue<T> {
    const sequence: array<nat>
    const value: array<Option<T>>
    const mask: nat
    var enqueuePos: nat
    var dequeuePos: nat
    ghost var head: nat         // positions dequeued so far, not wrapped
    ghost var contents: seq<T>  // the FIFO this ring stands for

    ghost function Capacity(): nat {
      sequence.Length
    }

    ghost predicate Valid()
      reads this, sequence, value
    {
      && Capacity() >= 2 && IsPowerOfTwo(Capacity()) && mask == Capacity() - 1
      && |contents| <= Capacity() && LapHolds(sequence[..], value[..], head, contents)
      && dequeuePos == head % WORD && enqueuePos == (head + |contents|) % WORD
    }

    /** Any power of two, as the source asserts: each slot is free for the position of its
        own index. From two slots on that is an empty ring; a single slot is the case that
        `QueueSafety.SoundExactlyFromTwoSlots` shows to be unsound. */
    constructor (capacity: nat)
      requires IsPowerOfTwo(capacity)
      ensures Capacity() == capacity == mask + 1 == value.Length && fresh(sequence) && fresh(value)
      ensures enqueuePos == dequeuePos == 0 && contents == []
      ensures forall i :: 0 <= i < capacity ==> sequence[i] == i && value[i] == None
      ensures capacity >= 2 ==> Valid()
    {
      PowerFitsHalfWord(capacity);
      sequence := new nat[capacity](i => i);
      value := new Option<T>[capacity](i => None);
      mask := capacity - 1;
      enqueuePos, dequeuePos := 0, 0;
      head, contents := 0, [];
      new;
      forall p | 0 <= p < capacity ensures SlotHolds(sequence[..], value[..], head, contents, p) {
        ModuloUnique(p, capacity, 0, p);
      }
    }

    /** `spurious` is how many of this call's compare-exchanges fail for no reason. */
    method Push(item: T, spurious: nat) returns (reply: Reply<T>)
      requires Valid()
      modifies this, sequence, value
      ensures Valid()
      ensures |old(contents)| < Capacity() ==> reply == PushOk && contents == old(contents) + [item]
      ensures |old(contents)| == Capacity() ==> reply == PushErr(item) && contents == old(contents)
    {
      var pos := enqueuePos;
      var failures := spurious;
      ghost var tail := head + |contents|;
      while true
        invariant Valid() && pos == enqueuePos && head == old(head) && contents == old(contents)
        invariant sequence[..] == old(sequence[..]) && value[..] == old(value[..])
        decreases failures
      {
        WrappedIndex(tail, Capacity());
        assert pos == tail % WORD;
        var i := IndexOf(Wrapping, pos, mask + 1);
        var diff := Diff(Wrapping, sequence[i], pos);
        TailDifference();
        if diff == 0 {
          if failures == 0 {
            enqueuePos := Add(Wrapping, pos, 1);
            value[i] := Some(item);
            sequence[i] := Add(Wrapping, pos, 1);
            contents := contents + [item];
            WrapSum(tail, 1);
            PushedLap(old(sequence[..]), old(value[..]), head, old(contents), item, i);
            return PushOk;
          } else {
            failures := failures - 1;
            pos := enqueuePos;
          }
        } else if diff < 0 {
          return PushErr(item);
        } else {
          assert false; // another thread would have had to move the counter
          pos := enqueuePos;
        }
      }
    }

    /** At the tail, a lone push sees a free slot or a full ring, never a slot ahead. */
    lemma TailDifference()
      requires Valid()
      ensures var tail := head + |contents|;
              var i := IndexOf(Unbounded, tail, Capacity());
              var diff := Diff(Wrapping, sequence[i], tail % WORD);
              diff <= 0 && (diff == 0 <==> |contents| < Capacity())
    {
      var tail := head + |contents|;
      PowerFitsHalfWord(Capacity());
      if |contents| < Capacity() {
        assert SlotHolds(sequence[..], value[..], head, contents, tail);
        SmallDifferenceWraps(tail, tail);
      } else {
        Periodic(Capacity(), head);
        assert SlotHolds(sequence[..], value[..], head, contents, head);
        SmallDifferenceWraps(head + 1, tail);
      }
    }

    /** At the head, a lone pop sees a published slot or an empty ring, never a slot ahead. */
    lemma HeadDifference()
      requires Valid()
      ensures var i := IndexOf(Unbounded, head, Capacity());
              var diff := Diff(Wrapping, sequence[i], (head + 1) % WORD);
              diff <= 0 && (diff == 0 <==> contents != [])
    {
      PowerFitsHalfWord(Capacity());
      assert SlotHolds(sequence[..], value[..], head, contents, head);
      SmallDifferenceWraps(if contents != [] then head + 1 else head, head + 1);
    }

    method Pop(spurious: nat) returns (reply: Reply<T>)
      requires Valid()
      modifies this, sequence, value
      ensures Valid()
      ensures old(contents) != [] ==> reply == PopSome(old(contents)[0]) && contents == old(contents)[1..]
      ensures old(contents) == [] ==> reply == PopNone && contents == []
    {
      var pos := dequeuePos;
      var failures := spurious;
      while true
        invariant Valid() && pos == dequeuePos && head == old(head) && contents == old(contents)
        invariant sequence[..] == old(sequence[..]) && value[..] == old(value[..])
        decreases failures
      {
        WrappedIndex(head, Capacity());
        WrapSum(head, 1);
        HeadDifference();
        var i := IndexOf(Wrapping, pos, mask + 1);
        var diff := Diff(Wrapping, sequence[i], Add(Wrapping, pos, 1));
        if diff == 0 {
          if failures == 0 {
            assert SlotHolds(sequence[..], value[..], head, contents, head);
            dequeuePos := Add(Wrapping, pos, 1);
            var taken := value[i];
            value[i] := None;
            sequence[i] := Add(Wrapping, Add(Wrapping, pos, mask), 1);
            OneLapOn(head, mask);
            head, contents := head + 1, contents[1..];
            PoppedLap(old(sequence[..]), old(value[..]), old(head), old(contents), i);
            return if taken.Some? then PopSome(taken.value) else PopNone;
          } else {
            failures := failures - 1;
            pos := dequeuePos;
          }
        } else if diff < 0 {
          return PopNone;
        } else {
          assert false; // another thread would have had to move the counter
          pos := dequeuePos;
        }
      }
    }
  }
}
