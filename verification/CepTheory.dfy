/** What the sequence matcher guarantees for one rule of two or more steps and one
    source, over every history with a clock that does not run backwards. */
module CepTheory {
  import opened Wrappers
  import opened Models
  import opened CepSpec
  import opened Sequences

  ghost predicate Clock(events: seq<Observation>) {
    forall i, j :: 0 <= i < j < |events| ==> events[i].at <= events[j].at
  }

  /** The attempt is a real chain: increasing positions, each step's condition met by
      its event, the window counted from the first of them. */
  ghost predicate Genuine(rule: CepRule, events: seq<Observation>, a: Attempt) {
    && 1 <= |a.chain| <= |rule.steps|
    && (forall j :: 0 <= j < |a.chain| ==> a.chain[j] < |events| && rule.steps[j].Matches(events[a.chain[j]].event))
    && (forall j, j' :: 0 <= j < j' < |a.chain| ==> a.chain[j] < a.chain[j'])
    && a.startedAt == events[a.chain[0]].at
  }

  /** The order invariant, oldest attempt first: starts strictly increase, so start times
      never decrease, and steps never increase; no open attempt is complete. */
  ghost predicate Ordered(rule: CepRule, events: seq<Observation>, open: seq<Attempt>) {
    && (forall k :: 0 <= k < |open| ==> Genuine(rule, events, open[k]) && |open[k].chain| < |rule.steps|)
    && (forall k, k' :: 0 <= k < k' < |open| ==>
          open[k].chain[0] < open[k'].chain[0] && |open[k].chain| >= |open[k'].chain|)
  }

  ghost predicate StartsOrdered(open: seq<Attempt>) {
    forall k, k' :: 0 <= k < k' < |open| ==> open[k].startedAt <= open[k'].startedAt
  }

  ghost predicate StepsOrdered(stepCount: nat, open: seq<Attempt>) {
    && (forall k :: 0 <= k < |open| ==> 1 <= |open[k].chain| < stepCount)
    && (forall k, k' :: 0 <= k < k' < |open| ==> |open[k].chain| >= |open[k'].chain|)
  }

  lemma OrderedGivesBoth(rule: CepRule, events: seq<Observation>, open: seq<Attempt>)
    requires Clock(events) && Ordered(rule, events, open)
    ensures StartsOrdered(open) && StepsOrdered(|rule.steps|, open)
  {
    forall k, k' | 0 <= k < k' < |open| ensures open[k].startedAt <= open[k'].startedAt {
      assert Genuine(rule, events, open[k]) && Genuine(rule, events, open[k']);
    }
  }

  // ---- The three passes over an ordered list ----

  lemma AllExpired(open: seq<Attempt>, window: nat, now: nat)
    requires forall k :: 0 <= k < |open| ==> Since(now, open[k].startedAt) > window
    ensures Unexpired(open, window, now) == []
  {
    FilterAllOrNone((a: Attempt) => Since(now, a.startedAt) <= window, open, false);
  }

  lemma DropOfAppend<T>(older: seq<T>, last: T, x: nat)
    requires x <= |older|
    ensures (older + [last])[x..] == older[x..] + [last]
  {
  }

  /** The attempts whose window has elapsed are the first `x`. */
  ghost predicate ExpiredPrefix(open: seq<Attempt>, window: nat, now: nat, x: nat) {
    x <= |open| && forall k :: 0 <= k < |open| ==> (Since(now, open[k].startedAt) <= window <==> x <= k)
  }

  lemma UnexpiredStep(older: seq<Attempt>, last: Attempt, window: nat, now: nat)
    ensures Unexpired(older + [last], window, now) ==
            Unexpired(older, window, now) + if Since(now, last.startedAt) <= window then [last] else []
  {
    FilterStep((a: Attempt) => Since(now, a.startedAt) <= window, older, last);
  }

  /** If the newest attempt has expired, so has every attempt. */
  lemma ExpiredAll(open: seq<Attempt>, window: nat, now: nat)
    requires StartsOrdered(open) && open != [] && Since(now, open[|open| - 1].startedAt) > window
    ensures ExpiredPrefix(open, window, now, |open|) && Unexpired(open, window, now) == []
  {
    forall k | 0 <= k < |open| ensures Since(now, open[k].startedAt) > window {
      assert k == |open| - 1 || open[k].startedAt <= open[|open| - 1].startedAt;
    }
    AllExpired(open, window, now);
  }

  /** Expiry removes exactly a prefix: the attempts whose window has elapsed. */
  lemma {:induction false} ExpiryRemovesPrefix(open: seq<Attempt>, window: nat, now: nat) returns (x: nat)
    requires StartsOrdered(open)
    ensures ExpiredPrefix(open, window, now, x) && Unexpired(open, window, now) == open[x..]
  {
    if open == [] {
      x := 0;
    } else if Since(now, open[|open| - 1].startedAt) > window {
      ExpiredAll(open, window, now);
      x := |open|;
    } else {
      var older, last := open[..|open| - 1], open[|open| - 1];
      assert open == older + [last];
      x := ExpiryRemovesPrefix(older, window, now);
      UnexpiredStep(older, last, window, now);
      DropOfAppend(older, last, x);
    }
  }

  function Bump(rule: CepRule, a: Attempt, i: nat, event: NetworkEvent): Attempt {
    if Waiting(rule, a, event) then Extend(a, i) else a
  }

  function BumpAll(rule: CepRule, open: seq<Attempt>, i: nat, event: NetworkEvent): (bumped: seq<Attempt>)
    ensures |bumped| == |open|
  {
    seq(|open|, k requires 0 <= k < |open| => Bump(rule, open[k], i, event))
  }

  /** The event meets the last condition of the rule. */
  predicate Closes(rule: CepRule, event: NetworkEvent) {
    rule.steps != [] && rule.steps[|rule.steps| - 1].Matches(event)
  }

  /** The outcome of a pass over a list whose first `ready` attempts are at the last step. */
  function AdvancedAs(rule: CepRule, open: seq<Attempt>, ready: nat, i: nat, event: NetworkEvent)
    : (seq<Attempt>, Option<Attempt>)
    requires ready <= |open|
  {
    if Closes(rule, event) && ready > 0
    then (open[..ready - 1] + [Extend(open[ready - 1], i)] + BumpAll(rule, open[ready..], i, event),
          Some(Extend(open[ready - 1], i)))
    else (BumpAll(rule, open, i, event), None)
  }

  lemma BumpAllStep(rule: CepRule, older: seq<Attempt>, newest: Attempt, i: nat, event: NetworkEvent)
    ensures BumpAll(rule, older + [newest], i, event) == BumpAll(rule, older, i, event) + [Bump(rule, newest, i, event)]
  {
  }

  /** The pass outcome described grows by a newest attempt that does not complete. */
  lemma AdvancedAsStep(rule: CepRule, older: seq<Attempt>, newest: Attempt, ready: nat, i: nat, event: NetworkEvent)
    requires ready <= |older|
    ensures AdvancedAs(rule, older + [newest], ready, i, event) ==
            (AdvancedAs(rule, older, ready, i, event).0 + [Bump(rule, newest, i, event)],
             AdvancedAs(rule, older, ready, i, event).1)
  {
    if Closes(rule, event) && ready > 0 {
      DropOfAppend(older, newest, ready);
      BumpAllStep(rule, older[ready..], newest, i, event);
      var front, rest := older[..ready - 1] + [Extend(older[ready - 1], i)], BumpAll(rule, older[ready..], i, event);
      assert front + (rest + [Bump(rule, newest, i, event)]) == front + rest + [Bump(rule, newest, i, event)];
      assert (older + [newest])[..ready - 1] == older[..ready - 1] && (older + [newest])[ready - 1] == older[ready - 1];
    } else {
      BumpAllStep(rule, older, newest, i, event);
    }
  }

  lemma AdvancePastNewest(rule: CepRule, older: seq<Attempt>, newest: Attempt, ready: nat, i: nat, event: NetworkEvent)
    requires |rule.steps| >= 2 && ready <= |older| && |newest.chain| < |rule.steps| - 1
    requires Advance(rule, older, i, event) == AdvancedAs(rule, older, ready, i, event)
    ensures Advance(rule, older + [newest], i, event) == AdvancedAs(rule, older + [newest], ready, i, event)
  {
    assert (older + [newest])[..|older|] == older;
    AdvancedAsStep(rule, older, newest, ready, i, event);
  }

  lemma AdvanceAtLastStep(rule: CepRule, older: seq<Attempt>, newest: Attempt, i: nat, event: NetworkEvent)
    requires |rule.steps| >= 2 && |newest.chain| == |rule.steps| - 1
    requires Advance(rule, older, i, event) == AdvancedAs(rule, older, |older|, i, event)
    ensures Advance(rule, older + [newest], i, event) == AdvancedAs(rule, older + [newest], |older| + 1, i, event)
  {
    var open := older + [newest];
    assert open[..|older|] == older && open[|open|..] == [];
    if Closes(rule, event) {
      assert BumpAll(rule, [], i, event) == [];
      assert older + [Extend(newest, i)] + [] == older + [Extend(newest, i)];
    } else {
      BumpAllStep(rule, older, newest, i, event);
    }
  }

  /** The first `ready` attempts, and no others, are at the last step. */
  ghost predicate ReadyPrefix(rule: CepRule, open: seq<Attempt>, ready: nat) {
    && ready <= |open|
    && forall k :: 0 <= k < |open| ==> (|open[k].chain| == |rule.steps| - 1 <==> k < ready)
  }

  lemma {:induction false} ReadyArePrefix(rule: CepRule, open: seq<Attempt>) returns (ready: nat)
    requires |rule.steps| >= 2 && StepsOrdered(|rule.steps|, open)
    ensures ReadyPrefix(rule, open, ready)
  {
    if open == [] {
      ready := 0;
    } else {
      var older := open[..|open| - 1];
      ready := ReadyArePrefix(rule, older);
      assert forall k :: 0 <= k < |older| ==> older[k] == open[k];
      if |open[|open| - 1].chain| == |rule.steps| - 1 { ready := |open|; }
    }
  }

  lemma {:induction false} AdvancesAs(rule: CepRule, open: seq<Attempt>, ready: nat, i: nat, event: NetworkEvent)
    requires |rule.steps| >= 2 && StepsOrdered(|rule.steps|, open) && ReadyPrefix(rule, open, ready)
    ensures Advance(rule, open, i, event) == AdvancedAs(rule, open, ready, i, event)
  {
    if open != [] {
      var older, newest := open[..|open| - 1], open[|open| - 1];
      assert open == older + [newest];
      assert forall k :: 0 <= k < |older| ==> older[k] == open[k];
      if ready == |open| {
        AdvancesAs(rule, older, |older|, i, event);
        AdvanceAtLastStep(rule, older, newest, i, event);
      } else {
        AdvancesAs(rule, older, ready, i, event);
        AdvancePastNewest(rule, older, newest, ready, i, event);
      }
    }
  }

  /** What the early break does on an ordered list. The attempts at the last step are a
      prefix; if the event closes the rule, the newest of them completes and the older
      ones wait, and nothing else is held back: every other attempt moves as it would
      without the break. */
  lemma BreakHoldsOnlyLastStep(rule: CepRule, open: seq<Attempt>, i: nat, event: NetworkEvent)
    returns (ready: nat)
    requires |rule.steps| >= 2 && StepsOrdered(|rule.steps|, open)
    ensures ReadyPrefix(rule, open, ready)
    ensures Advance(rule, open, i, event) == AdvancedAs(rule, open, ready, i, event)
  {
    ready := ReadyArePrefix(rule, open);
    AdvancesAs(rule, open, ready, i, event);
  }

  /** What one event leaves of the unexpired attempts, when `ready` of them were at the
      last step. */
  function Left(rule: CepRule, kept: seq<Attempt>, ready: nat, i: nat, event: NetworkEvent): seq<Attempt>
    requires ready <= |kept|
  {
    if Closes(rule, event) && ready > 0
    then kept[..ready - 1] + BumpAll(rule, kept[ready..], i, event)
    else BumpAll(rule, kept, i, event)
  }

  /** Between lists of incomplete attempts, a complete one is all that is dropped. */
  lemma IncompleteDropsOne(a: seq<Attempt>, full: Attempt, b: seq<Attempt>, stepCount: nat)
    requires forall k :: 0 <= k < |a| ==> |a[k].chain| < stepCount
    requires forall k :: 0 <= k < |b| ==> |b[k].chain| < stepCount
    requires |full.chain| >= stepCount
    ensures Incomplete(a + [full] + b, stepCount) == a + b
  {
    FilterDropsOne((x: Attempt) => |x.chain| < stepCount, a, full, b);
  }

  lemma DroppingLeavesLeft(rule: CepRule, kept: seq<Attempt>, ready: nat, i: nat, event: NetworkEvent)
    requires |rule.steps| >= 2 && StepsOrdered(|rule.steps|, kept)
    requires ReadyPrefix(rule, kept, ready)
    requires Closes(rule, event) && ready > 0
    ensures Incomplete(AdvancedAs(rule, kept, ready, i, event).0, |rule.steps|) == Left(rule, kept, ready, i, event)
  {
    var tail := BumpAll(rule, kept[ready..], i, event);
    forall k | 0 <= k < |tail| ensures |tail[k].chain| < |rule.steps| {
      assert |kept[ready + k].chain| < |rule.steps| - 1;
    }
    IncompleteDropsOne(kept[..ready - 1], Extend(kept[ready - 1], i), tail, |rule.steps|);
  }

  /** `x` attempts expired and the next `ready` are at the last step. */
  ghost predicate Cut(rule: CepRule, st: KeyState, o: Observation, x: nat, ready: nat) {
    ExpiredPrefix(st.open, rule.window, o.at, x) && ReadyPrefix(rule, st.open[x..], ready)
  }

  /** The outcome of an event that cuts the list so. */
  function FeedAs(rule: CepRule, st: KeyState, i: nat, o: Observation, x: nat, ready: nat): KeyState
    requires x <= |st.open| && ready <= |st.open| - x
  {
    var kept := st.open[x..];
    var left := Left(rule, kept, ready, i, o.event);
    KeyState(if Starts(rule, o.event) then left + [Attempt(o.at, [i])] else left,
             if Closes(rule, o.event) && ready > 0 then st.done + [Extend(kept[ready - 1], i)] else st.done)
  }

  lemma FeedFromPasses(rule: CepRule, st: KeyState, i: nat, o: Observation, x: nat, ready: nat)
    requires |rule.steps| >= 2 && x <= |st.open|
    requires Unexpired(st.open, rule.window, o.at) == st.open[x..]
    requires StepsOrdered(|rule.steps|, st.open[x..]) && ReadyPrefix(rule, st.open[x..], ready)
    requires Advance(rule, st.open[x..], i, o.event) == AdvancedAs(rule, st.open[x..], ready, i, o.event)
    ensures Feed(rule, st, i, o) == FeedAs(rule, st, i, o, x, ready)
  {
    if Closes(rule, o.event) && ready > 0 { DroppingLeavesLeft(rule, st.open[x..], ready, i, o.event); }
  }

  /** One event, written out: a prefix expires, the newest attempt at the last step
      completes if the event closes the rule, all older attempts are held, the rest
      advance as they can, and the event may start an attempt of its own. */
  lemma FeedWrittenOut(rule: CepRule, st: KeyState, i: nat, o: Observation) returns (x: nat, ready: nat)
    requires |rule.steps| >= 2 && StartsOrdered(st.open) && StepsOrdered(|rule.steps|, st.open)
    ensures Cut(rule, st, o, x, ready)
    ensures Feed(rule, st, i, o) == FeedAs(rule, st, i, o, x, ready)
  {
    x := ExpiryRemovesPrefix(st.open, rule.window, o.at);
    assert StepsOrdered(|rule.steps|, st.open[x..]);
    ready := BreakHoldsOnlyLastStep(rule, st.open[x..], i, o.event);
    FeedFromPasses(rule, st, i, o, x, ready);
  }

  // ---- The invariant of one source's history ----

  /** Completed attempts: genuine, of full length, finished within the window, and at
      most one per completing event. */
  ghost predicate DoneOk(rule: CepRule, events: seq<Observation>, done: seq<Attempt>) {
    && (forall j :: 0 <= j < |done| ==> FullChain(rule, events, done[j]))
    && (forall j, j' :: 0 <= j < j' < |done| ==> End(done[j]) < End(done[j']))
  }

  ghost predicate FullChain(rule: CepRule, events: seq<Observation>, d: Attempt) {
    && Genuine(rule, events, d) && |d.chain| == |rule.steps|
    && Since(events[End(d)].at, d.startedAt) <= rule.window
  }

  function Begin(a: Attempt): nat {
    if a.chain == [] then 0 else a.chain[0]
  }

  function End(a: Attempt): nat {
    if a.chain == [] then 0 else a.chain[|a.chain| - 1]
  }

  /** No starting event is used twice. */
  ghost predicate StartsUnused(st: KeyState) {
    && (forall j, k :: 0 <= j < |st.done| && 0 <= k < |st.open| ==> Begin(st.done[j]) != Begin(st.open[k]))
    && (forall j, j' :: 0 <= j < j' < |st.done| ==> Begin(st.done[j]) != Begin(st.done[j']))
  }

  /** What is open, or completed later, started before a completed pair or after it. */
  ghost predicate Outside(a: Attempt, d: Attempt) {
    Begin(a) < Begin(d) || Begin(a) >= End(d)
  }

  ghost predicate Nested(st: KeyState) {
    && (forall j, k :: 0 <= j < |st.done| && 0 <= k < |st.open| ==> Outside(st.open[k], st.done[j]))
    && (forall j, j' :: 0 <= j < j' < |st.done| ==> Outside(st.done[j'], st.done[j]))
  }

  ghost predicate KeyInv(rule: CepRule, events: seq<Observation>, st: KeyState) {
    && Ordered(rule, events, st.open)
    && DoneOk(rule, events, st.done)
    && StartsUnused(st)
    && (|rule.steps| == 2 ==> Nested(st))
  }

  lemma GenuineGrows(rule: CepRule, events: seq<Observation>, a: Attempt, o: Observation)
    requires Genuine(rule, events, a)
    ensures Genuine(rule, events + [o], a)
  {
  }

  lemma BumpIsGenuine(rule: CepRule, events: seq<Observation>, a: Attempt, o: Observation)
    requires Genuine(rule, events, a)
    ensures Genuine(rule, events + [o], Bump(rule, a, |events|, o.event))
    ensures Begin(Bump(rule, a, |events|, o.event)) == Begin(a)
  {
    var b := Bump(rule, a, |events|, o.event);
    assert forall j :: 0 <= j < |a.chain| ==> b.chain[j] == a.chain[j];
  }

  /** Which of the unexpired attempts the `k`-th one left was. */
  function Origin(rule: CepRule, ready: nat, event: NetworkEvent, k: nat): nat {
    if Closes(rule, event) && ready > 0 && k >= ready - 1 then k + 1 else k
  }

  /** When the event closes the rule, the newest attempt at the last step leaves. */
  lemma LeftAfterClosing(rule: CepRule, kept: seq<Attempt>, ready: nat, i: nat, event: NetworkEvent, k: nat)
    requires Closes(rule, event) && 0 < ready <= |kept| && k < |Left(rule, kept, ready, i, event)|
    ensures var m := if k >= ready - 1 then k + 1 else k;
            && m < |kept|
            && Left(rule, kept, ready, i, event)[k] == if m < ready then kept[m] else Bump(rule, kept[m], i, event)
  {
    var front, rest := kept[..ready - 1], BumpAll(rule, kept[ready..], i, event);
    assert Left(rule, kept, ready, i, event) == front + rest;
    if k >= ready - 1 { assert (front + rest)[k] == rest[k - |front|]; }
  }

  lemma LeftValue(rule: CepRule, kept: seq<Attempt>, ready: nat, i: nat, event: NetworkEvent, k: nat)
    requires |rule.steps| >= 2 && ReadyPrefix(rule, kept, ready) && k < |Left(rule, kept, ready, i, event)|
    ensures var m := Origin(rule, ready, event, k);
            && m < |kept| && !(Closes(rule, event) && m == ready - 1)
            && Left(rule, kept, ready, i, event)[k] == if m < ready then kept[m] else Bump(rule, kept[m], i, event)
  {
    if Closes(rule, event) && ready > 0 {
      LeftAfterClosing(rule, kept, ready, i, event, k);
    } else {
      assert Left(rule, kept, ready, i, event)[k] == Bump(rule, kept[k], i, event);
      if k < ready { ReadyWaitsToClose(rule, kept[k], i, event); }
    }
  }

  /** An attempt at the last step moves only if the event closes the rule. */
  lemma ReadyWaitsToClose(rule: CepRule, a: Attempt, i: nat, event: NetworkEvent)
    requires |rule.steps| >= 2 && |a.chain| == |rule.steps| - 1 && !Closes(rule, event)
    ensures Bump(rule, a, i, event) == a
  {
  }

  lemma LeftOrigin(rule: CepRule, events: seq<Observation>, kept: seq<Attempt>, ready: nat, o: Observation, k: nat)
    requires |rule.steps| >= 2 && Ordered(rule, events, kept) && ReadyPrefix(rule, kept, ready)
    requires k < |Left(rule, kept, ready, |events|, o.event)|
    ensures var m := Origin(rule, ready, o.event, k);
            var b := Left(rule, kept, ready, |events|, o.event)[k];
            && m < |kept| && !(Closes(rule, o.event) && m == ready - 1)
            && Genuine(rule, events + [o], b) && |b.chain| < |rule.steps| && Begin(b) == Begin(kept[m])
            && |b.chain| == |kept[m].chain| + if m >= ready && Waiting(rule, kept[m], o.event) then 1 else 0
  {
    var m := Origin(rule, ready, o.event, k);
    LeftValue(rule, kept, ready, |events|, o.event, k);
    BumpIsGenuine(rule, events, kept[m], o);
    GenuineGrows(rule, events, kept[m], o);
  }

  /** An attempt past the ready ones, of this length, advances with the event. */
  predicate Grows(rule: CepRule, ready: nat, m: nat, length: nat, event: NetworkEvent) {
    m >= ready && length < |rule.steps| && rule.steps[length].Matches(event)
  }

  /** Where an attempt that is left began, and how long it is. */
  lemma LeftShape(rule: CepRule, events: seq<Observation>, kept: seq<Attempt>, ready: nat, o: Observation, k: nat)
    requires |rule.steps| >= 2 && Ordered(rule, events, kept) && ReadyPrefix(rule, kept, ready)
    requires k < |Left(rule, kept, ready, |events|, o.event)|
    ensures var m, b := Origin(rule, ready, o.event, k), Left(rule, kept, ready, |events|, o.event)[k];
            && m < |kept| && kept[m].chain != [] && Begin(b) == kept[m].chain[0]
            && (|kept[m].chain| == |rule.steps| - 1 <==> m < ready)
            && |b.chain| == |kept[m].chain| + if Grows(rule, ready, m, |kept[m].chain|, o.event) then 1 else 0
  {
    LeftOrigin(rule, events, kept, ready, o, k);
  }

  /** An older attempt stays as long as a newer one. */
  lemma StaysLonger(rule: CepRule, ready: nat, m: nat, m': nat, length: nat, length': nat, event: NetworkEvent)
    requires m < m' && length >= length'
    requires (length == |rule.steps| - 1 <==> m < ready) && (length' == |rule.steps| - 1 <==> m' < ready)
    ensures length + (if Grows(rule, ready, m, length, event) then 1 else 0)
            >= length' + if Grows(rule, ready, m', length', event) then 1 else 0
  {
  }

  /** Of two attempts left, the older began earlier and is at least as long. */
  lemma LeftPairOrdered(rule: CepRule, events: seq<Observation>, kept: seq<Attempt>, ready: nat, o: Observation,
                        k: nat, k': nat)
    requires |rule.steps| >= 2 && Ordered(rule, events, kept) && ReadyPrefix(rule, kept, ready)
    requires k < k' < |Left(rule, kept, ready, |events|, o.event)|
    ensures var left := Left(rule, kept, ready, |events|, o.event);
            Begin(left[k]) < Begin(left[k']) && |left[k].chain| >= |left[k'].chain|
  {
    LeftShape(rule, events, kept, ready, o, k);
    LeftShape(rule, events, kept, ready, o, k');
    OriginsInOrder(rule, ready, o.event, k, k');
    var m, m' := Origin(rule, ready, o.event, k), Origin(rule, ready, o.event, k');
    OlderIsLonger(rule, events, kept, m, m');
    StaysLonger(rule, ready, m, m', |kept[m].chain|, |kept[m'].chain|, o.event);
  }

  lemma OriginsInOrder(rule: CepRule, ready: nat, event: NetworkEvent, k: nat, k': nat)
    requires k < k'
    ensures Origin(rule, ready, event, k) < Origin(rule, ready, event, k')
  {
  }

  lemma OlderIsLonger(rule: CepRule, events: seq<Observation>, open: seq<Attempt>, m: nat, m': nat)
    requires Ordered(rule, events, open) && m < m' < |open|
    ensures open[m].chain != [] && open[m'].chain != []
    ensures open[m].chain[0] < open[m'].chain[0] && |open[m].chain| >= |open[m'].chain|
  {
  }

  lemma LeftIsOrdered(rule: CepRule, events: seq<Observation>, kept: seq<Attempt>, ready: nat, o: Observation)
    requires |rule.steps| >= 2 && Ordered(rule, events, kept) && ReadyPrefix(rule, kept, ready)
    ensures Ordered(rule, events + [o], Left(rule, kept, ready, |events|, o.event))
  {
    var left := Left(rule, kept, ready, |events|, o.event);
    forall k | 0 <= k < |left| ensures Genuine(rule, events + [o], left[k]) && |left[k].chain| < |rule.steps| {
      LeftOrigin(rule, events, kept, ready, o, k);
    }
    forall k, k' | 0 <= k < k' < |left|
      ensures left[k].chain[0] < left[k'].chain[0] && |left[k].chain| >= |left[k'].chain|
    {
      LeftPairOrdered(rule, events, kept, ready, o, k, k');
    }
  }

  lemma NewAttemptKeepsOrder(rule: CepRule, events: seq<Observation>, left: seq<Attempt>, o: Observation)
    requires |rule.steps| >= 2 && Ordered(rule, events + [o], left) && Starts(rule, o.event)
    requires forall k :: 0 <= k < |left| ==> Begin(left[k]) < |events|
    ensures Ordered(rule, events + [o], left + [Attempt(o.at, [|events|])])
  {
    var open := left + [Attempt(o.at, [|events|])];
    forall k, k' | 0 <= k < k' < |open|
      ensures open[k].chain[0] < open[k'].chain[0] && |open[k].chain| >= |open[k'].chain|
    {
      assert Genuine(rule, events + [o], open[k]) && Begin(open[k]) == open[k].chain[0];
    }
  }

  /** The completed chain of this event, if any: full, within the window, and ending here. */
  lemma CompletedIsFull(rule: CepRule, events: seq<Observation>, a: Attempt, o: Observation)
    requires |rule.steps| >= 2 && Genuine(rule, events, a) && |a.chain| == |rule.steps| - 1
    requires Closes(rule, o.event) && Since(o.at, a.startedAt) <= rule.window
    ensures FullChain(rule, events + [o], Extend(a, |events|))
    ensures End(Extend(a, |events|)) == |events| && Begin(Extend(a, |events|)) == Begin(a)
  {
    assert Extend(a, |events|) == Bump(rule, a, |events|, o.event);
    BumpIsGenuine(rule, events, a, o);
  }

  /** Where the attempts open after an event come from. */
  ghost predicate ComesFrom(st: KeyState, st': KeyState, i: nat, x: nat, gone: int) {
    forall k :: 0 <= k < |st'.open| ==>
      || Begin(st'.open[k]) == i
      || exists m :: x <= m < |st.open| && m != gone && Begin(st'.open[k]) == Begin(st.open[m])
  }

  function Gone(rule: CepRule, o: Observation, x: nat, ready: nat): int {
    if Closes(rule, o.event) && ready > 0 then x + ready - 1 else -1
  }

  lemma LeftComesFrom(rule: CepRule, events: seq<Observation>, st: KeyState, o: Observation, x: nat, ready: nat, k: nat)
    requires |rule.steps| >= 2 && Ordered(rule, events, st.open) && Cut(rule, st, o, x, ready)
    requires k < |Left(rule, st.open[x..], ready, |events|, o.event)|
    ensures var b := Left(rule, st.open[x..], ready, |events|, o.event)[k];
            && Begin(b) < |events|
            && exists m :: x <= m < |st.open| && m != Gone(rule, o, x, ready) && Begin(b) == Begin(st.open[m])
  {
    var kept := st.open[x..];
    LeftOrigin(rule, events, kept, ready, o, k);
    var m := Origin(rule, ready, o.event, k);
    assert kept[m] == st.open[x + m] && Genuine(rule, events, kept[m]);
  }

  lemma OpenAfter(rule: CepRule, events: seq<Observation>, st: KeyState, o: Observation, x: nat, ready: nat)
    requires |rule.steps| >= 2 && Ordered(rule, events, st.open) && Cut(rule, st, o, x, ready)
    ensures var st' := FeedAs(rule, st, |events|, o, x, ready);
            && Ordered(rule, events + [o], st'.open)
            && ComesFrom(st, st', |events|, x, Gone(rule, o, x, ready))
  {
    var left := Left(rule, st.open[x..], ready, |events|, o.event);
    LeftIsOrdered(rule, events, st.open[x..], ready, o);
    forall k | 0 <= k < |left|
      ensures Begin(left[k]) < |events|
      ensures exists m :: x <= m < |st.open| && m != Gone(rule, o, x, ready) && Begin(left[k]) == Begin(st.open[m])
    {
      LeftComesFrom(rule, events, st, o, x, ready, k);
    }
    if Starts(rule, o.event) { NewAttemptKeepsOrder(rule, events, left, o); }
  }

  /** The attempt that completed, if any (`gone`, or -1): the newest unexpired one at the
      last step. */
  ghost predicate Completes(rule: CepRule, events: seq<Observation>, st: KeyState, st': KeyState, o: Observation,
                            x: nat, gone: int) {
    if gone == -1 then st'.done == st.done
    else
      && x <= gone < |st.open| && |st.open[gone].chain| == |rule.steps| - 1
      && (forall m :: gone < m < |st.open| ==> |st.open[m].chain| < |rule.steps| - 1)
      && st'.done == st.done + [Extend(st.open[gone], |events|)]
      && FullChain(rule, events + [o], Extend(st.open[gone], |events|))
      && End(Extend(st.open[gone], |events|)) == |events|
  }

  lemma DoneAfter(rule: CepRule, events: seq<Observation>, st: KeyState, o: Observation, x: nat, ready: nat)
    requires |rule.steps| >= 2 && Ordered(rule, events, st.open) && Cut(rule, st, o, x, ready)
    ensures Completes(rule, events, st, FeedAs(rule, st, |events|, o, x, ready), o, x, Gone(rule, o, x, ready))
  {
    var gone, kept := Gone(rule, o, x, ready), st.open[x..];
    if gone != -1 {
      CompletedIsFull(rule, events, st.open[gone], o);
      forall m | gone < m < |st.open| ensures |st.open[m].chain| < |rule.steps| - 1 {
        assert kept[m - x] == st.open[m] && |st.open[m].chain| < |rule.steps|;
      }
    }
  }

  /** One event, against the attempts open before it: which prefix expired, which one
      completed, and where each attempt left open comes from. */
  lemma FeedOrigins(rule: CepRule, events: seq<Observation>, st: KeyState, o: Observation)
    returns (x: nat, gone: int)
    requires |rule.steps| >= 2 && Clock(events) && Ordered(rule, events, st.open)
    ensures x <= |st.open| && ComesFrom(st, Feed(rule, st, |events|, o), |events|, x, gone)
    ensures Ordered(rule, events + [o], Feed(rule, st, |events|, o).open)
    ensures Completes(rule, events, st, Feed(rule, st, |events|, o), o, x, gone)
  {
    OrderedGivesBoth(rule, events, st.open);
    var ready: nat;
    x, ready := FeedWrittenOut(rule, st, |events|, o);
    OpenAfter(rule, events, st, o, x, ready);
    DoneAfter(rule, events, st, o, x, ready);
    gone := Gone(rule, o, x, ready);
  }

  lemma FullChainGrows(rule: CepRule, events: seq<Observation>, d: Attempt, o: Observation)
    requires FullChain(rule, events, d)
    ensures FullChain(rule, events + [o], d)
    ensures |rule.steps| >= 1 ==> Begin(d) <= End(d) < |events|
  {
    GenuineGrows(rule, events, d, o);
  }

  lemma DoneAppended(rule: CepRule, events: seq<Observation>, done: seq<Attempt>, o: Observation, d: Attempt)
    requires |rule.steps| >= 2 && DoneOk(rule, events, done)
    ensures DoneOk(rule, events + [o], done)
    ensures FullChain(rule, events + [o], d) && End(d) == |events| ==> DoneOk(rule, events + [o], done + [d])
  {
    forall j | 0 <= j < |done| ensures FullChain(rule, events + [o], done[j]) && End(done[j]) < |events| {
      FullChainGrows(rule, events, done[j], o);
    }
  }

  lemma FeedKeepsDone(rule: CepRule, events: seq<Observation>, st: KeyState, o: Observation)
    requires |rule.steps| >= 2 && Clock(events) && KeyInv(rule, events, st)
    ensures DoneOk(rule, events + [o], Feed(rule, st, |events|, o).done)
  {
    var x, gone := FeedOrigins(rule, events, st, o);
    DoneAppended(rule, events, st.done, o, if gone == -1 then Attempt(0, []) else Extend(st.open[gone], |events|));
  }

  lemma StartsUnusedAfter(st: KeyState, st': KeyState, i: nat, x: nat, gone: int, d: Attempt)
    requires StartsUnused(st) && ComesFrom(st, st', i, x, gone)
    requires forall j :: 0 <= j < |st.done| ==> Begin(st.done[j]) < i
    requires forall m :: 0 <= m < |st.open| ==> Begin(st.open[m]) < i
    requires if gone == -1 then st'.done == st.done
             else
               && 0 <= gone < |st.open| && st'.done == st.done + [d] && Begin(d) == Begin(st.open[gone])
               && forall m :: 0 <= m < |st.open| && m != gone ==> Begin(st.open[m]) != Begin(d)
    ensures StartsUnused(st')
  {
    forall j, k | 0 <= j < |st'.done| && 0 <= k < |st'.open| ensures Begin(st'.done[j]) != Begin(st'.open[k]) {
      if Begin(st'.open[k]) != i {
        var m :| x <= m < |st.open| && m != gone && Begin(st'.open[k]) == Begin(st.open[m]);
        if j < |st.done| { assert Begin(st.done[j]) != Begin(st.open[m]); }
      }
    }
  }

  lemma OpenBegins(rule: CepRule, events: seq<Observation>, open: seq<Attempt>)
    requires Ordered(rule, events, open)
    ensures forall m :: 0 <= m < |open| ==> Begin(open[m]) < |events|
    ensures forall m, m' :: 0 <= m < m' < |open| ==> Begin(open[m]) < Begin(open[m'])
  {
    forall m | 0 <= m < |open| ensures Begin(open[m]) < |events| && Begin(open[m]) == open[m].chain[0] {
      assert Genuine(rule, events, open[m]);
    }
  }

  lemma FeedKeepsStartsUnused(rule: CepRule, events: seq<Observation>, st: KeyState, o: Observation)
    requires |rule.steps| >= 2 && Clock(events) && KeyInv(rule, events, st)
    ensures StartsUnused(Feed(rule, st, |events|, o))
  {
    var st' := Feed(rule, st, |events|, o);
    var x, gone := FeedOrigins(rule, events, st, o);
    OpenBegins(rule, events, st.open);
    forall j | 0 <= j < |st.done| ensures Begin(st.done[j]) < |events| {
      FullChainGrows(rule, events, st.done[j], o);
    }
    if gone == -1 {
      StartsUnusedAfter(st, st', |events|, x, gone, Attempt(0, []));
    } else {
      var d := Extend(st.open[gone], |events|);
      assert Begin(d) == Begin(st.open[gone]) by { assert Genuine(rule, events, st.open[gone]); }
      StartsUnusedAfter(st, st', |events|, x, gone, d);
    }
  }

  lemma NestedAfter(st: KeyState, st': KeyState, i: nat, x: nat, gone: int, d: Attempt)
    requires Nested(st) && ComesFrom(st, st', i, x, gone)
    requires forall j :: 0 <= j < |st.done| ==> End(st.done[j]) < i
    requires if gone == -1 then st'.done == st.done
             else
               && 0 <= gone < |st.open| && st'.done == st.done + [d] && End(d) == i && Begin(d) == Begin(st.open[gone])
               && forall m :: 0 <= m < |st.open| && m != gone ==> Begin(st.open[m]) < Begin(d)
    ensures Nested(st')
  {
    forall j, k | 0 <= j < |st'.done| && 0 <= k < |st'.open| ensures Outside(st'.open[k], st'.done[j]) {
      if Begin(st'.open[k]) != i {
        var m :| x <= m < |st.open| && m != gone && Begin(st'.open[k]) == Begin(st.open[m]);
        if j < |st.done| { assert Outside(st.open[m], st.done[j]); }
      }
    }
    forall j, j' | 0 <= j < j' < |st'.done| ensures Outside(st'.done[j'], st'.done[j]) {
      if j' == |st.done| {
        assert Outside(st.open[gone], st.done[j]);
      } else {
        assert Outside(st.done[j'], st.done[j]);
      }
    }
  }

  lemma FeedKeepsNested(rule: CepRule, events: seq<Observation>, st: KeyState, o: Observation)
    requires |rule.steps| == 2 && Clock(events) && KeyInv(rule, events, st)
    ensures Nested(Feed(rule, st, |events|, o))
  {
    var st' := Feed(rule, st, |events|, o);
    var x, gone := FeedOrigins(rule, events, st, o);
    OpenBegins(rule, events, st.open);
    forall j | 0 <= j < |st.done| ensures End(st.done[j]) < |events| {
      FullChainGrows(rule, events, st.done[j], o);
    }
    if gone == -1 {
      NestedAfter(st, st', |events|, x, gone, Attempt(0, []));
    } else {
      NewestCompletes(rule, events, st, gone);
      NestedAfter(st, st', |events|, x, gone, Extend(st.open[gone], |events|));
    }
  }

  /** With two steps every open attempt is at the last step, so the newest completes. */
  lemma NewestCompletes(rule: CepRule, events: seq<Observation>, st: KeyState, gone: nat)
    requires |rule.steps| == 2 && Ordered(rule, events, st.open) && gone < |st.open|
    requires forall m :: gone < m < |st.open| ==> |st.open[m].chain| < |rule.steps| - 1
    ensures gone == |st.open| - 1
    ensures Begin(Extend(st.open[gone], |events|)) == Begin(st.open[gone])
  {
    assert Genuine(rule, events, st.open[gone]);
    assert Genuine(rule, events, st.open[|st.open| - 1]);
  }

  /** Over every history of one source, the order invariant and everything about the
      completed attempts hold. */
  lemma {:induction false} KeyRunInv(rule: CepRule, events: seq<Observation>)
    requires |rule.steps| >= 2 && Clock(events)
    ensures KeyInv(rule, events, KeyRun(rule, events))
  {
    if events != [] {
      var before, o := events[..|events| - 1], events[|events| - 1];
      assert events == before + [o];
      KeyRunInv(rule, before);
      var st := KeyRun(rule, before);
      var x, gone := FeedOrigins(rule, before, st, o);
      FeedKeepsDone(rule, before, st, o);
      FeedKeepsStartsUnused(rule, before, st, o);
      if |rule.steps| == 2 { FeedKeepsNested(rule, before, st, o); }
    }
  }

  // ---- What the alerts mean ----

  lemma {:induction false} DoneGrows(rule: CepRule, events: seq<Observation>, m: nat)
    requires m <= |events|
    ensures KeyRun(rule, events[..m]).done <= KeyRun(rule, events).done
    decreases |events| - m
  {
    if m < |events| {
      DoneGrows(rule, events, m + 1);
      assert events[..m + 1][..m] == events[..m];
    } else {
      assert events[..m] == events;
    }
  }

  /** An event that completes an attempt completes a chain of the events so far. */
  lemma CompletedChain(rule: CepRule, before: seq<Observation>, st: KeyState, o: Observation) returns (d: Attempt)
    requires |rule.steps| >= 2 && Clock(before) && Ordered(rule, before, st.open)
    requires |Feed(rule, st, |before|, o).done| > |st.done|
    ensures FullChain(rule, before + [o], d) && End(d) == |before| && d in Feed(rule, st, |before|, o).done
  {
    var x, gone := FeedOrigins(rule, before, st, o);
    d := Extend(st.open[gone], |before|);
    assert Feed(rule, st, |before|, o).done[|st.done|] == d;
  }

  /** Soundness: an alert on the last event is the end of a chain of the source's events
      that meets every step in order and was finished within the window of its first. */
  lemma AlertsAreSound(rule: CepRule, events: seq<Observation>) returns (d: Attempt)
    requires |rule.steps| >= 2 && Clock(events) && events != [] && Fires(rule, events)
    ensures FullChain(rule, events, d) && End(d) == |events| - 1
    ensures d in KeyRun(rule, events).done
  {
    var before, o := events[..|events| - 1], events[|events| - 1];
    assert events == before + [o];
    KeyRunStep(rule, before, o);
    KeyRunInv(rule, before);
    d := CompletedChain(rule, before, KeyRun(rule, before), o);
  }

  /** No reuse: over a whole history, two completed attempts share neither their starting
      nor their completing event, and each is genuine and within its window. */
  lemma NoEventIsReused(rule: CepRule, events: seq<Observation>)
    requires |rule.steps| >= 2 && Clock(events)
    ensures var done := KeyRun(rule, events).done;
            && (forall j :: 0 <= j < |done| ==> FullChain(rule, events, done[j]))
            && (forall j, j' :: 0 <= j < j' < |done| ==>
                  Begin(done[j]) != Begin(done[j']) && End(done[j]) < End(done[j']))
  {
    KeyRunInv(rule, events);
  }

  /** For a two-step rule the (first, second) pairs are well nested: never
      a < c < b < d for two pairs (a, b) and (c, d). */
  lemma PairsNeverCross(rule: CepRule, events: seq<Observation>, j: nat, j': nat)
    requires |rule.steps| == 2 && Clock(events)
    requires j < |KeyRun(rule, events).done| && j' < |KeyRun(rule, events).done|
    ensures var p, p' := KeyRun(rule, events).done[j].chain, KeyRun(rule, events).done[j'].chain;
            |p| == 2 && |p'| == 2 && !(p[0] < p'[0] < p[1] < p'[1])
  {
    KeyRunInv(rule, events);
    var done := KeyRun(rule, events).done;
    assert FullChain(rule, events, done[j]) && FullChain(rule, events, done[j']);
    if j < j' { assert Outside(done[j'], done[j]); }
    if j' < j { assert End(done[j']) < End(done[j]); }
  }

  // ---- Completeness ----

  /** `picks` are events of the source that meet the steps in order, the last of them
      processed within the window of the first. */
  ghost predicate Scenario(rule: CepRule, events: seq<Observation>, picks: seq<nat>) {
    && |picks| == |rule.steps|
    && (forall j :: 0 <= j < |picks| ==> picks[j] < |events| && rule.steps[j].Matches(events[picks[j]].event))
    && (forall j, j' :: 0 <= j < j' < |picks| ==> picks[j] < picks[j'])
    && (picks != [] ==> Since(events[picks[|picks| - 1]].at, events[picks[0]].at) <= rule.window)
  }

  /** How many of the picks lie before `m`. */
  function PickedBefore(picks: seq<nat>, m: nat): (c: nat)
    ensures c <= |picks|
  {
    if picks == [] then 0
    else PickedBefore(picks[..|picks| - 1], m) + if picks[|picks| - 1] < m then 1 else 0
  }

  lemma {:induction false} PickedBeforeIs(picks: seq<nat>, m: nat)
    requires forall j, j' :: 0 <= j < j' < |picks| ==> picks[j] < picks[j']
    ensures forall j :: 0 <= j < |picks| ==> (picks[j] < m <==> j < PickedBefore(picks, m))
  {
    if picks != [] {
      var rest := picks[..|picks| - 1];
      PickedBeforeIs(rest, m);
      assert forall j :: 0 <= j < |rest| ==> rest[j] == picks[j];
      if picks[|picks| - 1] < m && rest != [] { assert picks[|rest| - 1] < m; }
    }
  }

  /** The attempt begun at `start` has completed. */
  ghost predicate Finished(st: KeyState, start: nat) {
    exists j :: 0 <= j < |st.done| && Begin(st.done[j]) == start
  }

  /** The attempt begun at `start` is open with at least `c` steps done. */
  ghost predicate Underway(st: KeyState, start: nat, c: nat) {
    exists k :: 0 <= k < |st.open| && Begin(st.open[k]) == start && |st.open[k].chain| >= c
  }

  ghost predicate OnTrack(st: KeyState, start: nat, c: nat) {
    Finished(st, start) || Underway(st, start, c)
  }

  /** The length of an attempt after an event that does not complete it. */
  function NextLength(rule: CepRule, a: Attempt, i: nat, event: NetworkEvent): nat {
    if |a.chain| < |rule.steps| - 1 then |Bump(rule, a, i, event).chain| else |a.chain|
  }

  lemma SurvivorIn(rule: CepRule, st: KeyState, i: nat, o: Observation, x: nat, ready: nat, k: nat)
    requires |rule.steps| >= 2 && Cut(rule, st, o, x, ready) && x <= k < |st.open|
    requires |st.open[k].chain| >= 1
    ensures OnTrack(FeedAs(rule, st, i, o, x, ready), Begin(st.open[k]), NextLength(rule, st.open[k], i, o.event))
  {
    var kept := st.open[x..];
    var st' := FeedAs(rule, st, i, o, x, ready);
    var m := k - x;
    assert kept[m] == st.open[k];
    var fires := Closes(rule, o.event) && ready > 0;
    if fires && m == ready - 1 {
      assert Begin(st'.done[|st.done|]) == Begin(kept[m]);
    } else {
      var k' := if fires && m >= ready then m - 1 else m;
      LeftValue(rule, kept, ready, i, o.event, k');
      assert st'.open[k'] == Left(rule, kept, ready, i, o.event)[k'];
      assert Begin(st'.open[k']) == Begin(kept[m]);
    }
  }

  /** An unexpired attempt survives an event, bumped if it is not at the last step, or
      completes at it. */
  lemma AttemptSurvives(rule: CepRule, events: seq<Observation>, st: KeyState, o: Observation, k: nat)
    requires |rule.steps| >= 2 && Clock(events) && Ordered(rule, events, st.open) && k < |st.open|
    requires Since(o.at, st.open[k].startedAt) <= rule.window
    ensures OnTrack(Feed(rule, st, |events|, o), Begin(st.open[k]), NextLength(rule, st.open[k], |events|, o.event))
  {
    OrderedGivesBoth(rule, events, st.open);
    var x, ready := FeedWrittenOut(rule, st, |events|, o);
    SurvivorIn(rule, st, |events|, o, x, ready, k);
  }

  /** If an attempt had done as many steps as there were picks, it still has after the
      next event. */
  lemma StepCountKeepsUp(rule: CepRule, events: seq<Observation>, picks: seq<nat>, m: nat, a: Attempt)
    requires |rule.steps| >= 2 && Scenario(rule, events, picks) && 0 < m <= picks[|picks| - 1]
    requires PickedBefore(picks, m - 1) <= |a.chain| < |rule.steps|
    ensures PickedBefore(picks, m) <= NextLength(rule, a, m - 1, events[m - 1].event)
  {
    var c := PickedBefore(picks, m - 1);
    PickedBeforeIs(picks, m);
    PickedBeforeIs(picks, m - 1);
    assert PickedBefore(picks, m) < |picks|;
    if c + 1 < |picks| { assert picks[c] < picks[c + 1]; }
  }

  /** `run` gives the states that the events lead through, up to event `j` and past it. */
  ghost predicate RunsPast(rule: CepRule, events: seq<Observation>, run: nat -> KeyState, j: nat) {
    && j < |events| && run(j + 1) == Feed(rule, run(j), j, events[j])
    && Ordered(rule, events[..j], run(j).open)
  }

  lemma FirstPickStarts(rule: CepRule, events: seq<Observation>, picks: seq<nat>, st: KeyState)
    requires |rule.steps| >= 2 && Scenario(rule, events, picks)
    ensures OnTrack(Feed(rule, st, picks[0], events[picks[0]]), picks[0], PickedBefore(picks, picks[0] + 1))
  {
    var i, o := picks[0], events[picks[0]];
    var st' := Feed(rule, st, i, o);
    PickedBeforeIs(picks, i + 1);
    assert picks[0] < picks[1];
    assert Starts(rule, o.event);
    assert st'.open[|st'.open| - 1] == Attempt(o.at, [i]);
    assert Begin(st'.open[|st'.open| - 1]) == i;
  }

  lemma UnderwayKept(rule: CepRule, events: seq<Observation>, picks: seq<nat>, m: nat, st: KeyState, k: nat)
    requires |rule.steps| >= 2 && Clock(events) && Scenario(rule, events, picks) && picks[0] < m < picks[|picks| - 1]
    requires Ordered(rule, events[..m], st.open) && k < |st.open| && Begin(st.open[k]) == picks[0]
    requires |st.open[k].chain| >= PickedBefore(picks, m)
    ensures OnTrack(Feed(rule, st, m, events[m]), picks[0], PickedBefore(picks, m + 1))
  {
    assert Genuine(rule, events[..m], st.open[k]);
    AttemptSurvives(rule, events[..m], st, events[m], k);
    StepCountKeepsUp(rule, events, picks, m + 1, st.open[k]);
  }

  lemma TrackKept(rule: CepRule, events: seq<Observation>, picks: seq<nat>, m: nat, st: KeyState)
    requires |rule.steps| >= 2 && Clock(events) && Scenario(rule, events, picks) && picks[0] < m < picks[|picks| - 1]
    requires Ordered(rule, events[..m], st.open) && OnTrack(st, picks[0], PickedBefore(picks, m))
    ensures OnTrack(Feed(rule, st, m, events[m]), picks[0], PickedBefore(picks, m + 1))
  {
    if Finished(st, picks[0]) {
      var j :| 0 <= j < |st.done| && Begin(st.done[j]) == picks[0];
      assert Feed(rule, st, m, events[m]).done[j] == st.done[j];
    } else {
      var k :| 0 <= k < |st.open| && Begin(st.open[k]) == picks[0] && |st.open[k].chain| >= PickedBefore(picks, m);
      UnderwayKept(rule, events, picks, m, st, k);
    }
  }

  ghost predicate RunsThrough(rule: CepRule, events: seq<Observation>, run: nat -> KeyState) {
    forall j :: 0 <= j < |events| ==> RunsPast(rule, events, run, j)
  }

  /** At event `m` of the run the attempt begun at the first pick is on track. */
  ghost predicate TrackAt(picks: seq<nat>, run: nat -> KeyState, m: nat) {
    picks != [] && OnTrack(run(m), picks[0], PickedBefore(picks, m))
  }

  lemma TrackNext(rule: CepRule, events: seq<Observation>, picks: seq<nat>, run: nat -> KeyState, m: nat)
    requires |rule.steps| >= 2 && Clock(events) && Scenario(rule, events, picks) && RunsThrough(rule, events, run)
    requires picks[0] < m < picks[|picks| - 1] && TrackAt(picks, run, m)
    ensures TrackAt(picks, run, m + 1)
  {
    assert RunsPast(rule, events, run, m);
    TrackKept(rule, events, picks, m, run(m));
  }

  lemma TrackStarts(rule: CepRule, events: seq<Observation>, picks: seq<nat>, run: nat -> KeyState)
    requires |rule.steps| >= 2 && Scenario(rule, events, picks) && RunsThrough(rule, events, run)
    ensures TrackAt(picks, run, picks[0] + 1)
  {
    assert RunsPast(rule, events, run, picks[0]);
    FirstPickStarts(rule, events, picks, run(picks[0]));
  }

  /** Until the last pick, the attempt begun at the first pick has done at least as many
      steps as there were picks, or has completed. */
  lemma {:induction false} StaysOnTrack(rule: CepRule, events: seq<Observation>, picks: seq<nat>,
                                        run: nat -> KeyState, m: nat)
    requires |rule.steps| >= 2 && Clock(events) && Scenario(rule, events, picks) && RunsThrough(rule, events, run)
    requires picks[0] < m <= picks[|picks| - 1]
    ensures TrackAt(picks, run, m)
  {
    if m == picks[0] + 1 {
      TrackStarts(rule, events, picks, run);
    } else {
      StaysOnTrack(rule, events, picks, run, m - 1);
      TrackNext(rule, events, picks, run, m - 1);
    }
  }

  lemma KeyRunNext(rule: CepRule, events: seq<Observation>, j: nat)
    requires |rule.steps| >= 2 && Clock(events) && j < |events|
    ensures KeyRun(rule, events[..j + 1]) == Feed(rule, KeyRun(rule, events[..j]), j, events[j])
    ensures Ordered(rule, events[..j], KeyRun(rule, events[..j]).open)
  {
    assert events[..j + 1] == events[..j] + [events[j]];
    KeyRunStep(rule, events[..j], events[j]);
    KeyRunInv(rule, events[..j]);
  }

  lemma ScenarioStaysOnTrack(rule: CepRule, events: seq<Observation>, picks: seq<nat>, m: nat)
    requires |rule.steps| >= 2 && Clock(events) && Scenario(rule, events, picks)
    requires picks[0] < m <= picks[|picks| - 1]
    ensures OnTrack(KeyRun(rule, events[..m]), picks[0], PickedBefore(picks, m))
  {
    var run := (j: nat) => if j <= |events| then KeyRun(rule, events[..j]) else KeyState([], []);
    forall j | 0 <= j < |events| ensures RunsPast(rule, events, run, j) {
      KeyRunNext(rule, events, j);
    }
    StaysOnTrack(rule, events, picks, run, m);
  }

  /** An unexpired attempt at the last step makes a closing event raise an alert. */
  lemma ReadyAttemptFires(rule: CepRule, events: seq<Observation>, st: KeyState, o: Observation, k: nat)
    requires |rule.steps| >= 2 && Clock(events) && Ordered(rule, events, st.open) && k < |st.open|
    requires |st.open[k].chain| == |rule.steps| - 1 && Since(o.at, st.open[k].startedAt) <= rule.window
    requires Closes(rule, o.event)
    ensures |Feed(rule, st, |events|, o).done| > |st.done|
  {
    OrderedGivesBoth(rule, events, st.open);
    var x, ready := FeedWrittenOut(rule, st, |events|, o);
    assert st.open[x..][k - x] == st.open[k];
  }

  /** Everything but the last pick lies before it. */
  lemma AllButLastPicked(rule: CepRule, events: seq<Observation>, picks: seq<nat>)
    requires |rule.steps| >= 2 && Scenario(rule, events, picks)
    ensures picks[0] < picks[|picks| - 1] && PickedBefore(picks, picks[|picks| - 1]) == |picks| - 1
  {
    var last := picks[|picks| - 1];
    PickedBeforeIs(picks, last);
    assert picks[|picks| - 2] < last;
  }

  lemma UnderwayFires(rule: CepRule, before: seq<Observation>, o: Observation, start: nat)
    requires |rule.steps| >= 2 && Clock(before) && start < |before|
    requires Underway(KeyRun(rule, before), start, |rule.steps| - 1)
    requires Closes(rule, o.event) && Since(o.at, before[start].at) <= rule.window
    ensures Fires(rule, before + [o])
  {
    var st := KeyRun(rule, before);
    var k :| 0 <= k < |st.open| && Begin(st.open[k]) == start && |st.open[k].chain| >= |rule.steps| - 1;
    KeyRunInv(rule, before);
    assert Genuine(rule, before, st.open[k]);
    ReadyAttemptFires(rule, before, st, o, k);
    KeyRunStep(rule, before, o);
  }

  lemma LastPickCloses(rule: CepRule, events: seq<Observation>, picks: seq<nat>)
    requires |rule.steps| >= 2 && Clock(events) && Scenario(rule, events, picks)
    ensures var first, last := picks[0], picks[|picks| - 1];
            && last < |events| && first < last
            && Closes(rule, events[last].event) && Since(events[last].at, events[first].at) <= rule.window
  {
    AllButLastPicked(rule, events, picks);
  }

  lemma ClockOfPrefix(events: seq<Observation>, m: nat)
    requires Clock(events) && m <= |events|
    ensures Clock(events[..m])
  {
  }

  /** An attempt begun at `first` and at the last step when event `last` closes the rule in
      time makes it fire. */
  lemma ClosingFires(rule: CepRule, events: seq<Observation>, first: nat, last: nat)
    requires |rule.steps| >= 2 && first < last < |events| && Clock(events[..last])
    requires Closes(rule, events[last].event) && Since(events[last].at, events[first].at) <= rule.window
    requires Underway(KeyRun(rule, events[..last]), first, |rule.steps| - 1)
    ensures Fires(rule, events[..last + 1])
  {
    assert events[..last][first] == events[first];
    UnderwayFires(rule, events[..last], events[last], first);
    assert events[..last + 1] == events[..last] + [events[last]];
  }

  /** Completeness: if events of the source meet the steps in order and the last is
      processed within the window of the first, the last one raises an alert, unless the
      attempt begun at the first had completed on an earlier event. */
  lemma ScenariosFire(rule: CepRule, events: seq<Observation>, picks: seq<nat>)
    requires |rule.steps| >= 2 && Clock(events) && Scenario(rule, events, picks)
    ensures var last := picks[|picks| - 1];
            || Fires(rule, events[..last + 1])
            || Finished(KeyRun(rule, events[..last]), picks[0])
  {
    var last := picks[|picks| - 1];
    AllButLastPicked(rule, events, picks);
    LastPickCloses(rule, events, picks);
    ScenarioStaysOnTrack(rule, events, picks, last);
    if Underway(KeyRun(rule, events[..last]), picks[0], |rule.steps| - 1) {
      ClockOfPrefix(events, last);
      ClosingFires(rule, events, picks[0], last);
    }
  }

  ghost predicate AllOneStep(open: seq<Attempt>) {
    forall a :: a in open ==> |a.chain| == 1
  }

  /** A rule of one step, or of none, never raises an alert. */
  lemma {:induction false} ShortRulesNeverFire(rule: CepRule, events: seq<Observation>)
    requires |rule.steps| <= 1
    ensures KeyRun(rule, events).done == [] && AllOneStep(KeyRun(rule, events).open)
  {
    if events != [] {
      var i := |events| - 1;
      var st := KeyRun(rule, events[..i]);
      ShortRulesNeverFire(rule, events[..i]);
      UnexpiredStillOneStep(st.open, rule.window, events[i].at);
      NothingAdvances(rule, Unexpired(st.open, rule.window, events[i].at), i, events[i].event);
    }
  }

  lemma {:induction false} UnexpiredStillOneStep(open: seq<Attempt>, window: nat, now: nat)
    requires AllOneStep(open)
    ensures AllOneStep(Unexpired(open, window, now))
  {
    if open != [] { UnexpiredStillOneStep(open[..|open| - 1], window, now); }
  }

  lemma {:induction false} NothingAdvances(rule: CepRule, open: seq<Attempt>, i: nat, event: NetworkEvent)
    requires |rule.steps| <= 1 && forall k :: 0 <= k < |open| ==> |open[k].chain| == 1
    ensures Advance(rule, open, i, event) == (open, None)
  {
    if open != [] {
      NothingAdvances(rule, open[..|open| - 1], i, event);
      assert open == open[..|open| - 1] + [open[|open| - 1]];
    }
  }
}
