/** What the sequence matcher does for one rule and one source, as a function of that
    source's own events: which attempts are open after them, and which completed.

    An attempt remembers which events it matched. The engine itself keeps only how many
    (`PartialMatch`); `Erase` forgets the rest. */
module CepSpec {
  import opened Wrappers
  import opened Models
  import opened Sequences

  datatype Condition = IsSynOnly | HasSignaturePayload | DistinctPortAbove(port: Port)
  {
    predicate Matches(event: NetworkEvent) {
      match this
      case IsSynOnly => event.IsSyn()
      case HasSignaturePayload => event.payloadSample != [] && Mentions(event.payloadSample, PASSWD)
      case DistinctPortAbove(p) => event.dstPort > p
    }
  }

  /** The bytes of "passwd". Lossy decoding neither makes nor breaks ASCII text, so
      looking for them in the bytes is looking for the word in the decoded sample. */
  const PASSWD: seq<Byte> := [0x70, 0x61, 0x73, 0x73, 0x77, 0x64]

  predicate Mentions(payload: seq<Byte>, word: seq<Byte>) {
    exists i :: 0 <= i <= |payload| && word <= payload[i..]
  }

  /** Written out: a payload is suspicious exactly if it has the six bytes in a row. */
  lemma SuspiciousPayload(event: NetworkEvent, pre: seq<Byte>, post: seq<Byte>)
    requires event.payloadSample == pre + [0x70, 0x61, 0x73, 0x73, 0x77, 0x64] + post
    ensures HasSignaturePayload.Matches(event)
  {
    var payload := event.payloadSample;
    assert payload[|pre|..] == [0x70, 0x61, 0x73, 0x73, 0x77, 0x64] + post;
    assert PASSWD <= payload[|pre|..];
  }

  lemma SuspicionHasWord(event: NetworkEvent) returns (pre: seq<Byte>, post: seq<Byte>)
    requires HasSignaturePayload.Matches(event)
    ensures event.payloadSample == pre + [0x70, 0x61, 0x73, 0x73, 0x77, 0x64] + post
  {
    var payload := event.payloadSample;
    var i :| 0 <= i <= |payload| && PASSWD <= payload[i..];
    pre, post := payload[..i], payload[i + 6..];
    assert payload[i..] == PASSWD + payload[i + 6..];
    assert payload == payload[..i] + payload[i..];
  }

  lemma SuspicionHasW(event: NetworkEvent)
    requires HasSignaturePayload.Matches(event)
    ensures 0x77 in event.payloadSample
  {
    var pre, post := SuspicionHasWord(event);
    assert event.payloadSample[|pre| + 4] == 0x77;
  }

  /** So one without the byte of the letter w is not. */
  lemma NoWNoSuspicion(event: NetworkEvent)
    requires 0x77 !in event.payloadSample
    ensures !HasSignaturePayload.Matches(event)
  {
    if HasSignaturePayload.Matches(event) { SuspicionHasW(event); }
  }

  /** The other two conditions, in numbers. */
  lemma OtherConditions(event: NetworkEvent, port: Port)
    ensures IsSynOnly.Matches(event) <==> event.flags as nat % 4 == 1
    ensures DistinctPortAbove(port).Matches(event) <==> event.dstPort - port >= 1
  {
    SynByFlags(event);
  }

  datatype CepRule = CepRule(name: string, severity: Severity, steps: seq<Condition>, window: nat)

  /** An event and the reading of the clock when it is processed. */
  datatype Observation = Observation(event: NetworkEvent, at: nat)

  datatype PartialMatch = PartialMatch(step: nat, startedAt: nat)

  /** `chain` holds the positions of the matched events among the source's own events. */
  datatype Attempt = Attempt(startedAt: nat, chain: seq<nat>)

  function Erase(open: seq<Attempt>): (ps: seq<PartialMatch>)
    ensures |ps| == |open|
  {
    seq(|open|, k requires 0 <= k < |open| => PartialMatch(|open[k].chain|, open[k].startedAt))
  }

  /** `Instant::duration_since`, which saturates at zero. */
  function Since(now: nat, then_: nat): nat {
    if now >= then_ then now - then_ else 0
  }

  /** Keep the attempts whose window has not elapsed. */
  function Unexpired(open: seq<Attempt>, window: nat, now: nat): seq<Attempt> {
    Filter((a: Attempt) => Since(now, a.startedAt) <= window, open)
  }

  function Extend(a: Attempt, i: nat): Attempt {
    a.(chain := a.chain + [i])
  }

  /** The event, at position `i`, satisfies the condition the attempt waits for. */
  predicate Waiting(rule: CepRule, a: Attempt, event: NetworkEvent) {
    |a.chain| < |rule.steps| && rule.steps[|a.chain|].Matches(event)
  }

  /** Let the event advance attempts, newest first, stopping at the first completion. */
  function Advance(rule: CepRule, open: seq<Attempt>, i: nat, event: NetworkEvent): (seq<Attempt>, Option<Attempt>) {
    if open == [] then ([], None)
    else
      var older, newest := open[..|open| - 1], open[|open| - 1];
      if Waiting(rule, newest, event) && |newest.chain| + 1 == |rule.steps|
      then (older + [Extend(newest, i)], Some(Extend(newest, i)))
      else
        var (rest, completed) := Advance(rule, older, i, event);
        (rest + [if Waiting(rule, newest, event) then Extend(newest, i) else newest], completed)
  }

  /** Keep the attempts that still have a step to match. */
  function Incomplete(open: seq<Attempt>, stepCount: nat): seq<Attempt> {
    Filter((a: Attempt) => |a.chain| < stepCount, open)
  }

  predicate Starts(rule: CepRule, event: NetworkEvent) {
    rule.steps != [] && rule.steps[0].Matches(event)
  }

  /** Open attempts, oldest first, and completed ones in the order they completed. */
  datatype KeyState = KeyState(open: seq<Attempt>, done: seq<Attempt>)

  /** One event of the source: expire, advance, drop what completed, perhaps start. */
  function Feed(rule: CepRule, st: KeyState, i: nat, o: Observation): KeyState {
    var (advanced, completed) := Advance(rule, Unexpired(st.open, rule.window, o.at), i, o.event);
    var left := if completed.Some? then Incomplete(advanced, |rule.steps|) else advanced;
    KeyState(if Starts(rule, o.event) then left + [Attempt(o.at, [i])] else left,
             if completed.Some? then st.done + [completed.value] else st.done)
  }

  function KeyRun(rule: CepRule, events: seq<Observation>): KeyState {
    if events == [] then KeyState([], [])
    else
      var k := |events| - 1;
      Feed(rule, KeyRun(rule, events[..k]), k, events[k])
  }

  /** The last of these events raises an alert. */
  predicate Fires(rule: CepRule, events: seq<Observation>)
    requires events != []
  {
    |KeyRun(rule, events).done| > |KeyRun(rule, events[..|events| - 1]).done|
  }

  /** The events of one source, in order. */
  function OfSource(history: seq<Observation>, ip: Ip): seq<Observation> {
    Filter((o: Observation) => o.event.srcIp == ip, history)
  }

  // ---- Unfolding by one event ----

  lemma KeyRunStep(rule: CepRule, before: seq<Observation>, o: Observation)
    ensures KeyRun(rule, before + [o]) == Feed(rule, KeyRun(rule, before), |before|, o)
    ensures Fires(rule, before + [o]) <==> |KeyRun(rule, before + [o]).done| > |KeyRun(rule, before).done|
  {
    assert (before + [o])[..|before|] == before;
  }

  lemma OfSourceStep(history: seq<Observation>, o: Observation, ip: Ip)
    ensures OfSource(history + [o], ip) ==
            if o.event.srcIp == ip then OfSource(history, ip) + [o] else OfSource(history, ip)
  {
    FilterStep((x: Observation) => x.event.srcIp == ip, history, o);
  }

  lemma EraseStep(open: seq<Attempt>, a: Attempt)
    ensures Erase(open + [a]) == Erase(open) + [PartialMatch(|a.chain|, a.startedAt)]
  {
  }
}
