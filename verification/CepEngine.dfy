/** The sequence matcher as the engine runs it: per rule, a table from source to partial
    matches, updated in place event by event. */
module CepEngine {
  import opened Words
  import opened Models
  import opened Sequences
  import opened CepSpec

  function DefaultRules(): seq<CepRule> {
    [CepRule("probe-then-exploit-attempt", Critical, [IsSynOnly, HasSignaturePayload], 5_000_000_000)]
  }

  function NewAlert(id: nat, rule: CepRule, event: NetworkEvent): Alert {
    Alert(id, event.timestampMs, rule.name, rule.severity, event.srcIp, event.dstIp, Cep)
  }

  /** One alert for each rule that fired, in rule order, numbered from `firstId`. */
  function AlertsOf(rules: seq<CepRule>, fired: seq<bool>, event: NetworkEvent, firstId: nat): seq<Alert>
    requires |fired| == |rules|
  {
    if rules == [] then []
    else
      var k := |rules| - 1;
      var earlier := AlertsOf(rules[..k], fired[..k], event, firstId);
      if fired[k] then earlier + [NewAlert(IdAfter(firstId, |earlier|), rules[k], event)] else earlier
  }

  /** Which rules fire at the last of a source's own events. */
  function Firings(rules: seq<CepRule>, events: seq<Observation>): (fired: seq<bool>)
    requires events != []
    ensures |fired| == |rules|
  {
    seq(|rules|, r requires 0 <= r < |rules| => Fires(rules[r], events))
  }

  // ---- The passes over one list of partial matches ----

  method RetainUnexpired(ps: seq<PartialMatch>, ghost open: seq<Attempt>, window: nat, now: nat)
    returns (kept: seq<PartialMatch>)
    requires ps == Erase(open)
    ensures kept == Erase(Unexpired(open, window, now))
  {
    kept := [];
    for j := 0 to |ps|
      invariant kept == Erase(Unexpired(open[..j], window, now))
    {
      if Since(now, ps[j].startedAt) <= window {
        kept := kept + [ps[j]];
      }
      assert open[..j + 1][..j] == open[..j];
    }
    assert open[..|ps|] == open;
  }

  method RetainIncomplete(ps: seq<PartialMatch>, ghost open: seq<Attempt>, stepCount: nat)
    returns (kept: seq<PartialMatch>)
    requires ps == Erase(open)
    ensures kept == Erase(Incomplete(open, stepCount))
  {
    kept := [];
    for j := 0 to |ps|
      invariant kept == Erase(Incomplete(open[..j], stepCount))
    {
      if ps[j].step < stepCount {
        kept := kept + [ps[j]];
      }
      assert open[..j + 1][..j] == open[..j];
    }
    assert open[..|ps|] == open;
  }

  lemma AdvanceUnfolds(rule: CepRule, older: seq<Attempt>, newest: Attempt, tail: seq<Attempt>, i: nat,
                       event: NetworkEvent)
    ensures var (list, completed) := Advance(rule, older + [newest], i, event);
            if !Waiting(rule, newest, event) then
              list + tail == Advance(rule, older, i, event).0 + ([newest] + tail)
              && completed == Advance(rule, older, i, event).1
            else if |newest.chain| + 1 == |rule.steps| then
              list + tail == older + ([Extend(newest, i)] + tail) && completed.Some?
            else
              list + tail == Advance(rule, older, i, event).0 + ([Extend(newest, i)] + tail)
              && completed == Advance(rule, older, i, event).1
  {
    var whole := older + [newest];
    var (rest, completed) := Advance(rule, older, i, event);
    assert whole[..|whole| - 1] == older && whole[|whole| - 1] == newest;
    assert rest + [newest] + tail == rest + ([newest] + tail);
    assert rest + [Extend(newest, i)] + tail == rest + ([Extend(newest, i)] + tail);
    assert older + [Extend(newest, i)] + tail == older + ([Extend(newest, i)] + tail);
  }

  lemma EraseReplaces(older: seq<Attempt>, newest: Attempt, tail: seq<Attempt>, a: Attempt)
    ensures Erase(older + [newest] + tail)[|older|] == PartialMatch(|newest.chain|, newest.startedAt)
    ensures Erase(older + [newest] + tail)[|older| := PartialMatch(|a.chain|, a.startedAt)] ==
            Erase(older + ([a] + tail))
  {
  }

  /** Newest first, stopping at the first completion. */
  method AdvanceNewestFirst(rule: CepRule, ps: seq<PartialMatch>, ghost open: seq<Attempt>, ghost i: nat,
                            event: NetworkEvent)
    returns (advanced: seq<PartialMatch>, completed: bool)
    requires ps == Erase(open)
    ensures advanced == Erase(Advance(rule, open, i, event).0)
    ensures completed <==> Advance(rule, open, i, event).1.Some?
  {
    advanced, completed := ps, false;
    var j := |ps|;
    ghost var pending, tail: seq<Attempt> := open, [];
    assert open == open + [];
    assert Advance(rule, open, i, event).0 + [] == Advance(rule, open, i, event).0;
    while j > 0
      invariant j == |pending| <= |ps| && |advanced| == |ps| && !completed
      invariant advanced == Erase(pending + tail)
      invariant Advance(rule, open, i, event).0 == Advance(rule, pending, i, event).0 + tail
      invariant Advance(rule, open, i, event).1 == Advance(rule, pending, i, event).1
    {
      ghost var older, newest := pending[..j - 1], pending[j - 1];
      assert pending == older + [newest];
      AdvanceUnfolds(rule, older, newest, tail, i, event);
      j := j - 1;
      EraseReplaces(older, newest, tail, Extend(newest, i));
      EraseReplaces(older, newest, tail, newest);
      var p := advanced[j];
      if p.step < |rule.steps| && rule.steps[p.step].Matches(event) {
        advanced := advanced[j := p.(step := p.step + 1)];
        tail := [Extend(newest, i)] + tail;
        if p.step + 1 == |rule.steps| {
          completed := true;
          return;
        }
      } else {
        tail := [newest] + tail;
      }
      pending := older;
    }
  }

  function Sources(history: seq<Observation>): set<Ip> {
    set o | o in history :: o.event.srcIp
  }

  /** The table after a history, if a source's own events leave `left` of them open. */
  function TableOf(left: seq<Observation> -> seq<PartialMatch>, history: seq<Observation>): map<Ip, seq<PartialMatch>> {
    map ip | ip in Sources(history) :: left(OfSource(history, ip))
  }

  /** The table of a rule after a history: what each source's own events left open. */
  function Table(rule: CepRule, history: seq<Observation>): map<Ip, seq<PartialMatch>> {
    TableOf(events => Erase(KeyRun(rule, events).open), history)
  }

  lemma UnseenSource(history: seq<Observation>, ip: Ip)
    requires ip !in Sources(history)
    ensures OfSource(history, ip) == []
  {
    forall k | 0 <= k < |history| ensures history[k].event.srcIp != ip {
      assert history[k] in history;
    }
    FilterAllOrNone((o: Observation) => o.event.srcIp == ip, history, false);
  }

  lemma TableStep(left: seq<Observation> -> seq<PartialMatch>, history: seq<Observation>, o: Observation)
    ensures var key := o.event.srcIp;
            TableOf(left, history + [o]) == TableOf(left, history)[key := left(OfSource(history, key) + [o])]
  {
    SourcesStep(history, o);
    forall ip | ip in Sources(history + [o])
      ensures OfSource(history + [o], ip) ==
              if o.event.srcIp == ip then OfSource(history, ip) + [o] else OfSource(history, ip)
    {
      OfSourceStep(history, o, ip);
    }
  }

  lemma SourcesStep(history: seq<Observation>, o: Observation)
    ensures Sources(history + [o]) == Sources(history) + {o.event.srcIp}
  {
  }

  lemma AlertsOfStep(rules: seq<CepRule>, fired: seq<bool>, r: nat, event: NetworkEvent, firstId: nat,
                     earlier: seq<Alert>, alerts: seq<Alert>)
    requires |fired| == |rules| && r < |rules|
    requires earlier == AlertsOf(rules[..r], fired[..r], event, firstId)
    requires alerts == if fired[r] then earlier + [NewAlert(IdAfter(firstId, |earlier|), rules[r], event)] else earlier
    ensures alerts == AlertsOf(rules[..r + 1], fired[..r + 1], event, firstId)
  {
    assert rules[..r + 1][..r] == rules[..r] && fired[..r + 1][..r] == fired[..r];
  }

  class CepEngine {
    const rules: seq<CepRule>
    var active: seq<map<Ip, seq<PartialMatch>>>
    var nextId: nat
    ghost var history: seq<Observation>

    ghost predicate Valid()
      reads this
    {
      |active| == |rules| && nextId < WORD && forall r :: 0 <= r < |rules| ==> active[r] == Table(rules[r], history)
    }

    constructor (rules: seq<CepRule>)
      ensures Valid() && this.rules == rules && history == [] && nextId == 1
    {
      this.rules := rules;
      active := seq(|rules|, (r: nat) => map[]);
      nextId := 1;
      history := [];
    }

    /** One rule's work on one event: the source's new partial matches, and whether the
        rule fires. */
    method ProcessRule(rule: CepRule, partials: seq<PartialMatch>, ghost mine: seq<Observation>,
                       event: NetworkEvent, now: nat)
      returns (left: seq<PartialMatch>, fires: bool)
      requires partials == Erase(KeyRun(rule, mine).open)
      ensures left == Erase(KeyRun(rule, mine + [Observation(event, now)]).open)
      ensures fires <==> Fires(rule, mine + [Observation(event, now)])
    {
      ghost var st := KeyRun(rule, mine);
      ghost var kept := Unexpired(st.open, rule.window, now);
      ghost var (advanced, completed) := Advance(rule, kept, |mine|, event);
      KeyRunStep(rule, mine, Observation(event, now));
      left := RetainUnexpired(partials, st.open, rule.window, now);
      left, fires := AdvanceNewestFirst(rule, left, kept, |mine|, event);
      if fires {
        left := RetainIncomplete(left, advanced, |rule.steps|);
      }
      ghost var open := if fires then Incomplete(advanced, |rule.steps|) else advanced;
      if rule.steps != [] && rule.steps[0].Matches(event) {
        EraseStep(open, Attempt(now, [|mine|]));
        left := left + [PartialMatch(1, now)];
      }
    }

    method ProcessTable(rule: CepRule, table: map<Ip, seq<PartialMatch>>, event: NetworkEvent, now: nat)
      returns (table': map<Ip, seq<PartialMatch>>, fires: bool)
      requires table == Table(rule, history)
      ensures table' == Table(rule, history + [Observation(event, now)])
      ensures fires <==> Fires(rule, OfSource(history, event.srcIp) + [Observation(event, now)])
    {
      if event.srcIp !in table { UnseenSource(history, event.srcIp); }
      var partials := if event.srcIp in table then table[event.srcIp] else [];
      var left;
      left, fires := ProcessRule(rule, partials, OfSource(history, event.srcIp), event, now);
      table' := table[event.srcIp := left];
      TableStep(events => Erase(KeyRun(rule, events).open), history, Observation(event, now));
    }

    /** Number one more alert of an event. */
    method Raise(alerts: seq<Alert>, rule: CepRule, event: NetworkEvent, ghost firstId: nat)
      returns (alerts': seq<Alert>)
      requires nextId == IdAfter(firstId, |alerts|)
      modifies this`nextId
      ensures alerts' == alerts + [NewAlert(IdAfter(firstId, |alerts|), rule, event)]
      ensures nextId == IdAfter(firstId, |alerts'|)
    {
      alerts' := alerts + [NewAlert(nextId, rule, event)];
      nextId := (nextId + 1) % WORD;
    }

    /** Every rule in turn, each against its own table. */
    method ProcessRules(event: NetworkEvent, now: nat, ghost fired: seq<bool>) returns (alerts: seq<Alert>)
      requires Valid()
      requires fired == Firings(rules, OfSource(history, event.srcIp) + [Observation(event, now)])
      modifies this`active, this`nextId
      ensures |active| == |rules|
      ensures forall r :: 0 <= r < |rules| ==> active[r] == Table(rules[r], history + [Observation(event, now)])
      ensures alerts == AlertsOf(rules, fired, event, old(nextId))
      ensures nextId == IdAfter(old(nextId), |alerts|)
    {
      alerts := [];
      for r := 0 to |rules|
        invariant |active| == |rules| && nextId == IdAfter(old(nextId), |alerts|)
        invariant forall r' :: r <= r' < |rules| ==> active[r'] == old(active)[r']
        invariant forall r' :: 0 <= r' < r ==> active[r'] == Table(rules[r'], history + [Observation(event, now)])
        invariant alerts == AlertsOf(rules[..r], fired[..r], event, old(nextId))
      {
        var table, fires := ProcessTable(rules[r], active[r], event, now);
        active := active[r := table];
        ghost var earlier := alerts;
        if fires {
          alerts := Raise(alerts, rules[r], event, old(nextId));
        }
        AlertsOfStep(rules, fired, r, event, old(nextId), earlier, alerts);
      }
      assert rules[..|rules|] == rules && fired[..|rules|] == fired;
    }

    /** An event's alerts depend only on the rules, on its own source's earlier events and
        on the number the next alert gets; other sources' events change nothing. */
    method Process(event: NetworkEvent, now: nat) returns (alerts: seq<Alert>)
      requires Valid()
      modifies this
      ensures Valid()
      ensures history == old(history) + [Observation(event, now)]
      ensures OfSource(history, event.srcIp) == OfSource(old(history), event.srcIp) + [Observation(event, now)]
      ensures alerts == AlertsOf(rules, Firings(rules, OfSource(history, event.srcIp)), event, old(nextId))
      ensures nextId == IdAfter(old(nextId), |alerts|)
    {
      ghost var o := Observation(event, now);
      OfSourceStep(history, o, event.srcIp);
      alerts := ProcessRules(event, now, Firings(rules, OfSource(history, event.srcIp) + [o]));
      history := history + [o];
    }
  }
}
