/** From firing to alerts: an engine fed any interleaving of sources raises an alert for
    every scenario of one source, and raises nothing but such alerts. */
module CepAlerts {
  import opened Words
  import opened Models
  import opened Sequences
  import opened CepSpec
  import opened CepTheory
  import opened CepEngine
  import opened CepSharding

  // ---- One source's own events ----

  /** The completed attempts after one more event, at position `i`: as before, or one more,
      which ends at that event. */
  ghost predicate Grown(done: seq<Attempt>, done': seq<Attempt>, i: nat) {
    done' == done || (|done'| == |done| + 1 && done <= done' && Begin(done'[|done|]) < End(done'[|done|]) == i)
  }

  lemma DoneGrowsByOne(rule: CepRule, before: seq<Observation>, o: Observation)
    requires |rule.steps| >= 2 && Clock(before + [o])
    ensures Grown(KeyRun(rule, before).done, KeyRun(rule, before + [o]).done, |before|)
  {
    assert forall i :: 0 <= i < |before| ==> before[i] == (before + [o])[i];
    KeyRunStep(rule, before, o);
    KeyRunInv(rule, before);
    var x, gone := FeedOrigins(rule, before, KeyRun(rule, before), o);
  }

  /** Event `e` adds a completed attempt. */
  predicate AddsAt(done: seq<Observation> -> seq<Attempt>, events: seq<Observation>, e: nat) {
    e < |events| && |done(events[..e + 1])| > |done(events[..e])|
  }

  ghost predicate GrowsThrough(done: seq<Observation> -> seq<Attempt>, events: seq<Observation>) {
    forall i :: 0 <= i < |events| ==> Grown(done(events[..i]), done(events[..i + 1]), i)
  }

  lemma GrowsThroughPrefix(done: seq<Observation> -> seq<Attempt>, events: seq<Observation>, k: nat)
    requires GrowsThrough(done, events) && k <= |events|
    ensures GrowsThrough(done, events[..k])
  {
    forall i | 0 <= i < k ensures Grown(done(events[..k][..i]), done(events[..k][..i + 1]), i) {
      assert events[..k][..i] == events[..i] && events[..k][..i + 1] == events[..i + 1];
      assert Grown(done(events[..i]), done(events[..i + 1]), i);
    }
  }

  /** So each was added at the event it ends at. */
  lemma {:induction false} AddedAtItsEnd(done: seq<Observation> -> seq<Attempt>, events: seq<Observation>, j: nat)
    requires done([]) == [] && j < |done(events)| && GrowsThrough(done, events)
    ensures Begin(done(events)[j]) < End(done(events)[j]) && AddsAt(done, events, End(done(events)[j]))
  {
    if events != [] {
      var k := |events| - 1;
      var before := events[..k];
      assert events[..k + 1] == events && Grown(done(before), done(events), k);
      if j < |done(before)| {
        GrowsThroughPrefix(done, events, k);
        AddedAtItsEnd(done, before, j);
        var e := End(done(before)[j]);
        assert before[..e] == events[..e] && before[..e + 1] == events[..e + 1];
      }
    }
  }

  /** The completed attempts of a rule after a history. */
  function DoneOf(rule: CepRule): seq<Observation> -> seq<Attempt> {
    (events: seq<Observation>) => KeyRun(rule, events).done
  }

  lemma DoneGrowsPast(rule: CepRule, events: seq<Observation>, i: nat)
    requires |rule.steps| >= 2 && Clock(events) && i < |events|
    ensures Grown(KeyRun(rule, events[..i]).done, KeyRun(rule, events[..i + 1]).done, i)
  {
    assert events[..i + 1] == events[..i] + [events[i]];
    DoneGrowsByOne(rule, events[..i], events[i]);
  }

  lemma DoneGrowsThrough(rule: CepRule, events: seq<Observation>)
    requires |rule.steps| >= 2 && Clock(events)
    ensures GrowsThrough(DoneOf(rule), events)
  {
    forall i | 0 <= i < |events| ensures Grown(DoneOf(rule)(events[..i]), DoneOf(rule)(events[..i + 1]), i) {
      DoneGrowsPast(rule, events, i);
    }
  }

  /** The event at position `e` completes an attempt. */
  predicate FiresAt(rule: CepRule, events: seq<Observation>, e: nat) {
    AddsAt(DoneOf(rule), events, e)
  }

  lemma FiringIsFiresAt(rule: CepRule, events: seq<Observation>, e: nat)
    requires e < |events|
    ensures FiresAt(rule, events, e) <==> Fires(rule, events[..e + 1])
  {
    var until := events[..e + 1];
    assert until[..|until| - 1] == events[..e];
  }

  lemma FiresAtInPrefix(rule: CepRule, events: seq<Observation>, m: nat, e: nat)
    requires e < m <= |events|
    ensures FiresAt(rule, events[..m], e) <==> FiresAt(rule, events, e)
  {
    assert events[..m][..e + 1] == events[..e + 1] && events[..m][..e] == events[..e];
  }

  /** A completed attempt ends after it begins, and made its last event fire. */
  lemma DoneHasFired(rule: CepRule, events: seq<Observation>, j: nat)
    requires |rule.steps| >= 2 && Clock(events) && j < |DoneOf(rule)(events)|
    ensures Begin(DoneOf(rule)(events)[j]) < End(DoneOf(rule)(events)[j])
    ensures FiresAt(rule, events, End(DoneOf(rule)(events)[j]))
  {
    DoneGrowsThrough(rule, events);
    AddedAtItsEnd(DoneOf(rule), events, j);
  }

  lemma FinishedHasFired(rule: CepRule, events: seq<Observation>, start: nat) returns (e: nat)
    requires |rule.steps| >= 2 && Clock(events) && Finished(KeyRun(rule, events), start)
    ensures start < e && FiresAt(rule, events, e)
  {
    var done := DoneOf(rule)(events);
    var j :| 0 <= j < |done| && Begin(done[j]) == start;
    DoneHasFired(rule, events, j);
    e := End(done[j]);
  }

  /** A rule that fires at `last`, or had completed an attempt begun at `start` before it,
      fires by then. */
  lemma FiresByThen(rule: CepRule, events: seq<Observation>, start: nat, last: nat) returns (e: nat)
    requires |rule.steps| >= 2 && start < last < |events| && Clock(events[..last])
    requires Fires(rule, events[..last + 1]) || Finished(KeyRun(rule, events[..last]), start)
    ensures start < e <= last && FiresAt(rule, events, e)
  {
    if Finished(KeyRun(rule, events[..last]), start) {
      e := FinishedHasFired(rule, events[..last], start);
      FiresAtInPrefix(rule, events, last, e);
    } else {
      e := last;
      FiringIsFiresAt(rule, events, e);
    }
  }

  /** Every scenario makes its rule fire, at its last event or at an earlier one that
      completed the attempt begun at its first. */
  lemma ScenariosRaise(rule: CepRule, events: seq<Observation>, picks: seq<nat>) returns (e: nat)
    requires |rule.steps| >= 2 && Clock(events) && Scenario(rule, events, picks)
    ensures picks[0] < e <= picks[|picks| - 1] < |events| && FiresAt(rule, events, e)
  {
    var last := picks[|picks| - 1];
    ScenariosFire(rule, events, picks);
    LastPickCloses(rule, events, picks);
    ClockOfPrefix(events, last);
    e := FiresByThen(rule, events, picks[0], last);
  }

  // ---- Which rules are complete ----

  /** Every scenario of the rule makes it fire by the scenario's last event. */
  ghost predicate Complete(rule: CepRule) {
    forall events: seq<Observation>, picks: seq<nat> ::
      Clock(events) && Scenario(rule, events, picks) ==> FiresBetween(rule, events, picks)
  }

  ghost predicate FiresBetween(rule: CepRule, events: seq<Observation>, picks: seq<nat>) {
    && picks != []
    && exists e :: picks[0] <= e <= picks[|picks| - 1] && FiresAt(rule, events, e)
  }

  /** A one-step rule whose condition an event meets does not fire at it. */
  lemma OneStepStaysSilent(rule: CepRule, event: NetworkEvent)
    requires |rule.steps| == 1 && rule.steps[0].Matches(event)
    ensures var events := [Observation(event, 0)];
            Clock(events) && Scenario(rule, events, [0]) && !FiresBetween(rule, events, [0])
  {
    var events := [Observation(event, 0)];
    ShortRulesNeverFire(rule, events);
    assert events[..1] == events;
  }

  /** So a lone SYN is a scenario of the one-step rule that looks for SYNs, and raises
      nothing. */
  lemma SynOnlyRuleStaysSilent(event: NetworkEvent)
    requires event.flags as nat % 4 == 1
    ensures var rule, events := CepRule("syn", Low, [IsSynOnly], 0), [Observation(event, 0)];
            Scenario(rule, events, [0]) && !Fires(rule, events)
  {
    var rule, events := CepRule("syn", Low, [IsSynOnly], 0), [Observation(event, 0)];
    SynByFlags(event);
    OneStepStaysSilent(rule, event);
    ShortRulesNeverFire(rule, events);
  }

  lemma NoScenario(rule: CepRule, events: seq<Observation>, picks: seq<nat>)
    requires |rule.steps| == 1 && forall event: NetworkEvent :: !rule.steps[0].Matches(event)
    ensures !Scenario(rule, events, picks)
  {
    if |picks| == 1 && picks[0] < |events| {
      assert !rule.steps[0].Matches(events[picks[0]].event);
    }
  }

  /** A rule with steps is complete exactly if it has two or more, or one whose condition no
      event meets. */
  lemma CompleteExactlyFromTwoSteps(rule: CepRule)
    requires rule.steps != []
    ensures Complete(rule) <==> |rule.steps| >= 2 || forall event: NetworkEvent :: !rule.steps[0].Matches(event)
  {
    if |rule.steps| >= 2 {
      forall events: seq<Observation>, picks: seq<nat> | Clock(events) && Scenario(rule, events, picks)
        ensures FiresBetween(rule, events, picks)
      {
        var e := ScenariosRaise(rule, events, picks);
      }
    } else {
      forall event: NetworkEvent | rule.steps[0].Matches(event) ensures !Complete(rule) {
        OneStepStaysSilent(rule, event);
      }
      if forall event: NetworkEvent :: !rule.steps[0].Matches(event) {
        forall events: seq<Observation>, picks: seq<nat> ensures !Scenario(rule, events, picks) {
          NoScenario(rule, events, picks);
        }
      }
    }
  }

  // ---- One event's alerts ----

  /** A rule that fires has its alert raised. */
  lemma {:induction false} FiredIsRaised(rules: seq<CepRule>, fired: seq<bool>, event: NetworkEvent, firstId: nat,
                                         r: nat)
    returns (id: nat)
    requires |fired| == |rules| && r < |rules| && fired[r]
    ensures NewAlert(id, rules[r], event) in AlertsOf(rules, fired, event, firstId)
  {
    var k := |rules| - 1;
    var earlier := AlertsOf(rules[..k], fired[..k], event, firstId);
    if r == k {
      id := IdAfter(firstId, |earlier|);
      assert AlertsOf(rules, fired, event, firstId)[|earlier|] == NewAlert(id, rules[r], event);
    } else {
      id := FiredIsRaised(rules[..k], fired[..k], event, firstId, r);
    }
  }

  /** And every alert raised is that of a rule that fires. */
  lemma {:induction false} RaisedHasFired(rules: seq<CepRule>, fired: seq<bool>, event: NetworkEvent, firstId: nat,
                                          alert: Alert)
    returns (r: nat)
    requires |fired| == |rules| && alert in AlertsOf(rules, fired, event, firstId)
    ensures r < |rules| && fired[r] && alert == NewAlert(alert.id, rules[r], event)
  {
    var k := |rules| - 1;
    var earlier := AlertsOf(rules[..k], fired[..k], event, firstId);
    if alert in earlier {
      r := RaisedHasFired(rules[..k], fired[..k], event, firstId, alert);
    } else {
      r := k;
    }
  }

  // ---- An engine fed all sources ----

  lemma {:induction false} EngineAlertsGrow(rules: seq<CepRule>, history: seq<Observation>, m: nat)
    requires m <= |history|
    ensures EngineAlerts(rules, history[..m]) <= EngineAlerts(rules, history)
  {
    if m < |history| {
      var before := history[..|history| - 1];
      EngineAlertsGrow(rules, before, m);
      assert before[..m] == history[..m];
    } else {
      assert history[..m] == history;
    }
  }

  /** The own event at position `e` of a source stands at some position of the history. */
  lemma OwnPosition(history: seq<Observation>, ip: Ip, e: nat) returns (m: nat)
    requires e < |OfSource(history, ip)|
    ensures m < |history| && history[m] == OfSource(history, ip)[e] && history[m].event.srcIp == ip
    ensures OfSource(history[..m + 1], ip) == OfSource(history, ip)[..e + 1]
  {
    m := FilterPosition((o: Observation) => o.event.srcIp == ip, history, e);
  }

  /** A rule that the last event makes fire has its alert raised there. */
  lemma LatestIsRaised(rules: seq<CepRule>, history: seq<Observation>, r: nat) returns (id: nat)
    requires history != [] && r < |rules|
    requires var event := history[|history| - 1].event;
             OfSource(history, event.srcIp) != [] && Fires(rules[r], OfSource(history, event.srcIp))
    ensures NewAlert(id, rules[r], history[|history| - 1].event) in EngineAlerts(rules, history)
  {
    var before := history[..|history| - 1];
    var event := history[|history| - 1].event;
    id := FiredIsRaised(rules, Firings(rules, OfSource(history, event.srcIp)), event, NextNumber(rules, before), r);
    assert EngineAlerts(rules, history) ==
           EngineAlerts(rules, before) + EventAlerts(rules, history, NextNumber(rules, before));
  }

  /** A rule that fires at an own event of a source has its alert raised by the engine. */
  lemma FiringIsRaised(rules: seq<CepRule>, history: seq<Observation>, ip: Ip, r: nat, e: nat) returns (id: nat)
    requires r < |rules| && e < |OfSource(history, ip)| && Fires(rules[r], OfSource(history, ip)[..e + 1])
    ensures NewAlert(id, rules[r], OfSource(history, ip)[e].event) in EngineAlerts(rules, history)
  {
    var m := OwnPosition(history, ip, e);
    EngineAlertsGrow(rules, history, m + 1);
    id := LatestIsRaised(rules, history[..m + 1], r);
  }

  lemma {:induction false} ClockOfSource(history: seq<Observation>, ip: Ip)
    requires Clock(history)
    ensures Clock(OfSource(history, ip))
  {
    var own := OfSource(history, ip);
    forall i, j | 0 <= i < j < |own| ensures own[i].at <= own[j].at {
      var m := OwnPosition(history, ip, j);
      assert OfSource(history[..m + 1], ip)[i] == own[i];
      InHistory(history[..m + 1], ip, i);
    }
  }

  lemma InHistory(history: seq<Observation>, ip: Ip, i: nat)
    requires i < |OfSource(history, ip)| && Clock(history)
    ensures OfSource(history, ip)[i].at <= history[|history| - 1].at
  {
    var m := OwnPosition(history, ip, i);
  }

  /** Completeness, end to end: whatever other sources do in between, every scenario of a
      source makes the engine raise the rule's alert, after its first event and no later
      than its last. */
  lemma ScenarioIsReported(rules: seq<CepRule>, history: seq<Observation>, ip: Ip, r: nat, picks: seq<nat>)
    returns (e: nat, id: nat)
    requires Clock(history) && r < |rules| && |rules[r].steps| >= 2
    requires Scenario(rules[r], OfSource(history, ip), picks)
    ensures picks[0] < e <= picks[|picks| - 1] < |OfSource(history, ip)|
    ensures NewAlert(id, rules[r], OfSource(history, ip)[e].event) in EngineAlerts(rules, history)
  {
    ClockOfSource(history, ip);
    e := ScenariosRaise(rules[r], OfSource(history, ip), picks);
    FiringIsFiresAt(rules[r], OfSource(history, ip), e);
    id := FiringIsRaised(rules, history, ip, r, e);
  }

  /** An alert raised at the last event is that of a rule the event makes fire. */
  lemma LatestHasFired(rules: seq<CepRule>, history: seq<Observation>, firstId: nat, alert: Alert) returns (r: nat)
    requires history != [] && alert in EventAlerts(rules, history, firstId)
    ensures var event := history[|history| - 1].event;
            && alert.srcIp == event.srcIp && OfSource(history, event.srcIp) != []
            && r < |rules| && Fires(rules[r], OfSource(history, event.srcIp))
            && alert == NewAlert(alert.id, rules[r], event)
  {
    OwnFromLast(history);
    var event := history[|history| - 1].event;
    r := RaisedHasFired(rules, Firings(rules, OfSource(history, event.srcIp)), event, firstId, alert);
  }

  /** What the last event of a history raises, numbered on from the events before it. */
  function LatestAlerts(rules: seq<CepRule>, history: seq<Observation>): seq<Alert> {
    if history == [] then [] else EventAlerts(rules, history, NextNumber(rules, history[..|history| - 1]))
  }

  /** The engine's alerts are these put end to end. */
  lemma AlertsGather(rules: seq<CepRule>)
    ensures Gathers(h => EngineAlerts(rules, h), h => LatestAlerts(rules, h))
  {
    forall h: seq<Observation>, o: Observation
      ensures EngineAlerts(rules, h + [o]) == EngineAlerts(rules, h) + LatestAlerts(rules, h + [o])
    {
      EngineAlertsStep(rules, h, o);
      assert (h + [o])[..|h|] == h;
    }
  }

  /** So every alert was raised at some event. */
  lemma RaisedAt(rules: seq<CepRule>, history: seq<Observation>, alert: Alert) returns (m: nat)
    requires alert in EngineAlerts(rules, history)
    ensures m < |history| && alert in LatestAlerts(rules, history[..m + 1])
  {
    AlertsGather(rules);
    m := GatheredAt(h => EngineAlerts(rules, h), h => LatestAlerts(rules, h), history, alert);
  }

  lemma OwnPrefix(history: seq<Observation>, m: nat, ip: Ip)
    requires m <= |history|
    ensures OfSource(history[..m], ip) <= OfSource(history, ip)
  {
    FilterConcat((o: Observation) => o.event.srcIp == ip, history[..m], history[m..]);
    assert history[..m] + history[m..] == history;
  }

  /** The event at position `m` is its source's own event at some position `e`. */
  lemma OwnUntil(history: seq<Observation>, m: nat, ip: Ip) returns (e: nat)
    requires m < |history| && history[m].event.srcIp == ip
    ensures e < |OfSource(history, ip)| && OfSource(history, ip)[e] == history[m]
    ensures OfSource(history[..m + 1], ip) == OfSource(history, ip)[..e + 1]
  {
    e := |OfSource(history[..m], ip)|;
    OwnPrefix(history, m + 1, ip);
    OfSourceStep(history[..m], history[m], ip);
    assert history[..m + 1] == history[..m] + [history[m]];
  }

  /** Soundness, end to end: every alert of the engine is that of a rule that fires at an
      own event of the alert's source. */
  lemma ReportsHaveFirings(rules: seq<CepRule>, history: seq<Observation>, alert: Alert) returns (r: nat, e: nat)
    requires alert in EngineAlerts(rules, history)
    ensures r < |rules| && e < |OfSource(history, alert.srcIp)|
    ensures Fires(rules[r], OfSource(history, alert.srcIp)[..e + 1])
    ensures alert == NewAlert(alert.id, rules[r], OfSource(history, alert.srcIp)[e].event)
  {
    var m := RaisedAt(rules, history, alert);
    var until, ip := history[..m + 1], alert.srcIp;
    r := LatestHasFired(rules, until, NextNumber(rules, until[..m]), alert);
    e := OwnUntil(history, m, ip);
  }

  /** So it ends a chain of its source's events that meets the rule's steps in order,
      within the window. */
  lemma ReportsAreSound(rules: seq<CepRule>, history: seq<Observation>, alert: Alert)
    returns (r: nat, e: nat, d: Attempt)
    requires Clock(history) && alert in EngineAlerts(rules, history)
    requires forall k :: 0 <= k < |rules| ==> |rules[k].steps| >= 2
    ensures r < |rules| && e < |OfSource(history, alert.srcIp)|
    ensures alert == NewAlert(alert.id, rules[r], OfSource(history, alert.srcIp)[e].event)
    ensures FullChain(rules[r], OfSource(history, alert.srcIp)[..e + 1], d) && End(d) == e
  {
    r, e := ReportsHaveFirings(rules, history, alert);
    ClockOfSource(history, alert.srcIp);
    d := AlertsAreSound(rules[r], OfSource(history, alert.srcIp)[..e + 1]);
  }

  // ---- The default rule ----

  /** A probe, SYN without ACK, and then a payload with the word "passwd" within five seconds. */
  ghost predicate ProbeThenExploit(own: seq<Observation>, i: nat, j: nat, pre: seq<Byte>, post: seq<Byte>) {
    && i < j < |own| && own[i].event.flags as nat % 4 == 1
    && own[j].event.payloadSample == pre + [0x70, 0x61, 0x73, 0x73, 0x77, 0x64] + post
    && own[j].at - own[i].at <= 5_000_000_000
  }

  lemma ProbeThenExploitIsScenario(own: seq<Observation>, i: nat, j: nat, pre: seq<Byte>, post: seq<Byte>)
    requires ProbeThenExploit(own, i, j, pre, post)
    ensures |DefaultRules()[0].steps| == 2 && Scenario(DefaultRules()[0], own, [i, j])
  {
    SynByFlags(own[i].event);
    SuspiciousPayload(own[j].event, pre, post);
  }

  /** And every completed attempt at the default rule is one. */
  lemma ChainIsProbeThenExploit(own: seq<Observation>, d: Attempt) returns (pre: seq<Byte>, post: seq<Byte>)
    requires Clock(own) && FullChain(DefaultRules()[0], own, d)
    ensures |d.chain| == 2 && d.chain[1] == End(d) && ProbeThenExploit(own, d.chain[0], d.chain[1], pre, post)
  {
    var rule := DefaultRules()[0];
    assert rule.steps[0].Matches(own[d.chain[0]].event) && rule.steps[1].Matches(own[d.chain[1]].event);
    SynByFlags(own[d.chain[0]].event);
    pre, post := SuspicionHasWord(own[d.chain[1]].event);
  }

  /** What the default rule reports of an event. */
  function ExploitAlert(id: nat, event: NetworkEvent): Alert {
    Alert(id, event.timestampMs, "probe-then-exploit-attempt", Critical, event.srcIp, event.dstIp, Cep)
  }

  /** A probe and then a suspicious payload of the same source within five seconds make the
      engine raise the default rule's alert, no later than at the payload. */
  lemma ProbeThenExploitIsReported(history: seq<Observation>, ip: Ip, i: nat, j: nat, pre: seq<Byte>, post: seq<Byte>)
    returns (e: nat, id: nat)
    requires Clock(history) && ProbeThenExploit(OfSource(history, ip), i, j, pre, post)
    ensures i < e <= j && ExploitAlert(id, OfSource(history, ip)[e].event) in EngineAlerts(DefaultRules(), history)
  {
    ProbeThenExploitIsScenario(OfSource(history, ip), i, j, pre, post);
    e, id := ScenarioIsReported(DefaultRules(), history, ip, 0, [i, j]);
  }

  /** The default rule's (probe, exploit) pairs are well nested. */
  lemma DefaultPairsNeverCross(events: seq<Observation>, j: nat, j': nat)
    requires Clock(events)
    requires j < |KeyRun(DefaultRules()[0], events).done| && j' < |KeyRun(DefaultRules()[0], events).done|
    ensures var done := KeyRun(DefaultRules()[0], events).done;
            var p, p' := done[j].chain, done[j'].chain;
            |p| == 2 && |p'| == 2 && !(p[0] < p'[0] < p[1] < p'[1])
  {
    PairsNeverCross(DefaultRules()[0], events, j, j');
  }
}
