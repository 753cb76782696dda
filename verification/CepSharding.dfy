/** Routing by source changes nothing for the sequence matcher: what an engine raises for
    a source depends only on the source's own events, whichever engine they reach and
    whatever else that engine is fed. Only the numbering of the alerts differs. */
module CepSharding {
  import opened Words
  import opened Models
  import opened Sequences
  import opened CepSpec
  import opened CepEngine
  import opened Numbering

  /** All an engine raises over a history, as `CepEngine.Process` promises event by event. */
  function EngineAlerts(rules: seq<CepRule>, history: seq<Observation>): seq<Alert> {
    if history == [] then []
    else
      var k := |history| - 1;
      EngineAlerts(rules, history[..k]) + EventAlerts(rules, history, NextNumber(rules, history[..k]))
  }

  /** The number an engine gives its next alert after a history. */
  function NextNumber(rules: seq<CepRule>, history: seq<Observation>): nat {
    if history == [] then 1
    else
      var number := NextNumber(rules, history[..|history| - 1]);
      IdAfter(number, |EventAlerts(rules, history, number)|)
  }

  /** What the last event of a history raises. */
  function EventAlerts(rules: seq<CepRule>, history: seq<Observation>, firstId: nat): seq<Alert>
    requires history != []
  {
    var event := history[|history| - 1].event;
    OwnFromLast(history);
    AlertsOf(rules, Firings(rules, OfSource(history, event.srcIp)), event, firstId)
  }

  lemma OwnFromLast(history: seq<Observation>)
    requires history != []
    ensures OfSource(history, history[|history| - 1].event.srcIp) != []
  {
  }

  /** Forget the number. */
  function Anonymous(alerts: seq<Alert>): (r: seq<Alert>)
    ensures |r| == |alerts|
  {
    seq(|alerts|, k requires 0 <= k < |alerts| => alerts[k].(id := 0))
  }

  /** The alerts about one source, in order. */
  function About(alerts: seq<Alert>, ip: Ip): seq<Alert> {
    Filter((a: Alert) => a.srcIp == ip, alerts)
  }

  lemma AboutConcat(a: seq<Alert>, b: seq<Alert>, ip: Ip)
    ensures About(a + b, ip) == About(a, ip) + About(b, ip)
  {
    FilterConcat((x: Alert) => x.srcIp == ip, a, b);
  }

  lemma AboutOneSource(alerts: seq<Alert>, source: Ip, ip: Ip)
    requires forall k :: 0 <= k < |alerts| ==> alerts[k].srcIp == source
    ensures About(alerts, ip) == if source == ip then alerts else []
  {
    FilterAllOrNone((x: Alert) => x.srcIp == ip, alerts, source == ip);
  }

  lemma AnonymousConcat(a: seq<Alert>, b: seq<Alert>)
    ensures Anonymous(a + b) == Anonymous(a) + Anonymous(b)
  {
  }

  /** The alerts of an event are about its source, and are the same up to numbering
      whichever number comes first. */
  lemma {:induction false} NumberingApart(rules: seq<CepRule>, fired: seq<bool>, event: NetworkEvent, firstId: nat,
                                          firstId': nat)
    requires |fired| == |rules|
    ensures forall k :: 0 <= k < |AlertsOf(rules, fired, event, firstId)| ==>
              AlertsOf(rules, fired, event, firstId)[k].srcIp == event.srcIp
    ensures Anonymous(AlertsOf(rules, fired, event, firstId)) == Anonymous(AlertsOf(rules, fired, event, firstId'))
  {
    if rules != [] {
      var r := |rules| - 1;
      NumberingApart(rules[..r], fired[..r], event, firstId, firstId');
      var a, a' := AlertsOf(rules[..r], fired[..r], event, firstId), AlertsOf(rules[..r], fired[..r], event, firstId');
      AnonymousConcat(a, [NewAlert(IdAfter(firstId, |a|), rules[r], event)]);
      AnonymousConcat(a', [NewAlert(IdAfter(firstId', |a'|), rules[r], event)]);
    }
  }

  lemma OwnOfOwn(history: seq<Observation>, ip: Ip)
    ensures OfSource(OfSource(history, ip), ip) == OfSource(history, ip)
  {
    FilterTwice((o: Observation) => o.event.srcIp == ip, history);
  }

  lemma EngineAlertsStep(rules: seq<CepRule>, before: seq<Observation>, o: Observation)
    ensures EngineAlerts(rules, before + [o]) ==
            EngineAlerts(rules, before) + EventAlerts(rules, before + [o], NextNumber(rules, before))
    ensures NextNumber(rules, before + [o]) ==
            IdAfter(NextNumber(rules, before), |EventAlerts(rules, before + [o], NextNumber(rules, before))|)
  {
    assert (before + [o])[..|before|] == before;
  }

  /** The last event raises the same in the whole history as among its source's own events. */
  lemma EventAlertsOwn(rules: seq<CepRule>, before: seq<Observation>, o: Observation, firstId: nat, firstId': nat)
    ensures var ip := o.event.srcIp;
            && Anonymous(EventAlerts(rules, before + [o], firstId)) ==
               Anonymous(EventAlerts(rules, OfSource(before, ip) + [o], firstId'))
            && forall k :: 0 <= k < |EventAlerts(rules, before + [o], firstId)| ==>
                 EventAlerts(rules, before + [o], firstId)[k].srcIp == ip
  {
    var ip := o.event.srcIp;
    OfSourceStep(before, o, ip);
    OfSourceStep(OfSource(before, ip), o, ip);
    OwnOfOwn(before, ip);
    NumberingApart(rules, Firings(rules, OfSource(before + [o], ip)), o.event, firstId, firstId');
  }

  /** An engine fed everything raises for a source just what an engine fed only that
      source's events raises, numbering aside. */
  lemma {:induction false} OtherSourcesChangeNothing(rules: seq<CepRule>, history: seq<Observation>, ip: Ip)
    ensures Anonymous(About(EngineAlerts(rules, history), ip)) == Anonymous(EngineAlerts(rules, OfSource(history, ip)))
  {
    if history != [] {
      var k := |history| - 1;
      var before, o := history[..k], history[k];
      assert history == before + [o];
      OtherSourcesChangeNothing(rules, before, ip);
      OfSourceStep(before, o, ip);
      var earlier, own := EngineAlerts(rules, before), EngineAlerts(rules, OfSource(before, ip));
      var latest := EventAlerts(rules, history, NextNumber(rules, before));
      EngineAlertsStep(rules, before, o);
      EventAlertsOwn(rules, before, o, NextNumber(rules, before), NextNumber(rules, OfSource(before, ip)));
      AboutConcat(earlier, latest, ip);
      AboutOneSource(latest, o.event.srcIp, ip);
      AnonymousConcat(About(earlier, ip), About(latest, ip));
      if o.event.srcIp == ip {
        EngineAlertsStep(rules, OfSource(before, ip), o);
        AnonymousConcat(own, EventAlerts(rules, OfSource(before, ip) + [o], NextNumber(rules, OfSource(before, ip))));
      }
    }
  }

  /** So two engines that saw the same events of a source, in the same order and at the
      same times, raised the same for it, numbering aside. */
  lemma SameEventsSameAlerts(rules: seq<CepRule>, history: seq<Observation>, history': seq<Observation>, ip: Ip)
    requires OfSource(history, ip) == OfSource(history', ip)
    ensures Anonymous(About(EngineAlerts(rules, history), ip)) == Anonymous(About(EngineAlerts(rules, history'), ip))
  {
    OtherSourcesChangeNothing(rules, history, ip);
    OtherSourcesChangeNothing(rules, history', ip);
  }

  // ---- Numbers ----

  lemma {:induction false} EventNumbers(rules: seq<CepRule>, fired: seq<bool>, event: NetworkEvent, firstId: nat)
    requires |fired| == |rules| && firstId < WORD
    ensures NumberedFrom(AlertsOf(rules, fired, event, firstId), firstId)
  {
    if rules != [] {
      var r := |rules| - 1;
      EventNumbers(rules[..r], fired[..r], event, firstId);
      IdAfterIsSum(firstId, |AlertsOf(rules[..r], fired[..r], event, firstId)|);
    }
  }

  lemma LatestNumbers(rules: seq<CepRule>, history: seq<Observation>, firstId: nat)
    requires history != [] && firstId < WORD
    ensures NumberedFrom(EventAlerts(rules, history, firstId), firstId)
  {
    OwnFromLast(history);
    var event := history[|history| - 1].event;
    EventNumbers(rules, Firings(rules, OfSource(history, event.srcIp)), event, firstId);
  }

  lemma NumberedNext(rules: seq<CepRule>, before: seq<Observation>, o: Observation)
    requires NumberedTo(EngineAlerts(rules, before), NextNumber(rules, before))
    ensures NumberedTo(EngineAlerts(rules, before + [o]), NextNumber(rules, before + [o]))
  {
    var next, next' := NextNumber(rules, before), NextNumber(rules, before + [o]);
    var all, latest := EngineAlerts(rules, before), EventAlerts(rules, before + [o], next);
    assert NumberedTo(all + latest, next') by {
      EngineAlertsStep(rules, before, o);
      LatestNumbers(rules, before + [o], next);
      NumberedMore(all, latest, next, next');
    }
    assert EngineAlerts(rules, before + [o]) == all + latest by { EngineAlertsStep(rules, before, o); }
  }

  /** The k-th alert of an engine has number 1 + k, modulo 2^64. */
  lemma {:induction false} EngineNumbers(rules: seq<CepRule>, history: seq<Observation>)
    ensures NumberedTo(EngineAlerts(rules, history), NextNumber(rules, history))
  {
    if history != [] {
      var before, o := history[..|history| - 1], history[|history| - 1];
      EngineNumbers(rules, before);
      NumberedNext(rules, before, o);
      assert history == before + [o];
    }
  }
}
