/** What holds of the pipeline's alerts in every reachable state: sharding does not change what
    is detected, what must be reported is, what is reported happened, and the store holds the
    latest of it. */
module PipelineAlerts {
  import opened Words
  import opened Models
  import opened Sequences
  import opened CepSpec
  import opened CepEngine
  import opened CepSharding
  import opened DetectorSpec
  import opened DetectorTheory
  import opened DetectorWindows
  import opened Detector
  import opened Worker
  import opened WorkerRuns
  import opened Numbering
  import opened Pipeline
  import opened PipelineInvariant
  import opened PipelineRuns
  import opened PipelineTheory
  import CepAlerts
  import CepTheory
  import Mealy

  // ---- What a worker raised ----

  /** What a worker's detectors raised is what each alone raises on what it was run on. */
  lemma WorkersRaise(cfg: Config, starts: seq<nat>, moves: seq<Move>, k: nat)
    requires Sound(cfg, starts) && k < |starts|
    ensures var sh := Pipeline.Run(cfg, starts, moves).shards[k];
            && RaisedBy(sh.raised, Signature) == FoundByScans(sh.scans)
            && RaisedBy(sh.raised, Anomaly) == Mealy.Outputs(cfg.observe, NewWatching(sh.start), sh.readings)
            && RaisedBy(sh.raised, Cep) == Mealy.Outputs(cfg.follow, NewMatching(), sh.observations)
            && TimeOk(sh.start, sh.now, sh.readings, sh.observations)
            && AllAlerts(sh.raised) == sh.recorded + Unrecorded(sh.pc)
  {
    var s := Pipeline.Run(cfg, starts, moves);
    RunOk(cfg, starts, moves);
    assert ShardIn(cfg, s.producer, k, s.shards[k], Routed(cfg.route, s.offered, s.verdicts, k));
  }

  lemma SignaturesAsFound(alerts: seq<Alert>)
    requires forall alert :: alert in alerts ==> alert.detector.Signature?
    ensures Signatures(alerts) == alerts
  {
  }

  /** What the signature detector finds in an event, under its own name, is raised as it is. */
  lemma SignaturesAreRaised(cfg: Config, starts: seq<nat>, moves: seq<Move>, k: nat, i: nat)
    requires Sound(cfg, starts) && k < |starts| && i < |Pipeline.Run(cfg, starts, moves).shards[k].scans|
    requires var found := Pipeline.Run(cfg, starts, moves).shards[k].scans[i].found;
             forall alert :: alert in found ==> alert.detector.Signature?
    ensures var sh := Pipeline.Run(cfg, starts, moves).shards[k];
            i < |RaisedBy(sh.raised, Signature)| && RaisedBy(sh.raised, Signature)[i] == sh.scans[i].found
  {
    WorkersRaise(cfg, starts, moves, k);
    SignaturesAsFound(Pipeline.Run(cfg, starts, moves).shards[k].scans[i].found);
  }

  /** What one detector raised is among what was raised. */
  lemma {:induction false} RaisedByIsRaised(raised: seq<Batch>, detector: DetectorKind, i: nat, alert: Alert)
    requires i < |RaisedBy(raised, detector)| && alert in RaisedBy(raised, detector)[i]
    ensures alert in AllAlerts(raised)
  {
    var before := raised[..|raised| - 1];
    if i < |RaisedBy(before, detector)| { RaisedByIsRaised(before, detector, i, alert); }
  }

  lemma {:induction false} InFlattened<T>(lists: seq<seq<T>>, x: T) returns (i: nat)
    requires x in Flatten(lists)
    ensures i < |lists| && x in lists[i]
  {
    var k := |lists| - 1;
    if x in Flatten(lists[..k]) { i := InFlattened(lists[..k], x); } else { i := k; }
  }

  // ---- Sharded against unsharded ----

  /** All sequence alerts of a worker. */
  function SequenceAlerts(sh: Shard): seq<Alert> {
    Flatten(RaisedBy(sh.raised, Cep))
  }

  lemma WorkersFollow(cfg: Config, rules: seq<CepRule>, starts: seq<nat>, moves: seq<Move>, k: nat)
    requires Sound(cfg, starts) && cfg.follow == Sequencing(rules) && k < |starts|
    ensures var sh := Pipeline.Run(cfg, starts, moves).shards[k];
            SequenceAlerts(sh) == EngineAlerts(rules, sh.observations) && CepTheory.Clock(sh.observations)
  {
    WorkersRaise(cfg, starts, moves, k);
    CompletedAreTheEngines(rules, Pipeline.Run(cfg, starts, moves).shards[k].observations);
  }

  lemma {:induction false} NoneOfSource(observations: seq<Observation>, ip: Ip)
    requires FromSource(Followed(observations), ip) == []
    ensures OfSource(observations, ip) == []
  {
    if observations != [] {
      var k := |observations| - 1;
      assert Followed(observations)[..k] == Followed(observations[..k]);
      NoneOfSource(observations[..k], ip);
    }
  }

  /** Only the worker a source is routed to follows any of its events. */
  lemma OthersFollowNone(cfg: Config, starts: seq<nat>, moves: seq<Move>, ip: Ip, k: nat)
    requires Sound(cfg, starts) && k < |starts| && k != cfg.route(ip)
    ensures OfSource(Pipeline.Run(cfg, starts, moves).shards[k].observations, ip) == []
  {
    SourceInOrderOnOneWorker(cfg, starts, moves, k, ip);
    NoneOfSource(Pipeline.Run(cfg, starts, moves).shards[k].observations, ip);
  }

  /** The workers' sequence matchers raise for a source, numbering aside, what one engine
      raises that is fed the source's processed events at the same times, alone or with any
      other events interleaved; and only the source's own worker raises anything for it. */
  lemma ShardedIsUnsharded(cfg: Config, rules: seq<CepRule>, starts: seq<nat>, moves: seq<Move>,
                           ip: Ip, merged: seq<Observation>)
    requires Sound(cfg, starts) && cfg.follow == Sequencing(rules)
    requires OfSource(merged, ip) == OfSource(Pipeline.Run(cfg, starts, moves).shards[cfg.route(ip)].observations, ip)
    ensures var shards := Pipeline.Run(cfg, starts, moves).shards;
            && Anonymous(About(SequenceAlerts(shards[cfg.route(ip)]), ip)) ==
               Anonymous(About(EngineAlerts(rules, merged), ip)) ==
               Anonymous(EngineAlerts(rules, OfSource(merged, ip)))
            && forall k :: 0 <= k < |shards| && k != cfg.route(ip) ==> About(SequenceAlerts(shards[k]), ip) == []
  {
    var s := Pipeline.Run(cfg, starts, moves);
    var w := cfg.route(ip);
    WorkersFollow(cfg, rules, starts, moves, w);
    SameEventsSameAlerts(rules, s.shards[w].observations, merged, ip);
    OtherSourcesChangeNothing(rules, merged, ip);
    forall k | 0 <= k < |s.shards| && k != w ensures About(SequenceAlerts(s.shards[k]), ip) == [] {
      WorkersFollow(cfg, rules, starts, moves, k);
      OthersFollowNone(cfg, starts, moves, ip, k);
      OtherSourcesChangeNothing(rules, s.shards[k].observations, ip);
    }
  }

  // ---- Sequence alerts, end to end ----

  /** Every scenario of one source among the events its worker processed makes that worker
      raise the rule's alert, after the scenario's first event and no later than its last. */
  lemma SequenceIsReported(cfg: Config, rules: seq<CepRule>, starts: seq<nat>, moves: seq<Move>,
                           ip: Ip, r: nat, picks: seq<nat>)
    returns (e: nat, id: nat)
    requires Sound(cfg, starts) && cfg.follow == Sequencing(rules) && r < |rules| && |rules[r].steps| >= 2
    requires var own := OfSource(Pipeline.Run(cfg, starts, moves).shards[cfg.route(ip)].observations, ip);
             CepTheory.Scenario(rules[r], own, picks)
    ensures var sh := Pipeline.Run(cfg, starts, moves).shards[cfg.route(ip)];
            && picks[0] < e <= picks[|picks| - 1] < |OfSource(sh.observations, ip)|
            && NewAlert(id, rules[r], OfSource(sh.observations, ip)[e].event) in AllAlerts(sh.raised)
  {
    var sh := Pipeline.Run(cfg, starts, moves).shards[cfg.route(ip)];
    WorkersFollow(cfg, rules, starts, moves, cfg.route(ip));
    e, id := CepAlerts.ScenarioIsReported(rules, sh.observations, ip, r, picks);
    var alert := NewAlert(id, rules[r], OfSource(sh.observations, ip)[e].event);
    var i := InFlattened(RaisedBy(sh.raised, Cep), alert);
    RaisedByIsRaised(sh.raised, Cep, i, alert);
  }

  /** And every sequence alert a worker raises ends a chain of its source's events that meets
      the rule's steps in order, within the window. */
  lemma SequenceReportsAreSound(cfg: Config, rules: seq<CepRule>, starts: seq<nat>, moves: seq<Move>, k: nat,
                                alert: Alert)
    returns (r: nat, e: nat, d: Attempt)
    requires Sound(cfg, starts) && cfg.follow == Sequencing(rules) && k < |starts|
    requires forall j :: 0 <= j < |rules| ==> |rules[j].steps| >= 2
    requires alert in SequenceAlerts(Pipeline.Run(cfg, starts, moves).shards[k])
    ensures var own := OfSource(Pipeline.Run(cfg, starts, moves).shards[k].observations, alert.srcIp);
            && r < |rules| && e < |own| && alert == NewAlert(alert.id, rules[r], own[e].event)
            && CepTheory.FullChain(rules[r], own[..e + 1], d) && CepTheory.End(d) == e
  {
    WorkersFollow(cfg, rules, starts, moves, k);
    r, e, d := CepAlerts.ReportsAreSound(rules, Pipeline.Run(cfg, starts, moves).shards[k].observations, alert);
  }

  // ---- Flood alerts, end to end ----

  lemma FloodAlertIn(scan: bool, event: NetworkEvent, firstId: nat)
    ensures FloodAlert(firstId, event) in AlertsFor(true, scan, event, firstId)
  {
    assert AlertsFor(true, scan, event, firstId)[0] == FloodAlert(firstId, event);
  }

  /** Any 99 SYNs of one source that its worker processes within less than a window make
      that worker raise a flood alert for the source. */
  lemma FloodIsReported(cfg: Config, watch: Watch, starts: seq<nat>, moves: seq<Move>, ip: Ip, picks: seq<nat>)
    returns (j: nat, id: nat)
    requires Sound(cfg, starts) && cfg.observe == Observing(watch) && CatchesFloods(watch) && |picks| == 99
    requires var readings := Pipeline.Run(cfg, starts, moves).shards[cfg.route(ip)].readings;
             && SynsOfSource(readings, picks, ip)
             && readings[picks[98]].checkedAt - readings[picks[0]].checkedAt < watch.window
    ensures var sh := Pipeline.Run(cfg, starts, moves).shards[cfg.route(ip)];
            && j <= picks[98] && j < |sh.readings| && sh.readings[j].event.srcIp == ip
            && FloodAlert(id, sh.readings[j].event) in AllAlerts(sh.raised)
  {
    var sh := Pipeline.Run(cfg, starts, moves).shards[cfg.route(ip)];
    WorkersRaise(cfg, starts, moves, cfg.route(ip));
    j := NinetyNineSynsAlert(watch, sh.start, sh.readings, picks, ip);
    id := FoundAreTheDetectors(watch, sh.start, sh.readings, j);
    FloodAlertIn(Outcomes(watch, sh.start, sh.readings)[j].scan, sh.readings[j].event, id);
    RaisedByIsRaised(sh.raised, Anomaly, j, FloodAlert(id, sh.readings[j].event));
  }

  // ---- Scan alerts, end to end ----

  lemma ScanAlertIn(flood: bool, event: NetworkEvent, firstId: nat) returns (id: nat)
    ensures ScanAlert(id, event) in AlertsFor(flood, true, event, firstId)
  {
    var alerts := AlertsFor(flood, true, event, firstId);
    id := alerts[|alerts| - 1].id;
    assert alerts[|alerts| - 1] == ScanAlert(id, event);
  }

  /** Any readings of one source that its worker processes within less than a window, and
      whose ports hash to 49 different buckets, make that worker raise a scan alert for it. */
  lemma ScanIsReported(cfg: Config, watch: Watch, setup: Setup, starts: seq<nat>, moves: seq<Move>, ip: Ip,
                       picks: seq<nat>)
    returns (j: nat, id: nat)
    requires Sound(cfg, starts) && cfg.observe == Observing(watch) && CountsBuckets(watch, setup) && |picks| == 49
    requires var readings := Pipeline.Run(cfg, starts, moves).shards[cfg.route(ip)].readings;
             && ProbesOfSource(setup, readings, picks, ip)
             && readings[picks[48]].checkedAt - readings[picks[0]].checkedAt < watch.window
    ensures var sh := Pipeline.Run(cfg, starts, moves).shards[cfg.route(ip)];
            && j <= picks[48] && j < |sh.readings| && sh.readings[j].event.srcIp == ip
            && ScanAlert(id, sh.readings[j].event) in AllAlerts(sh.raised)
  {
    var sh := Pipeline.Run(cfg, starts, moves).shards[cfg.route(ip)];
    WorkersRaise(cfg, starts, moves, cfg.route(ip));
    j := FortyNineBucketsAlert(watch, setup, sh.start, sh.readings, picks, ip);
    var firstId := FoundAreTheDetectors(watch, sh.start, sh.readings, j);
    id := ScanAlertIn(Outcomes(watch, sh.start, sh.readings)[j].flood, sh.readings[j].event, firstId);
    RaisedByIsRaised(sh.raised, Anomaly, j, ScanAlert(id, sh.readings[j].event));
  }

  // ---- Whatever is reported happened ----

  /** Signature runs raised signature alerts. */
  ghost predicate Labelled(raised: seq<Batch>) {
    forall i :: 0 <= i < |raised| && raised[i].detector.Signature? ==>
      forall alert :: alert in raised[i].alerts ==> alert.detector.Signature?
  }

  lemma WorkKeepsLabels(cfg: Config, sh: Shard, m: Move)
    requires Sized(sh) && m.Work? && Labelled(sh.raised)
    ensures Labelled(WorkOn(cfg, sh, m).raised)
  {
  }

  lemma NextKeepsLabels(cfg: Config, s: System, m: Move, k: nat)
    requires Wellformed(cfg, s) && k < |s.shards| && Labelled(s.shards[k].raised)
    ensures Labelled(Pipeline.Next(cfg, s, m).shards[k].raised)
  {
    if m.Work? && m.shard == k { WorkKeepsLabels(cfg, s.shards[k], m); }
  }

  lemma {:induction false} RunIsLabelled(cfg: Config, starts: seq<nat>, moves: seq<Move>, k: nat)
    requires Sound(cfg, starts) && k < |starts|
    ensures Labelled(Pipeline.Run(cfg, starts, moves).shards[k].raised)
  {
    if moves != [] {
      RunIsLabelled(cfg, starts, moves[..|moves| - 1], k);
      NextKeepsLabels(cfg, Pipeline.Run(cfg, starts, moves[..|moves| - 1]), moves[|moves| - 1], k);
    }
  }

  /** Every alert was raised by a run of some detector; by the signature detector only if it
      says so. */
  lemma {:induction false} RaisedBySome(raised: seq<Batch>, alert: Alert) returns (detector: DetectorKind, i: nat)
    requires Labelled(raised) && alert in AllAlerts(raised)
    ensures detector.Signature? ==> alert.detector.Signature?
    ensures i < |RaisedBy(raised, detector)| && alert in RaisedBy(raised, detector)[i]
  {
    var k := |raised| - 1;
    var before := raised[..k];
    if alert in raised[k].alerts {
      detector, i := raised[k].detector, |RaisedBy(before, raised[k].detector)|;
    } else {
      detector, i := RaisedBySome(before, alert);
    }
  }

  /** An anomaly alert with what it takes: it is due at a reading of its source, and the
      reading's window so far has 50 SYNs, or 25 ports of the source. */
  ghost predicate AnomalyBacked(watch: Watch, start: nat, readings: seq<Reading>, alert: Alert) {
    exists j :: 0 <= j < |readings| && BackedAt(watch, start, readings, alert, j)
  }

  ghost predicate BackedAt(watch: Watch, start: nat, readings: seq<Reading>, alert: Alert, j: nat)
    requires j < |readings|
  {
    var log, e := Outcomes(watch, start, readings), readings[j].event;
    || (alert == FloodAlert(alert.id, e) && log[j].flood && |SynsIn(readings, WindowOf(log, j), j + 1)| >= 50)
    || (alert == ScanAlert(alert.id, e) && log[j].scan && |PortsIn(readings, WindowOf(log, j), j + 1, e.srcIp)| >= 25)
  }

  lemma AlertsForAre(flood: bool, scan: bool, event: NetworkEvent, firstId: nat, alert: Alert)
    requires alert in AlertsFor(flood, scan, event, firstId)
    ensures alert.detector.Anomaly?
    ensures (flood && alert == FloodAlert(alert.id, event)) || (scan && alert == ScanAlert(alert.id, event))
  {
  }

  lemma FoundAreBacked(watch: Watch, setup: Setup, start: nat, readings: seq<Reading>, j: nat, alert: Alert)
    requires CatchesFloods(watch) && CountsBuckets(watch, setup)
    requires j < |readings| && alert in Found(watch, start, readings)[j]
    ensures alert.detector.Anomaly? && BackedAt(watch, start, readings, alert, j)
  {
    var firstId := FoundAreTheDetectors(watch, start, readings, j);
    var out := Outcomes(watch, start, readings)[j];
    AlertsForAre(out.flood, out.scan, readings[j].event, firstId, alert);
    if out.flood { FloodNeedsFiftySyns(watch, start, readings, j); }
    if out.scan { ScanNeedsManyPorts(watch, setup, start, readings, j); }
  }

  lemma {:induction false} FlattenHas<T>(lists: seq<seq<T>>, i: nat, x: T)
    requires i < |lists| && x in lists[i]
    ensures x in Flatten(lists)
  {
    if i < |lists| - 1 { FlattenHas(lists[..|lists| - 1], i, x); }
  }

  lemma SequenceAlertsSaySo(rules: seq<CepRule>, history: seq<Observation>, alert: Alert)
    requires alert in EngineAlerts(rules, history)
    ensures alert.detector.Cep?
  {
    var r, e := CepAlerts.ReportsHaveFirings(rules, history, alert);
  }

  /** Every alert that a worker raises is a signature alert, or an anomaly alert with 50 SYNs
      or 25 ports behind it, or a sequence alert; and it says which. */
  lemma ReportsAreBacked(cfg: Config, watch: Watch, setup: Setup, rules: seq<CepRule>, starts: seq<nat>,
                         moves: seq<Move>, k: nat, alert: Alert)
    requires Sound(cfg, starts) && k < |starts| && cfg.observe == Observing(watch) && cfg.follow == Sequencing(rules)
    requires CatchesFloods(watch) && CountsBuckets(watch, setup)
    requires alert in AllAlerts(Pipeline.Run(cfg, starts, moves).shards[k].raised)
    ensures var sh := Pipeline.Run(cfg, starts, moves).shards[k];
            match alert.detector
            case Signature => true
            case Anomaly => AnomalyBacked(watch, sh.start, sh.readings, alert)
            case Cep => alert in SequenceAlerts(sh)
  {
    var sh := Pipeline.Run(cfg, starts, moves).shards[k];
    RunIsLabelled(cfg, starts, moves, k);
    WorkersRaise(cfg, starts, moves, k);
    var detector, i := RaisedBySome(sh.raised, alert);
    if detector.Anomaly? {
      FoundAreBacked(watch, setup, sh.start, sh.readings, i, alert);
    } else if detector.Cep? {
      FlattenHas(RaisedBy(sh.raised, Cep), i, alert);
      WorkersFollow(cfg, rules, starts, moves, k);
      SequenceAlertsSaySo(rules, sh.observations, alert);
    }
  }

  // ---- Numbers ----

  /** All anomaly alerts of a worker. */
  function AnomalyAlerts(sh: Shard): seq<Alert> {
    Flatten(RaisedBy(sh.raised, Anomaly))
  }

  /** A worker's k-th anomaly alert has number 1 + k, modulo 2^64, and so has its k-th sequence
      alert. */
  lemma WorkersNumber(cfg: Config, watch: Watch, rules: seq<CepRule>, starts: seq<nat>, moves: seq<Move>, k: nat)
    requires Sound(cfg, starts) && k < |starts| && cfg.observe == Observing(watch) && cfg.follow == Sequencing(rules)
    ensures var sh := Pipeline.Run(cfg, starts, moves).shards[k];
            NumberedFrom(AnomalyAlerts(sh), 1) && NumberedFrom(SequenceAlerts(sh), 1)
  {
    var sh := Pipeline.Run(cfg, starts, moves).shards[k];
    WorkersRaise(cfg, starts, moves, k);
    FoundNumbers(watch, sh.start, sh.readings);
    WorkersFollow(cfg, rules, starts, moves, k);
    EngineNumbers(rules, sh.observations);
  }

  // ---- The store ----

  function Logged(log: seq<Entry>): (alerts: seq<Alert>)
    ensures |alerts| == |log|
  {
    seq(|log|, i requires 0 <= i < |log| => log[i].alert)
  }

  /** What one worker added to the store. */
  function LoggedBy(log: seq<Entry>, k: nat): seq<Alert> {
    if log == [] then []
    else
      var last := log[|log| - 1];
      LoggedBy(log[..|log| - 1], k) + if last.worker == k then [last.alert] else []
  }

  /** The last 5000 of the alerts, or all if they are fewer. */
  function Latest(alerts: seq<Alert>): seq<Alert> {
    if |alerts| <= 5000 then alerts else alerts[|alerts| - 5000..]
  }

  lemma StoredIsLatest(alerts: seq<Alert>, alert: Alert)
    ensures Stored(Latest(alerts), alert) == Latest(alerts + [alert])
  {
  }

  lemma LogStep(log: seq<Entry>, e: Entry, k: nat)
    ensures Logged(log + [e]) == Logged(log) + [e.alert]
    ensures LoggedBy(log + [e], k) == LoggedBy(log, k) + if e.worker == k then [e.alert] else []
  {
    assert (log + [e])[..|log|] == log;
  }

  function Recorded(sh: Shard): nat {
    |sh.recorded|
  }

  /** A worker between its increment of `alerts_fired` and its turn at the store. */
  function BeforeStore(sh: Shard): nat {
    if sh.pc.Storing? then 1 else 0
  }

  /** The store is the end of the log, and the log has what each worker added. */
  ghost predicate StoreMatches(store: seq<Alert>, log: seq<Entry>, shards: seq<Shard>) {
    && store == Latest(Logged(log)) && |log| == Total(Recorded, shards)
    && forall k :: 0 <= k < |shards| ==> LoggedBy(log, k) == shards[k].recorded
  }

  ghost predicate StoreOk(s: System) {
    StoreMatches(s.store, s.log, s.shards)
  }

  lemma KeepsStore(store: seq<Alert>, log: seq<Entry>, shards: seq<Shard>, k: nat, sh: Shard)
    requires StoreMatches(store, log, shards) && k < |shards| && sh.recorded == shards[k].recorded
    ensures StoreMatches(store, log, shards[k := sh])
  {
    TotalUpdate(Recorded, shards, k, sh);
  }

  lemma AddsToStore(store: seq<Alert>, log: seq<Entry>, shards: seq<Shard>, k: nat, sh: Shard, alert: Alert)
    requires StoreMatches(store, log, shards) && k < |shards| && sh.recorded == shards[k].recorded + [alert]
    ensures StoreMatches(Stored(store, alert), log + [Entry(k, alert)], shards[k := sh])
  {
    TotalUpdate(Recorded, shards, k, sh);
    StoredIsLatest(Logged(log), alert);
    LogStep(log, Entry(k, alert), 0);
    forall j | 0 <= j < |shards| ensures LoggedBy(log + [Entry(k, alert)], j) == shards[k := sh][j].recorded {
      LogStep(log, Entry(k, alert), j);
    }
  }

  /** A worker adds to the store what it adds to its own record. */
  lemma WorkStores(cfg: Config, sh: Shard, m: Move)
    requires Sized(sh) && m.Work?
    ensures WorkOn(cfg, sh, m).recorded ==
            if sh.pc.Storing? && sh.pc.pending != [] then sh.recorded + [sh.pc.pending[0]] else sh.recorded
  {
  }

  lemma WorkKeepsStore(cfg: Config, s: System, m: Move)
    requires Wellformed(cfg, s) && m.Work? && m.shard < |s.shards| && StoreOk(s)
    ensures StoreOk(WorkStep(cfg, s, m))
  {
    var k, sh := m.shard, s.shards[m.shard];
    WorkStores(cfg, sh, m);
    if sh.pc.Storing? && sh.pc.pending != [] {
      AddsToStore(s.store, s.log, s.shards, k, WorkOn(cfg, sh, m), sh.pc.pending[0]);
    } else {
      KeepsStore(s.store, s.log, s.shards, k, WorkOn(cfg, sh, m));
    }
  }

  /** The producer leaves the store alone. */
  lemma ProducerKeepsStore(cfg: Config, s: System, m: Move)
    requires Wellformed(cfg, s) && !m.Work? && StoreOk(s)
    ensures StoreOk(Pipeline.Next(cfg, s, m))
  {
    var s' := Pipeline.Next(cfg, s, m);
    if s.producer.Ready? && m.Offer? {
      var k := cfg.route(m.event.srcIp);
      KeepsStore(s.store, s.log, s.shards, k, s'.shards[k]);
    } else if s.producer.Pushing? && m.Produce? {
      var k := cfg.route(s.producer.event.srcIp);
      KeepsStore(s.store, s.log, s.shards, k, s'.shards[k]);
    }
  }

  lemma {:induction false} RunStoreOk(cfg: Config, starts: seq<nat>, moves: seq<Move>)
    requires Sound(cfg, starts)
    ensures StoreOk(Pipeline.Run(cfg, starts, moves))
  {
    if moves == [] {
      TotalOfNew(Recorded, cfg, starts, |starts|);
      var shards := NewSystem(cfg, starts).shards;
      assert shards[..|starts|] == shards;
    } else {
      var s, m := Pipeline.Run(cfg, starts, moves[..|moves| - 1]), moves[|moves| - 1];
      RunStoreOk(cfg, starts, moves[..|moves| - 1]);
      if m.Work? {
        if m.shard < |s.shards| { WorkKeepsStore(cfg, s, m); }
      } else {
        ProducerKeepsStore(cfg, s, m);
      }
    }
  }

  lemma {:induction false} FiredSplits(shards: seq<Shard>)
    ensures Total(Fired, shards) == Total(Recorded, shards) + Total(BeforeStore, shards)
    ensures Total(BeforeStore, shards) <= |shards|
  {
    if shards != [] { FiredSplits(shards[..|shards| - 1]); }
  }

  /** The store holds the latest 5000 of the alerts added to it, and the counter is ahead of
      them by at most one alert per worker. */
  ghost predicate StoreAndCounter(s: System) {
    && s.store == Latest(Logged(s.log))
    && s.stats.alertsFired == (|s.log| + Total(BeforeStore, s.shards)) % WORD
    && Total(BeforeStore, s.shards) <= |s.shards|
  }

  lemma StoreAndCounterOf(cfg: Config, s: System)
    requires SystemOk(cfg, s) && StoreOk(s)
    ensures StoreAndCounter(s)
  {
    FiredSplits(s.shards);
  }

  lemma StoreHoldsLatest(cfg: Config, starts: seq<nat>, moves: seq<Move>)
    requires Sound(cfg, starts)
    ensures StoreAndCounter(Pipeline.Run(cfg, starts, moves))
  {
    RunStoreOk(cfg, starts, moves);
    RunOk(cfg, starts, moves);
    StoreAndCounterOf(cfg, Pipeline.Run(cfg, starts, moves));
  }

  /** Every alert a worker raised is in the log, in its order, or still in the worker's hands. */
  lemma LogHasWhatWasRaised(cfg: Config, starts: seq<nat>, moves: seq<Move>, k: nat)
    requires Sound(cfg, starts) && k < |starts|
    ensures var s := Pipeline.Run(cfg, starts, moves);
            AllAlerts(s.shards[k].raised) == LoggedBy(s.log, k) + Unrecorded(s.shards[k].pc)
  {
    RunStoreOk(cfg, starts, moves);
    WorkersRaise(cfg, starts, moves, k);
  }
}
