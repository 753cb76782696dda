/** The engine as it is wired, from what goes in to what comes out: 64-bit queues, routing by
    the key of the source address, the sketches, the default rule. What goes in is said in
    numbers: flags, bytes, hashes and readings of the clock. */
module EngineTheory {
  import opened Models
  import opened Sequences
  import opened MpmcQueue
  import opened QueueFifoWrap
  import opened CepSpec
  import opened CepEngine
  import opened HyperLogLog
  import opened DetectorSpec
  import opened DetectorTheory
  import opened DetectorWindows
  import opened DetectorReports
  import opened Pipeline
  import opened PipelineInvariant
  import opened PipelineTheory
  import opened PipelineAlerts
  import opened Numbering
  import CepAlerts
  import CepTheory

  /** How many workers, how large their queues, and what the detectors are built on. */
  datatype Engine = Engine(workerCount: nat, capacity: nat, setup: Setup)

  ghost function Wiring(engine: Engine): Config
    requires engine.workerCount > 0
  {
    EngineConfig(engine.workerCount, engine.capacity, engine.setup, DefaultRules())
  }

  /** The workers were started at these times, and the queues have an allowed capacity. */
  ghost predicate Started(engine: Engine, starts: seq<nat>) {
    engine.workerCount == |starts| > 0 && Fits(Wrapping, engine.capacity)
  }

  ghost function WorkerAfter(engine: Engine, starts: seq<nat>, moves: seq<Move>, k: nat): Shard
    requires Started(engine, starts) && k < engine.workerCount
  {
    Pipeline.Run(Wiring(engine), starts, moves).shards[k]
  }

  /** The worker of a source: the key of its address modulo the number of workers. */
  ghost function WorkerOf(engine: Engine, starts: seq<nat>, moves: seq<Move>, ip: Ip): Shard
    requires Started(engine, starts)
  {
    WorkerAfter(engine, starts, moves, ShardKey(ip) % engine.workerCount)
  }

  // ---- Routing ----

  lemma {:induction false} FilterHas<T>(keep: T -> bool, s: seq<T>, i: nat)
    requires i < |s| && keep(s[i])
    ensures Filter(keep, s) != []
  {
    if i < |s| - 1 { FilterHas(keep, s[..|s| - 1], i); }
  }

  /** A worker's detectors are run on the events of sources whose key is its own, modulo the
      number of workers. */
  lemma SourcesKeepToTheirWorker(engine: Engine, starts: seq<nat>, moves: seq<Move>, k: nat, i: nat)
    requires Started(engine, starts) && k < engine.workerCount
    requires i < |WorkerAfter(engine, starts, moves, k).readings|
    ensures ShardKey(WorkerAfter(engine, starts, moves, k).readings[i].event.srcIp) % engine.workerCount == k
  {
    var readings := WorkerAfter(engine, starts, moves, k).readings;
    var ip := readings[i].event.srcIp;
    SourceInOrderOnOneWorker(Wiring(engine), starts, moves, k, ip);
    FilterHas((event: NetworkEvent) => event.srcIp == ip, Observed(readings), i);
  }

  // ---- What must be reported ----

  /** Any 99 SYNs of one source that its worker processes within less than a window make it
      raise a flood alert for the source. */
  lemma EngineReportsFloods(engine: Engine, starts: seq<nat>, moves: seq<Move>, ip: Ip, picks: seq<nat>)
    returns (j: nat, id: nat)
    requires Started(engine, starts) && |picks| == 99
    requires var readings := WorkerOf(engine, starts, moves, ip).readings;
             && SynsOfSource(readings, picks, ip)
             && readings[picks[98]].checkedAt - readings[picks[0]].checkedAt < engine.setup.window
    ensures var sh := WorkerOf(engine, starts, moves, ip);
            && j <= picks[98] && j < |sh.readings| && sh.readings[j].event.srcIp == ip
            && var e := sh.readings[j].event;
               Alert(id, e.timestampMs, "syn-flood-anomaly", Critical, ip, e.dstIp, Anomaly) in AllAlerts(sh.raised)
  {
    SketchCatchesFloods(engine.setup);
    j, id := FloodIsReported(Wiring(engine), SketchWatch(engine.setup), starts, moves, ip, picks);
  }

  /** Any readings of one source within less than a window whose ports hash to 49 different
      intervals of 2^54 words make it raise a scan alert. */
  lemma EngineReportsScans(engine: Engine, starts: seq<nat>, moves: seq<Move>, ip: Ip, picks: seq<nat>)
    returns (j: nat, id: nat)
    requires Started(engine, starts) && |picks| == 49 && LikeLn(engine.setup.ln)
    requires var readings := WorkerOf(engine, starts, moves, ip).readings;
             && ProbesOfSource(engine.setup, readings, picks, ip)
             && readings[picks[48]].checkedAt - readings[picks[0]].checkedAt < engine.setup.window
    ensures var sh := WorkerOf(engine, starts, moves, ip);
            && j <= picks[48] && j < |sh.readings| && sh.readings[j].event.srcIp == ip
            && var e := sh.readings[j].event;
               Alert(id, e.timestampMs, "port-scan-anomaly", High, ip, e.dstIp, Anomaly) in AllAlerts(sh.raised)
  {
    SketchCountsBuckets(engine.setup);
    j, id := ScanIsReported(Wiring(engine), SketchWatch(engine.setup), engine.setup, starts, moves, ip, picks);
  }

  /** A probe that the same source follows with a payload that has the word within five
      seconds makes it raise the default rule's alert, no later than at the payload. */
  lemma EngineReportsProbeThenExploit(engine: Engine, starts: seq<nat>, moves: seq<Move>, ip: Ip, i: nat, j: nat,
                                      pre: seq<Byte>, post: seq<Byte>)
    returns (e: nat, id: nat)
    requires Started(engine, starts)
    requires var own := OfSource(WorkerOf(engine, starts, moves, ip).observations, ip);
             CepAlerts.ProbeThenExploit(own, i, j, pre, post)
    ensures var sh := WorkerOf(engine, starts, moves, ip);
            var own := OfSource(sh.observations, ip);
            && i < e <= j < |own|
            && var event := own[e].event;
               Alert(id, event.timestampMs, "probe-then-exploit-attempt", Critical, event.srcIp, event.dstIp, Cep)
               in AllAlerts(sh.raised)
  {
    var own := OfSource(WorkerOf(engine, starts, moves, ip).observations, ip);
    CepAlerts.ProbeThenExploitIsScenario(own, i, j, pre, post);
    e, id := SequenceIsReported(Wiring(engine), DefaultRules(), starts, moves, ip, 0, [i, j]);
  }

  // ---- Whatever is reported happened ----

  /** A flood alert at reading `j`: it carries SYN and not ACK, and of the readings from `w` on,
      all within less than a window, 50 SYNs or more share the source's column in each of the
      four rows of 2048 cells. */
  ghost predicate FloodBacked(setup: Setup, readings: seq<Reading>, alert: Alert, w: nat, j: nat) {
    && w <= j < |readings| && WithinAWindow(readings, w, j + 1, setup.window)
    && var e := readings[j].event;
       && e.flags as nat % 4 == 1 && FiftyInEveryRow(setup, readings, w, j + 1, e.srcIp)
       && alert == Alert(alert.id, e.timestampMs, "syn-flood-anomaly", Critical, e.srcIp, e.dstIp, Anomaly)
  }

  /** A scan alert at reading `j`: the source's ports in the readings from `w` on, all within
      less than a window, hash to 25 intervals of 2^54 words or more. */
  ghost predicate ScanBacked(setup: Setup, readings: seq<Reading>, alert: Alert, w: nat, j: nat) {
    && w <= j < |readings| && WithinAWindow(readings, w, j + 1, setup.window)
    && var e := readings[j].event;
       && |IntervalsProbed(setup, readings, w, j + 1, e.srcIp)| >= 25
       && alert == Alert(alert.id, e.timestampMs, "port-scan-anomaly", High, e.srcIp, e.dstIp, Anomaly)
  }

  /** A sequence alert: own events `i` and `e` of its source are a probe and an exploit attempt. */
  ghost predicate ExploitBacked(observations: seq<Observation>, alert: Alert, i: nat, e: nat, pre: seq<Byte>,
                                post: seq<Byte>)
  {
    var own := OfSource(observations, alert.srcIp);
    && CepAlerts.ProbeThenExploit(own, i, e, pre, post)
    && var event := own[e].event;
       alert == Alert(alert.id, event.timestampMs, "probe-then-exploit-attempt", Critical, event.srcIp, event.dstIp,
                      Cep)
  }

  lemma AnomalyIsBacked(setup: Setup, start: nat, readings: seq<Reading>, alert: Alert) returns (w: nat, j: nat)
    requires LikeLn(setup.ln) && Clock(start, readings)
    requires AnomalyBacked(SketchWatch(setup), start, readings, alert)
    ensures FloodBacked(setup, readings, alert, w, j) || ScanBacked(setup, readings, alert, w, j)
  {
    j :| 0 <= j < |readings| && BackedAt(SketchWatch(setup), start, readings, alert, j);
    var log := Outcomes(SketchWatch(setup), start, readings);
    w := WindowOf(log, j);
    WindowIsShort(SketchWatch(setup), start, readings, j);
    if log[j].flood { FloodExactlyWhen(setup, start, readings, j); }
    if log[j].scan { ScanExactlyWhenIntervals(setup, start, readings, j); }
  }

  lemma SequenceIsBacked(observations: seq<Observation>, alert: Alert, e: nat, d: Attempt)
    returns (i: nat, pre: seq<Byte>, post: seq<Byte>)
    requires CepTheory.Clock(observations) && e < |OfSource(observations, alert.srcIp)| && CepTheory.End(d) == e
    requires alert == NewAlert(alert.id, DefaultRules()[0], OfSource(observations, alert.srcIp)[e].event)
    requires CepTheory.FullChain(DefaultRules()[0], OfSource(observations, alert.srcIp)[..e + 1], d)
    ensures ExploitBacked(observations, alert, i, e, pre, post)
  {
    CepAlerts.ClockOfSource(observations, alert.srcIp);
    pre, post := CepAlerts.ChainIsProbeThenExploit(OfSource(observations, alert.srcIp)[..e + 1], d);
    i := d.chain[0];
  }

  /** Every anomaly alert of the engine has what it takes behind it. */
  lemma EngineAnomaliesAreSound(engine: Engine, starts: seq<nat>, moves: seq<Move>, k: nat, alert: Alert)
    returns (w: nat, j: nat)
    requires Started(engine, starts) && k < engine.workerCount && LikeLn(engine.setup.ln)
    requires alert in AllAlerts(WorkerAfter(engine, starts, moves, k).raised) && alert.detector.Anomaly?
    ensures var readings := WorkerAfter(engine, starts, moves, k).readings;
            FloodBacked(engine.setup, readings, alert, w, j) || ScanBacked(engine.setup, readings, alert, w, j)
  {
    var sh := WorkerAfter(engine, starts, moves, k);
    SketchCatchesFloods(engine.setup);
    SketchCountsBuckets(engine.setup);
    ReportsAreBacked(Wiring(engine), SketchWatch(engine.setup), engine.setup, DefaultRules(), starts, moves, k, alert);
    WorkersRaise(Wiring(engine), starts, moves, k);
    w, j := AnomalyIsBacked(engine.setup, sh.start, sh.readings, alert);
  }

  lemma SaysCepIsCep(engine: Engine, starts: seq<nat>, moves: seq<Move>, k: nat, alert: Alert)
    requires Started(engine, starts) && k < engine.workerCount && LikeLn(engine.setup.ln)
    requires alert in AllAlerts(WorkerAfter(engine, starts, moves, k).raised) && alert.detector.Cep?
    ensures alert in SequenceAlerts(WorkerAfter(engine, starts, moves, k))
  {
    SketchCatchesFloods(engine.setup);
    SketchCountsBuckets(engine.setup);
    ReportsAreBacked(Wiring(engine), SketchWatch(engine.setup), engine.setup, DefaultRules(), starts, moves, k, alert);
  }

  /** So has every sequence alert. */
  lemma EngineSequencesAreSound(engine: Engine, starts: seq<nat>, moves: seq<Move>, k: nat, alert: Alert)
    returns (i: nat, e: nat, pre: seq<Byte>, post: seq<Byte>)
    requires Started(engine, starts) && k < engine.workerCount && LikeLn(engine.setup.ln)
    requires alert in AllAlerts(WorkerAfter(engine, starts, moves, k).raised) && alert.detector.Cep?
    ensures ExploitBacked(WorkerAfter(engine, starts, moves, k).observations, alert, i, e, pre, post)
  {
    SaysCepIsCep(engine, starts, moves, k, alert);
    assert CepTheory.Clock(WorkerAfter(engine, starts, moves, k).observations) by {
      WorkersFollow(Wiring(engine), DefaultRules(), starts, moves, k);
    }
    var r, d;
    r, e, d := SequenceReportsAreSound(Wiring(engine), DefaultRules(), starts, moves, k, alert);
    i, pre, post := SequenceIsBacked(WorkerAfter(engine, starts, moves, k).observations, alert, e, d);
  }

  /** The numbers of a worker's anomaly alerts are 1, 2, 3 and so on, modulo 2^64, and so are
      those of its sequence alerts. */
  lemma EngineNumbersItsAlerts(engine: Engine, starts: seq<nat>, moves: seq<Move>, k: nat)
    requires Started(engine, starts) && k < engine.workerCount
    ensures var sh := WorkerAfter(engine, starts, moves, k);
            NumberedFrom(AnomalyAlerts(sh), 1) && NumberedFrom(SequenceAlerts(sh), 1)
  {
    WorkersNumber(Wiring(engine), SketchWatch(engine.setup), DefaultRules(), starts, moves, k);
  }
}
