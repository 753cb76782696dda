/** The windowed anomaly detector as a function of what it observed: tumbling windows,
    SYN-flood and port-scan decisions, and what its state knows of the current window. */
module DetectorSpec {
  import opened Models
  import opened CepSpec
  import opened CountMin
  import opened HyperLogLog
  import Mealy

  const SKETCH_WIDTH: nat := 2048
  const SKETCH_DEPTH: nat := 4
  const FLOOD_THRESHOLD: nat := 50
  const SCAN_THRESHOLD: real := 25.0
  const BUCKET_BITS: nat := 10

  /** The window length, and the functions the engine's detector is built on. */
  datatype Setup = Setup(window: nat, synHash: (Ip, nat) -> nat, portHash: Port -> Word, ln: real -> real)

  function SynEstimate(setup: Setup, syns: seq<Ip>, ip: Ip): nat {
    EstimateOf(setup.synHash, SKETCH_WIDTH, SKETCH_DEPTH, syns, ip)
  }

  ghost function PortEstimate(setup: Setup, ports: set<Port>): real {
    var buckets := BucketsOf(ports, setup.portHash, BUCKET_BITS);
    CardinalityOf(buckets, setup.ln)
  }

  /** A detector's window, and its two decisions: whether the SYNs of a window amount to a
      flood by a source, and whether a source's ports amount to a scan. */
  datatype Watch = Watch(window: nat, floods: (seq<Ip>, Ip) -> bool, scans: set<Port> -> bool)

  ghost predicate FloodsBySketch(setup: Setup, syns: seq<Ip>, ip: Ip) {
    SynEstimate(setup, syns, ip) >= FLOOD_THRESHOLD
  }

  ghost predicate ScansBySketch(setup: Setup, ports: set<Port>) {
    PortEstimate(setup, ports) >= SCAN_THRESHOLD
  }

  /** The decisions of the engine's detector, by its sketches. */
  ghost function SketchWatch(setup: Setup): Watch {
    Watch(setup.window,
          (syns: seq<Ip>, ip: Ip) => FloodsBySketch(setup, syns, ip),
          (ports: set<Port>) => ScansBySketch(setup, ports))
  }

  /** An event with the two readings of the clock its processing may make: one to check
      the window, one to start a new window if it rolls. */
  datatype Reading = Reading(event: NetworkEvent, checkedAt: nat, resetAt: nat)

  /** What the detector knows: everything but `windowStart` is since the last roll. */
  datatype State = State(
    windowStart: nat,
    syns: seq<Ip>,
    ports: map<Ip, set<Port>>,
    floodAlerted: set<Ip>,
    scanAlerted: set<Ip>)

  function Fresh(windowStart: nat): State {
    State(windowStart, [], map[], {}, {})
  }

  predicate Rolls(watch: Watch, st: State, r: Reading) {
    Since(r.checkedAt, st.windowStart) >= watch.window
  }

  function MaybeRoll(watch: Watch, st: State, r: Reading): State {
    if Rolls(watch, st, r) then Fresh(r.resetAt) else st
  }

  /** Count the event: its source if it is a SYN, its destination port in any case. */
  function Count(st: State, event: NetworkEvent): State {
    var ip := event.srcIp;
    st.(syns := if event.IsSyn() then st.syns + [ip] else st.syns,
        ports := st.ports[ip := (if ip in st.ports then st.ports[ip] else {}) + {event.dstPort}])
  }

  /** The event raises a flood alert, the counted state being `st`. */
  predicate Floods(watch: Watch, st: State, event: NetworkEvent) {
    event.IsSyn() && watch.floods(st.syns, event.srcIp) && event.srcIp !in st.floodAlerted
  }

  ghost predicate Scans(watch: Watch, st: State, event: NetworkEvent)
    requires event.srcIp in st.ports
  {
    watch.scans(st.ports[event.srcIp]) && event.srcIp !in st.scanAlerted
  }

  /** The state right before the decisions on a reading. */
  function Counted(watch: Watch, st: State, r: Reading): (c: State)
    ensures r.event.srcIp in c.ports
  {
    Count(MaybeRoll(watch, st, r), r.event)
  }

  /** What a reading did: start a new window, raise a flood alert, raise a scan alert. */
  datatype Outcome = Outcome(rolls: bool, flood: bool, scan: bool)

  function Decide(c: State, ip: Ip, out: Outcome): State {
    c.(floodAlerted := if out.flood then c.floodAlerted + {ip} else c.floodAlerted,
       scanAlerted := if out.scan then c.scanAlerted + {ip} else c.scanAlerted)
  }

  ghost function OutcomeOf(watch: Watch, st: State, r: Reading): Outcome {
    var c := Counted(watch, st, r);
    Outcome(Rolls(watch, st, r), Floods(watch, c, r.event), Scans(watch, c, r.event))
  }

  ghost function Observe(watch: Watch, st: State, r: Reading): (State, Outcome) {
    var out := OutcomeOf(watch, st, r);
    (Decide(Counted(watch, st, r), r.event.srcIp, out), out)
  }

  // ---- Whole runs ----

  ghost function Observer(watch: Watch): (State, Reading) -> (State, Outcome) {
    (st, r) => Observe(watch, st, r)
  }

  ghost function StateAfter(watch: Watch, start: nat, run: seq<Reading>): State {
    Mealy.After(Observer(watch), Fresh(start), run)
  }

  ghost function Outcomes(watch: Watch, start: nat, run: seq<Reading>): (log: seq<Outcome>)
    ensures |log| == |run|
  {
    Mealy.Outputs(Observer(watch), Fresh(start), run)
  }

  /** A run, seen one reading at a time. */
  lemma RunAt(watch: Watch, start: nat, run: seq<Reading>, i: nat)
    requires i < |run|
    ensures var st := StateAfter(watch, start, run[..i]);
            && Outcomes(watch, start, run)[i] == OutcomeOf(watch, st, run[i])
            && StateAfter(watch, start, run[..i + 1]) == Observe(watch, st, run[i]).0
  {
    Mealy.AfterNext(Observer(watch), Fresh(start), run, i);
    Mealy.OutputAt(Observer(watch), Fresh(start), run, i);
  }

  // ---- Windows ----

  /** The first reading of the window that reading `i` falls in. */
  function WindowOf(log: seq<Outcome>, i: nat): (w: nat)
    requires i < |log|
    ensures w <= i
  {
    if i == 0 || log[i].rolls then i else WindowOf(log, i - 1)
  }

  /** The sources of the SYNs among readings `from` to `to`. */
  function SynsIn(run: seq<Reading>, from: nat, to: nat): seq<Ip>
    requires from <= to <= |run|
  {
    if from == to then []
    else
      var e := run[to - 1].event;
      if e.IsSyn() then SynsIn(run, from, to - 1) + [e.srcIp] else SynsIn(run, from, to - 1)
  }

  /** The destination ports of a source among readings `from` to `to`. */
  function PortsIn(run: seq<Reading>, from: nat, to: nat, ip: Ip): set<Port>
    requires from <= to <= |run|
  {
    if from == to then {}
    else
      var e := run[to - 1].event;
      if e.srcIp == ip then PortsIn(run, from, to - 1, ip) + {e.dstPort} else PortsIn(run, from, to - 1, ip)
  }

  ghost predicate FloodedIn(log: seq<Outcome>, run: seq<Reading>, from: nat, to: nat, ip: Ip)
    requires from <= to <= |run| && |log| == |run|
  {
    exists j :: from <= j < to && log[j].flood && run[j].event.srcIp == ip
  }

  ghost predicate ScannedIn(log: seq<Outcome>, run: seq<Reading>, from: nat, to: nat, ip: Ip)
    requires from <= to <= |run| && |log| == |run|
  {
    exists j :: from <= j < to && log[j].scan && run[j].event.srcIp == ip
  }

  function PortsOf(st: State, ip: Ip): set<Port> {
    if ip in st.ports then st.ports[ip] else {}
  }

  /** The state knows exactly what happened in readings `from` to `to`. */
  ghost predicate Describes(log: seq<Outcome>, run: seq<Reading>, st: State, from: nat, to: nat)
    requires from <= to <= |run| && |log| == |run|
  {
    && st.syns == SynsIn(run, from, to)
    && (forall ip: Ip :: PortsOf(st, ip) == PortsIn(run, from, to, ip))
    && (forall ip: Ip :: ip in st.floodAlerted <==> FloodedIn(log, run, from, to, ip))
    && (forall ip: Ip :: ip in st.scanAlerted <==> ScannedIn(log, run, from, to, ip))
  }

  lemma CountDescribes(log: seq<Outcome>, run: seq<Reading>, st: State, from: nat, i: nat)
    requires from <= i < |run| && |log| == |run| && Describes(log, run, st, from, i)
    ensures var c := Count(st, run[i].event);
            c.syns == SynsIn(run, from, i + 1) && forall ip: Ip :: PortsOf(c, ip) == PortsIn(run, from, i + 1, ip)
  {
  }

  lemma AlertedStep(log: seq<Outcome>, run: seq<Reading>, from: nat, i: nat, ip: Ip)
    requires from <= i < |run| && |log| == |run|
    ensures FloodedIn(log, run, from, i + 1, ip) <==>
            FloodedIn(log, run, from, i, ip) || (log[i].flood && run[i].event.srcIp == ip)
    ensures ScannedIn(log, run, from, i + 1, ip) <==>
            ScannedIn(log, run, from, i, ip) || (log[i].scan && run[i].event.srcIp == ip)
  {
  }

  /** One reading extends what the state describes. */
  lemma DecideDescribes(log: seq<Outcome>, run: seq<Reading>, st: State, from: nat, i: nat)
    requires from <= i < |run| && |log| == |run| && Describes(log, run, st, from, i)
    ensures Describes(log, run, Decide(Count(st, run[i].event), run[i].event.srcIp, log[i]), from, i + 1)
  {
    CountDescribes(log, run, st, from, i);
    var c := Count(st, run[i].event);
    var st' := Decide(c, run[i].event.srcIp, log[i]);
    forall ip: Ip
      ensures PortsOf(st', ip) == PortsIn(run, from, i + 1, ip)
      ensures ip in st'.floodAlerted <==> FloodedIn(log, run, from, i + 1, ip)
      ensures ip in st'.scanAlerted <==> ScannedIn(log, run, from, i + 1, ip)
    {
      assert PortsOf(st', ip) == PortsOf(c, ip);
      AlertedStep(log, run, from, i, ip);
    }
  }

  lemma EmptyDescribes(log: seq<Outcome>, run: seq<Reading>, at: nat, i: nat)
    requires i <= |run| && |log| == |run|
    ensures Describes(log, run, Fresh(at), i, i)
  {
  }

  /** Around each reading the detector knows exactly what happened in the reading's window
      before it, and with it. */
  lemma {:induction false} StateDescribesWindow(watch: Watch, start: nat, run: seq<Reading>, i: nat)
    requires i < |run|
    ensures var log := Outcomes(watch, start, run);
            && Describes(log, run, MaybeRoll(watch, StateAfter(watch, start, run[..i]), run[i]), WindowOf(log, i), i)
            && Describes(log, run, StateAfter(watch, start, run[..i + 1]), WindowOf(log, i), i + 1)
  {
    var log := Outcomes(watch, start, run);
    RunAt(watch, start, run, i);
    var before := StateAfter(watch, start, run[..i]);
    var w := WindowOf(log, i);
    if log[i].rolls {
      EmptyDescribes(log, run, run[i].resetAt, i);
    } else if i == 0 {
      EmptyDescribes(log, run, start, i);
      assert before == Fresh(start);
    } else {
      StateDescribesWindow(watch, start, run, i - 1);
    }
    var st := MaybeRoll(watch, before, run[i]);
    assert Describes(log, run, st, w, i);
    DecideDescribes(log, run, st, w, i);
  }
}
