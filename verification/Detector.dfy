/** The windowed anomaly detector as the engine runs it: one Count-Min sketch for SYNs, one
    HyperLogLog sketch per source for ports, and the sets of sources already alerted, all
    updated in place. */
module Detector {
  import opened Words
  import opened Models
  import opened CepSpec
  import opened CountMin
  import opened HyperLogLog
  import opened DetectorSpec

  function FloodAlert(id: nat, event: NetworkEvent): Alert {
    Alert(id, event.timestampMs, "syn-flood-anomaly", Critical, event.srcIp, event.dstIp, Anomaly)
  }

  function ScanAlert(id: nat, event: NetworkEvent): Alert {
    Alert(id, event.timestampMs, "port-scan-anomaly", High, event.srcIp, event.dstIp, Anomaly)
  }

  /** The alerts of one reading, numbered from `firstId`. */
  function AlertsFor(flood: bool, scan: bool, event: NetworkEvent, firstId: nat): seq<Alert> {
    var first := if flood then [FloodAlert(firstId, event)] else [];
    first + if scan then [ScanAlert(IdAfter(firstId, |first|), event)] else []
  }

  /** If both alerts are due the flood alert comes first, with the number before. */
  lemma FloodComesFirst(event: NetworkEvent, firstId: nat)
    requires firstId < WORD
    ensures AlertsFor(true, true, event, firstId) ==
            [Alert(firstId, event.timestampMs, "syn-flood-anomaly", Critical, event.srcIp, event.dstIp, Anomaly),
             Alert((firstId + 1) % 0x1_0000_0000_0000_0000, event.timestampMs, "port-scan-anomaly", High, event.srcIp,
                   event.dstIp, Anomaly)]
  {
    IdAfterIsSum(firstId, 1);
  }

  /** A sketch stands for the ports of one source. */
  ghost predicate Holds(sketch: HyperLogLog<Port>, setup: Setup, ports: set<Port>)
    reads sketch, sketch.buckets
  {
    sketch.Valid() && sketch.hash == setup.portHash && sketch.bucketBits == BUCKET_BITS && sketch.keys == ports
  }

  method NewSketch(setup: Setup) returns (sketch: HyperLogLog<Port>)
    ensures fresh(sketch) && fresh(sketch.buckets) && Holds(sketch, setup, {})
  {
    sketch := new HyperLogLog(BUCKET_BITS, setup.portHash);
  }

  lemma EstimateHeld(sketch: HyperLogLog<Port>, setup: Setup, ports: set<Port>)
    requires Holds(sketch, setup, ports)
    ensures sketch.Estimate(setup.ln) == PortEstimate(setup, ports)
  {
    var buckets := BucketsOf(ports, setup.portHash, BUCKET_BITS);
    StateIsFunctionOfSet(sketch.buckets[..], buckets, ports, setup.portHash, BUCKET_BITS);
  }

  lemma CountedTwice(ports: map<Ip, set<Port>>, ip: Ip, port: Port)
    ensures ip !in ports ==> ports[ip := {}][ip := {} + {port}] == ports[ip := {} + {port}]
  {
  }

  /** Each source's sketch stands for its ports; the sketches and their buckets are among
      `objects`, and no two sources share any. */
  ghost predicate AllHold(setup: Setup, sketches: map<Ip, HyperLogLog<Port>>, ports: map<Ip, set<Port>>,
                          objects: set<object>)
    reads objects
  {
    && sketches.Keys == ports.Keys
    && (forall ip {:trigger sketches[ip]} :: ip in sketches ==>
          && sketches[ip] in objects && sketches[ip].buckets in objects && Holds(sketches[ip], setup, ports[ip]))
    && (forall a, b {:trigger sketches[a], sketches[b]} :: a in sketches && b in sketches && a != b ==>
          sketches[a] != sketches[b] && sketches[a].buckets != sketches[b].buckets)
  }

  lemma AllHoldWith(setup: Setup, sketches: map<Ip, HyperLogLog<Port>>, ports: map<Ip, set<Port>>, objects: set<object>,
                    ip: Ip, sketch: HyperLogLog<Port>)
    requires AllHold(setup, sketches, ports, objects) && ip !in sketches
    requires Holds(sketch, setup, {}) && sketch !in objects && sketch.buckets !in objects
    ensures AllHold(setup, sketches[ip := sketch], ports[ip := {}], objects + {sketch, sketch.buckets})
  {
  }

  /** The port sketches of one detector, one for each source seen in the window. */
  class PortSketches {
    const setup: Setup
    var sketches: map<Ip, HyperLogLog<Port>>
    ghost var ports: map<Ip, set<Port>>  // what the sketches stand for
    ghost var Repr: set<object>          // what the sketches are made of

    ghost predicate Valid()
      reads this, Repr
    {
      this !in Repr && AllHold(setup, sketches, ports, Repr)
    }

    constructor (setup: Setup)
      ensures Valid() && Repr == {} && this.setup == setup && ports == map[]
    {
      this.setup := setup;
      sketches, ports, Repr := map[], map[], {};
    }

    method Clear()
      requires Valid()
      modifies this
      ensures Valid() && Repr == {} && ports == map[]
    {
      sketches, ports, Repr := map[], map[], {};
    }

    /** Take over an empty sketch for a source not seen before in the window. */
    method Put(ip: Ip, sketch: HyperLogLog<Port>)
      requires Valid() && ip !in sketches
      requires Holds(sketch, setup, {}) && sketch !in Repr && sketch.buckets !in Repr
      modifies this
      ensures Valid() && Repr == old(Repr) + {sketch, sketch.buckets} && ip in sketches
      ensures ports == old(ports)[ip := {}]
    {
      AllHoldWith(setup, sketches, ports, Repr, ip, sketch);
      sketches := sketches[ip := sketch];
      ports := ports[ip := {}];
      Repr := Repr + {sketch, sketch.buckets};
    }

    /** Make the sketch of a source not seen before in the window. */
    method Insert(ip: Ip)
      requires Valid() && ip !in sketches
      modifies this
      ensures Valid() && fresh(Repr - old(Repr)) && ip in sketches
      ensures ports == old(ports)[ip := {}]
    {
      var sketch := NewSketch(setup);
      Put(ip, sketch);
    }

    /** Add a port to a source's sketch; the other sources' sketches stay as they are. */
    method AddPort(ip: Ip, port: Port)
      requires Valid() && ip in sketches
      modifies this, Repr
      ensures Valid() && Repr == old(Repr)
      ensures ports == old(ports)[ip := old(ports)[ip] + {port}]
    {
      var sketch := sketches[ip];
      sketch.Add(port);
      ports := ports[ip := ports[ip] + {port}];
    }

    /** Count a destination port of a source. */
    method Count(ip: Ip, port: Port)
      requires Valid()
      modifies this, Repr
      ensures Valid() && fresh(Repr - old(Repr))
      ensures ports == old(ports)[ip := (if ip in old(ports) then old(ports)[ip] else {}) + {port}]
    {
      CountedTwice(ports, ip, port);
      if ip !in sketches {
        Insert(ip);
      }
      AddPort(ip, port);
    }

    /** Estimate how many destination ports a source has. */
    method Estimate(ip: Ip) returns (distinct: real)
      requires Valid() && ip in ports
      ensures distinct == PortEstimate(setup, ports[ip])
    {
      EstimateHeld(sketches[ip], setup, ports[ip]);
      distinct := sketches[ip].Estimate(setup.ln);
    }
  }

  /** The decisions are those of the sketches. */
  ghost predicate Decides(watch: Watch, setup: Setup) {
    && watch.window == setup.window
    && (forall syns: seq<Ip>, ip: Ip {:trigger FloodsBySketch(setup, syns, ip)} ::
          watch.floods(syns, ip) <==> FloodsBySketch(setup, syns, ip))
    && (forall ports: set<Port> {:trigger ScansBySketch(setup, ports)} ::
          watch.scans(ports) <==> ScansBySketch(setup, ports))
  }

  /** The SYN of an event is counted, and the flood decision is right. */
  ghost predicate FloodPart(watch: Watch, st: State, event: NetworkEvent, flood: bool, st': State) {
    var ip := event.srcIp;
    && st' == st.(syns := if event.IsSyn() then st.syns + [ip] else st.syns,
                  floodAlerted := if flood then st.floodAlerted + {ip} else st.floodAlerted)
    && (flood <==> event.IsSyn() && ip !in st.floodAlerted && watch.floods(st'.syns, ip))
  }

  /** The destination port of an event is counted, and the scan decision is right. */
  ghost predicate ScanPart(watch: Watch, st: State, event: NetworkEvent, scan: bool, st': State) {
    var ip := event.srcIp;
    var ports := PortsOf(st, ip) + {event.dstPort};
    && st' == st.(ports := st.ports[ip := ports], scanAlerted := if scan then st.scanAlerted + {ip} else st.scanAlerted)
    && (scan <==> ip !in st.scanAlerted && watch.scans(ports))
  }

  /** A reading worked out one decision at a time. */
  lemma ObserveInParts(watch: Watch, st: State, r: Reading, rolled: State, flood: bool, afterFlood: State, scan: bool,
                       afterScan: State)
    requires rolled == MaybeRoll(watch, st, r)
    requires FloodPart(watch, rolled, r.event, flood, afterFlood)
    requires ScanPart(watch, afterFlood, r.event, scan, afterScan)
    ensures DetectorSpec.Observe(watch, st, r) == (afterScan, Outcome(Rolls(watch, st, r), flood, scan))
  {
  }

  class WindowedAnomalyDetector {
    const setup: Setup
    ghost const watch: Watch  // the decisions that the sketches make
    const synCounts: CountMinSketch<Ip>
    const portCardinality: PortSketches
    var windowStart: nat
    var floodAlerted: set<Ip>
    var scanAlerted: set<Ip>
    var nextId: nat
    ghost var Repr: set<object>

    ghost predicate SynsValid()
      reads this, synCounts, synCounts.table
    {
      && synCounts.Valid() && synCounts.hash == setup.synHash
      && synCounts.width == SKETCH_WIDTH && synCounts.depth == SKETCH_DEPTH
    }

    ghost predicate Valid()
      reads this, Repr
    {
      && this in Repr && synCounts in Repr && synCounts.table in Repr
      && portCardinality in Repr && portCardinality.Repr <= Repr
      && this !in portCardinality.Repr && synCounts !in portCardinality.Repr && synCounts.table !in portCardinality.Repr
      && Decides(watch, setup) && SynsValid() && nextId < WORD
      && portCardinality.Valid() && portCardinality.setup == setup
    }

    /** What the detector knows, with exact counts in place of the sketches. */
    ghost function Known(): State
      reads this, synCounts, portCardinality
    {
      State(windowStart, synCounts.keys, portCardinality.ports, floodAlerted, scanAlerted)
    }

    constructor (setup: Setup, now: nat)
      ensures Valid() && fresh(Repr)
      ensures watch == SketchWatch(setup) && Known() == Fresh(now) && nextId == 1
    {
      this.setup, watch := setup, SketchWatch(setup);
      synCounts := new CountMinSketch(SKETCH_WIDTH, SKETCH_DEPTH, setup.synHash);
      portCardinality := new PortSketches(setup);
      windowStart, floodAlerted, scanAlerted, nextId := now, {}, {}, 1;
      new;
      Repr := {this, synCounts, synCounts.table, portCardinality};
    }

    method MaybeRollWindow(r: Reading)
      requires Valid()
      modifies Repr
      ensures Valid() && Repr == old(Repr) && nextId == old(nextId)
      ensures Known() == MaybeRoll(watch, old(Known()), r)
    {
      if Since(r.checkedAt, windowStart) >= setup.window {
        synCounts.Clear();
        portCardinality.Clear();
        floodAlerted := {};
        scanAlerted := {};
        windowStart := r.resetAt;
      }
    }

    /** Count a SYN and decide on a flood alert. */
    method CheckFlood(event: NetworkEvent) returns (flood: bool)
      requires Valid()
      modifies Repr
      ensures Valid() && Repr == old(Repr) && nextId == old(nextId)
      ensures FloodPart(watch, old(Known()), event, flood, Known())
    {
      flood := false;
      if event.IsSyn() {
        synCounts.Increment(event.srcIp);
        var estimate := synCounts.Estimate(event.srcIp);
        assert FloodsBySketch(setup, synCounts.keys, event.srcIp) <==> estimate >= FLOOD_THRESHOLD;
        if estimate >= FLOOD_THRESHOLD && event.srcIp !in floodAlerted {
          floodAlerted := floodAlerted + {event.srcIp};
          flood := true;
        }
      }
    }

    method CountPort(ip: Ip, port: Port)
      requires Valid()
      modifies Repr
      ensures Valid() && fresh(Repr - old(Repr)) && nextId == old(nextId)
      ensures Known() == old(Known()).(ports := old(Known()).ports[ip := PortsOf(old(Known()), ip) + {port}])
    {
      portCardinality.Count(ip, port);
      Repr := Repr + portCardinality.Repr;
    }

    method MarkScanned(ip: Ip)
      requires Valid()
      modifies this`scanAlerted
      ensures Valid() && Known() == old(Known()).(scanAlerted := old(scanAlerted) + {ip})
    {
      scanAlerted := scanAlerted + {ip};
    }

    method ScanDue(ip: Ip) returns (due: bool)
      requires Valid() && ip in portCardinality.ports
      ensures due <==> ip !in scanAlerted && watch.scans(portCardinality.ports[ip])
    {
      var distinct := portCardinality.Estimate(ip);
      assert ScansBySketch(setup, portCardinality.ports[ip]) <==> distinct >= SCAN_THRESHOLD;
      due := distinct >= SCAN_THRESHOLD && ip !in scanAlerted;
    }

    /** Count a destination port and decide on a scan alert. */
    method CheckScan(event: NetworkEvent) returns (scan: bool)
      requires Valid()
      modifies Repr
      ensures Valid() && fresh(Repr - old(Repr)) && nextId == old(nextId)
      ensures ScanPart(watch, old(Known()), event, scan, Known())
    {
      CountPort(event.srcIp, event.dstPort);
      scan := ScanDue(event.srcIp);
      if scan {
        MarkScanned(event.srcIp);
      }
    }

    /** Raise one more alert, if it is due, with the next number. */
    method Raise(due: bool, template: Alert, alerts: seq<Alert>, ghost firstId: nat) returns (alerts': seq<Alert>)
      requires Valid() && nextId == IdAfter(firstId, |alerts|)
      modifies this`nextId
      ensures Valid() && Known() == old(Known())
      ensures alerts' == if due then alerts + [template.(id := IdAfter(firstId, |alerts|))] else alerts
      ensures nextId == IdAfter(firstId, |alerts'|)
    {
      alerts' := alerts;
      if due {
        alerts' := alerts + [template.(id := nextId)];
        nextId := (nextId + 1) % WORD;
      }
    }

    /** Decide on a flood alert and raise it. */
    method RaiseFlood(event: NetworkEvent) returns (flood: bool, alerts: seq<Alert>)
      requires Valid()
      modifies Repr
      ensures Valid() && Repr == old(Repr) && FloodPart(watch, old(Known()), event, flood, Known())
      ensures alerts == AlertsFor(flood, false, event, old(nextId)) && nextId == IdAfter(old(nextId), |alerts|)
    {
      flood := CheckFlood(event);
      alerts := Raise(flood, FloodAlert(0, event), [], nextId);
    }

    /** Decide on a scan alert and raise it after the `earlier` alerts of the event. */
    method RaiseScan(event: NetworkEvent, earlier: seq<Alert>, ghost firstId: nat)
      returns (scan: bool, alerts: seq<Alert>)
      requires Valid() && nextId == IdAfter(firstId, |earlier|)
      modifies Repr
      ensures Valid() && fresh(Repr - old(Repr)) && ScanPart(watch, old(Known()), event, scan, Known())
      ensures alerts == earlier + if scan then [ScanAlert(IdAfter(firstId, |earlier|), event)] else []
      ensures nextId == IdAfter(firstId, |alerts|)
    {
      scan := CheckScan(event);
      alerts := Raise(scan, ScanAlert(0, event), earlier, firstId);
    }

    /** Both decisions on an event, the flood decision first. */
    method Detect(event: NetworkEvent) returns (flood: bool, scan: bool, alerts: seq<Alert>, ghost between: State)
      requires Valid()
      modifies Repr
      ensures Valid() && fresh(Repr - old(Repr))
      ensures FloodPart(watch, old(Known()), event, flood, between) && ScanPart(watch, between, event, scan, Known())
      ensures alerts == AlertsFor(flood, scan, event, old(nextId)) && nextId == IdAfter(old(nextId), |alerts|)
    {
      flood, alerts := RaiseFlood(event);
      between := Known();
      scan, alerts := RaiseScan(event, alerts, old(nextId));
    }

    /** One event: the detector comes to know what the specification says, and raises the
        alerts it says. */
    method Observe(event: NetworkEvent, checkedAt: nat, resetAt: nat) returns (alerts: seq<Alert>)
      requires Valid()
      modifies Repr
      ensures Valid() && fresh(Repr - old(Repr))
      ensures var (known, out) := DetectorSpec.Observe(watch, old(Known()), Reading(event, checkedAt, resetAt));
              && Known() == known
              && alerts == AlertsFor(out.flood, out.scan, event, old(nextId))
              && nextId == IdAfter(old(nextId), |alerts|)
    {
      ghost var st, r := Known(), Reading(event, checkedAt, resetAt);
      MaybeRollWindow(Reading(event, checkedAt, resetAt));
      ghost var rolled := Known();
      var flood, scan;
      ghost var between;
      flood, scan, alerts, between := Detect(event);
      ObserveInParts(watch, st, r, rolled, flood, between, scan, Known());
    }
  }
}
