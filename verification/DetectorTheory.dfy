/** What holds of the anomaly detector's alerts over whole runs. */
module DetectorTheory {
  import opened Words
  import opened Models
  import opened CountMin
  import opened HyperLogLog
  import opened DetectorSpec

  /** Readings `j` and `i` fall in one window. */
  ghost predicate SameWindow(log: seq<Outcome>, j: nat, i: nat)
    requires j <= i < |log|
  {
    WindowOf(log, i) <= j
  }

  /** How many SYNs a source has among readings `from` to `to`. */
  function SynCount(run: seq<Reading>, from: nat, to: nat, ip: Ip): nat
    requires from <= to <= |run|
  {
    Occurrences(SynsIn(run, from, to), ip)
  }

  // ---- The decisions on one reading, in terms of its window ----

  lemma FloodDecision(watch: Watch, start: nat, run: seq<Reading>, i: nat)
    requires i < |run|
    ensures var log := Outcomes(watch, start, run);
            var w, e := WindowOf(log, i), run[i].event;
            log[i].flood <==>
            && e.IsSyn() && !FloodedIn(log, run, w, i, e.srcIp)
            && watch.floods(SynsIn(run, w, i + 1), e.srcIp)
  {
    StateDescribesWindow(watch, start, run, i);
    RunAt(watch, start, run, i);
    var log := Outcomes(watch, start, run);
    var st := MaybeRoll(watch, StateAfter(watch, start, run[..i]), run[i]);
    CountDescribes(log, run, st, WindowOf(log, i), i);
  }

  lemma ScanDecision(watch: Watch, start: nat, run: seq<Reading>, i: nat)
    requires i < |run|
    ensures var log := Outcomes(watch, start, run);
            var w, e := WindowOf(log, i), run[i].event;
            log[i].scan <==>
            && !ScannedIn(log, run, w, i, e.srcIp)
            && watch.scans(PortsIn(run, w, i + 1, e.srcIp))
  {
    StateDescribesWindow(watch, start, run, i);
    RunAt(watch, start, run, i);
    var log := Outcomes(watch, start, run);
    var st := MaybeRoll(watch, StateAfter(watch, start, run[..i]), run[i]);
    var c := Count(st, run[i].event);
    CountDescribes(log, run, st, WindowOf(log, i), i);
    assert PortsOf(c, run[i].event.srcIp) == c.ports[run[i].event.srcIp];
  }

  lemma {:induction false} WindowStays(log: seq<Outcome>, j: nat, i: nat)
    requires j <= i < |log| && SameWindow(log, j, i)
    ensures WindowOf(log, j) == WindowOf(log, i)
  {
    if j < i { WindowStays(log, j, i - 1); }
  }

  // ---- Flood alerts ----

  /** The decision fires whenever the source itself has 50 SYNs, and only if there are 50
      SYNs in all. */
  ghost predicate CatchesFloods(watch: Watch) {
    forall syns: seq<Ip>, ip: Ip ::
      (Occurrences(syns, ip) >= 50 ==> watch.floods(syns, ip)) && (watch.floods(syns, ip) ==> |syns| >= 50)
  }

  /** As the engine's does, whatever the hash. */
  lemma SketchCatchesFloods(setup: Setup)
    ensures CatchesFloods(SketchWatch(setup))
  {
    forall syns: seq<Ip>, ip: Ip
      ensures Occurrences(syns, ip) >= 50 ==> SynEstimate(setup, syns, ip) >= 50
      ensures SynEstimate(setup, syns, ip) >= 50 ==> |syns| >= 50
    {
      NeverUndercountsExactlyWhen(setup.synHash, SKETCH_WIDTH, SKETCH_DEPTH, syns, ip);
    }
  }

  /** No source is alerted twice for a flood in one window. */
  lemma FloodAtMostOnce(watch: Watch, start: nat, run: seq<Reading>, j: nat, i: nat)
    requires j < i < |run| && run[j].event.srcIp == run[i].event.srcIp
    requires SameWindow(Outcomes(watch, start, run), j, i)
    ensures !(Outcomes(watch, start, run)[j].flood && Outcomes(watch, start, run)[i].flood)
  {
    FloodDecision(watch, start, run, i);
  }

  /** A flood alert means 50 SYNs or more in its window so far, over all sources. */
  lemma FloodNeedsFiftySyns(watch: Watch, start: nat, run: seq<Reading>, i: nat)
    requires CatchesFloods(watch) && i < |run| && Outcomes(watch, start, run)[i].flood
    ensures |SynsIn(run, WindowOf(Outcomes(watch, start, run), i), i + 1)| >= 50
  {
    FloodDecision(watch, start, run, i);
  }

  /** The reading at which a source's SYN count among readings from `from` first reaches
      `n`. */
  lemma {:induction false} NthSyn(run: seq<Reading>, from: nat, to: nat, ip: Ip, n: nat) returns (j: nat)
    requires from <= to <= |run| && n > 0 && SynCount(run, from, to, ip) >= n
    ensures from <= j < to && run[j].event.IsSyn() && run[j].event.srcIp == ip
    ensures SynCount(run, from, j + 1, ip) == n && SynCount(run, from, j, ip) == n - 1
  {
    SynCountStep(run, from, to, ip);
    if SynCount(run, from, to - 1, ip) >= n {
      j := NthSyn(run, from, to - 1, ip, n);
    } else {
      j := to - 1;
    }
  }

  lemma SynCountStep(run: seq<Reading>, from: nat, to: nat, ip: Ip)
    requires from <= to <= |run|
    ensures SynCount(run, from, to, ip) ==
            if from == to then 0
            else SynCount(run, from, to - 1, ip)
                 + if run[to - 1].event.IsSyn() && run[to - 1].event.srcIp == ip then 1 else 0
  {
  }

  /** A source with 50 SYNs in a window has been alerted for a flood in it, no later than
      at its 50th SYN. */
  lemma FloodByFiftiethSyn(watch: Watch, start: nat, run: seq<Reading>, i: nat, ip: Ip) returns (j: nat)
    requires CatchesFloods(watch) && i < |run|
    requires SynCount(run, WindowOf(Outcomes(watch, start, run), i), i + 1, ip) >= 50
    ensures j <= i && SameWindow(Outcomes(watch, start, run), j, i)
    ensures Outcomes(watch, start, run)[j].flood && run[j].event.srcIp == ip
    ensures SynCount(run, WindowOf(Outcomes(watch, start, run), i), j, ip) < 50
  {
    var log := Outcomes(watch, start, run);
    var w := WindowOf(log, i);
    var k := NthSyn(run, w, i + 1, ip, 50);
    WindowStays(log, k, i);
    FloodDecision(watch, start, run, k);
    if log[k].flood {
      j := k;
    } else {
      j :| w <= j < k && log[j].flood && run[j].event.srcIp == ip;
      SynCountGrows(run, w, j, k, ip);
    }
  }

  lemma {:induction false} SynCountGrows(run: seq<Reading>, from: nat, j: nat, i: nat, ip: Ip)
    requires from <= j <= i <= |run|
    ensures SynCount(run, from, j, ip) <= SynCount(run, from, i, ip)
  {
    if j < i {
      SynCountGrows(run, from, j, i - 1, ip);
      SynCountStep(run, from, i, ip);
    }
  }

  // ---- Scan alerts ----

  /** The buckets that the ports hash to. */
  ghost function BucketsTouched(setup: Setup, ports: set<Port>): (touched: set<nat>)
    ensures |touched| <= |ports|
  {
    var buckets := BucketsOf(ports, setup.portHash, BUCKET_BITS);
    TouchedCount(buckets);
    TouchedAtMostKeys(buckets, ports, setup.portHash, BUCKET_BITS);
    Touched(buckets)
  }

  /** The decision fires exactly when the ports touch 25 of the 1024 buckets or more. */
  ghost predicate CountsBuckets(watch: Watch, setup: Setup) {
    forall ports: set<Port> :: watch.scans(ports) <==> |BucketsTouched(setup, ports)| >= 25
  }

  /** As the engine's does, in both regimes of its estimator. */
  lemma SketchCountsBuckets(setup: Setup)
    requires LikeLn(setup.ln)
    ensures CountsBuckets(SketchWatch(setup), setup)
  {
    forall ports: set<Port>
      ensures PortEstimate(setup, ports) >= SCAN_THRESHOLD <==> |BucketsTouched(setup, ports)| >= 25
    {
      var buckets := BucketsOf(ports, setup.portHash, BUCKET_BITS);
      TenBits();
      TouchedCount(buckets);
      ScanDecisionIsExact(buckets, setup.ln);
    }
  }

  /** A reading raises a scan alert exactly if its source's ports in the window so far
      touch 25 buckets or more, and it has had none in the window. */
  lemma ScanExactlyWhen(watch: Watch, setup: Setup, start: nat, run: seq<Reading>, i: nat)
    requires CountsBuckets(watch, setup) && i < |run|
    ensures var log := Outcomes(watch, start, run);
            var w, ip := WindowOf(log, i), run[i].event.srcIp;
            log[i].scan <==> !ScannedIn(log, run, w, i, ip) && |BucketsTouched(setup, PortsIn(run, w, i + 1, ip))| >= 25
  {
    ScanDecision(watch, start, run, i);
  }

  /** So a scan alert means 25 distinct destination ports or more, and it is the source's
      first scan alert in the window. */
  lemma ScanNeedsManyPorts(watch: Watch, setup: Setup, start: nat, run: seq<Reading>, i: nat)
    requires CountsBuckets(watch, setup) && i < |run| && Outcomes(watch, start, run)[i].scan
    ensures var log := Outcomes(watch, start, run);
            var w, ip := WindowOf(log, i), run[i].event.srcIp;
            |PortsIn(run, w, i + 1, ip)| >= 25 && !ScannedIn(log, run, w, i, ip)
  {
    ScanExactlyWhen(watch, setup, start, run, i);
  }

  lemma TenBits()
    ensures Pow2(BUCKET_BITS) == 1024
  {
    assert Pow2(5) == 32;
    Pow2Sum(5, 5);
  }

  // ---- Ports that share buckets ----

  lemma SameBucketTouchesOne(setup: Setup, ports: set<Port>)
    requires forall p: Port, p': Port :: BucketOfPort(setup, p) == BucketOfPort(setup, p')
    ensures |BucketsTouched(setup, ports)| <= 1
  {
    var touched := BucketsTouched(setup, ports);
    forall i, j | i in touched && j in touched ensures i == j {
      var p := PortBehind(setup, ports, i);
      var p' := PortBehind(setup, ports, j);
      assert BucketOfPort(setup, p) == BucketOfPort(setup, p');
    }
    if touched != {} {
      var i :| i in touched;
      assert touched == {i};
    }
  }

  function BucketOfPort(setup: Setup, port: Port): nat {
    Bucket(setup.portHash(port), BUCKET_BITS)
  }

  /** Which interval of 2^54 words the hash of a port lies in. */
  function Interval(setup: Setup, port: Port): nat {
    setup.portHash(port) / 0x40_0000_0000_0000
  }

  lemma PortIsInInterval(setup: Setup, port: Port)
    ensures BucketOfPort(setup, port) == Interval(setup, port)
  {
    BucketOfTenBits(setup.portHash(port));
  }

  lemma PortBehind(setup: Setup, ports: set<Port>, i: nat) returns (port: Port)
    requires i in BucketsTouched(setup, ports)
    ensures port in ports && BucketOfPort(setup, port) == i
  {
    var buckets := BucketsOf(ports, setup.portHash, BUCKET_BITS);
    assert Earned(buckets, i, ports, setup.portHash, BUCKET_BITS);
    port :| port in ports && BucketOfPort(setup, port) == i;
  }

  lemma PortTouches(setup: Setup, ports: set<Port>, port: Port)
    requires port in ports
    ensures BucketOfPort(setup, port) in BucketsTouched(setup, ports)
  {
    assert Covers(BucketsOf(ports, setup.portHash, BUCKET_BITS), setup.portHash(port), BUCKET_BITS);
  }

  /** A source that tries the ports from 0 on has tried `n` of them after `n` readings. */
  lemma {:induction false} PortsOfProbes(run: seq<Reading>, n: nat, ip: Ip)
    requires n <= |run| <= 0x1_0000
    requires forall i :: 0 <= i < |run| ==> run[i].event.srcIp == ip && run[i].event.dstPort == i
    ensures |PortsIn(run, 0, n, ip)| == n && forall port :: port in PortsIn(run, 0, n, ip) ==> port < n
  {
    if n > 0 { PortsOfProbes(run, n - 1, ip); }
  }

  /** 25 distinct ports of a source in one window need not raise a scan alert: not if the
      hash puts them in one bucket, as a constant hash does. */
  lemma TwentyFivePortsMayPass(watch: Watch, setup: Setup, event: NetworkEvent) returns (run: seq<Reading>)
    requires CountsBuckets(watch, setup) && watch.window > 0
    requires forall p: Port, p': Port :: setup.portHash(p) == setup.portHash(p')
    ensures |run| == 25 && WindowOf(Outcomes(watch, 0, run), 24) == 0 && |PortsIn(run, 0, 25, event.srcIp)| == 25
    ensures forall i :: 0 <= i < 25 ==> run[i].event.srcIp == event.srcIp && !Outcomes(watch, 0, run)[i].scan
  {
    run := seq(25, (i: nat) requires 0 <= i < 25 => Reading(event.(dstPort := i), 0, 0));
    PortsOfProbes(run, 25, event.srcIp);
    StaysInFirstWindow(watch, run, 24);
    forall i | 0 <= i < 25 ensures !Outcomes(watch, 0, run)[i].scan {
      var log := Outcomes(watch, 0, run);
      ScanExactlyWhen(watch, setup, 0, run, i);
      assert forall p: Port, p': Port :: BucketOfPort(setup, p) == BucketOfPort(setup, p');
      SameBucketTouchesOne(setup, PortsIn(run, WindowOf(log, i), i + 1, event.srcIp));
    }
  }

  lemma {:induction false} StaysInFirstWindow(watch: Watch, run: seq<Reading>, i: nat)
    requires watch.window > 0 && i < |run|
    requires forall k :: 0 <= k < |run| ==> run[k].checkedAt == 0
    ensures StateAfter(watch, 0, run[..i + 1]).windowStart == 0 && WindowOf(Outcomes(watch, 0, run), i) == 0
  {
    if i > 0 { StaysInFirstWindow(watch, run, i - 1); }
    RunAt(watch, 0, run, i);
  }
}
