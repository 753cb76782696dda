/** When the engine's detector raises its alerts, in terms of the readings alone: of the flags,
    addresses and ports of the events, of the hashes as numbers, and of the clock. */
module DetectorReports {
  import opened Models
  import opened CountMin
  import opened HyperLogLog
  import opened DetectorSpec
  import opened DetectorTheory
  import opened DetectorWindows

  // ---- Floods ----

  /** How many readings from `from` to `to` carry SYN and not ACK and have a source that shares
      the column of `ip` in a row of the sketch. */
  function SynsSharing(setup: Setup, run: seq<Reading>, from: nat, to: nat, ip: Ip, row: nat): nat
    requires from <= to <= |run|
  {
    if from == to then 0
    else
      var e := run[to - 1].event;
      var shares := setup.synHash(e.srcIp, row) % 2048 == setup.synHash(ip, row) % 2048;
      SynsSharing(setup, run, from, to - 1, ip, row) + if e.flags as nat % 4 == 1 && shares then 1 else 0
  }

  /** 50 or more, in each of the four rows. */
  predicate FiftyInEveryRow(setup: Setup, run: seq<Reading>, from: nat, to: nat, ip: Ip)
    requires from <= to <= |run|
  {
    forall row :: 0 <= row < 4 ==> SynsSharing(setup, run, from, to, ip, row) >= 50
  }

  /** How many SYNs landed on the cell of `ip` in a row. */
  function SynsLanded(setup: Setup, run: seq<Reading>, from: nat, to: nat, ip: Ip, row: nat): nat
    requires from <= to <= |run|
  {
    Landed(setup.synHash, SKETCH_WIDTH, SynsIn(run, from, to), row, Column(setup.synHash, SKETCH_WIDTH, ip, row))
  }

  lemma LastSynLands(setup: Setup, run: seq<Reading>, from: nat, to: nat, ip: Ip, row: nat)
    requires from < to <= |run|
    ensures var e := run[to - 1].event;
            var shares := setup.synHash(e.srcIp, row) % 2048 == setup.synHash(ip, row) % 2048;
            SynsLanded(setup, run, from, to, ip, row) ==
            SynsLanded(setup, run, from, to - 1, ip, row) + if e.flags as nat % 4 == 1 && shares then 1 else 0
  {
    SynByFlags(run[to - 1].event);
    var syns := SynsIn(run, from, to);
    if run[to - 1].event.IsSyn() { assert syns[..|syns| - 1] == SynsIn(run, from, to - 1); }
  }

  /** They are the SYNs that share its column. */
  lemma {:induction false} SynsLand(setup: Setup, run: seq<Reading>, from: nat, to: nat, ip: Ip, row: nat)
    requires from <= to <= |run|
    ensures SynsLanded(setup, run, from, to, ip, row) == SynsSharing(setup, run, from, to, ip, row)
  {
    if from < to {
      SynsLand(setup, run, from, to - 1, ip, row);
      LastSynLands(setup, run, from, to, ip, row);
    }
  }

  /** The sketch decides on a flood exactly if 50 SYNs or more share the source's column, in
      each of the four rows. */
  lemma SketchFloodsExactlyWhen(setup: Setup, run: seq<Reading>, from: nat, to: nat, ip: Ip)
    requires from <= to <= |run|
    ensures FloodsBySketch(setup, SynsIn(run, from, to), ip) <==> FiftyInEveryRow(setup, run, from, to, ip)
  {
    var syns := SynsIn(run, from, to);
    var least := LeastCellIsLeast(setup.synHash, SKETCH_WIDTH, SKETCH_DEPTH, syns, ip);
    SynsLand(setup, run, from, to, ip, least);
    forall row | 0 <= row < 4
      ensures SynEstimate(setup, syns, ip) <= SynsSharing(setup, run, from, to, ip, row)
    {
      SynsLand(setup, run, from, to, ip, row);
    }
  }

  /** A reading raises a flood alert exactly if it carries SYN and not ACK, its source has had
      none in the window, and in each of the four rows 50 SYNs of the window so far or more
      share the source's column. */
  lemma FloodExactlyWhen(setup: Setup, start: nat, run: seq<Reading>, i: nat)
    requires i < |run|
    ensures var log := Outcomes(SketchWatch(setup), start, run);
            var w, e := WindowOf(log, i), run[i].event;
            log[i].flood <==>
            && e.flags as nat % 4 == 1 && !FloodedIn(log, run, w, i, e.srcIp)
            && FiftyInEveryRow(setup, run, w, i + 1, e.srcIp)
  {
    FloodDecision(SketchWatch(setup), start, run, i);
    SynByFlags(run[i].event);
    var w := WindowOf(Outcomes(SketchWatch(setup), start, run), i);
    SketchFloodsExactlyWhen(setup, run, w, i + 1, run[i].event.srcIp);
  }

  /** Events that carry ACK never raise a flood alert, whatever their number. */
  lemma AcksNeverFlood(watch: Watch, start: nat, run: seq<Reading>, i: nat)
    requires i < |run| && run[i].event.flags as nat / 2 % 2 == 1
    ensures !Outcomes(watch, start, run)[i].flood
  {
    AckIsNoSyn(run[i].event);
    FloodDecision(watch, start, run, i);
  }

  /** Nor do they count towards one. */
  lemma {:induction false} AcksAreNotCounted(run: seq<Reading>, from: nat, to: nat)
    requires from <= to <= |run|
    requires forall i :: from <= i < to ==> run[i].event.flags as nat / 2 % 2 == 1
    ensures SynsIn(run, from, to) == []
  {
    if from < to {
      AcksAreNotCounted(run, from, to - 1);
      AckIsNoSyn(run[to - 1].event);
    }
  }

  // ---- Scans ----

  /** The intervals of 2^54 words that the ports' hashes of a source lie in, among readings
      `from` to `to`. */
  function IntervalsProbed(setup: Setup, run: seq<Reading>, from: nat, to: nat, ip: Ip): set<nat>
    requires from <= to <= |run|
  {
    set j | from <= j < to && run[j].event.srcIp == ip :: setup.portHash(run[j].event.dstPort) / 0x40_0000_0000_0000
  }

  lemma {:induction false} PortBehindReading(run: seq<Reading>, from: nat, to: nat, ip: Ip, port: Port) returns (j: nat)
    requires from <= to <= |run| && port in PortsIn(run, from, to, ip)
    ensures from <= j < to && run[j].event.srcIp == ip && run[j].event.dstPort == port
  {
    var e := run[to - 1].event;
    if e.srcIp == ip && e.dstPort == port { j := to - 1; } else { j := PortBehindReading(run, from, to - 1, ip, port); }
  }

  /** They are the buckets that the source's ports touch. */
  lemma IntervalsAreBuckets(setup: Setup, run: seq<Reading>, from: nat, to: nat, ip: Ip)
    requires from <= to <= |run|
    ensures BucketsTouched(setup, PortsIn(run, from, to, ip)) == IntervalsProbed(setup, run, from, to, ip)
  {
    var ports := PortsIn(run, from, to, ip);
    forall i | i in BucketsTouched(setup, ports) ensures i in IntervalsProbed(setup, run, from, to, ip) {
      var port := PortBehind(setup, ports, i);
      var j := PortBehindReading(run, from, to, ip, port);
      PortIsInInterval(setup, port);
    }
    forall j | from <= j < to && run[j].event.srcIp == ip
      ensures setup.portHash(run[j].event.dstPort) / 0x40_0000_0000_0000 in BucketsTouched(setup, ports)
    {
      PortSeen(run, from, to, j, ip);
      PortTouches(setup, ports, run[j].event.dstPort);
      PortIsInInterval(setup, run[j].event.dstPort);
    }
  }

  /** A reading raises a scan alert exactly if its source has had none in the window, and the
      hashes of its ports in the window so far lie in 25 intervals of 2^54 words or more. */
  lemma ScanExactlyWhenIntervals(setup: Setup, start: nat, run: seq<Reading>, i: nat)
    requires LikeLn(setup.ln) && i < |run|
    ensures var log := Outcomes(SketchWatch(setup), start, run);
            var w, ip := WindowOf(log, i), run[i].event.srcIp;
            log[i].scan <==>
            !ScannedIn(log, run, w, i, ip) && |IntervalsProbed(setup, run, w, i + 1, ip)| >= 25
  {
    var log := Outcomes(SketchWatch(setup), start, run);
    var w, ip := WindowOf(log, i), run[i].event.srcIp;
    IntervalsAreBuckets(setup, run, w, i + 1, ip);
    var touched := BucketsTouched(setup, PortsIn(run, w, i + 1, ip));
    assert log[i].scan <==> !ScannedIn(log, run, w, i, ip) && |touched| >= 25 by {
      SketchCountsBuckets(setup);
      ScanExactlyWhen(SketchWatch(setup), setup, start, run, i);
    }
  }

  // ---- What an alert says of the clock ----

  /** Readings `from` to `to`, the first of them counted at some instant, are all counted less
      than a window after it. */
  ghost predicate WithinAWindow(run: seq<Reading>, from: nat, to: nat, window: nat) {
    from < to <= |run| && forall j :: from < j < to ==> run[j].checkedAt - run[from].resetAt < window
  }

  lemma WindowIsShort(watch: Watch, start: nat, run: seq<Reading>, i: nat)
    requires Clock(start, run) && i < |run|
    ensures WithinAWindow(run, WindowOf(Outcomes(watch, start, run), i), i + 1, watch.window)
  {
    var log := Outcomes(watch, start, run);
    var w := WindowOf(log, i);
    forall j | w < j <= i ensures run[j].checkedAt - run[w].resetAt < watch.window {
      WindowStays(log, j, i);
      OneWindowIsShort(watch, start, run, w, j);
      WindowStaysFrom(log, j, i);
    }
  }
}
