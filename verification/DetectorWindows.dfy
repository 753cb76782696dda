/** What the tumbling window makes of the detector's thresholds: how much of an attack, however
    it falls across the windows, is sure to be reported. */
module DetectorWindows {
  import opened Models
  import opened CepSpec
  import opened DetectorSpec
  import opened DetectorTheory

  // ---- The tumbling window ----

  /** The clock never runs backwards, within a reading and from one to the next. */
  ghost predicate Clock(start: nat, run: seq<Reading>) {
    && (forall i :: 0 <= i < |run| ==> start <= run[i].checkedAt <= run[i].resetAt)
    && (forall i, j :: 0 <= i < j < |run| ==> run[i].resetAt <= run[j].checkedAt)
  }

  /** After a roll at reading `r`, the window start is no earlier than that reading. */
  lemma {:induction false} WindowStartAfterRoll(watch: Watch, start: nat, run: seq<Reading>, r: nat, i: nat)
    requires Clock(start, run) && r < i <= |run| && Outcomes(watch, start, run)[r].rolls
    ensures StateAfter(watch, start, run[..i]).windowStart >= run[r].checkedAt
  {
    RunAt(watch, start, run, i - 1);
    if r < i - 1 { WindowStartAfterRoll(watch, start, run, r, i - 1); }
  }

  lemma RollNeedsTime(watch: Watch, start: nat, run: seq<Reading>, i: nat)
    requires i < |run| && Outcomes(watch, start, run)[i].rolls
    ensures Since(run[i].checkedAt, StateAfter(watch, start, run[..i]).windowStart) >= watch.window
  {
    RunAt(watch, start, run, i);
  }

  /** Two rolls are a window apart. */
  lemma RollsAreApart(watch: Watch, start: nat, run: seq<Reading>, r: nat, r': nat)
    requires Clock(start, run) && r < r' < |run|
    requires Outcomes(watch, start, run)[r].rolls && Outcomes(watch, start, run)[r'].rolls
    ensures run[r'].checkedAt - run[r].checkedAt >= watch.window
  {
    WindowStartAfterRoll(watch, start, run, r, r');
    RollNeedsTime(watch, start, run, r');
  }

  lemma CheckedInOrder(start: nat, run: seq<Reading>, i: nat, j: nat)
    requires Clock(start, run) && i <= j < |run|
    ensures run[i].checkedAt <= run[j].checkedAt
  {
    if i < j { assert run[i].resetAt <= run[j].checkedAt; }
  }

  /** A window starts at a roll or at the first reading. */
  lemma {:induction false} WindowStartsAtRoll(log: seq<Outcome>, i: nat)
    requires i < |log|
    ensures WindowOf(log, i) == 0 || log[WindowOf(log, i)].rolls
  {
    if i > 0 && !log[i].rolls { WindowStartsAtRoll(log, i - 1); }
  }

  // ---- When the window rolls ----

  /** When the window of reading `i` started: at the second reading of the clock of the roll
      that began it, or when the detector was made. */
  function StartedAt(start: nat, run: seq<Reading>, log: seq<Outcome>, i: nat): nat
    requires i < |log| == |run|
  {
    var w := WindowOf(log, i);
    if log[w].rolls then run[w].resetAt else start
  }

  lemma StepStarts(watch: Watch, st: State, r: Reading)
    ensures Observe(watch, st, r).0.windowStart == if Rolls(watch, st, r) then r.resetAt else st.windowStart
  {
  }

  /** The detector keeps exactly that. */
  lemma {:induction false} KeepsStart(watch: Watch, start: nat, run: seq<Reading>, i: nat)
    requires i < |run|
    ensures StateAfter(watch, start, run[..i + 1]).windowStart == StartedAt(start, run, Outcomes(watch, start, run), i)
  {
    RunAt(watch, start, run, i);
    StepStarts(watch, StateAfter(watch, start, run[..i]), run[i]);
    if i > 0 { KeepsStart(watch, start, run, i - 1); }
  }

  /** The window rolls at a reading exactly if a whole window or more has passed since the
      current one started. */
  lemma RollsExactlyWhen(watch: Watch, start: nat, run: seq<Reading>, i: nat)
    requires Clock(start, run) && i < |run|
    ensures var log := Outcomes(watch, start, run);
            var started := if i == 0 then start else StartedAt(start, run, log, i - 1);
            log[i].rolls <==> run[i].checkedAt - started >= watch.window
  {
    RunAt(watch, start, run, i);
    if i > 0 {
      KeepsStart(watch, start, run, i - 1);
      StartsBefore(watch, start, run, i - 1);
    }
  }

  lemma StartsBefore(watch: Watch, start: nat, run: seq<Reading>, i: nat)
    requires Clock(start, run) && i < |run|
    ensures StartedAt(start, run, Outcomes(watch, start, run), i) <= run[i].resetAt
  {
    var w := WindowOf(Outcomes(watch, start, run), i);
    if w < i { assert run[w].resetAt <= run[i].checkedAt; }
  }

  /** So a reading that rolls nothing is less than a window after its window's start. */
  lemma WithinItsWindow(watch: Watch, start: nat, run: seq<Reading>, i: nat)
    requires Clock(start, run) && i < |run| && !Outcomes(watch, start, run)[i].rolls
    ensures run[i].checkedAt - StartedAt(start, run, Outcomes(watch, start, run), i) < watch.window
  {
    RollsExactlyWhen(watch, start, run, i);
  }

  /** When a reading is counted: at its check of the clock, or when it has started a window. */
  function CountedAt(run: seq<Reading>, log: seq<Outcome>, i: nat): nat
    requires i < |log| == |run|
  {
    if log[i].rolls then run[i].resetAt else run[i].checkedAt
  }

  lemma CountedAfterStart(watch: Watch, start: nat, run: seq<Reading>, j: nat, i: nat)
    requires Clock(start, run) && j <= i < |run| && SameWindow(Outcomes(watch, start, run), j, i)
    ensures var log := Outcomes(watch, start, run);
            StartedAt(start, run, log, i) <= CountedAt(run, log, j)
  {
    var log := Outcomes(watch, start, run);
    var w := WindowOf(log, i);
    WindowStaysFrom(log, j, i);
    if w < j { assert run[w].resetAt <= run[j].checkedAt; }
  }

  /** Inside a window nothing rolls but its first reading. */
  lemma {:induction false} WindowStaysFrom(log: seq<Outcome>, j: nat, i: nat)
    requires j <= i < |log| && SameWindow(log, j, i)
    ensures log[j].rolls ==> j == WindowOf(log, i)
  {
    if j < i { WindowStaysFrom(log, j, i - 1); }
  }

  /** Two readings counted in one window are counted less than a window apart. */
  lemma OneWindowIsShort(watch: Watch, start: nat, run: seq<Reading>, j: nat, i: nat)
    requires Clock(start, run) && j < i < |run| && SameWindow(Outcomes(watch, start, run), j, i)
    ensures var log := Outcomes(watch, start, run);
            CountedAt(run, log, i) - CountedAt(run, log, j) < watch.window
  {
    WindowStaysFrom(Outcomes(watch, start, run), i, i);
    CountedAfterStart(watch, start, run, j, i);
    WithinItsWindow(watch, start, run, i);
  }

  /** Readings closer together than a window cross at most one roll: what lies before the
      last window of the span lies in one window, together with the start of the span. */
  lemma ShortSpanCrossesOneRoll(watch: Watch, start: nat, run: seq<Reading>, a: nat, i: nat, b: nat)
    requires Clock(start, run) && a <= i <= b < |run|
    requires run[b].checkedAt - run[a].checkedAt < watch.window
    requires i < WindowOf(Outcomes(watch, start, run), b)
    ensures WindowOf(Outcomes(watch, start, run), i) <= a
  {
    var log := Outcomes(watch, start, run);
    var w, w' := WindowOf(log, i), WindowOf(log, b);
    WindowStartsAtRoll(log, i);
    WindowStartsAtRoll(log, b);
    if a < w {
      RollsAreApart(watch, start, run, w, w');
      CheckedInOrder(start, run, a, w);
      CheckedInOrder(start, run, w', b);
    }
  }

  // ---- Among readings close together, half fall in one window ----

  /** `picks` are readings of the run, in order. */
  ghost predicate InOrder(run: seq<Reading>, picks: seq<nat>) {
    && (forall k :: 0 <= k < |picks| ==> picks[k] < |run|)
    && (forall k, k' :: 0 <= k < k' < |picks| ==> picks[k] < picks[k'])
  }

  lemma PicksInOrder(run: seq<Reading>, picks: seq<nat>, a: nat, b: nat)
    requires InOrder(run, picks) && a <= b < |picks|
    ensures picks[a] <= picks[b] < |run|
  {
  }

  /** How many picks lie before reading `r`. */
  lemma SplitPicks(run: seq<Reading>, picks: seq<nat>, r: nat, n: nat) returns (c: nat)
    requires InOrder(run, picks) && n <= |picks|
    ensures c <= n && (forall k :: 0 <= k < c ==> picks[k] < r) && (forall k :: c <= k < n ==> r <= picks[k])
    decreases n
  {
    if n == 0 || picks[n - 1] < r {
      c := n;
      forall k | 0 <= k < c ensures picks[k] < r { PicksInOrder(run, picks, k, n - 1); }
    } else {
      c := SplitPicks(run, picks, r, n - 1);
    }
  }

  /** The picks `a` to `b` lie in the window of the last of them, so far. */
  ghost predicate PicksInWindow(log: seq<Outcome>, picks: seq<nat>, a: nat, b: nat) {
    && a < b <= |picks| && picks[b - 1] < |log|
    && forall k :: a <= k < b ==> WindowOf(log, picks[b - 1]) <= picks[k] <= picks[b - 1]
  }

  /** Of any `2m - 1` readings within less than a window, `m` fall in one window. */
  lemma HalfInOneWindow(watch: Watch, start: nat, run: seq<Reading>, picks: seq<nat>, m: nat)
    returns (a: nat, b: nat)
    requires Clock(start, run) && m > 0 && |picks| == 2 * m - 1 && InOrder(run, picks)
    requires run[picks[|picks| - 1]].checkedAt - run[picks[0]].checkedAt < watch.window
    ensures b - a >= m && PicksInWindow(Outcomes(watch, start, run), picks, a, b)
  {
    var log, last := Outcomes(watch, start, run), |picks| - 1;
    PicksInOrder(run, picks, 0, last);
    var c := SplitPicks(run, picks, WindowOf(log, picks[last]), |picks|);
    if c < m {
      a, b := c, |picks|;
    } else {
      a, b := 0, c;
      PicksInOrder(run, picks, c - 1, last);
      PicksInOrder(run, picks, 0, c - 1);
      ShortSpanCrossesOneRoll(watch, start, run, picks[0], picks[c - 1], picks[last]);
    }
    forall k | a <= k < b ensures WindowOf(log, picks[b - 1]) <= picks[k] <= picks[b - 1] {
      PicksInOrder(run, picks, k, b - 1);
      PicksInOrder(run, picks, a, k);
    }
  }

  /** The picks `a` to `b` lie among readings `from` to `to`. */
  ghost predicate Between(picks: seq<nat>, from: nat, to: nat, a: nat, b: nat) {
    a <= b <= |picks| && forall k :: a <= k < b ==> from <= picks[k] < to
  }

  /** Among any readings `count` is at least the number of picks. */
  ghost predicate CountsPicks(run: seq<Reading>, picks: seq<nat>, count: (nat, nat) -> nat) {
    forall from: nat, to: nat, a: nat, b: nat {:trigger Between(picks, from, to, a, b)} ::
      from <= to <= |run| && Between(picks, from, to, a, b) ==> count(from, to) >= b - a
  }

  /** So in one window it is at least half of them. */
  lemma HalfCounted(watch: Watch, start: nat, run: seq<Reading>, picks: seq<nat>, m: nat, count: (nat, nat) -> nat)
    returns (k: nat)
    requires Clock(start, run) && m > 0 && |picks| == 2 * m - 1 && InOrder(run, picks)
    requires run[picks[|picks| - 1]].checkedAt - run[picks[0]].checkedAt < watch.window
    requires CountsPicks(run, picks, count)
    ensures k < |picks| && picks[0] <= picks[k] <= picks[|picks| - 1]
    ensures count(WindowOf(Outcomes(watch, start, run), picks[k]), picks[k] + 1) >= m
  {
    var a, b := HalfInOneWindow(watch, start, run, picks, m);
    k := b - 1;
    PicksInOrder(run, picks, 0, k);
    PicksInOrder(run, picks, k, |picks| - 1);
    assert Between(picks, WindowOf(Outcomes(watch, start, run), picks[k]), picks[k] + 1, a, b);
  }

  // ---- Floods ----

  /** Reading `i` is a SYN of the source: it carries SYN, the lowest flag, and not ACK, the
      next. */
  predicate SynAt(run: seq<Reading>, i: nat, ip: Ip) {
    i < |run| && run[i].event.flags as nat % 4 == 1 && run[i].event.srcIp == ip
  }

  /** `picks` are SYNs of one source, in order. */
  ghost predicate SynsOfSource(run: seq<Reading>, picks: seq<nat>, ip: Ip) {
    && InOrder(run, picks)
    && (forall k {:trigger SynAt(run, picks[k], ip)} :: 0 <= k < |picks| ==> SynAt(run, picks[k], ip))
  }

  lemma PickIsSyn(run: seq<Reading>, picks: seq<nat>, ip: Ip, k: nat)
    requires SynsOfSource(run, picks, ip) && k < |picks|
    ensures run[picks[k]].event.IsSyn() && run[picks[k]].event.srcIp == ip
  {
    assert SynAt(run, picks[k], ip);
    SynByFlags(run[picks[k]].event);
  }

  /** The picks between two readings are counted. */
  lemma {:induction false} PicksAreCounted(run: seq<Reading>, picks: seq<nat>, ip: Ip, from: nat, to: nat, a: nat,
                                           b: nat)
    requires SynsOfSource(run, picks, ip) && a <= b <= |picks| && from <= to <= |run|
    requires forall k :: a <= k < b ==> from <= picks[k] < to
    ensures SynCount(run, from, to, ip) >= b - a
  {
    if a < b {
      SynCountStep(run, from, to, ip);
      PickIsSyn(run, picks, ip, b - 1);
      var last := picks[b - 1];
      if last == to - 1 {
        forall k | a <= k < b - 1 ensures from <= picks[k] < to - 1 { assert picks[k] < picks[b - 1]; }
        PicksAreCounted(run, picks, ip, from, to - 1, a, b - 1);
      } else {
        forall k | a <= k < b ensures from <= picks[k] < to - 1 {
          assert k == b - 1 || picks[k] < picks[b - 1];
        }
        PicksAreCounted(run, picks, ip, from, to - 1, a, b);
      }
    }
  }

  /** Any 99 SYNs of one source within less than a window put 50 of them in one window. */
  lemma FiftyInOneWindow(watch: Watch, start: nat, run: seq<Reading>, picks: seq<nat>, ip: Ip) returns (i: nat)
    requires Clock(start, run) && |picks| == 99 && SynsOfSource(run, picks, ip)
    requires run[picks[98]].checkedAt - run[picks[0]].checkedAt < watch.window
    ensures picks[0] <= i <= picks[98] && i < |run|
    ensures SynCount(run, WindowOf(Outcomes(watch, start, run), i), i + 1, ip) >= 50
  {
    var count := (from: nat, to: nat) => if from <= to <= |run| then SynCount(run, from, to, ip) else 0;
    forall from: nat, to: nat, a: nat, b: nat | from <= to <= |run| && Between(picks, from, to, a, b)
      ensures count(from, to) >= b - a
    {
      PicksAreCounted(run, picks, ip, from, to, a, b);
    }
    var k := HalfCounted(watch, start, run, picks, 50, count);
    i := picks[k];
  }

  /** So that source gets its flood alert, in that window. */
  lemma NinetyNineSynsAlert(watch: Watch, start: nat, run: seq<Reading>, picks: seq<nat>, ip: Ip) returns (j: nat)
    requires CatchesFloods(watch) && Clock(start, run) && |picks| == 99 && SynsOfSource(run, picks, ip)
    requires run[picks[98]].checkedAt - run[picks[0]].checkedAt < watch.window
    ensures j <= picks[98] && j < |run|
    ensures Outcomes(watch, start, run)[j].flood && run[j].event.srcIp == ip
    ensures exists i :: j <= i <= picks[98] && picks[0] <= i < |run| && SameWindow(Outcomes(watch, start, run), j, i)
  {
    var i := FiftyInOneWindow(watch, start, run, picks, ip);
    j := FloodByFiftiethSyn(watch, start, run, i, ip);
  }

  // ---- Scans ----

  predicate ReadingOf(run: seq<Reading>, i: nat, ip: Ip) {
    i < |run| && run[i].event.srcIp == ip
  }

  /** `picks` are readings of one source, in order, whose ports hash to different intervals of
      2^54 words. */
  ghost predicate ProbesOfSource(setup: Setup, run: seq<Reading>, picks: seq<nat>, ip: Ip) {
    && InOrder(run, picks)
    && (forall k {:trigger ReadingOf(run, picks[k], ip)} :: 0 <= k < |picks| ==> ReadingOf(run, picks[k], ip))
    && (forall k, k' {:trigger PickBucket(setup, run, picks[k]), PickBucket(setup, run, picks[k'])} ::
          0 <= k < k' < |picks| ==> PickBucket(setup, run, picks[k]) != PickBucket(setup, run, picks[k']))
  }

  /** Which interval of 2^54 words the hash of reading `i`'s port lies in. */
  function PickBucket(setup: Setup, run: seq<Reading>, i: nat): nat
    requires i < |run|
  {
    Interval(setup, run[i].event.dstPort)
  }

  lemma PickBucketIs(setup: Setup, run: seq<Reading>, i: nat)
    requires i < |run|
    ensures PickBucket(setup, run, i) == BucketOfPort(setup, run[i].event.dstPort)
  {
    PortIsInInterval(setup, run[i].event.dstPort);
  }

  /** The buckets of the picks `a` to `b`. */
  function BucketsPicked(setup: Setup, run: seq<Reading>, picks: seq<nat>, a: nat, b: nat): set<nat>
    requires a <= b <= |picks| && forall k :: 0 <= k < |picks| ==> picks[k] < |run|
  {
    if a == b then {}
    else BucketsPicked(setup, run, picks, a, b - 1) + {PickBucket(setup, run, picks[b - 1])}
  }

  lemma {:induction false} PickedBucketsDiffer(setup: Setup, run: seq<Reading>, picks: seq<nat>, ip: Ip, a: nat, b: nat)
    requires ProbesOfSource(setup, run, picks, ip) && a <= b <= |picks|
    ensures |BucketsPicked(setup, run, picks, a, b)| == b - a
    ensures forall k :: b <= k < |picks| ==>
              PickBucket(setup, run, picks[k]) !in BucketsPicked(setup, run, picks, a, b)
  {
    if a < b { PickedBucketsDiffer(setup, run, picks, ip, a, b - 1); }
  }

  lemma {:induction false} PortSeen(run: seq<Reading>, from: nat, to: nat, i: nat, ip: Ip)
    requires from <= i < to <= |run| && run[i].event.srcIp == ip
    ensures run[i].event.dstPort in PortsIn(run, from, to, ip)
  {
    if i < to - 1 { PortSeen(run, from, to - 1, i, ip); }
  }

  lemma PickTouches(setup: Setup, run: seq<Reading>, from: nat, to: nat, i: nat, ip: Ip)
    requires from <= i < to <= |run| && run[i].event.srcIp == ip
    ensures PickBucket(setup, run, i) in BucketsTouched(setup, PortsIn(run, from, to, ip))
  {
    PortSeen(run, from, to, i, ip);
    PortTouches(setup, PortsIn(run, from, to, ip), run[i].event.dstPort);
    PickBucketIs(setup, run, i);
  }

  lemma {:induction false} PickedAmong(setup: Setup, run: seq<Reading>, picks: seq<nat>, a: nat, b: nat,
                                       touched: set<nat>)
    requires a <= b <= |picks| && forall k :: 0 <= k < |picks| ==> picks[k] < |run|
    requires forall k :: a <= k < b ==> PickBucket(setup, run, picks[k]) in touched
    ensures BucketsPicked(setup, run, picks, a, b) <= touched
  {
    if a < b { PickedAmong(setup, run, picks, a, b - 1, touched); }
  }

  /** So the ports of a window touch at least as many buckets as it has picks. */
  lemma PicksTouch(setup: Setup, run: seq<Reading>, picks: seq<nat>, ip: Ip, from: nat, to: nat, a: nat, b: nat)
    requires ProbesOfSource(setup, run, picks, ip) && a <= b <= |picks| && from <= to <= |run|
    requires forall k :: a <= k < b ==> from <= picks[k] < to
    ensures |BucketsTouched(setup, PortsIn(run, from, to, ip))| >= b - a
  {
    var touched := BucketsTouched(setup, PortsIn(run, from, to, ip));
    forall k | a <= k < b ensures PickBucket(setup, run, picks[k]) in touched {
      assert ReadingOf(run, picks[k], ip);
      PickTouches(setup, run, from, to, picks[k], ip);
    }
    PickedBucketsDiffer(setup, run, picks, ip, a, b);
    PickedAmong(setup, run, picks, a, b, touched);
    SubsetNotLarger(BucketsPicked(setup, run, picks, a, b), touched);
  }

  lemma SubsetNotLarger(small: set<nat>, large: set<nat>)
    requires small <= large
    ensures |small| <= |large|
  {
    assert large == small + (large - small);
  }

  /** A source whose ports in a window touch 25 buckets has been alerted for a scan in it. */
  lemma ScanByTwentyFifthBucket(watch: Watch, setup: Setup, start: nat, run: seq<Reading>, i: nat) returns (j: nat)
    requires CountsBuckets(watch, setup) && i < |run|
    requires var w, ip := WindowOf(Outcomes(watch, start, run), i), run[i].event.srcIp;
             |BucketsTouched(setup, PortsIn(run, w, i + 1, ip))| >= 25
    ensures j <= i && SameWindow(Outcomes(watch, start, run), j, i)
    ensures Outcomes(watch, start, run)[j].scan && run[j].event.srcIp == run[i].event.srcIp
  {
    var log := Outcomes(watch, start, run);
    ScanExactlyWhen(watch, setup, start, run, i);
    if log[i].scan {
      j := i;
    } else {
      j :| WindowOf(log, i) <= j < i && log[j].scan && run[j].event.srcIp == run[i].event.srcIp;
    }
  }

  /** How many buckets the ports of a source touch among readings `from` to `to`. */
  ghost function TouchCount(setup: Setup, run: seq<Reading>, ip: Ip): (nat, nat) -> nat {
    (from: nat, to: nat) => if from <= to <= |run| then |BucketsTouched(setup, PortsIn(run, from, to, ip))| else 0
  }

  lemma ProbesAreCounted(setup: Setup, run: seq<Reading>, picks: seq<nat>, ip: Ip)
    requires ProbesOfSource(setup, run, picks, ip)
    ensures CountsPicks(run, picks, TouchCount(setup, run, ip))
  {
    forall from: nat, to: nat, a: nat, b: nat | from <= to <= |run| && Between(picks, from, to, a, b)
      ensures TouchCount(setup, run, ip)(from, to) >= b - a
    {
      PicksTouch(setup, run, picks, ip, from, to, a, b);
    }
  }

  /** Any readings of one source within less than a window whose ports hash to 49 different
      intervals put 25 of them in one window. */
  lemma TwentyFiveInOneWindow(watch: Watch, setup: Setup, start: nat, run: seq<Reading>, picks: seq<nat>, ip: Ip)
    returns (k: nat)
    requires Clock(start, run) && |picks| == 49 && ProbesOfSource(setup, run, picks, ip)
    requires run[picks[48]].checkedAt - run[picks[0]].checkedAt < watch.window
    ensures k < |picks| && picks[0] <= picks[k] <= picks[48]
    ensures TouchCount(setup, run, ip)(WindowOf(Outcomes(watch, start, run), picks[k]), picks[k] + 1) >= 25
  {
    ProbesAreCounted(setup, run, picks, ip);
    k := HalfCounted(watch, start, run, picks, 25, TouchCount(setup, run, ip));
  }

  /** So that source gets its scan alert, in that window. */
  lemma FortyNineBucketsAlert(watch: Watch, setup: Setup, start: nat, run: seq<Reading>, picks: seq<nat>, ip: Ip)
    returns (j: nat)
    requires CountsBuckets(watch, setup) && Clock(start, run)
    requires |picks| == 49 && ProbesOfSource(setup, run, picks, ip)
    requires run[picks[48]].checkedAt - run[picks[0]].checkedAt < watch.window
    ensures j <= picks[48] && j < |run|
    ensures Outcomes(watch, start, run)[j].scan && run[j].event.srcIp == ip
    ensures exists i :: j <= i <= picks[48] && picks[0] <= i < |run| && SameWindow(Outcomes(watch, start, run), j, i)
  {
    var k := TwentyFiveInOneWindow(watch, setup, start, run, picks, ip);
    assert ReadingOf(run, picks[k], ip);
    j := ScanByTwentyFifthBucket(watch, setup, start, run, picks[k]);
  }

  // ---- 99 and 49 are the least such numbers ----

  /** Half of the events at one instant and half at the next. */
  function TwoBursts(events: seq<NetworkEvent>, at: nat): (run: seq<Reading>)
    ensures |run| == |events|
  {
    seq(|events|, i requires 0 <= i < |events| =>
      if i < |events| / 2 then Reading(events[i], at, at) else Reading(events[i], at + 1, at + 1))
  }

  /** When the window starts that the detector is in before reading `i`, if it elapses between
      the bursts. */
  function BurstStart(watch: Watch, events: seq<NetworkEvent>, i: nat): nat {
    if i <= |events| / 2 then 0 else watch.window
  }

  lemma WindowStartNext(watch: Watch, start: nat, run: seq<Reading>, i: nat)
    requires i < |run|
    ensures var st := StateAfter(watch, start, run[..i]);
            && StateAfter(watch, start, run[..i + 1]).windowStart == MaybeRoll(watch, st, run[i]).windowStart
            && (Outcomes(watch, start, run)[i].rolls <==> Rolls(watch, st, run[i]))
  {
    RunAt(watch, start, run, i);
  }

  lemma BurstAt(watch: Watch, events: seq<NetworkEvent>, st: State, i: nat)
    requires watch.window >= 2 && i < |events| && st.windowStart == BurstStart(watch, events, i)
    ensures var r := TwoBursts(events, watch.window - 1)[i];
            && (Rolls(watch, st, r) <==> i == |events| / 2)
            && MaybeRoll(watch, st, r).windowStart == BurstStart(watch, events, i + 1)
  {
  }

  lemma BurstNext(watch: Watch, events: seq<NetworkEvent>, i: nat)
    requires watch.window >= 2 && i < |events|
    requires StateAfter(watch, 0, TwoBursts(events, watch.window - 1)[..i]).windowStart == BurstStart(watch, events, i)
    ensures StateAfter(watch, 0, TwoBursts(events, watch.window - 1)[..i + 1]).windowStart ==
            BurstStart(watch, events, i + 1)
    ensures Outcomes(watch, 0, TwoBursts(events, watch.window - 1))[i].rolls <==> i == |events| / 2
  {
    var run := TwoBursts(events, watch.window - 1);
    WindowStartNext(watch, 0, run, i);
    BurstAt(watch, events, StateAfter(watch, 0, run[..i]), i);
  }

  lemma {:induction false} BurstStarts(watch: Watch, events: seq<NetworkEvent>, i: nat)
    requires watch.window >= 2 && i <= |events|
    ensures StateAfter(watch, 0, TwoBursts(events, watch.window - 1)[..i]).windowStart == BurstStart(watch, events, i)
  {
    if i > 0 {
      BurstStarts(watch, events, i - 1);
      BurstNext(watch, events, i - 1);
    }
  }

  /** The second burst starts a new window. */
  lemma {:induction false} BurstWindow(watch: Watch, events: seq<NetworkEvent>, i: nat)
    requires watch.window >= 2 && i < |events|
    ensures WindowOf(Outcomes(watch, 0, TwoBursts(events, watch.window - 1)), i) ==
            if i < |events| / 2 then 0 else |events| / 2
  {
    BurstStarts(watch, events, i);
    BurstNext(watch, events, i);
    if i > 0 { BurstWindow(watch, events, i - 1); }
  }

  /** A whole run within less than a window. */
  ghost predicate InTime(run: seq<Reading>, window: nat) {
    run != [] && Clock(0, run) && run[|run| - 1].checkedAt - run[0].checkedAt < window
  }

  lemma BurstsInTime(events: seq<NetworkEvent>, window: nat)
    requires |events| >= 2 && window >= 2
    ensures InTime(TwoBursts(events, window - 1), window)
  {
  }

  lemma {:induction false} FewIn(run: seq<Reading>, from: nat, to: nat, ip: Ip)
    requires from <= to <= |run|
    ensures |SynsIn(run, from, to)| <= to - from && |PortsIn(run, from, to, ip)| <= to - from
  {
    if from < to { FewIn(run, from, to - 1, ip); }
  }

  /** 98 SYNs of one source within less than a window need raise no flood alert: 49 on
      either side of a roll do not, whatever decision finds floods only among 50 SYNs. */
  lemma NinetyEightMayPass(watch: Watch, event: NetworkEvent) returns (run: seq<Reading>, picks: seq<nat>)
    requires CatchesFloods(watch) && watch.window >= 2 && event.flags as nat % 4 == 1
    ensures |picks| == |run| == 98 && InTime(run, watch.window) && SynsOfSource(run, picks, event.srcIp)
    ensures forall i :: 0 <= i < 98 ==> !Outcomes(watch, 0, run)[i].flood
  {
    var events := seq(98, i => event);
    run, picks := TwoBursts(events, watch.window - 1), AllOf(98);
    BurstsInTime(events, watch.window);
    forall i | 0 <= i < 98 ensures !Outcomes(watch, 0, run)[i].flood {
      BurstWindow(watch, events, i);
      FewIn(run, WindowOf(Outcomes(watch, 0, run), i), i + 1, event.srcIp);
      if Outcomes(watch, 0, run)[i].flood { FloodNeedsFiftySyns(watch, 0, run, i); }
    }
  }

  /** The readings of a run of length `n`, all of them. */
  function AllOf(n: nat): (picks: seq<nat>)
    ensures |picks| == n && forall i :: 0 <= i < n ==> picks[i] == i
  {
    seq(n, i => i)
  }

  ghost predicate BucketsDiffer(setup: Setup, ports: seq<Port>) {
    forall k, k' {:trigger Interval(setup, ports[k]), Interval(setup, ports[k'])} ::
      0 <= k < k' < |ports| ==> Interval(setup, ports[k]) != Interval(setup, ports[k'])
  }

  function ProbeEvents(event: NetworkEvent, ports: seq<Port>): (events: seq<NetworkEvent>)
    ensures |events| == |ports|
    ensures forall i :: 0 <= i < |ports| ==> events[i].srcIp == event.srcIp && events[i].dstPort == ports[i]
  {
    seq(|ports|, i requires 0 <= i < |ports| => event.(dstPort := ports[i]))
  }

  lemma BurstsAreProbes(setup: Setup, event: NetworkEvent, ports: seq<Port>, at: nat)
    requires BucketsDiffer(setup, ports)
    ensures ProbesOfSource(setup, TwoBursts(ProbeEvents(event, ports), at), AllOf(|ports|), event.srcIp)
  {
  }

  /** Nor need 48 ports in different buckets raise a scan alert, whichever they are. */
  lemma FortyEightMayPass(watch: Watch, setup: Setup, event: NetworkEvent, ports: seq<Port>)
    returns (run: seq<Reading>, picks: seq<nat>)
    requires CountsBuckets(watch, setup) && watch.window >= 2 && |ports| == 48 && BucketsDiffer(setup, ports)
    ensures |picks| == |run| == 48 && InTime(run, watch.window) && ProbesOfSource(setup, run, picks, event.srcIp)
    ensures NoScan(Outcomes(watch, 0, run))
  {
    run, picks := TwoBursts(ProbeEvents(event, ports), watch.window - 1), AllOf(|ports|);
    assert InTime(run, watch.window) by { BurstsInTime(ProbeEvents(event, ports), watch.window); }
    assert ProbesOfSource(setup, run, picks, event.srcIp) by {
      BurstsAreProbes(setup, event, ports, watch.window - 1);
    }
    assert NoScan(Outcomes(watch, 0, run)) by { FewReadingsPass(watch, setup, ProbeEvents(event, ports)); }
  }

  /** A scan alert is at least the 25th reading of its window. */
  lemma ScanNeedsReadings(watch: Watch, setup: Setup, start: nat, run: seq<Reading>, i: nat)
    requires CountsBuckets(watch, setup) && i < |run| && Outcomes(watch, start, run)[i].scan
    ensures i + 1 - WindowOf(Outcomes(watch, start, run), i) >= 25
  {
    ScanNeedsManyPorts(watch, setup, start, run, i);
    FewIn(run, WindowOf(Outcomes(watch, start, run), i), i + 1, run[i].event.srcIp);
  }

  lemma FewReadingsPassAt(watch: Watch, setup: Setup, events: seq<NetworkEvent>, i: nat)
    requires CountsBuckets(watch, setup) && watch.window >= 2 && i < |events| == 48
    ensures !Outcomes(watch, 0, TwoBursts(events, watch.window - 1))[i].scan
  {
    BurstWindow(watch, events, i);
    if Outcomes(watch, 0, TwoBursts(events, watch.window - 1))[i].scan {
      ScanNeedsReadings(watch, setup, 0, TwoBursts(events, watch.window - 1), i);
    }
  }

  ghost predicate NoScan(log: seq<Outcome>) {
    forall i :: 0 <= i < |log| ==> !log[i].scan
  }

  /** So 24 readings on either side of a roll raise none. */
  lemma FewReadingsPass(watch: Watch, setup: Setup, events: seq<NetworkEvent>)
    requires CountsBuckets(watch, setup) && watch.window >= 2 && |events| == 48
    ensures NoScan(Outcomes(watch, 0, TwoBursts(events, watch.window - 1)))
  {
    var log := Outcomes(watch, 0, TwoBursts(events, watch.window - 1));
    forall i | 0 <= i < |log| ensures !log[i].scan { FewReadingsPassAt(watch, setup, events, i); }
  }
}
