/** What holds of the pipeline's events in every reachable state: nothing is lost or invented,
    and each source keeps its order and its worker. */
module PipelineTheory {
  import opened Wrappers
  import opened Words
  import opened Models
  import opened Sequences
  import opened MpmcQueue
  import opened QueueFifo
  import opened QueueFifoWrap
  import opened QueueCalls
  import opened Pipeline
  import opened PipelineInvariant
  import opened PipelineRuns

  // ---- Conservation ----

  function Accepted(sh: Shard): nat {
    |sh.accepted|
  }

  function Popped(sh: Shard): nat {
    |sh.popped|
  }

  /** How many events each shard's queue holds. */
  ghost function Queued(capacity: nat): Shard -> nat {
    (sh: Shard) => if capacity >= 2 && AllWired(sh.schedule) then |Held(capacity, sh.schedule)| else 0
  }

  /** A worker between its pop and its increment of `events_processed`. */
  function BeforeCount(sh: Shard): nat {
    if sh.pc.Counting? then 1 else 0
  }

  lemma ShardBalance(cfg: Config, sh: Shard)
    requires cfg.capacity >= 2 && ShardOk(cfg, sh)
    ensures Accepted(sh) == Queued(cfg.capacity)(sh) + Popped(sh) && Popped(sh) == Processed(sh) + BeforeCount(sh)
  {
    ShardLedger(cfg, sh);
    PoppedAreCounted(sh);
  }

  lemma PoppedAreCounted(sh: Shard)
    requires sh.popped == Followed(sh.observations) + Unmatched(sh.pc)
    ensures Popped(sh) == Processed(sh) + BeforeCount(sh)
  {
  }

  lemma {:induction false} TotalsBalance(cfg: Config, shards: seq<Shard>)
    requires cfg.capacity >= 2 && forall k :: 0 <= k < |shards| ==> ShardOk(cfg, shards[k])
    ensures Total(Accepted, shards) == Total(Queued(cfg.capacity), shards) + Total(Popped, shards)
    ensures Total(Popped, shards) == Total(Processed, shards) + Total(BeforeCount, shards)
    ensures Total(BeforeCount, shards) <= |shards|
  {
    if shards != [] {
      TotalsBalance(cfg, shards[..|shards| - 1]);
      ShardBalance(cfg, shards[|shards| - 1]);
    }
  }

  /** How many of the offered events went to the first `n` shards and were accepted. */
  function RoutedTotal(route: Ip -> nat, offered: seq<NetworkEvent>, verdicts: seq<bool>, n: nat): nat
    requires |verdicts| <= |offered|
  {
    if n == 0 then 0 else RoutedTotal(route, offered, verdicts, n - 1) + |Routed(route, offered, verdicts, n - 1)|
  }

  lemma {:induction false} RoutedTotalStep(route: Ip -> nat, offered: seq<NetworkEvent>, verdicts: seq<bool>, n: nat)
    requires 0 < |verdicts| <= |offered|
    ensures var i := |verdicts| - 1;
            RoutedTotal(route, offered, verdicts, n) ==
            RoutedTotal(route, offered, verdicts[..i], n) + if verdicts[i] && route(offered[i].srcIp) < n then 1 else 0
  {
    if n > 0 { RoutedTotalStep(route, offered, verdicts, n - 1); }
  }

  lemma {:induction false} RoutedTotalOfNone(route: Ip -> nat, offered: seq<NetworkEvent>, n: nat)
    ensures RoutedTotal(route, offered, [], n) == 0
  {
    if n > 0 { RoutedTotalOfNone(route, offered, n - 1); }
  }

  /** Every push that returned was either refused or accepted by exactly one shard. */
  lemma {:induction false} EveryVerdictCounts(route: Ip -> nat, offered: seq<NetworkEvent>, verdicts: seq<bool>, n: nat)
    requires |verdicts| <= |offered| && forall ip: Ip :: route(ip) < n
    ensures |verdicts| == Refused(verdicts) + RoutedTotal(route, offered, verdicts, n)
  {
    if verdicts == [] {
      RoutedTotalOfNone(route, offered, n);
    } else {
      EveryVerdictCounts(route, offered, verdicts[..|verdicts| - 1], n);
      RoutedTotalStep(route, offered, verdicts, n);
    }
  }

  lemma {:induction false} AcceptedIsRouted(route: Ip -> nat, offered: seq<NetworkEvent>, verdicts: seq<bool>,
                                            shards: seq<Shard>)
    requires |verdicts| <= |offered|
    requires forall k :: 0 <= k < |shards| ==> shards[k].accepted == Routed(route, offered, verdicts, k)
    ensures Total(Accepted, shards) == RoutedTotal(route, offered, verdicts, |shards|)
  {
    if shards != [] { AcceptedIsRouted(route, offered, verdicts, shards[..|shards| - 1]); }
  }

  /** What the producer has taken and not yet accounted for. */
  function WithProducer(producer: Producer): nat {
    if producer.Ready? then 0 else 1
  }

  /** Every offered event is accepted or refused, or its push has not returned; every
      accepted one is queued or popped; every popped one is counted, but for one at most
      per worker; and the counters say so, modulo 2^64. */
  ghost predicate Balanced(cfg: Config, s: System) {
    && |s.offered| == Refused(s.verdicts) + Total(Accepted, s.shards) + (if s.producer.Pushing? then 1 else 0)
    && Total(Accepted, s.shards) == Total(Queued(cfg.capacity), s.shards) + Total(Popped, s.shards)
    && Total(Popped, s.shards) == Total(Processed, s.shards) + Total(BeforeCount, s.shards)
    && Total(BeforeCount, s.shards) <= |s.shards|
    && (s.producer.Dropping? ==> Refused(s.verdicts) >= 1)
    && StatsOk(s)
  }

  lemma VerdictsBalance(cfg: Config, s: System)
    requires Wellformed(cfg, s) && RoutingOk(cfg.route, s.producer, s.offered, s.verdicts)
    requires forall k :: 0 <= k < |s.shards| ==> s.shards[k].accepted == Routed(cfg.route, s.offered, s.verdicts, k)
    ensures |s.offered| == Refused(s.verdicts) + Total(Accepted, s.shards) + (if s.producer.Pushing? then 1 else 0)
    ensures s.producer.Dropping? ==> Refused(s.verdicts) >= 1
  {
    EveryVerdictCounts(cfg.route, s.offered, s.verdicts, |s.shards|);
    AcceptedIsRouted(cfg.route, s.offered, s.verdicts, s.shards);
  }

  lemma Conservation(cfg: Config, starts: seq<nat>, moves: seq<Move>)
    requires Sound(cfg, starts)
    ensures Balanced(cfg, Pipeline.Run(cfg, starts, moves))
  {
    var s := Pipeline.Run(cfg, starts, moves);
    RunOk(cfg, starts, moves);
    forall k | 0 <= k < |s.shards|
      ensures ShardOk(cfg, s.shards[k]) && s.shards[k].accepted == Routed(cfg.route, s.offered, s.verdicts, k)
    {
      assert ShardIn(cfg, s.producer, k, s.shards[k], Routed(cfg.route, s.offered, s.verdicts, k));
    }
    TotalsBalance(cfg, s.shards);
    VerdictsBalance(cfg, s);
  }

  lemma SmallEnough(n: int)
    requires 0 <= n < WORD
    ensures n % WORD == n
  {
  }

  /** Until 2^64 events are offered, the counters add up: offered events are processed,
      dropped, queued, or in the hands of the producer or of a worker. */
  lemma CountersAddUp(cfg: Config, starts: seq<nat>, moves: seq<Move>)
    requires Sound(cfg, starts) && |Pipeline.Run(cfg, starts, moves).offered| < WORD
    ensures var s := Pipeline.Run(cfg, starts, moves);
            |s.offered| == s.stats.eventsProcessed + s.stats.eventsDropped
                           + Total(Queued(cfg.capacity), s.shards) + Total(BeforeCount, s.shards)
                           + WithProducer(s.producer)
  {
    Conservation(cfg, starts, moves);
    CountersOf(cfg, Pipeline.Run(cfg, starts, moves));
  }

  lemma CountersOf(cfg: Config, s: System)
    requires Balanced(cfg, s) && |s.offered| < WORD
    ensures |s.offered| == s.stats.eventsProcessed + s.stats.eventsDropped
                           + Total(Queued(cfg.capacity), s.shards) + Total(BeforeCount, s.shards)
                           + WithProducer(s.producer)
  {
    SmallEnough(Total(Processed, s.shards));
    SmallEnough(Refused(s.verdicts) - if s.producer.Dropping? then 1 else 0);
  }

  // ---- Order and place ----

  /** The events of one source, in order. */
  function FromSource(events: seq<NetworkEvent>, ip: Ip): seq<NetworkEvent> {
    Filter((event: NetworkEvent) => event.srcIp == ip, events)
  }

  /** The events of one source that were offered and accepted, in order. */
  function AcceptedFrom(offered: seq<NetworkEvent>, verdicts: seq<bool>, ip: Ip): seq<NetworkEvent>
    requires |verdicts| <= |offered|
  {
    if verdicts == [] then []
    else
      var i := |verdicts| - 1;
      AcceptedFrom(offered, verdicts[..i], ip) + if verdicts[i] && offered[i].srcIp == ip then [offered[i]] else []
  }

  lemma FromSourceStep(earlier: seq<NetworkEvent>, event: NetworkEvent, there: bool, ip: Ip)
    ensures FromSource(earlier + if there then [event] else [], ip) ==
            FromSource(earlier, ip) + if there && event.srcIp == ip then [event] else []
  {
    FilterStep((e: NetworkEvent) => e.srcIp == ip, earlier, event);
    assert earlier + [] == earlier;
  }

  lemma {:induction false} RoutedFromSource(route: Ip -> nat, offered: seq<NetworkEvent>, verdicts: seq<bool>, k: nat,
                                            ip: Ip)
    requires |verdicts| <= |offered|
    ensures FromSource(Routed(route, offered, verdicts, k), ip) ==
            if route(ip) == k then AcceptedFrom(offered, verdicts, ip) else []
  {
    if verdicts != [] {
      var i := |verdicts| - 1;
      var earlier := Routed(route, offered, verdicts[..i], k);
      RoutedFromSource(route, offered, verdicts[..i], k, ip);
      FromSourceStep(earlier, offered[i], verdicts[i] && route(offered[i].srcIp) == k, ip);
    }
  }

  lemma FromSourcePrefix(events: seq<NetworkEvent>, inHand: seq<NetworkEvent>, popped: seq<NetworkEvent>,
                         held: seq<NetworkEvent>, accepted: seq<NetworkEvent>, ip: Ip)
    requires popped == events + inHand && accepted == popped + held
    ensures FromSource(events, ip) <= FromSource(accepted, ip)
  {
    FilterConcat((event: NetworkEvent) => event.srcIp == ip, events, inHand + held);
    assert accepted == events + (inHand + held);
  }

  lemma ShardLedger(cfg: Config, sh: Shard)
    requires cfg.capacity >= 2 && ShardOk(cfg, sh)
    ensures sh.popped == Observed(sh.readings) + Unobserved(sh.pc) == Followed(sh.observations) + Unmatched(sh.pc)
    ensures sh.popped == Scanned(sh.scans) + Unscanned(sh.pc)
    ensures AllWired(sh.schedule) && sh.accepted == sh.popped + Held(cfg.capacity, sh.schedule)
  {
  }

  /** What the detectors of a shard were run on are prefixes of what its queue took in. */
  lemma RunEventsArePrefixes(cfg: Config, sh: Shard, ip: Ip)
    requires cfg.capacity >= 2 && ShardOk(cfg, sh)
    ensures FromSource(Observed(sh.readings), ip) <= FromSource(sh.accepted, ip)
    ensures FromSource(Followed(sh.observations), ip) <= FromSource(sh.accepted, ip)
    ensures FromSource(Scanned(sh.scans), ip) <= FromSource(sh.accepted, ip)
  {
    ShardLedger(cfg, sh);
    var held := Held(cfg.capacity, sh.schedule);
    FromSourcePrefix(Scanned(sh.scans), Unscanned(sh.pc), sh.popped, held, sh.accepted, ip);
    FromSourcePrefix(Observed(sh.readings), Unobserved(sh.pc), sh.popped, held, sh.accepted, ip);
    FromSourcePrefix(Followed(sh.observations), Unmatched(sh.pc), sh.popped, held, sh.accepted, ip);
  }

  /** Each source's events, as either detector was run on them, are an in-order prefix of
      its accepted ones, which are those of its offered events that were not refused, in
      order; and all of them are on the one worker that the source is routed to. */
  lemma SourceInOrderOnOneWorker(cfg: Config, starts: seq<nat>, moves: seq<Move>, k: nat, ip: Ip)
    requires Sound(cfg, starts) && k < |starts|
    ensures var s := Pipeline.Run(cfg, starts, moves);
            var sh := s.shards[k];
            && |s.verdicts| <= |s.offered|
            && FromSource(sh.accepted, ip) ==
               (if cfg.route(ip) == k then AcceptedFrom(s.offered, s.verdicts, ip) else [])
            && FromSource(Scanned(sh.scans), ip) <= FromSource(sh.accepted, ip)
            && FromSource(Observed(sh.readings), ip) <= FromSource(sh.accepted, ip)
            && FromSource(Followed(sh.observations), ip) <= FromSource(sh.accepted, ip)
  {
    var s := Pipeline.Run(cfg, starts, moves);
    RunOk(cfg, starts, moves);
    assert ShardIn(cfg, s.producer, k, s.shards[k], Routed(cfg.route, s.offered, s.verdicts, k));
    RoutedFromSource(cfg.route, s.offered, s.verdicts, k, ip);
    RunEventsArePrefixes(cfg, s.shards[k], ip);
  }

  // ---- The queues ----

  /** Under either arithmetic each worker's queue has gone through a schedule of one producer
      and one consumer, and shows the unbounded machine's state after it: so everything
      proved of that machine holds of the 64-bit queues of a running pipeline. */
  lemma QueuesAreViews(cfg: Config, starts: seq<nat>, moves: seq<Move>, k: nat)
    requires Sound(cfg, starts) && k < |starts|
    ensures var sh := Pipeline.Run(cfg, starts, moves).shards[k];
            && AllWired(sh.schedule)
            && sh.queue == MpmcQueue.Run(cfg.arithmetic, New(cfg.capacity, 2), sh.schedule)
            && sh.queue == View(cfg.arithmetic, Reach(cfg.capacity, 2, sh.schedule).q)
            && FifoRun(cfg.capacity, Effects(cfg.capacity, sh.schedule)) == Some(Held(cfg.capacity, sh.schedule))
  {
    var s := Pipeline.Run(cfg, starts, moves);
    RunOk(cfg, starts, moves);
    assert ShardIn(cfg, s.producer, k, s.shards[k], Routed(cfg.route, s.offered, s.verdicts, k));
    RunsAreViews(cfg.arithmetic, cfg.capacity, s.shards[k].schedule);
    RunsAreFifoRuns(cfg.capacity, s.shards[k].schedule);
  }

  /** An event is dropped exactly when its worker's queue is full at the push's decision,
      and otherwise goes to the end of that queue. */
  lemma DroppedExactlyWhenFull(cfg: Config, starts: seq<nat>, moves: seq<Move>, spurious: bool)
    requires Sound(cfg, starts) && Pipeline.Run(cfg, starts, moves).producer.Pushing?
    ensures var s := Pipeline.Run(cfg, starts, moves);
            var event, s' := s.producer.event, Pipeline.Next(cfg, s, Produce(spurious));
            var k := cfg.route(event.srcIp);
            && AllWired(s.shards[k].schedule) && AllWired(s'.shards[k].schedule)
            && var held, held' := Held(cfg.capacity, s.shards[k].schedule), Held(cfg.capacity, s'.shards[k].schedule);
               && (s'.producer.Dropping? ==> |held| == cfg.capacity && held' == held)
               && (s'.producer.Ready? ==> |held| < cfg.capacity && held' == held + [event])
               && (s'.producer.Pushing? ==> s'.producer == s.producer && held' == held)
  {
    var s := Pipeline.Run(cfg, starts, moves);
    RunOk(cfg, starts, moves);
    PushDecides(cfg, s, spurious);
  }

  /** What a step of a push does to its worker's queue: it ends refused at a full queue,
      ends with the event at the end of the queue, or goes on and changes nothing. */
  lemma PushChanges(cfg: Config, sh: Shard, event: NetworkEvent, spurious: bool)
    requires Fits(cfg.arithmetic, cfg.capacity) && ShardOk(cfg, sh) && Sized(sh)
    requires Carrying(Reach(cfg.capacity, 2, sh.schedule), event)
    ensures var sh' := StepPush(cfg, sh, event, spurious);
            var th := sh'.queue.threads[PRODUCER];
            && AllWired(sh.schedule) && AllWired(sh'.schedule)
            && var held, held' := Held(cfg.capacity, sh.schedule), Held(cfg.capacity, sh'.schedule);
               && (th.Returned? && !th.reply.PushOk? ==> |held| == cfg.capacity && held' == held)
               && (th.Returned? && th.reply.PushOk? ==> |held| < cfg.capacity && held' == held + [event])
               && (!th.Returned? ==> held' == held)
  {
    StepPushOk(cfg, sh, event, spurious);
  }

  lemma PushDecides(cfg: Config, s: System, spurious: bool)
    requires SystemOk(cfg, s) && s.producer.Pushing?
    ensures var event, s' := s.producer.event, PushStep(cfg, s, s.producer.event, spurious);
            var k := cfg.route(event.srcIp);
            && AllWired(s.shards[k].schedule) && AllWired(s'.shards[k].schedule)
            && var held, held' := Held(cfg.capacity, s.shards[k].schedule), Held(cfg.capacity, s'.shards[k].schedule);
               && (s'.producer.Dropping? ==> |held| == cfg.capacity && held' == held)
               && (s'.producer.Ready? ==> |held| < cfg.capacity && held' == held + [event])
               && (s'.producer.Pushing? ==> s'.producer == s.producer && held' == held)
  {
    var event := s.producer.event;
    var k := cfg.route(event.srcIp);
    assert ShardIn(cfg, s.producer, k, s.shards[k], Routed(cfg.route, s.offered, s.verdicts, k));
    PushVerdict(cfg, s, event, spurious);
    PushChanges(cfg, s.shards[k], event, spurious);
  }
}
