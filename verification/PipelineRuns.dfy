/** The pipeline's shards, producer and counters together, over every schedule. */
module PipelineRuns {
  import opened Words
  import opened Models
  import opened MpmcQueue
  import opened QueueFifo
  import opened QueueFifoWrap
  import opened Pipeline
  import opened PipelineInvariant

  // ---- What the producer did ----

  /** The offered events that went to a shard and were accepted, in order. */
  function Routed(route: Ip -> nat, offered: seq<NetworkEvent>, verdicts: seq<bool>, k: nat): seq<NetworkEvent>
    requires |verdicts| <= |offered|
  {
    if verdicts == [] then []
    else
      var i := |verdicts| - 1;
      Routed(route, offered, verdicts[..i], k)
      + if verdicts[i] && route(offered[i].srcIp) == k then [offered[i]] else []
  }

  /** How many pushes were refused. */
  function Refused(verdicts: seq<bool>): nat {
    if verdicts == [] then 0
    else Refused(verdicts[..|verdicts| - 1]) + if verdicts[|verdicts| - 1] then 0 else 1
  }

  lemma {:induction false} RoutedIgnoresNext(route: Ip -> nat, offered: seq<NetworkEvent>, event: NetworkEvent,
                                             verdicts: seq<bool>, k: nat)
    requires |verdicts| <= |offered|
    ensures Routed(route, offered + [event], verdicts, k) == Routed(route, offered, verdicts, k)
  {
    if verdicts != [] { RoutedIgnoresNext(route, offered, event, verdicts[..|verdicts| - 1], k); }
  }

  lemma RoutedStep(route: Ip -> nat, offered: seq<NetworkEvent>, verdicts: seq<bool>, v: bool, k: nat)
    requires |verdicts| < |offered|
    ensures Routed(route, offered, verdicts + [v], k) ==
            Routed(route, offered, verdicts, k)
            + if v && route(offered[|verdicts|].srcIp) == k then [offered[|verdicts|]] else []
    ensures Refused(verdicts + [v]) == Refused(verdicts) + if v then 0 else 1
  {
    assert (verdicts + [v])[..|verdicts|] == verdicts;
  }

  // ---- Sums over the shards ----

  function Total(f: Shard -> nat, shards: seq<Shard>): nat {
    if shards == [] then 0 else Total(f, shards[..|shards| - 1]) + f(shards[|shards| - 1])
  }

  lemma {:induction false} TotalUpdate(f: Shard -> nat, shards: seq<Shard>, k: nat, sh: Shard)
    requires k < |shards|
    ensures Total(f, shards[k := sh]) + f(shards[k]) == Total(f, shards) + f(sh)
  {
    var last := |shards| - 1;
    if k == last {
      assert shards[k := sh][..last] == shards[..last];
    } else {
      TotalUpdate(f, shards[..last], k, sh);
      assert shards[k := sh][..last] == shards[..last][k := sh];
    }
  }

  /** How many events a worker has counted. */
  function Processed(sh: Shard): nat {
    var recording := sh.pc.Recording? || sh.pc.Storing?;
    |sh.observations| + if sh.pc.Detecting? || (recording && !sh.pc.stage.Cep?) then 1 else 0
  }

  /** How many alerts a worker has counted: those it has added to the store, and the one it
      is about to. */
  function Fired(sh: Shard): nat {
    |sh.recorded| + if sh.pc.Storing? then 1 else 0
  }

  // ---- The invariant ----

  ghost predicate RoutingOk(route: Ip -> nat, producer: Producer, offered: seq<NetworkEvent>, verdicts: seq<bool>) {
    && |offered| == |verdicts| + (if producer.Pushing? then 1 else 0)
    && (producer.Pushing? ==> offered[|verdicts|] == producer.event)
    && (producer.Dropping? ==> verdicts != [] && !verdicts[|verdicts| - 1])
  }

  /** A shard with the producer's thread on its queue, and what the producer sent it. */
  ghost predicate ShardIn(cfg: Config, producer: Producer, k: nat, sh: Shard, routed: seq<NetworkEvent>)
    requires cfg.capacity >= 2
  {
    ShardOk(cfg, sh) && ProducerAt(cfg, producer, k, sh.schedule) && sh.accepted == routed
  }

  ghost predicate ShardsOk(cfg: Config, s: System)
    requires cfg.capacity >= 2 && |s.verdicts| <= |s.offered|
  {
    forall k {:trigger Routed(cfg.route, s.offered, s.verdicts, k)} :: 0 <= k < |s.shards| ==>
      ShardIn(cfg, s.producer, k, s.shards[k], Routed(cfg.route, s.offered, s.verdicts, k))
  }

  ghost predicate StatsOk(s: System) {
    && s.stats.eventsDropped == (Refused(s.verdicts) - if s.producer.Dropping? then 1 else 0) % WORD
    && s.stats.eventsProcessed == Total(Processed, s.shards) % WORD
    && s.stats.alertsFired == Total(Fired, s.shards) % WORD
  }

  ghost predicate SystemOk(cfg: Config, s: System) {
    && Fits(cfg.arithmetic, cfg.capacity) && Wellformed(cfg, s)
    && RoutingOk(cfg.route, s.producer, s.offered, s.verdicts)
    && ShardsOk(cfg, s) && StatsOk(s)
  }

  lemma BumpIsNext(counter: nat, n: int)
    requires counter == n % WORD
    ensures Bump(counter) == (n + 1) % WORD
  {
  }

  // ---- The moves ----

  lemma {:induction false} TotalOfNew(f: Shard -> nat, cfg: Config, starts: seq<nat>, n: nat)
    requires n <= |starts| && forall start: nat :: f(NewShard(cfg, start)) == 0
    ensures Total(f, NewSystem(cfg, starts).shards[..n]) == 0
  {
    if n > 0 {
      TotalOfNew(f, cfg, starts, n - 1);
      assert NewSystem(cfg, starts).shards[..n][..n - 1] == NewSystem(cfg, starts).shards[..n - 1];
    }
  }

  lemma NewShardsOk(cfg: Config, starts: seq<nat>)
    requires Sound(cfg, starts)
    ensures ShardsOk(cfg, NewSystem(cfg, starts))
  {
    var s := NewSystem(cfg, starts);
    forall k | 0 <= k < |s.shards| ensures ShardIn(cfg, Ready, k, s.shards[k], Routed(cfg.route, [], [], k)) {
      NewShardOk(cfg, starts[k], k);
    }
  }

  lemma NewStatsOk(cfg: Config, starts: seq<nat>)
    ensures StatsOk(NewSystem(cfg, starts))
  {
    TotalOfNew(Processed, cfg, starts, |starts|);
    TotalOfNew(Fired, cfg, starts, |starts|);
    var shards := NewSystem(cfg, starts).shards;
    assert shards[..|starts|] == shards;
  }

  lemma NewSystemOk(cfg: Config, starts: seq<nat>)
    requires Sound(cfg, starts)
    ensures SystemOk(cfg, NewSystem(cfg, starts))
  {
    NewShardsOk(cfg, starts);
    NewStatsOk(cfg, starts);
  }

  /** The producer's thread rests on every queue but that of the event it is pushing. */
  ghost predicate Elsewhere(cfg: Config, producer: Producer, k: nat) {
    producer.Pushing? ==> cfg.route(producer.event.srcIp) != k
  }

  /** A shard that the producer is not concerned with does not notice what it does. */
  lemma ProducerElsewhere(cfg: Config, producer: Producer, producer': Producer, k: nat, sh: Shard,
                          routed: seq<NetworkEvent>)
    requires cfg.capacity >= 2 && ShardIn(cfg, producer, k, sh, routed)
    requires Elsewhere(cfg, producer, k) && Elsewhere(cfg, producer', k)
    ensures ShardIn(cfg, producer', k, sh, routed)
  {
  }

  /** A move that counts and records nothing. */
  lemma SameTotals(s: System, s': System, k: nat)
    requires k < |s.shards| == |s'.shards| && s'.shards == s.shards[k := s'.shards[k]]
    requires Processed(s'.shards[k]) == Processed(s.shards[k]) && Fired(s'.shards[k]) == Fired(s.shards[k])
    ensures Total(Processed, s'.shards) == Total(Processed, s.shards)
    ensures Total(Fired, s'.shards) == Total(Fired, s.shards)
  {
    TotalUpdate(Processed, s.shards, k, s'.shards[k]);
    TotalUpdate(Fired, s.shards, k, s'.shards[k]);
  }

  lemma OfferedShard(cfg: Config, s: System, event: NetworkEvent, k: nat)
    requires SystemOk(cfg, s) && s.producer.Ready? && k < |s.shards|
    ensures var s' := OfferStep(cfg, s, event);
            |s'.verdicts| <= |s'.offered|
            && ShardIn(cfg, s'.producer, k, s'.shards[k], Routed(cfg.route, s'.offered, s'.verdicts, k))
  {
    var routed := Routed(cfg.route, s.offered, s.verdicts, k);
    assert ShardIn(cfg, s.producer, k, s.shards[k], routed);
    RoutedIgnoresNext(cfg.route, s.offered, event, s.verdicts, k);
    if k == cfg.route(event.srcIp) {
      BeginPushOk(cfg, s.shards[k], event);
    } else {
      ProducerElsewhere(cfg, s.producer, Pushing(event), k, s.shards[k], routed);
    }
  }

  lemma OfferKeepsStats(cfg: Config, s: System, event: NetworkEvent)
    requires Wellformed(cfg, s) && StatsOk(s) && s.producer.Ready?
    ensures StatsOk(OfferStep(cfg, s, event))
  {
    SameTotals(s, OfferStep(cfg, s, event), cfg.route(event.srcIp));
  }

  lemma OfferKeepsShards(cfg: Config, s: System, event: NetworkEvent)
    requires SystemOk(cfg, s) && s.producer.Ready?
    ensures var s' := OfferStep(cfg, s, event); |s'.verdicts| <= |s'.offered| && ShardsOk(cfg, s')
  {
    var s' := OfferStep(cfg, s, event);
    forall k | 0 <= k < |s'.shards|
      ensures ShardIn(cfg, s'.producer, k, s'.shards[k], Routed(cfg.route, s'.offered, s'.verdicts, k))
    {
      OfferedShard(cfg, s, event, k);
    }
  }

  lemma OfferOk(cfg: Config, s: System, event: NetworkEvent)
    requires SystemOk(cfg, s) && s.producer.Ready?
    ensures SystemOk(cfg, OfferStep(cfg, s, event))
  {
    OfferKeepsShards(cfg, s, event);
    OfferKeepsStats(cfg, s, event);
  }

  /** What a step of a push does to the producer and to its log. */
  lemma PushVerdict(cfg: Config, s: System, event: NetworkEvent, spurious: bool)
    requires Wellformed(cfg, s) && RoutingOk(cfg.route, s.producer, s.offered, s.verdicts)
             && s.producer == Pushing(event)
    ensures var s' := PushStep(cfg, s, event, spurious);
            var th := s'.shards[cfg.route(event.srcIp)].queue.threads[PRODUCER];
            && s'.offered == s.offered && RoutingOk(cfg.route, s'.producer, s'.offered, s'.verdicts)
            && s'.verdicts == (if th.Returned? then s.verdicts + [th.reply.PushOk?] else s.verdicts)
            && s'.producer == (if th.Returned? then if th.reply.PushOk? then Ready else Dropping else s.producer)
            && Refused(s'.verdicts) == Refused(s.verdicts) + if s'.producer.Dropping? then 1 else 0
  {
    RoutedStep(cfg.route, s.offered, s.verdicts, true, 0);
    RoutedStep(cfg.route, s.offered, s.verdicts, false, 0);
  }

  lemma PushedShard(cfg: Config, s: System, event: NetworkEvent, spurious: bool)
    requires SystemOk(cfg, s) && s.producer == Pushing(event)
    ensures var s', k := PushStep(cfg, s, event, spurious), cfg.route(event.srcIp);
            |s'.verdicts| <= |s'.offered|
            && ShardIn(cfg, s'.producer, k, s'.shards[k], Routed(cfg.route, s'.offered, s'.verdicts, k))
  {
    var k := cfg.route(event.srcIp);
    assert ShardIn(cfg, s.producer, k, s.shards[k], Routed(cfg.route, s.offered, s.verdicts, k));
    PushVerdict(cfg, s, event, spurious);
    StepPushOk(cfg, s.shards[k], event, spurious);
    RoutedStep(cfg.route, s.offered, s.verdicts, true, k);
    RoutedStep(cfg.route, s.offered, s.verdicts, false, k);
  }

  lemma OtherQueue(cfg: Config, s: System, s': System, k: nat)
    requires SystemOk(cfg, s) && s.producer.Pushing? && k < |s.shards| && Elsewhere(cfg, s.producer, k)
    requires k < |s'.shards| && s'.shards[k] == s.shards[k] && s'.offered == s.offered && Elsewhere(cfg, s'.producer, k)
    requires s'.verdicts == s.verdicts || s'.verdicts == s.verdicts + [true] || s'.verdicts == s.verdicts + [false]
    ensures |s'.verdicts| <= |s'.offered|
    ensures ShardIn(cfg, s'.producer, k, s'.shards[k], Routed(cfg.route, s'.offered, s'.verdicts, k))
  {
    var routed := Routed(cfg.route, s.offered, s.verdicts, k);
    assert ShardIn(cfg, s.producer, k, s.shards[k], routed);
    RoutedStep(cfg.route, s.offered, s.verdicts, true, k);
    RoutedStep(cfg.route, s.offered, s.verdicts, false, k);
    ProducerElsewhere(cfg, s.producer, s'.producer, k, s.shards[k], routed);
  }

  lemma PushKeepsStats(cfg: Config, s: System, event: NetworkEvent, spurious: bool)
    requires Wellformed(cfg, s) && RoutingOk(cfg.route, s.producer, s.offered, s.verdicts)
    requires StatsOk(s) && s.producer == Pushing(event)
    ensures StatsOk(PushStep(cfg, s, event, spurious))
  {
    PushVerdict(cfg, s, event, spurious);
    SameTotals(s, PushStep(cfg, s, event, spurious), cfg.route(event.srcIp));
  }

  lemma PushKeepsShards(cfg: Config, s: System, event: NetworkEvent, spurious: bool)
    requires SystemOk(cfg, s) && s.producer == Pushing(event)
    ensures var s' := PushStep(cfg, s, event, spurious); |s'.verdicts| <= |s'.offered| && ShardsOk(cfg, s')
  {
    var s' := PushStep(cfg, s, event, spurious);
    PushVerdict(cfg, s, event, spurious);
    forall k | 0 <= k < |s'.shards|
      ensures ShardIn(cfg, s'.producer, k, s'.shards[k], Routed(cfg.route, s'.offered, s'.verdicts, k))
    {
      if k == cfg.route(event.srcIp) { PushedShard(cfg, s, event, spurious); } else { OtherQueue(cfg, s, s', k); }
    }
  }

  lemma PushOk(cfg: Config, s: System, event: NetworkEvent, spurious: bool)
    requires SystemOk(cfg, s) && s.producer == Pushing(event)
    ensures SystemOk(cfg, PushStep(cfg, s, event, spurious))
  {
    PushVerdict(cfg, s, event, spurious);
    PushKeepsStats(cfg, s, event, spurious);
    PushKeepsShards(cfg, s, event, spurious);
  }

  lemma DropKeepsShards(cfg: Config, s: System, s': System)
    requires SystemOk(cfg, s) && s.producer.Dropping? && s'.producer.Ready?
    requires s'.shards == s.shards && s'.offered == s.offered && s'.verdicts == s.verdicts
    ensures |s'.verdicts| <= |s'.offered| && ShardsOk(cfg, s')
  {
    forall k | 0 <= k < |s.shards|
      ensures ShardIn(cfg, s'.producer, k, s.shards[k], Routed(cfg.route, s.offered, s.verdicts, k))
    {
      ProducerElsewhere(cfg, s.producer, s'.producer, k, s.shards[k], Routed(cfg.route, s.offered, s.verdicts, k));
    }
  }

  lemma DropOk(cfg: Config, s: System)
    requires SystemOk(cfg, s) && s.producer.Dropping?
    ensures SystemOk(cfg, Pipeline.Next(cfg, s, Produce(false)))
  {
    DropKeepsShards(cfg, s, Pipeline.Next(cfg, s, Produce(false)));
    BumpIsNext(s.stats.eventsDropped, Refused(s.verdicts) - 1);
  }

  lemma WorkedShard(cfg: Config, producer: Producer, k: nat, sh: Shard, routed: seq<NetworkEvent>, m: Move)
    requires Fits(cfg.arithmetic, cfg.capacity) && ShardIn(cfg, producer, k, sh, routed) && m.Work? && Sized(sh)
    ensures ShardIn(cfg, producer, k, WorkOn(cfg, sh, m), routed)
  {
    PipelineInvariant.WorkOk(cfg, sh, m);
    ProducerStays(cfg, producer, k, sh.schedule, WorkOn(cfg, sh, m).schedule);
  }

  lemma ProducerStays(cfg: Config, producer: Producer, k: nat, schedule: seq<Action<NetworkEvent>>,
                      schedule': seq<Action<NetworkEvent>>)
    requires cfg.capacity >= 2 && ProducerAt(cfg, producer, k, schedule) && ProducerUntouched(cfg, schedule, schedule')
    ensures ProducerAt(cfg, producer, k, schedule')
  {
  }

  /** A worker's step processes or records exactly what it counts. */
  lemma WorkCounts(cfg: Config, sh: Shard, m: Move)
    requires Sized(sh) && m.Work? && (sh.pc.Storing? ==> sh.pc.pending != [])
    ensures var sh' := WorkOn(cfg, sh, m);
            && Processed(sh') == Processed(sh) + (if sh.pc.Counting? then 1 else 0)
            && Fired(sh') == Fired(sh) + (if sh.pc.Recording? && sh.pc.pending != [] then 1 else 0)
  {
  }

  /** The bumps of the counters follow the sums over the shards. */
  lemma CountersFollow(s: System, s': System, k: nat, processed: nat, fired: nat)
    requires StatsOk(s) && k < |s.shards| && |s'.shards| == |s.shards| && s'.shards == s.shards[k := s'.shards[k]]
    requires processed <= 1 && Processed(s'.shards[k]) == Processed(s.shards[k]) + processed
    requires fired <= 1 && Fired(s'.shards[k]) == Fired(s.shards[k]) + fired
    requires s'.stats.eventsProcessed ==
             if processed == 1 then Bump(s.stats.eventsProcessed) else s.stats.eventsProcessed
    requires s'.stats.alertsFired == if fired == 1 then Bump(s.stats.alertsFired) else s.stats.alertsFired
    requires s'.stats.eventsDropped == s.stats.eventsDropped && s'.verdicts == s.verdicts && s'.producer == s.producer
    ensures StatsOk(s')
  {
    TotalUpdate(Processed, s.shards, k, s'.shards[k]);
    TotalUpdate(Fired, s.shards, k, s'.shards[k]);
    BumpIsNext(s.stats.eventsProcessed, Total(Processed, s.shards));
    BumpIsNext(s.stats.alertsFired, Total(Fired, s.shards));
  }

  lemma WorkedStats(cfg: Config, s: System, m: Move)
    requires Wellformed(cfg, s) && StatsOk(s) && m.Work? && m.shard < |s.shards|
    requires var pc := s.shards[m.shard].pc; pc.Storing? ==> pc.pending != []
    ensures StatsOk(WorkStep(cfg, s, m))
  {
    var k, pc := m.shard, s.shards[m.shard].pc;
    WorkCounts(cfg, s.shards[k], m);
    CountersFollow(s, WorkStep(cfg, s, m), k, if pc.Counting? then 1 else 0,
                   if pc.Recording? && pc.pending != [] then 1 else 0);
  }

  lemma WorkKeepsShards(cfg: Config, s: System, m: Move)
    requires SystemOk(cfg, s) && m.Work? && m.shard < |s.shards|
    ensures ShardsOk(cfg, WorkStep(cfg, s, m))
  {
    var s' := WorkStep(cfg, s, m);
    forall k | 0 <= k < |s'.shards|
      ensures ShardIn(cfg, s.producer, k, s'.shards[k], Routed(cfg.route, s.offered, s.verdicts, k))
    {
      var routed := Routed(cfg.route, s.offered, s.verdicts, k);
      assert ShardIn(cfg, s.producer, k, s.shards[k], routed);
      if k == m.shard { WorkedShard(cfg, s.producer, k, s.shards[k], routed, m); }
    }
  }

  lemma WorkOk(cfg: Config, s: System, m: Move)
    requires SystemOk(cfg, s) && m.Work? && m.shard < |s.shards|
    ensures SystemOk(cfg, WorkStep(cfg, s, m))
  {
    assert ShardIn(cfg, s.producer, m.shard, s.shards[m.shard], Routed(cfg.route, s.offered, s.verdicts, m.shard));
    WorkedStats(cfg, s, m);
    WorkKeepsShards(cfg, s, m);
  }

  lemma NextOk(cfg: Config, s: System, m: Move)
    requires SystemOk(cfg, s)
    ensures SystemOk(cfg, Pipeline.Next(cfg, s, m))
  {
    match m
    case Offer(event) => if s.producer.Ready? { OfferOk(cfg, s, event); }
    case Produce(spurious) =>
      if s.producer.Pushing? { PushOk(cfg, s, s.producer.event, spurious); }
      else if s.producer.Dropping? { DropOk(cfg, s); }
    case Work(k, _, _, _, _) => if k < |s.shards| { WorkOk(cfg, s, m); }
  }

  lemma {:induction false} RunOk(cfg: Config, starts: seq<nat>, moves: seq<Move>)
    requires Sound(cfg, starts)
    ensures SystemOk(cfg, Pipeline.Run(cfg, starts, moves))
  {
    if moves == [] {
      NewSystemOk(cfg, starts);
    } else {
      RunOk(cfg, starts, moves[..|moves| - 1]);
      NextOk(cfg, Pipeline.Run(cfg, starts, moves[..|moves| - 1]), moves[|moves| - 1]);
    }
  }
}
