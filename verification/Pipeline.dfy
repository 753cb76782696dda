/** The whole pipeline as a machine: one producer that routes events by source to a queue
    per worker and drops what a full queue refuses, and workers that pop, count, run their
    detectors one after the other and record each one's alerts before the next. Every
    atomic access of a queue is a step of its own, so is every bump of a shared counter,
    and steps interleave in any order. */
module Pipeline {
  import opened Words
  import opened Models
  import opened MpmcQueue
  import opened QueueFifo
  import opened QueueFifoWrap
  import opened QueueCalls
  import opened CepSpec
  import opened DetectorSpec
  import opened Worker

  /** How events are routed, the arithmetic and size of the queues, and what the anomaly
      detector and the sequence matcher do: `EngineConfig` is what the engine puts here. */
  datatype Config = Config(
    route: Ip -> nat,
    arithmetic: Arithmetic,
    capacity: nat,
    observe: (Watching, Reading) -> (Watching, seq<Alert>),
    follow: (Matching, Observation) -> (Matching, seq<Alert>))

  datatype Stats = Stats(eventsProcessed: nat, eventsDropped: nat, alertsFired: nat)

  datatype Producer =
    | Ready                         // will take the next event from its source
    | Pushing(event: NetworkEvent)  // inside `push`
    | Dropping                      // was refused, will count the drop

  datatype WorkerPc =
    | Polling                                             // will call `pop`
    | Popping                                             // inside `pop`
    | Counting(event: NetworkEvent)                       // popped, will count the event
    | Detecting(event: NetworkEvent, stage: DetectorKind) // will run this detector
    | Recording(event: NetworkEvent, stage: DetectorKind, // will count the next of this
                pending: seq<Alert>)                      // detector's alerts
    | Storing(event: NetworkEvent, stage: DetectorKind,   // counted it, will take the lock
              pending: seq<Alert>)                        // and add it to the store

  /** An event and what the signature detector found in it. */
  datatype Scan = Scan(event: NetworkEvent, found: seq<Alert>)

  /** What one detector raised for one event. */
  datatype Batch = Batch(detector: DetectorKind, alerts: seq<Alert>)

  /** A queue with its worker, and what they have done: the moves made on the queue, the
      events it took in and gave out, what each detector was run on, and the alerts raised
      and recorded. */
  datatype Shard = Shard(
    queue: Queue<NetworkEvent>,
    schedule: seq<Action<NetworkEvent>>,
    pc: WorkerPc,
    start: nat,
    now: nat,
    watching: Watching,
    matching: Matching,
    accepted: seq<NetworkEvent>,
    popped: seq<NetworkEvent>,
    scans: seq<Scan>,
    readings: seq<Reading>,
    observations: seq<Observation>,
    raised: seq<Batch>,
    recorded: seq<Alert>)

  /** An alert that was added to the store, and by which worker. */
  datatype Entry = Entry(worker: nat, alert: Alert)

  /** The workers' queues and the workers, the producer, the counters, and the store of the
      latest alerts. Beside these: the events offered, for each push that returned whether it
      was accepted, and all that was ever added to the store. */
  datatype System = System(
    shards: seq<Shard>,
    producer: Producer,
    stats: Stats,
    store: seq<Alert>,
    offered: seq<NetworkEvent>,
    verdicts: seq<bool>,
    log: seq<Entry>)

  const ALERT_HISTORY_CAP: nat := 5000

  /** Add an alert to the store, and drop the oldest if there are then too many. */
  function Stored(store: seq<Alert>, alert: Alert): seq<Alert> {
    var longer := store + [alert];
    if |longer| > ALERT_HISTORY_CAP then longer[1..] else longer
  }

  /** A move of the scheduler, with all that the outside decides: the next event, whether a
      weak compare-exchange fails, the signature alerts, the readings of the clock. */
  datatype Move =
    | Offer(event: NetworkEvent)
    | Produce(spurious: bool)
    | Work(shard: nat, spurious: bool, signature: seq<Alert>, at: nat, resetAt: nat)

  function Bump(counter: nat): nat {
    (counter + 1) % WORD
  }

  ghost predicate Sized(sh: Shard) {
    |sh.queue.slots| > 0 && |sh.queue.threads| == 2
  }

  function NewShard(cfg: Config, start: nat): Shard {
    var queue := MpmcQueue.New(cfg.capacity, 2);
    Shard(queue, [], Polling, start, start, NewWatching(start), NewMatching(), [], [], [], [], [], [], [])
  }

  /** One move on the shard's queue. */
  function Act(cfg: Config, sh: Shard, a: Action<NetworkEvent>): (sh': Shard)
    requires Sized(sh)
    ensures Sized(sh')
  {
    sh.(queue := MpmcQueue.Next(cfg.arithmetic, sh.queue, a), schedule := sh.schedule + [a])
  }

  // ---- The producer's side of a shard ----

  function StepPush(cfg: Config, sh: Shard, event: NetworkEvent, spurious: bool): (sh': Shard)
    requires Sized(sh)
    ensures Sized(sh')
  {
    var moved := Act(cfg, sh, Step(PRODUCER, spurious));
    moved.(accepted := sh.accepted + Handed(moved.queue.threads[PRODUCER], event))
  }

  // ---- The worker's side of a shard ----

  /** What a worker does after a step of its pop. */
  function AfterPop(moved: Shard): (sh': Shard)
    requires Sized(moved)
    ensures Sized(sh')
  {
    match moved.queue.threads[CONSUMER]
    case Returned(PopSome(event)) => moved.(pc := Counting(event), popped := moved.popped + [event])
    case Returned(PopNone) => moved.(pc := Polling)
    case _ => moved
  }

  /** Where a worker goes on when a detector's remaining alerts are `pending`. */
  function AfterStage(event: NetworkEvent, stage: DetectorKind, pending: seq<Alert>): WorkerPc {
    if pending != [] then Recording(event, stage, pending)
    else
      match stage
      case Signature => Detecting(event, Anomaly)
      case Anomaly => Detecting(event, Cep)
      case Cep => Polling
  }

  function Raise(sh: Shard, event: NetworkEvent, stage: DetectorKind, alerts: seq<Alert>): Shard {
    sh.(pc := AfterStage(event, stage, alerts), raised := sh.raised + [Batch(stage, alerts)])
  }

  function RunSignature(sh: Shard, event: NetworkEvent, found: seq<Alert>): Shard {
    Raise(sh, event, Signature, Signatures(found)).(scans := sh.scans + [Scan(event, found)])
  }

  function RunAnomaly(cfg: Config, sh: Shard, r: Reading): Shard {
    var (watching, found) := cfg.observe(sh.watching, r);
    Raise(sh, r.event, Anomaly, found).(now := r.resetAt, watching := watching, readings := sh.readings + [r])
  }

  function RunCep(cfg: Config, sh: Shard, o: Observation): Shard {
    var (matching, matched) := cfg.follow(sh.matching, o);
    Raise(sh, o.event, Cep, matched).(now := o.at, matching := matching, observations := sh.observations + [o])
  }

  /** What the signature detector found; its alerts carry its name. */
  function Signatures(alerts: seq<Alert>): (signed: seq<Alert>)
    ensures |signed| == |alerts| && forall a :: a in signed ==> a.detector == Signature
  {
    seq(|alerts|, i requires 0 <= i < |alerts| => alerts[i].(detector := Signature))
  }

  function RecordNext(sh: Shard, event: NetworkEvent, stage: DetectorKind, pending: seq<Alert>): Shard
    requires pending != []
  {
    sh.(pc := AfterStage(event, stage, pending[1..]), recorded := sh.recorded + [pending[0]])
  }

  /** One detector on the event in hand. The clock does not run backwards: a detection with
      readings that would is no move. */
  function RunDetector(cfg: Config, sh: Shard, event: NetworkEvent, stage: DetectorKind, m: Move): (sh': Shard)
    requires Sized(sh) && m.Work?
    ensures Sized(sh')
  {
    match stage
    case Signature => RunSignature(sh, event, m.signature)
    case Anomaly => if sh.now <= m.at <= m.resetAt then RunAnomaly(cfg, sh, Reading(event, m.at, m.resetAt)) else sh
    case Cep => if sh.now <= m.at then RunCep(cfg, sh, Observation(event, m.at)) else sh
  }

  function WorkOn(cfg: Config, sh: Shard, m: Move): (sh': Shard)
    requires Sized(sh) && m.Work?
    ensures Sized(sh')
  {
    match sh.pc
    case Polling => Act(cfg, sh, CallPop(CONSUMER)).(pc := Popping)
    case Popping => AfterPop(Act(cfg, sh, Step(CONSUMER, m.spurious)))
    case Counting(event) => sh.(pc := Detecting(event, Signature))
    case Detecting(event, stage) => RunDetector(cfg, sh, event, stage, m)
    case Recording(event, stage, pending) =>
      sh.(pc := if pending == [] then AfterStage(event, stage, []) else Storing(event, stage, pending))
    case Storing(event, stage, pending) =>
      if pending == [] then sh.(pc := AfterStage(event, stage, [])) else RecordNext(sh, event, stage, pending)
  }

  // ---- The system ----

  ghost predicate Wellformed(cfg: Config, s: System) {
    && (forall ip: Ip :: cfg.route(ip) < |s.shards|)
    && (forall k :: 0 <= k < |s.shards| ==> Sized(s.shards[k]))
  }

  function NewSystem(cfg: Config, starts: seq<nat>): System {
    System(seq(|starts|, k requires 0 <= k < |starts| => NewShard(cfg, starts[k])),
           Ready, Stats(0, 0, 0), [], [], [], [])
  }

  ghost function OfferStep(cfg: Config, s: System, event: NetworkEvent): (s': System)
    requires Wellformed(cfg, s)
    ensures Wellformed(cfg, s') && |s'.shards| == |s.shards|
  {
    var k := cfg.route(event.srcIp);
    s.(shards := s.shards[k := Act(cfg, s.shards[k], CallPush(PRODUCER, event))],
       producer := Pushing(event), offered := s.offered + [event])
  }

  ghost function PushStep(cfg: Config, s: System, event: NetworkEvent, spurious: bool): (s': System)
    requires Wellformed(cfg, s)
    ensures Wellformed(cfg, s') && |s'.shards| == |s.shards|
  {
    var k := cfg.route(event.srcIp);
    var sh := StepPush(cfg, s.shards[k], event, spurious);
    var pushed := s.(shards := s.shards[k := sh]);
    match sh.queue.threads[PRODUCER]
    case Returned(PushOk) => pushed.(producer := Ready, verdicts := s.verdicts + [true])
    case Returned(_) => pushed.(producer := Dropping, verdicts := s.verdicts + [false])
    case _ => pushed
  }

  ghost function WorkStep(cfg: Config, s: System, m: Move): (s': System)
    requires Wellformed(cfg, s) && m.Work? && m.shard < |s.shards|
    ensures Wellformed(cfg, s') && |s'.shards| == |s.shards|
  {
    var sh := s.shards[m.shard];
    var processed := if sh.pc.Counting? then Bump(s.stats.eventsProcessed) else s.stats.eventsProcessed;
    var fired := if sh.pc.Recording? && sh.pc.pending != [] then Bump(s.stats.alertsFired) else s.stats.alertsFired;
    var stores := sh.pc.Storing? && sh.pc.pending != [];
    s.(shards := s.shards[m.shard := WorkOn(cfg, sh, m)],
       stats := s.stats.(eventsProcessed := processed, alertsFired := fired),
       store := if stores then Stored(s.store, sh.pc.pending[0]) else s.store,
       log := if stores then s.log + [Entry(m.shard, sh.pc.pending[0])] else s.log)
  }

  ghost function Next(cfg: Config, s: System, m: Move): (s': System)
    requires Wellformed(cfg, s)
    ensures Wellformed(cfg, s') && |s'.shards| == |s.shards|
  {
    match m
    case Offer(event) => if s.producer.Ready? then OfferStep(cfg, s, event) else s
    case Produce(spurious) =>
      (match s.producer
       case Ready => s
       case Pushing(event) => PushStep(cfg, s, event, spurious)
       case Dropping => s.(producer := Ready, stats := s.stats.(eventsDropped := Bump(s.stats.eventsDropped))))
    case Work(k, _, _, _, _) => if k < |s.shards| then WorkStep(cfg, s, m) else s
  }

  /** Each source goes to some worker, and the queues have a capacity that they may have. */
  ghost predicate Sound(cfg: Config, starts: seq<nat>) {
    (forall ip: Ip :: cfg.route(ip) < |starts|) && Fits(cfg.arithmetic, cfg.capacity)
  }

  /** The system after a schedule, its workers started at the given times. */
  ghost function Run(cfg: Config, starts: seq<nat>, moves: seq<Move>): (s: System)
    requires Sound(cfg, starts)
    ensures Wellformed(cfg, s) && |s.shards| == |starts|
  {
    if moves == [] then NewSystem(cfg, starts)
    else Next(cfg, Run(cfg, starts, moves[..|moves| - 1]), moves[|moves| - 1])
  }

  /** The engine's own wiring, with 64-bit queues. Routing by the key of the source address
      is sound for any number of workers. */
  ghost function EngineConfig(workerCount: nat, capacity: nat, setup: Setup, rules: seq<CepRule>): (cfg: Config)
    requires workerCount > 0
    ensures Fits(Wrapping, capacity) ==> forall starts: seq<nat> :: |starts| == workerCount ==> Sound(cfg, starts)
  {
    Config(ip => ShardOf(ip, workerCount), Wrapping, capacity, Observing(SketchWatch(setup)), Sequencing(rules))
  }
}
