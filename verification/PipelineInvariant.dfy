/** The invariant of one shard of the pipeline, kept by every step of its two threads. */
module PipelineInvariant {
  import opened Models
  import opened MpmcQueue
  import opened QueueFifo
  import opened QueueFifoWrap
  import opened QueueCalls
  import opened CepSpec
  import opened DetectorSpec
  import opened Worker
  import opened Pipeline
  import CepTheory
  import DetectorWindows
  import Mealy

  // ---- What a worker has in hand ----

  /** The event a worker has popped and not yet run through the signature detector. */
  function Unscanned(pc: WorkerPc): seq<NetworkEvent> {
    match pc
    case Counting(event) => [event]
    case Detecting(event, stage) => if stage.Signature? then [event] else []
    case _ => []
  }

  function Scanned(scans: seq<Scan>): (events: seq<NetworkEvent>)
    ensures |events| == |scans|
  {
    Mealy.Seen((scan: Scan) => scan.event, scans)
  }

  /** What the signature detector found, run by run. */
  function FoundByScans(scans: seq<Scan>): (found: seq<seq<Alert>>)
    ensures |found| == |scans|
  {
    Mealy.Seen((scan: Scan) => Signatures(scan.found), scans)
  }

  /** The event a worker has popped and not yet run through the anomaly detector. */
  function Unobserved(pc: WorkerPc): seq<NetworkEvent> {
    match pc
    case Counting(event) => [event]
    case Detecting(event, stage) => if stage.Cep? then [] else [event]
    case Recording(event, stage, _) => if stage.Signature? then [event] else []
    case Storing(event, stage, _) => if stage.Signature? then [event] else []
    case _ => []
  }

  /** The event a worker has popped and not yet run through the sequence matcher. */
  function Unmatched(pc: WorkerPc): seq<NetworkEvent> {
    match pc
    case Counting(event) => [event]
    case Detecting(event, _) => [event]
    case Recording(event, stage, _) => if stage.Cep? then [] else [event]
    case Storing(event, stage, _) => if stage.Cep? then [] else [event]
    case _ => []
  }

  function Unrecorded(pc: WorkerPc): seq<Alert> {
    if pc.Recording? || pc.Storing? then pc.pending else []
  }

  function Observed(readings: seq<Reading>): (events: seq<NetworkEvent>)
    ensures |events| == |readings|
  {
    Mealy.Seen((r: Reading) => r.event, readings)
  }

  function Followed(observations: seq<Observation>): (events: seq<NetworkEvent>)
    ensures |events| == |observations|
  {
    Mealy.Seen((o: Observation) => o.event, observations)
  }

  /** All alerts raised, in order. */
  function AllAlerts(raised: seq<Batch>): seq<Alert> {
    if raised == [] then [] else AllAlerts(raised[..|raised| - 1]) + raised[|raised| - 1].alerts
  }

  /** What one detector raised, run by run. */
  function RaisedBy(raised: seq<Batch>, detector: DetectorKind): seq<seq<Alert>> {
    if raised == [] then []
    else
      var last := raised[|raised| - 1];
      RaisedBy(raised[..|raised| - 1], detector) + if last.detector == detector then [last.alerts] else []
  }

  lemma RaisedStep(raised: seq<Batch>, batch: Batch, detector: DetectorKind)
    ensures AllAlerts(raised + [batch]) == AllAlerts(raised) + batch.alerts
    ensures RaisedBy(raised + [batch], detector) ==
            RaisedBy(raised, detector) + if batch.detector == detector then [batch.alerts] else []
  {
    assert (raised + [batch])[..|raised|] == raised;
  }

  // ---- The parts of the invariant ----

  /** The queue has gone through `schedule`, and holds what was accepted and not popped. */
  ghost predicate QueueOk(cfg: Config, queue: Queue<NetworkEvent>, schedule: seq<Action<NetworkEvent>>, popping: bool,
                          accepted: seq<NetworkEvent>, popped: seq<NetworkEvent>)
    requires cfg.capacity >= 2
  {
    var s := Reach(cfg.capacity, 2, schedule);
    && AllWired(schedule) && queue == View(cfg.arithmetic, s.q)
    && accepted == popped + Held(cfg.capacity, schedule)
    && (if popping then IsPopping(s.q.threads[CONSUMER]) else AtRest(s.q.threads[CONSUMER]))
  }

  /** A detector has gone through a run. */
  ghost predicate Went<S, R>(step: (S, R) -> (S, seq<Alert>), init: S, run: seq<R>, state: S, raised: seq<seq<Alert>>) {
    state == Mealy.After(step, init, run) && raised == Mealy.Outputs(step, init, run)
  }

  /** A worker's readings of the clock, in order. */
  ghost predicate TimeOk(start: nat, now: nat, readings: seq<Reading>, observations: seq<Observation>) {
    start <= now && ReadingsOk(start, now, readings) && ObservationsOk(now, observations)
  }

  ghost predicate ReadingsOk(start: nat, now: nat, readings: seq<Reading>) {
    && DetectorWindows.Clock(start, readings)
    && forall i :: 0 <= i < |readings| ==> readings[i].resetAt <= now
  }

  ghost predicate ObservationsOk(now: nat, observations: seq<Observation>) {
    && CepTheory.Clock(observations)
    && forall i :: 0 <= i < |observations| ==> observations[i].at <= now
  }

  lemma TimeOfReading(start: nat, now: nat, readings: seq<Reading>, observations: seq<Observation>, r: Reading)
    requires TimeOk(start, now, readings, observations) && now <= r.checkedAt <= r.resetAt
    ensures TimeOk(start, r.resetAt, readings + [r], observations)
  {
    assert ReadingsOk(start, r.resetAt, readings + [r]);
    assert ObservationsOk(r.resetAt, observations);
  }

  lemma TimeOfObservation(start: nat, now: nat, readings: seq<Reading>, observations: seq<Observation>, o: Observation)
    requires TimeOk(start, now, readings, observations) && now <= o.at
    ensures TimeOk(start, o.at, readings, observations + [o])
  {
    assert ReadingsOk(start, o.at, readings);
    assert ObservationsOk(o.at, observations + [o]);
  }

  /** Each detector has been run on all popped events but the one in hand, in order, and all
      alerts raised are recorded but those in hand. */
  ghost predicate LedgerOk(pc: WorkerPc, popped: seq<NetworkEvent>, observed: seq<NetworkEvent>,
                           followed: seq<NetworkEvent>,
                           recorded: seq<Alert>, alerts: seq<Alert>)
  {
    && popped == observed + Unobserved(pc) && popped == followed + Unmatched(pc)
    && alerts == recorded + Unrecorded(pc) && (pc.Recording? || pc.Storing? ==> pc.pending != [])
  }

  /** The signature detector has been run on all popped events but the one in hand, in order,
      and what it found was raised. */
  ghost predicate ScansOk(pc: WorkerPc, popped: seq<NetworkEvent>, scans: seq<Scan>, raised: seq<seq<Alert>>) {
    popped == Scanned(scans) + Unscanned(pc) && raised == FoundByScans(scans)
  }

  ghost predicate WorkerOk(cfg: Config, sh: Shard) {
    && LedgerOk(sh.pc, sh.popped, Observed(sh.readings), Followed(sh.observations), sh.recorded, AllAlerts(sh.raised))
    && ScansOk(sh.pc, sh.popped, sh.scans, RaisedBy(sh.raised, Signature))
    && Went(cfg.observe, NewWatching(sh.start), sh.readings, sh.watching, RaisedBy(sh.raised, Anomaly))
    && Went(cfg.follow, NewMatching(), sh.observations, sh.matching, RaisedBy(sh.raised, Cep))
    && TimeOk(sh.start, sh.now, sh.readings, sh.observations)
  }

  ghost predicate ShardOk(cfg: Config, sh: Shard)
    requires cfg.capacity >= 2
  {
    QueueOk(cfg, sh.queue, sh.schedule, sh.pc.Popping?, sh.accepted, sh.popped) && WorkerOk(cfg, sh)
  }

  /** What the producer's thread of a shard's queue is doing. */
  ghost predicate ProducerAt(cfg: Config, producer: Producer, k: nat, schedule: seq<Action<NetworkEvent>>)
    requires cfg.capacity >= 2
  {
    var s := Reach(cfg.capacity, 2, schedule);
    if producer.Pushing? && cfg.route(producer.event.srcIp) == k
    then Carrying(s, producer.event)
    else AtRest(s.q.threads[PRODUCER])
  }

  lemma NewShardOk(cfg: Config, start: nat, k: nat)
    requires Fits(cfg.arithmetic, cfg.capacity)
    ensures ShardOk(cfg, NewShard(cfg, start)) && ProducerAt(cfg, Ready, k, [])
  {
    ReachableFifoInv<NetworkEvent>(cfg.capacity, []);
    StartIsView<NetworkEvent>(cfg.arithmetic, cfg.capacity);
  }

  // ---- One queue ----

  /** A wired move takes the queue from the view of one state to the view of the next. */
  lemma QueueMoves(cfg: Config, queue: Queue<NetworkEvent>, schedule: seq<Action<NetworkEvent>>,
                   a: Action<NetworkEvent>)
    requires Fits(cfg.arithmetic, cfg.capacity) && AllWired(schedule) && Wired(a)
    requires queue == View(cfg.arithmetic, Reach(cfg.capacity, 2, schedule).q)
    ensures var s, s' := Reach(cfg.capacity, 2, schedule), Reach(cfg.capacity, 2, schedule + [a]);
            && AllWired(schedule + [a]) && s' == NextTraced(s, a) && FifoInv(s) && FifoInv(s')
            && Held(cfg.capacity, schedule) == Contents(s) && Held(cfg.capacity, schedule + [a]) == Contents(s')
            && MpmcQueue.Next(cfg.arithmetic, queue, a) == View(cfg.arithmetic, s'.q)
  {
    HeldNext(cfg.capacity, schedule, a);
    NextIsView(cfg.arithmetic, Reach(cfg.capacity, 2, schedule), a);
  }

  lemma QueueBeginPush(cfg: Config, queue: Queue<NetworkEvent>, schedule: seq<Action<NetworkEvent>>, popping: bool,
                       accepted: seq<NetworkEvent>, popped: seq<NetworkEvent>, event: NetworkEvent)
    requires Fits(cfg.arithmetic, cfg.capacity) && QueueOk(cfg, queue, schedule, popping, accepted, popped)
    requires AtRest(Reach(cfg.capacity, 2, schedule).q.threads[PRODUCER])
    ensures var a := CallPush(PRODUCER, event);
            && QueueOk(cfg, MpmcQueue.Next(cfg.arithmetic, queue, a), schedule + [a], popping, accepted, popped)
            && Carrying(Reach(cfg.capacity, 2, schedule + [a]), event)
  {
    QueueMoves(cfg, queue, schedule, CallPush(PRODUCER, event));
    PushBegins(Reach(cfg.capacity, 2, schedule), event);
  }

  /** One step of a push, to the producer. */
  ghost predicate PushMoved(cfg: Config, schedule: seq<Action<NetworkEvent>>, event: NetworkEvent,
                            schedule': seq<Action<NetworkEvent>>, th: Thread<NetworkEvent>)
    requires cfg.capacity >= 2 && AllWired(schedule) && AllWired(schedule')
  {
    var s', held := Reach(cfg.capacity, 2, schedule'), Held(cfg.capacity, schedule);
    && (if AtRest(th) then th.Returned? && AtRest(s'.q.threads[PRODUCER]) else Carrying(s', event))
    && (th.Returned? ==> if th.reply.PushOk? then |held| < cfg.capacity else |held| == cfg.capacity)
    && Held(cfg.capacity, schedule') == held + Handed(th, event)
  }

  lemma AcceptedMore(accepted: seq<NetworkEvent>, popped: seq<NetworkEvent>, contents: seq<NetworkEvent>,
                     handed: seq<NetworkEvent>, contents': seq<NetworkEvent>)
    requires accepted == popped + contents && contents' == contents + handed
    ensures accepted + handed == popped + contents'
  {
  }

  lemma QueueStepPush(cfg: Config, queue: Queue<NetworkEvent>, schedule: seq<Action<NetworkEvent>>, popping: bool,
                      accepted: seq<NetworkEvent>, popped: seq<NetworkEvent>, event: NetworkEvent, spurious: bool)
    requires Fits(cfg.arithmetic, cfg.capacity) && QueueOk(cfg, queue, schedule, popping, accepted, popped)
    requires Carrying(Reach(cfg.capacity, 2, schedule), event)
    ensures var a := Step(PRODUCER, spurious);
            var queue' := MpmcQueue.Next(cfg.arithmetic, queue, a);
            var th := queue'.threads[PRODUCER];
            && QueueOk(cfg, queue', schedule + [a], popping, accepted + Handed(th, event), popped)
            && PushMoved(cfg, schedule, event, schedule + [a], th)
  {
    var s, a := Reach(cfg.capacity, 2, schedule), Step(PRODUCER, spurious);
    QueueMoves(cfg, queue, schedule, a);
    var s' := NextTraced(s, a);
    StepOfPush(s, event, spurious);
    ThreadsInView(cfg.arithmetic, s'.q, PRODUCER);
    AcceptedMore(accepted, popped, Contents(s), Handed(s'.q.threads[PRODUCER], event), Contents(s'));
  }

  /** The producer's thread, and what it carries, are left alone. */
  ghost predicate ProducerUntouched(cfg: Config, schedule: seq<Action<NetworkEvent>>,
                                    schedule': seq<Action<NetworkEvent>>)
    requires cfg.capacity >= 2
  {
    var s, s' := Reach(cfg.capacity, 2, schedule), Reach(cfg.capacity, 2, schedule');
    s'.q.threads[PRODUCER] == s.q.threads[PRODUCER] && s'.h.claims == s.h.claims
  }

  lemma QueueBeginPop(cfg: Config, queue: Queue<NetworkEvent>, schedule: seq<Action<NetworkEvent>>,
                      accepted: seq<NetworkEvent>, popped: seq<NetworkEvent>)
    requires Fits(cfg.arithmetic, cfg.capacity) && QueueOk(cfg, queue, schedule, false, accepted, popped)
    ensures var a := CallPop(CONSUMER);
            && QueueOk(cfg, MpmcQueue.Next(cfg.arithmetic, queue, a), schedule + [a], true, accepted, popped)
            && ProducerUntouched(cfg, schedule, schedule + [a])
  {
    QueueMoves(cfg, queue, schedule, CallPop(CONSUMER));
    PopBegins(Reach(cfg.capacity, 2, schedule));
  }

  lemma PoppedMore(accepted: seq<NetworkEvent>, popped: seq<NetworkEvent>, contents: seq<NetworkEvent>,
                   gained: seq<NetworkEvent>, left: seq<NetworkEvent>)
    requires accepted == popped + contents && contents == gained + left
    ensures accepted == popped + gained + left
  {
  }

  lemma QueueStepPop(cfg: Config, queue: Queue<NetworkEvent>, schedule: seq<Action<NetworkEvent>>,
                     accepted: seq<NetworkEvent>, popped: seq<NetworkEvent>, spurious: bool)
    requires Fits(cfg.arithmetic, cfg.capacity) && QueueOk(cfg, queue, schedule, true, accepted, popped)
    ensures var a := Step(CONSUMER, spurious);
            var queue' := MpmcQueue.Next(cfg.arithmetic, queue, a);
            var th := queue'.threads[CONSUMER];
            && ProducerUntouched(cfg, schedule, schedule + [a])
            && QueueOk(cfg, queue', schedule + [a], !AtRest(th), accepted, popped + Gained(th))
            && (AtRest(th) ==> th.Returned? && (th.reply.PopSome? || th.reply.PopNone?))
  {
    var s, a := Reach(cfg.capacity, 2, schedule), Step(CONSUMER, spurious);
    QueueMoves(cfg, queue, schedule, a);
    var s' := NextTraced(s, a);
    StepOfPop(s, spurious);
    ThreadsInView(cfg.arithmetic, s'.q, CONSUMER);
    PoppedMore(accepted, popped, Contents(s), Gained(s'.q.threads[CONSUMER]), Contents(s'));
  }

  // ---- The producer's steps on a shard ----

  lemma BeginPushOk(cfg: Config, sh: Shard, event: NetworkEvent)
    requires Fits(cfg.arithmetic, cfg.capacity) && ShardOk(cfg, sh) && Sized(sh)
    requires AtRest(Reach(cfg.capacity, 2, sh.schedule).q.threads[PRODUCER])
    ensures var sh' := Act(cfg, sh, CallPush(PRODUCER, event));
            ShardOk(cfg, sh') && Carrying(Reach(cfg.capacity, 2, sh'.schedule), event)
  {
    QueueBeginPush(cfg, sh.queue, sh.schedule, sh.pc.Popping?, sh.accepted, sh.popped, event);
  }

  lemma StepPushOk(cfg: Config, sh: Shard, event: NetworkEvent, spurious: bool)
    requires Fits(cfg.arithmetic, cfg.capacity) && ShardOk(cfg, sh) && Sized(sh)
    requires Carrying(Reach(cfg.capacity, 2, sh.schedule), event)
    ensures var sh' := StepPush(cfg, sh, event, spurious);
            && ShardOk(cfg, sh')
            && PushMoved(cfg, sh.schedule, event, sh'.schedule, sh'.queue.threads[PRODUCER])
  {
    QueueStepPush(cfg, sh.queue, sh.schedule, sh.pc.Popping?, sh.accepted, sh.popped, event, spurious);
  }

  // ---- A worker's steps on its queue ----

  /** A worker's step keeps its part of the invariant and leaves the producer alone. */
  ghost predicate Worked(cfg: Config, sh: Shard, sh': Shard)
    requires cfg.capacity >= 2
  {
    ShardOk(cfg, sh') && ProducerUntouched(cfg, sh.schedule, sh'.schedule) && sh'.accepted == sh.accepted
  }

  lemma WorkedOnQueue(cfg: Config, sh: Shard, sh': Shard)
    requires cfg.capacity >= 2 && WorkerOk(cfg, sh')
    requires QueueOk(cfg, sh'.queue, sh'.schedule, sh'.pc.Popping?, sh'.accepted, sh'.popped)
    requires ProducerUntouched(cfg, sh.schedule, sh'.schedule) && sh'.accepted == sh.accepted
    ensures Worked(cfg, sh, sh')
  {
  }

  lemma WorkerPolls(cfg: Config, sh: Shard, sh': Shard)
    requires WorkerOk(cfg, sh) && sh.pc.Polling?
    requires sh' == sh.(queue := sh'.queue, schedule := sh'.schedule, pc := Popping)
    ensures WorkerOk(cfg, sh')
  {
    SameRuns(cfg, sh, sh');
  }

  lemma BeginPopOk(cfg: Config, sh: Shard)
    requires Fits(cfg.arithmetic, cfg.capacity) && ShardOk(cfg, sh) && sh.pc.Polling? && Sized(sh)
    ensures Worked(cfg, sh, Act(cfg, sh, CallPop(CONSUMER)).(pc := Popping))
  {
    QueueBeginPop(cfg, sh.queue, sh.schedule, sh.accepted, sh.popped);
    var sh' := Act(cfg, sh, CallPop(CONSUMER)).(pc := Popping);
    WorkerPolls(cfg, sh, sh');
    WorkedOnQueue(cfg, sh, sh');
  }

  lemma LedgerPops(popped: seq<NetworkEvent>, observed: seq<NetworkEvent>, followed: seq<NetworkEvent>,
                   recorded: seq<Alert>, alerts: seq<Alert>, event: NetworkEvent)
    requires LedgerOk(Popping, popped, observed, followed, recorded, alerts)
    ensures LedgerOk(Counting(event), popped + [event], observed, followed, recorded, alerts)
  {
  }

  /** A step that runs no detector and records nothing. */
  lemma SameRuns(cfg: Config, sh: Shard, sh': Shard)
    requires WorkerOk(cfg, sh) && sh'.start == sh.start && sh'.now == sh.now
    requires sh'.readings == sh.readings && sh'.observations == sh.observations
    requires sh'.watching == sh.watching && sh'.matching == sh.matching
    requires sh'.raised == sh.raised && sh'.recorded == sh.recorded
    requires LedgerOk(sh'.pc, sh'.popped, Observed(sh.readings), Followed(sh.observations), sh.recorded,
                      AllAlerts(sh.raised))
    requires sh'.scans == sh.scans && ScansOk(sh'.pc, sh'.popped, sh.scans, RaisedBy(sh.raised, Signature))
    ensures WorkerOk(cfg, sh')
  {
  }

  /** A pop that took an event. */
  lemma WorkerGains(cfg: Config, moved: Shard, event: NetworkEvent)
    requires WorkerOk(cfg, moved) && moved.pc.Popping?
    ensures WorkerOk(cfg, moved.(pc := Counting(event), popped := moved.popped + [event]))
  {
    var sh' := moved.(pc := Counting(event), popped := moved.popped + [event]);
    assert LedgerOk(sh'.pc, sh'.popped, Observed(moved.readings), Followed(moved.observations), moved.recorded,
                    AllAlerts(moved.raised)) by {
      LedgerPops(moved.popped, Observed(moved.readings), Followed(moved.observations), moved.recorded,
                 AllAlerts(moved.raised), event);
    }
    assert ScansOk(sh'.pc, sh'.popped, moved.scans, RaisedBy(moved.raised, Signature));
    SameRuns(cfg, moved, sh');
  }

  /** A pop that was refused. */
  lemma WorkerGainsNone(cfg: Config, moved: Shard)
    requires WorkerOk(cfg, moved) && moved.pc.Popping?
    ensures WorkerOk(cfg, moved.(pc := Polling))
  {
    SameRuns(cfg, moved, moved.(pc := Polling));
  }

  /** What a step of a pop does to the worker, if it replies as a pop does. */
  lemma AfterPopIs(moved: Shard)
    requires moved.pc.Popping? && Sized(moved)
    requires var th := moved.queue.threads[CONSUMER];
             AtRest(th) ==> th.Returned? && (th.reply.PopSome? || th.reply.PopNone?)
    ensures var sh', th := AfterPop(moved), moved.queue.threads[CONSUMER];
            && sh'.pc.Popping? == !AtRest(th) && sh'.popped == moved.popped + Gained(th)
            && sh'.queue == moved.queue && sh'.schedule == moved.schedule && sh'.accepted == moved.accepted
  {
  }

  lemma WorkerPops(cfg: Config, moved: Shard)
    requires WorkerOk(cfg, moved) && moved.pc.Popping? && Sized(moved)
    requires var th := moved.queue.threads[CONSUMER];
             AtRest(th) ==> th.Returned? && (th.reply.PopSome? || th.reply.PopNone?)
    ensures WorkerOk(cfg, AfterPop(moved))
  {
    var th := moved.queue.threads[CONSUMER];
    if th.Returned? && th.reply.PopSome? {
      WorkerGains(cfg, moved, th.reply.item);
    } else if th.Returned? {
      WorkerGainsNone(cfg, moved);
    }
  }

  lemma StepPopOk(cfg: Config, sh: Shard, spurious: bool)
    requires Fits(cfg.arithmetic, cfg.capacity) && ShardOk(cfg, sh) && sh.pc.Popping? && Sized(sh)
    ensures Worked(cfg, sh, AfterPop(Act(cfg, sh, Step(CONSUMER, spurious))))
  {
    QueueStepPop(cfg, sh.queue, sh.schedule, sh.accepted, sh.popped, spurious);
    var moved := Act(cfg, sh, Step(CONSUMER, spurious));
    SameRuns(cfg, sh, moved);
    WorkerPops(cfg, moved);
    AfterPopIs(moved);
  }

  // ---- A worker's steps off its queue ----

  /** The queue, and what came out of it, are as they were. */
  predicate OffQueue(sh: Shard, sh': Shard) {
    && sh'.queue == sh.queue && sh'.schedule == sh.schedule && !sh'.pc.Popping?
    && sh'.accepted == sh.accepted && sh'.popped == sh.popped
  }

  lemma Goes<S, R>(step: (S, R) -> (S, seq<Alert>), init: S, run: seq<R>, state: S, raised: seq<seq<Alert>>, r: R)
    requires Went(step, init, run, state, raised)
    ensures Went(step, init, run + [r], step(state, r).0, raised + [step(state, r).1])
  {
    Mealy.RunStep(step, init, run, r);
  }

  lemma LedgerRaises(event: NetworkEvent, stage: DetectorKind, popped: seq<NetworkEvent>, observed: seq<NetworkEvent>,
                     followed: seq<NetworkEvent>, recorded: seq<Alert>, alerts: seq<Alert>, more: seq<Alert>)
    requires LedgerOk(Detecting(event, stage), popped, observed, followed, recorded, alerts)
    ensures LedgerOk(AfterStage(event, stage, more), popped,
                     if stage.Anomaly? then observed + [event] else observed,
                     if stage.Cep? then followed + [event] else followed, recorded, alerts + more)
  {
  }

  lemma LedgerRecords(event: NetworkEvent, stage: DetectorKind, pending: seq<Alert>, popped: seq<NetworkEvent>,
                      observed: seq<NetworkEvent>, followed: seq<NetworkEvent>, recorded: seq<Alert>,
                      alerts: seq<Alert>)
    requires LedgerOk(Storing(event, stage, pending), popped, observed, followed, recorded, alerts)
    ensures pending != []
    ensures LedgerOk(AfterStage(event, stage, pending[1..]), popped, observed, followed,
                     recorded + [pending[0]], alerts)
  {
    assert recorded + pending == recorded + [pending[0]] + pending[1..];
  }

  lemma ScansMore(event: NetworkEvent, popped: seq<NetworkEvent>, scans: seq<Scan>, raised: seq<seq<Alert>>,
                  found: seq<Alert>)
    requires ScansOk(Detecting(event, Signature), popped, scans, raised)
    ensures ScansOk(AfterStage(event, Signature, Signatures(found)), popped, scans + [Scan(event, found)],
                    raised + [Signatures(found)])
  {
    assert Scanned(scans + [Scan(event, found)]) == Scanned(scans) + [event];
    assert FoundByScans(scans + [Scan(event, found)]) == FoundByScans(scans) + [Signatures(found)];
  }

  lemma RunSignatureOk(cfg: Config, sh: Shard, event: NetworkEvent, found: seq<Alert>)
    requires WorkerOk(cfg, sh) && sh.pc == Detecting(event, Signature)
    ensures WorkerOk(cfg, RunSignature(sh, event, found)) && OffQueue(sh, RunSignature(sh, event, found))
  {
    var alerts := Signatures(found);
    LedgerRaises(event, Signature, sh.popped, Observed(sh.readings), Followed(sh.observations), sh.recorded,
                 AllAlerts(sh.raised), alerts);
    RaisedStep(sh.raised, Batch(Signature, alerts), Signature);
    RaisedStep(sh.raised, Batch(Signature, alerts), Anomaly);
    RaisedStep(sh.raised, Batch(Signature, alerts), Cep);
    ScansMore(event, sh.popped, sh.scans, RaisedBy(sh.raised, Signature), found);
  }

  lemma AnomalyRaises(sh: Shard, r: Reading, found: seq<Alert>)
    requires sh.pc == Detecting(r.event, Anomaly)
    requires LedgerOk(sh.pc, sh.popped, Observed(sh.readings), Followed(sh.observations), sh.recorded,
                      AllAlerts(sh.raised))
    requires ScansOk(sh.pc, sh.popped, sh.scans, RaisedBy(sh.raised, Signature))
    ensures var raised := sh.raised + [Batch(Anomaly, found)];
            && LedgerOk(AfterStage(r.event, Anomaly, found), sh.popped, Observed(sh.readings + [r]),
                        Followed(sh.observations), sh.recorded, AllAlerts(raised))
            && ScansOk(AfterStage(r.event, Anomaly, found), sh.popped, sh.scans, RaisedBy(raised, Signature))
            && RaisedBy(raised, Anomaly) == RaisedBy(sh.raised, Anomaly) + [found]
            && RaisedBy(raised, Cep) == RaisedBy(sh.raised, Cep)
  {
    RaisedStep(sh.raised, Batch(Anomaly, found), Anomaly);
    RaisedStep(sh.raised, Batch(Anomaly, found), Cep);
    RaisedStep(sh.raised, Batch(Anomaly, found), Signature);
    LedgerRaises(r.event, Anomaly, sh.popped, Observed(sh.readings), Followed(sh.observations), sh.recorded,
                 AllAlerts(sh.raised), found);
    assert Observed(sh.readings + [r]) == Observed(sh.readings) + [r.event];
  }

  /** The invariant of a worker from its parts. */
  lemma WorkerFromParts(cfg: Config, sh: Shard, observed: seq<seq<Alert>>, followed: seq<seq<Alert>>)
    requires LedgerOk(sh.pc, sh.popped, Observed(sh.readings), Followed(sh.observations), sh.recorded,
                      AllAlerts(sh.raised))
    requires ScansOk(sh.pc, sh.popped, sh.scans, RaisedBy(sh.raised, Signature))
    requires RaisedBy(sh.raised, Anomaly) == observed && RaisedBy(sh.raised, Cep) == followed
    requires Went(cfg.observe, NewWatching(sh.start), sh.readings, sh.watching, observed)
    requires Went(cfg.follow, NewMatching(), sh.observations, sh.matching, followed)
    requires TimeOk(sh.start, sh.now, sh.readings, sh.observations)
    ensures WorkerOk(cfg, sh)
  {
  }

  lemma RunAnomalyOk(cfg: Config, sh: Shard, r: Reading)
    requires WorkerOk(cfg, sh) && sh.pc == Detecting(r.event, Anomaly) && sh.now <= r.checkedAt <= r.resetAt
    ensures WorkerOk(cfg, RunAnomaly(cfg, sh, r)) && OffQueue(sh, RunAnomaly(cfg, sh, r))
  {
    var found := cfg.observe(sh.watching, r).1;
    var observed := RaisedBy(sh.raised, Anomaly);
    AnomalyRaises(sh, r, found);
    Goes(cfg.observe, NewWatching(sh.start), sh.readings, sh.watching, observed, r);
    TimeOfReading(sh.start, sh.now, sh.readings, sh.observations, r);
    WorkerFromParts(cfg, RunAnomaly(cfg, sh, r), observed + [found], RaisedBy(sh.raised, Cep));
  }

  lemma RunCepOk(cfg: Config, sh: Shard, o: Observation)
    requires WorkerOk(cfg, sh) && sh.pc == Detecting(o.event, Cep) && sh.now <= o.at
    ensures WorkerOk(cfg, RunCep(cfg, sh, o)) && OffQueue(sh, RunCep(cfg, sh, o))
  {
    var matched, sh' := cfg.follow(sh.matching, o).1, RunCep(cfg, sh, o);
    assert RaisedBy(sh'.raised, Anomaly) == RaisedBy(sh.raised, Anomaly) by {
      RaisedStep(sh.raised, Batch(Cep, matched), Anomaly);
    }
    assert ScansOk(sh'.pc, sh.popped, sh.scans, RaisedBy(sh'.raised, Signature)) by {
      RaisedStep(sh.raised, Batch(Cep, matched), Signature);
    }
    assert Went(cfg.follow, NewMatching(), sh'.observations, sh'.matching, RaisedBy(sh'.raised, Cep)) by {
      RaisedStep(sh.raised, Batch(Cep, matched), Cep);
      Goes(cfg.follow, NewMatching(), sh.observations, sh.matching, RaisedBy(sh.raised, Cep), o);
    }
    assert TimeOk(sh.start, sh'.now, sh.readings, sh'.observations) by {
      TimeOfObservation(sh.start, sh.now, sh.readings, sh.observations, o);
    }
    assert LedgerOk(sh'.pc, sh.popped, Observed(sh.readings), Followed(sh'.observations), sh.recorded,
                    AllAlerts(sh'.raised)) by {
      RaisedStep(sh.raised, Batch(Cep, matched), Cep);
      LedgerRaises(o.event, Cep, sh.popped, Observed(sh.readings), Followed(sh.observations), sh.recorded,
                   AllAlerts(sh.raised), matched);
      assert Followed(sh.observations + [o]) == Followed(sh.observations) + [o.event];
    }
  }

  lemma AnomalyStageOk(cfg: Config, sh: Shard, event: NetworkEvent, m: Move)
    requires WorkerOk(cfg, sh) && sh.pc == Detecting(event, Anomaly) && Sized(sh) && m.Work?
    ensures var sh' := RunDetector(cfg, sh, event, Anomaly, m);
            WorkerOk(cfg, sh') && OffQueue(sh, sh')
  {
    if sh.now <= m.at <= m.resetAt {
      var r := Reading(event, m.at, m.resetAt);
      RunAnomalyOk(cfg, sh, r);
      assert RunDetector(cfg, sh, event, Anomaly, m) == RunAnomaly(cfg, sh, r);
    } else {
      assert RunDetector(cfg, sh, event, Anomaly, m) == sh;
    }
  }

  lemma CepStageOk(cfg: Config, sh: Shard, event: NetworkEvent, m: Move)
    requires WorkerOk(cfg, sh) && sh.pc == Detecting(event, Cep) && Sized(sh) && m.Work?
    ensures var sh' := RunDetector(cfg, sh, event, Cep, m);
            WorkerOk(cfg, sh') && OffQueue(sh, sh')
  {
    if sh.now <= m.at {
      var o := Observation(event, m.at);
      RunCepOk(cfg, sh, o);
      assert RunDetector(cfg, sh, event, Cep, m) == RunCep(cfg, sh, o);
    } else {
      assert RunDetector(cfg, sh, event, Cep, m) == sh;
    }
  }

  lemma RunDetectorOk(cfg: Config, sh: Shard, event: NetworkEvent, stage: DetectorKind, m: Move)
    requires WorkerOk(cfg, sh) && sh.pc == Detecting(event, stage) && Sized(sh) && m.Work?
    ensures var sh' := RunDetector(cfg, sh, event, stage, m);
            WorkerOk(cfg, sh') && OffQueue(sh, sh')
  {
    match stage
    case Signature => RunSignatureOk(cfg, sh, event, m.signature);
    case Anomaly => AnomalyStageOk(cfg, sh, event, m);
    case Cep => CepStageOk(cfg, sh, event, m);
  }

  lemma RecordNextOk(cfg: Config, sh: Shard, event: NetworkEvent, stage: DetectorKind, pending: seq<Alert>)
    requires WorkerOk(cfg, sh) && sh.pc == Storing(event, stage, pending)
    ensures pending != [] && WorkerOk(cfg, RecordNext(sh, event, stage, pending))
    ensures OffQueue(sh, RecordNext(sh, event, stage, pending))
  {
    LedgerRecords(event, stage, pending, sh.popped, Observed(sh.readings), Followed(sh.observations), sh.recorded,
                  AllAlerts(sh.raised));
  }

  lemma CountAlertOk(cfg: Config, sh: Shard, event: NetworkEvent, stage: DetectorKind, pending: seq<Alert>)
    requires WorkerOk(cfg, sh) && sh.pc == Recording(event, stage, pending)
    ensures pending != [] && WorkerOk(cfg, sh.(pc := Storing(event, stage, pending)))
  {
    SameRuns(cfg, sh, sh.(pc := Storing(event, stage, pending)));
  }

  lemma CountOk(cfg: Config, sh: Shard, event: NetworkEvent)
    requires WorkerOk(cfg, sh) && sh.pc == Counting(event)
    ensures WorkerOk(cfg, sh.(pc := Detecting(event, Signature)))
  {
    SameRuns(cfg, sh, sh.(pc := Detecting(event, Signature)));
  }

  lemma OffQueueOk(cfg: Config, sh: Shard, m: Move)
    requires WorkerOk(cfg, sh) && m.Work? && Sized(sh) && !sh.pc.Polling? && !sh.pc.Popping?
    ensures WorkerOk(cfg, WorkOn(cfg, sh, m)) && OffQueue(sh, WorkOn(cfg, sh, m))
  {
    match sh.pc
    case Counting(event) => CountOk(cfg, sh, event);
    case Detecting(event, stage) => RunDetectorOk(cfg, sh, event, stage, m);
    case Recording(event, stage, pending) => CountAlertOk(cfg, sh, event, stage, pending);
    case Storing(event, stage, pending) => RecordNextOk(cfg, sh, event, stage, pending);
  }

  lemma WorkOk(cfg: Config, sh: Shard, m: Move)
    requires Fits(cfg.arithmetic, cfg.capacity) && ShardOk(cfg, sh) && m.Work? && Sized(sh)
    ensures Worked(cfg, sh, WorkOn(cfg, sh, m))
  {
    if sh.pc.Polling? {
      BeginPopOk(cfg, sh);
    } else if sh.pc.Popping? {
      StepPopOk(cfg, sh, m.spurious);
    } else {
      OffQueueOk(cfg, sh, m);
    }
  }
}
