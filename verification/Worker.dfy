/** One detection worker: what its anomaly detector and its sequence matcher do with each
    event it takes from its queue, each as a machine of its own and both as the classes run them. */
module Worker {
  import opened Words
  import opened Models
  import opened CepSpec
  import opened CepEngine
  import opened CepSharding
  import opened DetectorSpec
  import opened Detector

  /** What the anomaly detector knows, and the number of its next alert. */
  datatype Watching = Watching(known: State, nextId: nat)

  /** What the sequence matcher has seen, and the number of its next alert. */
  datatype Matching = Matching(history: seq<Observation>, nextId: nat)

  function NewWatching(start: nat): Watching {
    Watching(Fresh(start), 1)
  }

  function NewMatching(): Matching {
    Matching([], 1)
  }

  /** What the anomaly detector does with a reading. */
  ghost function Observing(watch: Watch): (Watching, Reading) -> (Watching, seq<Alert>) {
    (w: Watching, r: Reading) =>
      var (known, out) := DetectorSpec.Observe(watch, w.known, r);
      var found := AlertsFor(out.flood, out.scan, r.event, w.nextId);
      (Watching(known, IdAfter(w.nextId, |found|)), found)
  }

  /** What the sequence matcher does with an observation. */
  function Sequencing(rules: seq<CepRule>): (Matching, Observation) -> (Matching, seq<Alert>) {
    (m: Matching, o: Observation) =>
      var history := m.history + [o];
      var matched := EventAlerts(rules, history, m.nextId);
      (Matching(history, IdAfter(m.nextId, |matched|)), matched)
  }

  /** The detectors as a worker holds and calls them. */
  class DetectionWorker {
    const anomaly: WindowedAnomalyDetector
    const cep: CepEngine
    ghost var Repr: set<object>

    ghost predicate Valid()
      reads this, Repr
    {
      && this in Repr && anomaly in Repr && cep in Repr && anomaly.Repr <= Repr
      && this !in anomaly.Repr && cep !in anomaly.Repr
      && anomaly.Valid() && cep.Valid()
    }

    ghost function Watched(): Watching
      requires Valid()
      reads this, Repr
    {
      Watching(anomaly.Known(), anomaly.nextId)
    }

    ghost function Matched(): Matching
      requires Valid()
      reads this, Repr
    {
      Matching(cep.history, cep.nextId)
    }

    constructor (setup: Setup, rules: seq<CepRule>, now: nat)
      ensures Valid() && fresh(Repr) && Watched() == NewWatching(now) && Matched() == NewMatching()
      ensures anomaly.watch == SketchWatch(setup) && cep.rules == rules
    {
      anomaly := new WindowedAnomalyDetector(setup, now);
      cep := new CepEngine(rules);
      new;
      Repr := {this, cep} + anomaly.Repr;
    }

    /** Run the anomaly detector; the sequence matcher stays as it is. */
    method Observe(r: Reading) returns (found: seq<Alert>)
      requires Valid()
      modifies Repr
      ensures Valid() && fresh(Repr - old(Repr)) && Matched() == old(Matched())
      ensures Watched() == Observing(anomaly.watch)(old(Watched()), r).0
      ensures found == Observing(anomaly.watch)(old(Watched()), r).1
    {
      found := anomaly.Observe(r.event, r.checkedAt, r.resetAt);
      Repr := Repr + anomaly.Repr;
    }

    /** Run the sequence matcher; the anomaly detector stays as it is. */
    method Match(o: Observation) returns (matched: seq<Alert>)
      requires Valid()
      modifies cep
      ensures Valid() && Watched() == old(Watched())
      ensures Matched() == Sequencing(cep.rules)(old(Matched()), o).0
      ensures matched == Sequencing(cep.rules)(old(Matched()), o).1
    {
      matched := cep.Process(o.event, o.at);
    }

    /** One event, through the anomaly detector and then the sequence matcher; `signature`
        is what the signature detector found in it. */
    method Handle(event: NetworkEvent, signature: seq<Alert>, checkedAt: nat, resetAt: nat, matchedAt: nat)
      returns (alerts: seq<Alert>)
      requires Valid()
      modifies Repr
      ensures Valid() && fresh(Repr - old(Repr))
      ensures var r, o := Reading(event, checkedAt, resetAt), Observation(event, matchedAt);
              && Watched() == Observing(anomaly.watch)(old(Watched()), r).0
              && Matched() == Sequencing(cep.rules)(old(Matched()), o).0
              && alerts == signature + Observing(anomaly.watch)(old(Watched()), r).1
                           + Sequencing(cep.rules)(old(Matched()), o).1
    {
      ghost var watched, matched := Watched(), Matched();
      var found := Observe(Reading(event, checkedAt, resetAt));
      assert Matched() == matched;
      var sequences := Match(Observation(event, matchedAt));
      alerts := signature + found + sequences;
    }
  }
}
