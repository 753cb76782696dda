/** A worker's alerts over a whole run of events, traced back to what the detectors alone
    promise. */
module WorkerRuns {
  import opened Models
  import opened Sequences
  import opened CepSpec
  import opened CepSharding
  import opened DetectorSpec
  import opened Detector
  import opened Worker
  import opened Words
  import opened Numbering
  import Mealy

  /** What the anomaly detector found in each reading of a run. */
  ghost function Found(watch: Watch, start: nat, run: seq<Reading>): (found: seq<seq<Alert>>)
    ensures |found| == |run|
  {
    Mealy.Outputs(Observing(watch), NewWatching(start), run)
  }

  /** What the sequence matcher found in a history. */
  ghost function Completed(rules: seq<CepRule>, history: seq<Observation>): (completed: seq<seq<Alert>>)
    ensures |completed| == |history|
  {
    Mealy.Outputs(Sequencing(rules), NewMatching(), history)
  }

  /** What a worker's anomaly detector knows after a run is what the detector alone knows. */
  lemma KnownAfter(watch: Watch, start: nat, run: seq<Reading>)
    ensures Mealy.After(Observing(watch), NewWatching(start), run).known == StateAfter(watch, start, run)
  {
    var same := (r: Reading) => r;
    Mealy.Tracks(Observing(watch), Observer(watch), (w: Watching) => w.known, same, NewWatching(start), run);
    assert Mealy.Seen(same, run) == run;
  }

  lemma FoundIn(watch: Watch, w: Watching, r: Reading)
    ensures var out := OutcomeOf(watch, w.known, r);
            Observing(watch)(w, r).1 == AlertsFor(out.flood, out.scan, r.event, w.nextId)
  {
  }

  /** Each reading's anomaly alerts are those the detector alone decides on. */
  lemma FoundAreTheDetectors(watch: Watch, start: nat, run: seq<Reading>, i: nat) returns (firstId: nat)
    requires i < |run|
    ensures var out := Outcomes(watch, start, run)[i];
            Found(watch, start, run)[i] == AlertsFor(out.flood, out.scan, run[i].event, firstId)
  {
    Mealy.OutputAt(Observing(watch), NewWatching(start), run, i);
    KnownAfter(watch, start, run[..i]);
    RunAt(watch, start, run, i);
    var w := Mealy.After(Observing(watch), NewWatching(start), run[..i]);
    FoundIn(watch, w, run[i]);
    firstId := w.nextId;
  }

  /** A worker's sequence alerts are those of one engine fed what the worker processed. */
  lemma CompletedAreTheEngines(rules: seq<CepRule>, history: seq<Observation>)
    ensures Mealy.After(Sequencing(rules), NewMatching(), history) == Matching(history, NextNumber(rules, history))
    ensures Flatten(Completed(rules, history)) == EngineAlerts(rules, history)
  {
    var described := (h: seq<Observation>) => Matching(h, NextNumber(rules, h));
    forall before: seq<Observation>, o: Observation
      ensures described(before + [o]) == Sequencing(rules)(described(before), o).0
      ensures EngineAlerts(rules, before + [o]) ==
              EngineAlerts(rules, before) + Sequencing(rules)(described(before), o).1
    {
      EngineAlertsStep(rules, before, o);
    }
    Mealy.DescribedBy(Sequencing(rules), NewMatching(), described, history);
    Mealy.GatheredBy(Sequencing(rules), NewMatching(), described, h => EngineAlerts(rules, h), history);
  }

  lemma ReadingNumbers(flood: bool, scan: bool, event: NetworkEvent, firstId: nat)
    requires firstId < WORD
    ensures NumberedFrom(AlertsFor(flood, scan, event, firstId), firstId)
  {
    IdAfterIsSum(firstId, 1);
  }

  lemma NextWatching(watch: Watch, start: nat, before: seq<Reading>, r: Reading)
    ensures var w := Mealy.After(Observing(watch), NewWatching(start), before);
            var found := Observing(watch)(w, r).1;
            && Found(watch, start, before + [r]) == Found(watch, start, before) + [found]
            && Mealy.After(Observing(watch), NewWatching(start), before + [r]).nextId == IdAfter(w.nextId, |found|)
  {
    Mealy.RunStep(Observing(watch), NewWatching(start), before, r);
  }

  /** What a detector raised over a run is numbered from 1, and so is its next alert. */
  ghost predicate Numbered(watch: Watch, start: nat, run: seq<Reading>) {
    NumberedTo(Flatten(Found(watch, start, run)), Mealy.After(Observing(watch), NewWatching(start), run).nextId)
  }

  lemma FlattenMore(all: seq<seq<Alert>>, found: seq<Alert>)
    ensures Flatten(all + [found]) == Flatten(all) + found
  {
    assert (all + [found])[..|all|] == all;
  }

  lemma FoundIsNumbered(watch: Watch, w: Watching, r: Reading)
    requires w.nextId < WORD
    ensures NumberedFrom(Observing(watch)(w, r).1, w.nextId)
  {
    FoundIn(watch, w, r);
    var out := OutcomeOf(watch, w.known, r);
    ReadingNumbers(out.flood, out.scan, r.event, w.nextId);
  }

  lemma NumberedNext(watch: Watch, start: nat, before: seq<Reading>, r: Reading)
    requires Numbered(watch, start, before)
    ensures Numbered(watch, start, before + [r])
  {
    var w := Mealy.After(Observing(watch), NewWatching(start), before);
    var all, found := Found(watch, start, before), Observing(watch)(w, r).1;
    NextWatching(watch, start, before, r);
    FlattenMore(all, found);
    assert NumberedFrom(found, w.nextId) by { FoundIsNumbered(watch, w, r); }
    NumberedMore(Flatten(all), found, w.nextId, IdAfter(w.nextId, |found|));
  }

  /** The k-th alert of an anomaly detector has number 1 + k, modulo 2^64. */
  lemma {:induction false} FoundNumbers(watch: Watch, start: nat, run: seq<Reading>)
    ensures Numbered(watch, start, run)
  {
    if run != [] {
      var before, r := run[..|run| - 1], run[|run| - 1];
      FoundNumbers(watch, start, before);
      NumberedNext(watch, start, before, r);
      assert run == before + [r];
    }
  }
}
