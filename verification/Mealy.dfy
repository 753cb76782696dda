/** Runs of a machine that turns each input into a new state and an output. */
module Mealy {
  import opened Sequences

  ghost function After<S, R, O>(step: (S, R) -> (S, O), init: S, run: seq<R>): S {
    if run == [] then init
    else step(After(step, init, run[..|run| - 1]), run[|run| - 1]).0
  }

  ghost function Outputs<S, R, O>(step: (S, R) -> (S, O), init: S, run: seq<R>): (out: seq<O>)
    ensures |out| == |run|
  {
    if run == [] then []
    else
      var before := run[..|run| - 1];
      Outputs(step, init, before) + [step(After(step, init, before), run[|run| - 1]).1]
  }

  lemma RunStep<S, R, O>(step: (S, R) -> (S, O), init: S, before: seq<R>, r: R)
    ensures var (s, o) := step(After(step, init, before), r);
            && After(step, init, before + [r]) == s
            && Outputs(step, init, before + [r]) == Outputs(step, init, before) + [o]
  {
    assert (before + [r])[..|before|] == before;
  }

  lemma AfterNext<S, R, O>(step: (S, R) -> (S, O), init: S, run: seq<R>, k: nat)
    requires k < |run|
    ensures After(step, init, run[..k + 1]) == step(After(step, init, run[..k]), run[k]).0
  {
    assert run[..k + 1][..k] == run[..k];
  }

  /** What a machine puts out does not depend on later inputs. */
  lemma {:induction false} OutputAt<S, R, O>(step: (S, R) -> (S, O), init: S, run: seq<R>, k: nat)
    requires k < |run|
    ensures Outputs(step, init, run)[k] == step(After(step, init, run[..k]), run[k]).1
  {
    if k < |run| - 1 {
      var before := run[..|run| - 1];
      OutputAt(step, init, before, k);
      assert before[..k] == run[..k];
    }
  }

  /** The inputs of a run, seen through `g`. */
  function Seen<R, R'>(g: R -> R', run: seq<R>): (run': seq<R'>)
    ensures |run'| == |run| && forall i :: 0 <= i < |run| ==> run'[i] == g(run[i])
  {
    seq(|run|, i requires 0 <= i < |run| => g(run[i]))
  }

  /** A machine whose states follow another's does so over whole runs. */
  lemma {:induction false} Tracks<S(!new), R(!new), O, S', R', O'>(
      step: (S, R) -> (S, O), step': (S', R') -> (S', O'), f: S -> S', g: R -> R', init: S, run: seq<R>)
    requires forall s: S, r: R :: f(step(s, r).0) == step'(f(s), g(r)).0
    ensures f(After(step, init, run)) == After(step', f(init), Seen(g, run))
  {
    if run != [] {
      var k := |run| - 1;
      Tracks(step, step', f, g, init, run[..k]);
      assert Seen(g, run)[..k] == Seen(g, run[..k]);
    }
  }

  /** A description that starts right and steps right describes every run. */
  lemma {:induction false} DescribedBy<S, R(!new), O>(step: (S, R) -> (S, O), init: S, described: seq<R> -> S,
                                                      run: seq<R>)
    requires described([]) == init
    requires forall before: seq<R>, r: R {:trigger described(before + [r])} ::
             described(before + [r]) == step(described(before), r).0
    ensures After(step, init, run) == described(run)
  {
    if run != [] {
      var k := |run| - 1;
      DescribedBy(step, init, described, run[..k]);
      assert run == run[..k] + [run[k]];
    }
  }

  /** And one that gathers right gathers what every run puts out. */
  lemma {:induction false} GatheredBy<S, R(!new), A>(step: (S, R) -> (S, seq<A>), init: S, described: seq<R> -> S,
                                                     gathered: seq<R> -> seq<A>, run: seq<R>)
    requires described([]) == init && gathered([]) == []
    requires forall before: seq<R>, r: R {:trigger described(before + [r])} ::
             described(before + [r]) == step(described(before), r).0
    requires forall before: seq<R>, r: R {:trigger gathered(before + [r])} ::
             gathered(before + [r]) == gathered(before) + step(described(before), r).1
    ensures Flatten(Outputs(step, init, run)) == gathered(run)
  {
    if run != [] {
      var k := |run| - 1;
      var before, out := run[..k], Outputs(step, init, run);
      GatheredBy(step, init, described, gathered, before);
      DescribedBy(step, init, described, before);
      assert run == before + [run[k]];
      assert out[..k] == Outputs(step, init, before) && out[k] == step(described(before), run[k]).1;
    }
  }
}
