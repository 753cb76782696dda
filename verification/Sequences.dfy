/** Selecting from a sequence in order, and putting sequences end to end. */
module Sequences {
  function Filter<T>(keep: T -> bool, s: seq<T>): seq<T> {
    if s == [] then []
    else Filter(keep, s[..|s| - 1]) + if keep(s[|s| - 1]) then [s[|s| - 1]] else []
  }

  function Flatten<T>(lists: seq<seq<T>>): seq<T> {
    if lists == [] then [] else Flatten(lists[..|lists| - 1]) + lists[|lists| - 1]
  }

  lemma FilterStep<T>(keep: T -> bool, s: seq<T>, x: T)
    ensures Filter(keep, s + [x]) == Filter(keep, s) + if keep(x) then [x] else []
  {
    assert (s + [x])[..|s|] == s;
  }

  lemma {:induction false} FilterConcat<T>(keep: T -> bool, a: seq<T>, b: seq<T>)
    ensures Filter(keep, a + b) == Filter(keep, a) + Filter(keep, b)
  {
    if b == [] {
      assert a + b == a;
    } else {
      FilterConcat(keep, a, b[..|b| - 1]);
      assert (a + b)[..|a + b| - 1] == a + b[..|b| - 1];
    }
  }

  /** Keeping what all satisfy, or what none does. */
  lemma {:induction false} FilterAllOrNone<T>(keep: T -> bool, s: seq<T>, kept: bool)
    requires forall k :: 0 <= k < |s| ==> keep(s[k]) == kept
    ensures Filter(keep, s) == if kept then s else []
  {
    if s != [] { FilterAllOrNone(keep, s[..|s| - 1], kept); }
  }

  /** Dropping the one element, between others, that is not kept. */
  lemma FilterDropsOne<T>(keep: T -> bool, a: seq<T>, x: T, b: seq<T>)
    requires !keep(x) && (forall k :: 0 <= k < |a| ==> keep(a[k])) && (forall k :: 0 <= k < |b| ==> keep(b[k]))
    ensures Filter(keep, a + [x] + b) == a + b
  {
    FilterConcat(keep, a + [x], b);
    FilterStep(keep, a, x);
    FilterAllOrNone(keep, a, true);
    FilterAllOrNone(keep, b, true);
    assert a + [] == a;
  }

  lemma {:induction false} FilterTwice<T>(keep: T -> bool, s: seq<T>)
    ensures Filter(keep, Filter(keep, s)) == Filter(keep, s)
  {
    if s != [] {
      var k := |s| - 1;
      FilterTwice(keep, s[..k]);
      if keep(s[k]) { FilterStep(keep, Filter(keep, s[..k]), s[k]); }
      assert Filter(keep, s[..k]) + [] == Filter(keep, s[..k]);
    }
  }

  /** Where a kept element stands in the sequence. */
  lemma {:induction false} FilterPosition<T>(keep: T -> bool, s: seq<T>, e: nat) returns (m: nat)
    requires e < |Filter(keep, s)|
    ensures m < |s| && keep(s[m]) && s[m] == Filter(keep, s)[e]
    ensures Filter(keep, s[..m]) == Filter(keep, s)[..e] && Filter(keep, s[..m + 1]) == Filter(keep, s)[..e + 1]
  {
    var k := |s| - 1;
    var rest := Filter(keep, s[..k]);
    if e < |rest| {
      m := FilterPosition(keep, s[..k], e);
      assert s[..k][..m] == s[..m] && s[..k][..m + 1] == s[..m + 1];
    } else {
      m := k;
      assert s[..k + 1] == s;
    }
  }

  /** `whole` puts end to end what `latest` gives after each element. */
  ghost predicate Gathers<R(!new), A>(whole: seq<R> -> seq<A>, latest: seq<R> -> seq<A>) {
    && whole([]) == []
    && forall h: seq<R>, r: R {:trigger whole(h + [r])} :: whole(h + [r]) == whole(h) + latest(h + [r])
  }

  /** Then whatever the whole has was given after some element. */
  lemma {:induction false} GatheredAt<R(!new), A>(whole: seq<R> -> seq<A>, latest: seq<R> -> seq<A>, run: seq<R>, x: A)
    returns (m: nat)
    requires Gathers(whole, latest) && x in whole(run)
    ensures m < |run| && x in latest(run[..m + 1])
  {
    var k := |run| - 1;
    if run != [] {
      var before := run[..k];
      assert run == before + [run[k]];
      assert run[..k + 1] == run;
      if x in whole(before) {
        m := GatheredAt(whole, latest, before, x);
        assert before[..m + 1] == run[..m + 1];
      } else {
        m := k;
      }
    }
  }
}
