/** How an engine or a detector numbers its alerts. */
module Numbering {
  import opened Words
  import opened Models

  /** Numbered on from `first`, modulo 2^64. */
  ghost predicate NumberedFrom(alerts: seq<Alert>, first: nat) {
    forall k :: 0 <= k < |alerts| ==> alerts[k].id == (first + k) % 0x1_0000_0000_0000_0000
  }

  lemma NumberedOn(a: seq<Alert>, b: seq<Alert>, first: nat, next: nat)
    requires NumberedFrom(a, first) && next == (first + |a|) % WORD && NumberedFrom(b, next)
    ensures NumberedFrom(a + b, first)
  {
    forall k | 0 <= k < |a + b| ensures (a + b)[k].id == (first + k) % WORD {
      if k >= |a| { WrapAdds(first + |a|, k - |a|); }
    }
  }

  lemma NextAdds(first: nat, n: nat, m: nat, next: nat)
    requires next == (first + n) % WORD
    ensures IdAfter(next, m) == (first + (n + m)) % WORD
  {
    IdAfterIsSum(next, m);
    WrapAdds(first + n, m);
  }

  /** Numbered from 1, with this number next. */
  ghost predicate NumberedTo(alerts: seq<Alert>, next: nat) {
    NumberedFrom(alerts, 1) && next == (1 + |alerts|) % WORD
  }

  lemma NumberedMore(all: seq<Alert>, latest: seq<Alert>, next: nat, next': nat)
    requires NumberedTo(all, next) && NumberedFrom(latest, next) && next' == IdAfter(next, |latest|)
    ensures NumberedTo(all + latest, next')
  {
    NumberedOn(all, latest, 1, next);
    NextAdds(1, |all|, |latest|, next);
  }

  lemma ResiduesApart(x: nat, y: nat)
    requires x < y < x + WORD
    ensures x % WORD != y % WORD
  {
    var k := y / WORD - x / WORD;
    assert y - x == WORD * k + (y % WORD - x % WORD);
  }

  /** Among up to 2^64 alerts so numbered no two numbers are equal. */
  lemma NumbersDiffer(alerts: seq<Alert>, first: nat, j: nat, k: nat)
    requires NumberedFrom(alerts, first) && j < k < |alerts| <= WORD
    ensures alerts[j].id != alerts[k].id
  {
    ResiduesApart(first + j, first + k);
  }
}
