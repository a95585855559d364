/**
 What a contestant's mistakes cost: the score as a function of the fills that
 were missed, wrong or extra, and which tally each report raises.
 */
module ShadowScores {
  import opened Shadow

  // ----- Which tally a report raises -----

  // A report is held against the first of its order's open fills and closes it:
  // right price and quantity is correct, another price is a wrong price, the
  // right price with another quantity is a wrong quantity, and a report with
  // nothing open is extra.  The open fills of other orders stay.
  lemma ReportTally(s: Scoring, id: nat, price: int, qty: int)
    ensures var r, t, o := Report(s, id, price, qty), s.tallies, Opens(s.entries, id);
      && r.tallies == t.(actual := t.actual + 1,
           correct := t.correct + (if o != [] && o[0].price == price && o[0].qty == qty then 1 else 0),
           wrongPrice := t.wrongPrice + (if o != [] && o[0].price != price then 1 else 0),
           wrongQty := t.wrongQty + (if o != [] && o[0].price == price && o[0].qty != qty then 1 else 0),
           extra := t.extra + (if o == [] then 1 else 0))
      && Opens(r.entries, id) == (if o == [] then [] else o[1..])
      && forall x: nat | x != id :: Opens(r.entries, x) == Opens(s.entries, x)
  {
    hide Opens; hide FirstOpen;
    FirstOpenHeads(s.entries, id);
  }

  // ----- Counting events -----

  function ReportCount(evs: seq<Event>): (n: nat) {
    if evs == [] then 0 else ReportCount(evs[..|evs| - 1]) + if evs[|evs| - 1].Reported? then 1 else 0
  }

  function OrderCount(evs: seq<Event>): (n: nat) {
    if evs == [] then 0 else OrderCount(evs[..|evs| - 1]) + if evs[|evs| - 1].Ordered? then 1 else 0
  }

  lemma {:induction false} RecordCounts(s: Scoring, fills: seq<Expected>)
    ensures var t, t' := s.tallies, Record(s, fills).tallies; t' == t.(expected := t'.expected)
    decreases |fills|
  {
    if fills != [] {
      RecordCounts(if |s.entries| >= SHADOW_MAX_FILLS then s
                   else Scoring(s.entries + [fills[0]], s.tallies.(expected := s.tallies.expected + 1)), fills[1..]);
    }
  }

  // Every order and every report is counted.
  lemma {:induction false} EventsCounted(evs: seq<Event>)
    ensures Run(evs).tallies.actual == ReportCount(evs) && Run(evs).tallies.orders == OrderCount(evs)
    decreases |evs|
  {
    hide Record; hide FirstOpen;
    if evs != [] {
      var n := |evs| - 1;
      var s := Run(evs[..n]);
      EventsCounted(evs[..n]);
      if evs[n].Ordered? {
        RecordCounts(s.(tallies := s.tallies.(orders := s.tallies.orders + 1)), evs[n].fills);
      }
    }
  }

  // Each finalize counts every fill that is still open, so a second one counts
  // them again.
  lemma FinalizeTwice(evs: seq<Event>)
    requires Real(evs)
    ensures var once, twice := Finalize(Run(evs)), Finalize(Finalize(Run(evs)));
      && once.tallies.missing == once.tallies.expected - (once.tallies.actual - once.tallies.extra)
      && twice.tallies == once.tallies.(missing := 2 * once.tallies.missing) && twice.entries == once.entries
  {
    hide Run; hide OpenCount;
    RunBalanced(evs);
  }

  // ----- The score away from one -----

  function OrZero(x: real): (r: real) {
    if x < 0.0 then 0.0 else x
  }

  lemma RatioIs(a: real, b: real, q: real)
    requires b > 0.0 && q * b == a
    ensures a / b == q
  {
    assert (a / b) * b == a;
    SameFactor(a / b, q, b);
  }

  lemma SameFactor(x: real, y: real, b: real)
    requires b > 0.0 && x * b == y * b
    ensures x == y
  {
  }

  lemma RatioTimes(a: real, b: real)
    requires b > 0.0
    ensures (a / b) * b == a
  {
  }

  // The share that n - k is of n.
  lemma RestRatio(n: nat, k: nat)
    requires 0 < n && k <= n
    ensures (n - k) as real / n as real == 1.0 - k as real / n as real
  {
    var q := k as real / n as real;
    RatioTimes(k as real, n as real);
    Expand(q, n as real);
    RatioIs((n - k) as real, n as real, 1.0 - q);
  }

  lemma Expand(q: real, n: real)
    ensures (1.0 - q) * n == n - q * n
  {
  }

  // Multiplying numerator and denominator.
  lemma Widened(k: nat, n: nat, a: nat, b: nat)
    requires n > 0 && b > 0
    ensures (a * k) as real / (b * n) as real == (a as real / b as real) * (k as real / n as real)
  {
    var x, y := a as real / b as real, k as real / n as real;
    RatioTimes(a as real, b as real);
    RatioTimes(k as real, n as real);
    Regroup(x, b as real, y, n as real);
    assert (a * k) as real == a as real * k as real && (b * n) as real == b as real * n as real;
    RatioIs((a * k) as real, (b * n) as real, x * y);
  }

  lemma Regroup(x: real, b: real, y: real, n: real)
    ensures (x * y) * (b * n) == (x * b) * (y * n)
  {
    assert (x * y) * (b * n) == x * (y * (b * n)) == x * (b * (y * n));
  }

  // The price of every kind of mistake together, in tenths.
  lemma ScoreLaw(t: Tallies)
    requires t.correct <= t.expected
    ensures t.expected == 0 ==> Score(t) == 1.0
    ensures t.expected > 0 ==>
      Score(t) == OrZero(t.correct as real / t.expected as real - (3 * t.missing) as real / (10 * t.expected) as real
                         - (3 * t.extra) as real / (10 * (t.expected + t.extra)) as real
                         - t.priorityErrors as real / 10.0)
  {
    if t.expected > 0 {
      Widened(t.missing, t.expected, 3, 10);
      Widened(t.extra, t.expected + t.extra, 3, 10);
      RatioFacts(t.correct, t.expected);
      RatioFacts(t.extra, t.expected + t.extra);
      RatioFacts(t.missing, t.expected);
    }
  }

  // k of n expected fills missed and the rest right.
  lemma ScoreMissing(t: Tallies, n: nat, k: nat)
    requires t.expected == n > 0 && t.correct + k == n && t.missing == k && t.extra == 0 && t.priorityErrors == 0
    ensures Score(t) == OrZero(1.0 - (13 * k) as real / (10 * n) as real)
  {
    RestRatio(n, k);
    Widened(k, n, 13, 10);
    RatioFacts(k, n);
  }

  // All right, and x reports too many.
  lemma ScoreExtra(t: Tallies, n: nat, x: nat)
    requires t.expected == t.correct == n > 0 && t.missing == 0 && t.extra == x && t.priorityErrors == 0
    ensures Score(t) == 1.0 - (3 * x) as real / (10 * (n + x)) as real
  {
    Widened(x, n + x, 3, 10);
    RatioFacts(x, n + x);
    RatioFacts(n, n);
    RatioFacts(0, n);
  }

  // k wrong, and none missed or too many.
  lemma ScoreWrong(t: Tallies, n: nat, k: nat)
    requires t.expected == n > 0 && t.correct + k == n && t.missing == t.extra == t.priorityErrors == 0
    ensures Score(t) == 1.0 - k as real / n as real
  {
    RestRatio(n, k);
    RatioFacts(k, n);
    RatioFacts(0, n);
  }

  // ----- Each mistake counts -----

  // Before the score is cut off at 0.
  function Raw(t: Tallies): (r: real)
    requires t.expected > 0
  {
    t.correct as real / t.expected as real - t.extra as real / (t.expected + t.extra) as real * 0.3
    - t.missing as real / t.expected as real * 0.3
  }

  lemma ScoreIsRaw(t: Tallies)
    requires t.expected > 0 && t.correct <= t.expected && t.priorityErrors == 0
    ensures Score(t) == OrZero(Raw(t))
  {
    RatioFacts(t.correct, t.expected);
    RatioFacts(t.extra, t.expected + t.extra);
    RatioFacts(t.missing, t.expected);
  }

  lemma RatioGrows(a: nat, b: nat, n: nat)
    requires n > 0 && a < b
    ensures a as real / n as real < b as real / n as real
  {
    var x, y := a as real / n as real, b as real / n as real;
    RatioTimes(a as real, n as real);
    RatioTimes(b as real, n as real);
    SmallerFactor(x, y, n as real);
  }

  lemma SmallerFactor(x: real, y: real, n: real)
    requires n > 0.0 && x * n < y * n
    ensures x < y
  {
  }

  // One more extra report is a larger share.
  lemma ShareGrows(x: nat, n: nat)
    requires n > 0
    ensures x as real / (n + x) as real < (x + 1) as real / (n + x + 1) as real
  {
    var a, b := (n + x) as real, (n + x + 1) as real;
    OneLess(n, x);
    OneLess(n, x + 1);
    var p, q := n as real / a, n as real / b;
    RatioTimes(n as real, a);
    RatioTimes(n as real, b);
    RatioFacts(n, n + x + 1);
    assert b == a + 1.0;
    Shrinks(p, q, a, n as real);
  }

  lemma Expands(q: real, a: real)
    ensures q * (a + 1.0) == q * a + q
  {
  }

  lemma Shrinks(p: real, q: real, a: real, n: real)
    requires a > 0.0 && q > 0.0 && p * a == n && q * (a + 1.0) == n
    ensures q < p
  {
    Expands(q, a);
    SmallerFactor(q, p, a);
  }

  lemma OneLess(n: nat, x: nat)
    requires n > 0
    ensures x as real / (n + x) as real == 1.0 - n as real / (n + x) as real
  {
    RestRatio(n + x, n);
  }

  // A fill missed instead of right, or one more extra report, lowers the score
  // until it is 0.
  lemma MistakesCost(t: Tallies)
    requires t.expected > 0 && t.correct <= t.expected && t.priorityErrors == 0
    ensures var worse := t.(extra := t.extra + 1); Score(t) > 0.0 ==> Score(worse) < Score(t)
    ensures t.correct > 0 ==>
      var worse := t.(correct := t.correct - 1, missing := t.missing + 1); Score(t) > 0.0 ==> Score(worse) < Score(t)
    ensures Score(t) == 0.0 ==> Score(t.(extra := t.extra + 1)) == 0.0
  {
    hide Score;
    var more := t.(extra := t.extra + 1);
    ScoreIsRaw(t);
    ScoreIsRaw(more);
    ShareGrows(t.extra, t.expected);
    if t.correct > 0 {
      ScoreIsRaw(t.(correct := t.correct - 1, missing := t.missing + 1));
      RatioGrows(t.correct - 1, t.correct, t.expected);
      RatioGrows(t.missing, t.missing + 1, t.expected);
    }
  }

  // ----- On runs -----

  // Reports that are all right so far and in order, but not all that were due:
  // each of the n expected fills never reported costs 13 / (10 n).
  lemma MissedScore(evs: seq<Event>)
    requires Real(evs) && 0 < FillCount(evs) <= SHADOW_MAX_FILLS && InOrder(evs)
    ensures var n, r := FillCount(evs), ReportCount(evs);
      r <= n && Score(Finalize(Run(evs)).tallies) == OrZero(1.0 - (13 * (n - r)) as real / (10 * n) as real)
  {
    hide Run; hide Score; hide InOrder; hide InStep; hide FillCount; hide ReportCount; hide OpenCount;
    var s, n, r := Run(evs), FillCount(evs), ReportCount(evs);
    RunBalanced(evs);
    ExpectedCount(evs);
    EventsCounted(evs);
    NoErrorsInOrder(evs);
    ScoreMissing(Finalize(s).tallies, n, n - r);
  }

  // Every expected fill reported right, and r - n reports more than the n due.
  lemma ExtraScore(evs: seq<Event>)
    requires Real(evs) && 0 < FillCount(evs) <= SHADOW_MAX_FILLS && Run(evs).tallies.correct == FillCount(evs)
    ensures var n, r := FillCount(evs), ReportCount(evs);
      n <= r && Score(Finalize(Run(evs)).tallies) == 1.0 - (3 * (r - n)) as real / (10 * r) as real
  {
    hide Run; hide Score; hide FillCount; hide ReportCount; hide OpenCount;
    var s, n, r := Run(evs), FillCount(evs), ReportCount(evs);
    RunBalanced(evs);
    ExpectedCount(evs);
    EventsCounted(evs);
    ScoreExtra(Finalize(s).tallies, n, r - n);
  }

  // As many reports as expected fills and none extra: the wrong ones cost 1 / n
  // each.
  lemma WrongScore(evs: seq<Event>)
    requires Real(evs) && 0 < FillCount(evs) == ReportCount(evs) <= SHADOW_MAX_FILLS && Run(evs).tallies.extra == 0
    ensures var t, n := Run(evs).tallies, FillCount(evs);
      Score(Finalize(Run(evs)).tallies) == 1.0 - (t.wrongPrice + t.wrongQty) as real / n as real
  {
    hide Run; hide Score; hide FillCount; hide ReportCount; hide OpenCount;
    var s, n := Run(evs), FillCount(evs);
    RunBalanced(evs);
    ExpectedCount(evs);
    EventsCounted(evs);
    ScoreWrong(Finalize(s).tallies, n, s.tallies.wrongPrice + s.tallies.wrongQty);
  }
}
