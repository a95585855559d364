/**
 Bucket arithmetic of the latency histogram: 2^m sub-buckets per power of two
 above a linear part, in units of 2^u.
 */
module Buckets {

  function Pow2(n: nat): (p: nat)
    ensures p > 0
  {
    if n == 0 then 1 else 2 * Pow2(n - 1)
  }

  // The position of the highest bit: 63 minus the leading zeros of the word.
  function Log2(v: nat): (k: nat) {
    if v < 2 then 0 else 1 + Log2(v / 2)
  }

  // ----- The code's two conversions, before clamping -----

  function Index(m: nat, u: nat, v: nat): (i: nat) {
    var half := Pow2(m);
    if v < 2 * half * Pow2(u) then v / Pow2(u)
    else
      var b := Log2(v) - m - u;
      if b < 0 then 0
      else
        var sub := v / Pow2(b + u) - half;
        if sub < 0 then 0 else half * (b + 1) + sub
  }

  function Value(m: nat, u: nat, i: nat): (v: nat) {
    var half := Pow2(m);
    if i < 2 * half then i * Pow2(u)
    else
      var b := i / half - 1;
      if b < 0 then 0 else (i % half + half) * Pow2(b + u)
  }

  // ----- Arithmetic -----

  lemma MulMono(a: nat, c: nat, k: nat)
    requires a <= c
    ensures a * k <= c * k
  {
  }

  lemma {:induction false} PowSum(a: nat, c: nat)
    ensures Pow2(a + c) == Pow2(a) * Pow2(c)
    decreases a
  {
    if a > 0 {
      PowSum(a - 1, c);
      Assoc(2, Pow2(a - 1), Pow2(c));
    }
  }

  lemma Assoc(a: nat, c: nat, d: nat)
    ensures a * (c * d) == a * c * d
  {
  }

  lemma {:induction false} LogRange(v: nat, k: nat)
    requires Pow2(k) <= v < Pow2(k + 1)
    ensures Log2(v) == k
    decreases k
  {
    if k > 0 {
      LogRange(v / 2, k - 1);
    }
  }

  lemma {:induction false} LogAtLeast(v: nat, k: nat)
    requires v >= Pow2(k)
    ensures Log2(v) >= k
    decreases k
  {
    if k > 0 {
      LogAtLeast(v / 2, k - 1);
    }
  }

  lemma {:induction false} LogBounds(v: nat)
    requires v > 0
    ensures Pow2(Log2(v)) <= v < Pow2(Log2(v) + 1)
  {
    if v >= 2 {
      LogBounds(v / 2);
    }
  }

  lemma Row(half: nat, b: nat)
    ensures half * (b + 1) == half * b + half
  {
  }

  lemma DivBounds(x: nat, d: nat)
    requires d > 0
    ensures x / d * d <= x < (x / d + 1) * d
  {
    assert x == x / d * d + x % d;
    Row(d, x / d);
  }

  // Bounds on a quotient from bounds on products.
  lemma DivIs(x: nat, d: nat, q: nat)
    requires d > 0 && q * d <= x < (q + 1) * d
    ensures x / d == q
  {
    DivBounds(x, d);
    var q' := x / d;
    if q' < q {
      MulMono(q' + 1, q, d);
    } else if q < q' {
      MulMono(q + 1, q', d);
    }
  }

  lemma DivAtLeast(x: nat, d: nat, q: nat)
    requires d > 0 && x >= q * d
    ensures x / d >= q
  {
    DivBounds(x, d);
    if x / d < q {
      MulMono(x / d + 1, q, d);
    }
  }

  lemma DivBelow(x: nat, d: nat, q: nat)
    requires d > 0 && x < q * d
    ensures x / d < q
  {
    DivBounds(x, d);
    if x / d >= q {
      MulMono(q, x / d, d);
    }
  }

  // ----- Rows -----

  // The first index that is not linear, as a value: 2^(m+1) units.
  lemma Linear(m: nat, u: nat)
    ensures 2 * Pow2(m) * Pow2(u) == Pow2(m + u + 1)
  {
    PowSum(m, u);
    Assoc(2, Pow2(m), Pow2(u));
  }

  lemma PowStep(n: nat)
    requires n > 0
    ensures Pow2(n) == 2 * Pow2(n - 1)
  {
  }

  lemma {:induction false} PowMono(a: nat, c: nat)
    requires a <= c
    ensures Pow2(a) <= Pow2(c)
    decreases c
  {
    if a < c {
      PowMono(a, c - 1);
    }
  }

  // Row b holds the values from 2^(b+m+u) up, 2^(b+u) to a bucket.
  lemma IndexRow(m: nat, u: nat, v: nat, b: nat)
    requires v > 0 && Log2(v) == b + m + u
    ensures var half, q := Pow2(m), v / Pow2(b + u);
      half <= q < 2 * half && Index(m, u, v) == half * (b + 1) + (q - half)
  {
    hide Log2; hide Pow2;
    var half, width := Pow2(m), Pow2(b + u);
    LogBounds(v);
    PowSum(m, b + u);
    PowStep(b + m + u + 1);
    Assoc(2, half, width);
    DivAtLeast(v, width, half);
    DivBelow(v, width, 2 * half);
    Linear(m, u);
    if b > 0 {
      PowMono(m + u + 1, b + m + u);
    }
  }

  lemma ValueRow(m: nat, u: nat, b: nat, s: nat)
    requires s < Pow2(m)
    ensures Value(m, u, Pow2(m) * (b + 1) + s) == (Pow2(m) + s) * Pow2(b + u)
  {
    hide Log2; hide Pow2;
    var half := Pow2(m);
    var i := half * (b + 1) + s;
    if b > 0 {
      Row(half, b);
      MulMono(1, b, half);
      Row(half, b + 1);
      DivIs(i, half, b + 1);
      assert i == i / half * half + i % half;
    }
  }

  // The bucket after (b, s) starts one width higher.
  lemma RowEdge(m: nat, u: nat, b: nat, s: nat)
    requires s < Pow2(m)
    ensures Value(m, u, Pow2(m) * (b + 1) + s + 1) == (Pow2(m) + s + 1) * Pow2(b + u)
  {
    hide Value; hide Pow2; hide Log2;
    var half := Pow2(m);
    if s + 1 < half {
      ValueRow(m, u, b, s + 1);
    } else {
      ValueRow(m, u, b + 1, 0);
      Row(half, b + 1);
      PowStep(b + 1 + u);
      Assoc(half, 2, Pow2(b + u));
    }
  }

  // ----- What the conversions mean -----

  // A value lies between the edge of its bucket and the next edge.
  lemma Bracket(m: nat, u: nat, v: nat)
    ensures Value(m, u, Index(m, u, v)) <= v < Value(m, u, Index(m, u, v) + 1)
  {
    hide Pow2; hide Log2; hide Value; hide Index;
    if v < Pow2(m) * Pow2(u) {
      BracketLinear(m, u, v);
    } else {
      PowSum(m, u);
      PowPositive(m + u);
      LogAtLeast(v, m + u);
      var b: nat := Log2(v) - m - u;
      IndexRow(m, u, v, b);
      var half, q := Pow2(m), v / Pow2(b + u);
      ValueRow(m, u, b, q - half);
      RowEdge(m, u, b, q - half);
      PowPositive(b + u);
      DivBounds(v, Pow2(b + u));
    }
  }

  lemma PowPositive(n: nat)
    ensures Pow2(n) > 0
  {
  }

  lemma BracketLinear(m: nat, u: nat, v: nat)
    requires v < Pow2(m) * Pow2(u)
    ensures Value(m, u, Index(m, u, v)) <= v < Value(m, u, Index(m, u, v) + 1)
  {
    hide Pow2; hide Log2;
    MulMono(Pow2(m), 2 * Pow2(m), Pow2(u));
    DivBounds(v, Pow2(u));
    DivBelow(v, Pow2(u), Pow2(m));
  }

  // Edges grow with the index.
  lemma NextEdge(m: nat, u: nat, i: nat)
    ensures Value(m, u, i) < Value(m, u, i + 1)
  {
    hide Pow2; hide Log2; hide Value;
    var half := Pow2(m);
    PowPositive(m);
    if i < half {
      LinearEdge(m, u, i);
    } else {
      var b: nat := i / half - 1;
      DivAtLeast(i, half, 1);
      DivBounds(i, half);
      Row(half, b);
      Row(half, i / half);
      var s: nat := i - half * (b + 1);
      ValueRow(m, u, b, s);
      RowEdge(m, u, b, s);
      PowPositive(b + u);
      Row(Pow2(b + u), half + s);
    }
  }

  lemma LinearEdge(m: nat, u: nat, i: nat)
    requires i < Pow2(m)
    ensures Value(m, u, i) < Value(m, u, i + 1)
  {
    hide Pow2; hide Log2;
    PowPositive(u);
    Row(Pow2(u), i);
  }

  lemma {:induction false} EdgesGrow(m: nat, u: nat, i: nat, j: nat)
    requires i <= j
    ensures Value(m, u, i) <= Value(m, u, j) && (i < j ==> Value(m, u, i) < Value(m, u, j))
    decreases j
  {
    hide Value;
    if i < j {
      EdgesGrow(m, u, i, j - 1);
      NextEdge(m, u, j - 1);
    }
  }

  // The bucket of a value is the one its edges bracket, and no other.
  lemma BracketUnique(m: nat, u: nat, v: nat, i: nat)
    ensures Index(m, u, v) == i <==> Value(m, u, i) <= v < Value(m, u, i + 1)
  {
    hide Value; hide Index;
    var k := Index(m, u, v);
    Bracket(m, u, v);
    if k < i {
      EdgesGrow(m, u, k + 1, i);
    } else if i < k {
      EdgesGrow(m, u, i + 1, k);
    }
  }

  // Bucket indexing is monotone.
  lemma IndexMonotone(m: nat, u: nat, v: nat, w: nat)
    requires v <= w
    ensures Index(m, u, v) <= Index(m, u, w)
  {
    hide Value; hide Index;
    Bracket(m, u, v);
    Bracket(m, u, w);
    if Index(m, u, w) < Index(m, u, v) {
      EdgesGrow(m, u, Index(m, u, w) + 1, Index(m, u, v));
    }
  }

  // An edge is in the bucket it starts.
  lemma RoundTrip(m: nat, u: nat, i: nat)
    ensures Index(m, u, Value(m, u, i)) == i
  {
    hide Value; hide Index;
    NextEdge(m, u, i);
    BracketUnique(m, u, Value(m, u, i), i);
  }

  // The edge below a value misses it by less than one part in 2^m; below 2^(m+1)
  // units it misses by less than a unit, so for whole units not at all.
  lemma ErrorBound(m: nat, u: nat, v: nat)
    ensures var lo := Value(m, u, Index(m, u, v));
      && lo <= v
      && (v >= Pow2(m) * Pow2(u) ==> Pow2(m) * (v - lo) < lo)
      && (v < 2 * Pow2(m) * Pow2(u) ==> v - lo < Pow2(u))
  {
    hide Pow2; hide Log2; hide Value; hide Index;
    Bracket(m, u, v);
    if v < 2 * Pow2(m) * Pow2(u) {
      ErrorLinear(m, u, v);
    }
    if v >= Pow2(m) * Pow2(u) {
      ErrorRow(m, u, v);
    }
  }

  lemma ErrorLinear(m: nat, u: nat, v: nat)
    requires v < 2 * Pow2(m) * Pow2(u)
    ensures v - Value(m, u, Index(m, u, v)) < Pow2(u)
  {
    hide Pow2; hide Log2; hide Value; hide Index;
    PowPositive(u);
    var unit, q := Pow2(u), v / Pow2(u);
    IndexLinear(m, u, v);
    DivBelow(v, unit, 2 * Pow2(m));
    ValueLinear(m, u, q);
    DivBounds(v, unit);
    Next(q, unit);
  }

  lemma Next(q: nat, d: nat)
    ensures (q + 1) * d == q * d + d
  {
  }

  lemma IndexLinear(m: nat, u: nat, v: nat)
    requires v < 2 * Pow2(m) * Pow2(u)
    ensures Index(m, u, v) == v / Pow2(u)
  {
  }

  lemma ValueLinear(m: nat, u: nat, i: nat)
    requires i < 2 * Pow2(m)
    ensures Value(m, u, i) == i * Pow2(u)
  {
  }

  lemma RowError(half: nat, width: nat, q: nat, v: nat)
    requires q * width <= v < (q + 1) * width && 0 < half <= q
    ensures half * (v - q * width) < q * width
  {
    Next(q, width);
    Scale(half, v - q * width, width);
    MulMono(half, q, width);
  }

  lemma ErrorRow(m: nat, u: nat, v: nat)
    requires v >= Pow2(m) * Pow2(u)
    ensures var lo := Value(m, u, Index(m, u, v)); lo <= v && Pow2(m) * (v - lo) < lo
  {
    hide Pow2; hide Log2; hide Value; hide Index;
    PowSum(m, u);
    PowPositive(m + u);
    LogAtLeast(v, m + u);
    var b: nat := Log2(v) - m - u;
    IndexRow(m, u, v, b);
    var half, width := Pow2(m), Pow2(b + u);
    var q := v / width;
    ValueRow(m, u, b, q - half);
    DivBounds(v, width);
    PowPositive(m);
    RowError(half, width, q, v);
  }

  lemma Scale(k: nat, a: nat, c: nat)
    requires a < c && k > 0
    ensures k * a < k * c
  {
  }
}

/**
 The histogram over its count array: recording, and percentiles by a scan of
 the cumulative counts.
 */
module Histogram {
  import opened Buckets

  const MAX_BUCKETS: nat := 4096
  const UINT64_MAX: nat := 0xFFFF_FFFF_FFFF_FFFF

  datatype Sample = Sample(value: nat, count: nat)

  datatype Scale = Scale(m: nat, u: nat, len: nat)

  // The bucket a value is counted in; the code clamps only beyond the linear
  // part.
  function BucketOf(c: Scale, v: nat): (i: nat) {
    var i := Index(c.m, c.u, v);
    if v < 2 * Pow2(c.m) * Pow2(c.u) || i < c.len || c.len == 0 then i else c.len - 1
  }

  // What percentile reports for a sample.
  function Edge(c: Scale, v: nat): (lo: nat) {
    Value(c.m, c.u, BucketOf(c, v))
  }

  // ----- Counting samples -----

  ghost function Mass(h: seq<Sample>, f: nat -> bool): (n: nat) {
    if h == [] then 0 else (if f(h[0].value) then h[0].count else 0) + Mass(h[1..], f)
  }

  lemma {:induction false} MassMono(h: seq<Sample>, f: nat -> bool, g: nat -> bool)
    requires forall k | 0 <= k < |h| :: f(h[k].value) ==> g(h[k].value)
    ensures Mass(h, f) <= Mass(h, g)
  {
    if h != [] {
      MassMono(h[1..], f, g);
    }
  }

  lemma {:induction false} MassSplit(h: seq<Sample>, f: nat -> bool, g: nat -> bool, all: nat -> bool)
    requires forall k | 0 <= k < |h| ::
      (all(h[k].value) <==> f(h[k].value) || g(h[k].value)) && !(f(h[k].value) && g(h[k].value))
    ensures Mass(h, all) == Mass(h, f) + Mass(h, g)
  {
    if h != [] {
      MassSplit(h[1..], f, g, all);
    }
  }

  lemma {:induction false} MassAppend(h: seq<Sample>, x: Sample, f: nat -> bool)
    ensures Mass(h + [x], f) == Mass(h, f) + if f(x.value) then x.count else 0
  {
    if h == [] {
      assert h + [x] == [x];
    } else {
      assert (h + [x])[1..] == h[1..] + [x];
      MassAppend(h[1..], x, f);
    }
  }

  lemma {:induction false} MassNone(h: seq<Sample>, f: nat -> bool)
    requires forall k | 0 <= k < |h| :: !f(h[k].value)
    ensures Mass(h, f) == 0
  {
    if h != [] {
      MassNone(h[1..], f);
    }
  }

  ghost function In(c: Scale, i: nat): (f: nat -> bool) {
    (v: nat) => BucketOf(c, v) == i
  }

  ghost function Under(c: Scale, i: nat): (f: nat -> bool) {
    (v: nat) => BucketOf(c, v) < i
  }

  ghost function Less(x: nat): (f: nat -> bool) {
    (v: nat) => v < x
  }

  ghost function AtMost(x: nat): (f: nat -> bool) {
    (v: nat) => v <= x
  }

  ghost function Any(): (f: nat -> bool) {
    (v: nat) => true
  }

  // ----- Ranks -----

  // v is the t-th smallest sample.
  ghost predicate IsRank(h: seq<Sample>, t: nat, v: nat) {
    Mass(h, Less(v)) < t <= Mass(h, AtMost(v))
  }

  // The t-th sample is counted in bucket k.
  ghost predicate RankBucket(c: Scale, h: seq<Sample>, t: nat, k: nat) {
    Mass(h, Under(c, k)) < t <= Mass(h, Under(c, k + 1))
  }

  // Every sample was accepted.
  ghost predicate Accepted(c: Scale, h: seq<Sample>) {
    forall k | 0 <= k < |h| :: BucketOf(c, h[k].value) < c.len
  }

  // Larger samples are not in lower buckets.
  lemma BucketMonotone(c: Scale, v: nat, w: nat)
    requires v <= w && BucketOf(c, v) < c.len && BucketOf(c, w) < c.len
    ensures BucketOf(c, v) <= BucketOf(c, w)
  {
    hide Index; hide Pow2;
    IndexMonotone(c.m, c.u, v, w);
  }

  lemma BucketOrder(c: Scale, v: nat, w: nat)
    requires BucketOf(c, v) < BucketOf(c, w) < c.len
    ensures v < w
  {
    hide BucketOf;
    if w <= v {
      BucketMonotone(c, w, v);
    }
  }

  // The bucket in which the cumulative count reaches t is that of the sample of
  // rank t.
  lemma RankEdge(c: Scale, h: seq<Sample>, t: nat, k: nat, v: nat)
    requires Accepted(c, h) && RankBucket(c, h, t, k) && IsRank(h, t, v) && BucketOf(c, v) < c.len
    ensures BucketOf(c, v) == k
  {
    hide BucketOf;
    if BucketOf(c, v) > k {
      forall j | 0 <= j < |h| && Under(c, k + 1)(h[j].value)
        ensures Less(v)(h[j].value)
      {
        BucketOrder(c, h[j].value, v);
      }
      MassMono(h, Under(c, k + 1), Less(v));
    } else if BucketOf(c, v) < k {
      forall j | 0 <= j < |h| && AtMost(v)(h[j].value)
        ensures Under(c, k)(h[j].value)
      {
        BucketMonotone(c, h[j].value, v);
      }
      MassMono(h, AtMost(v), Under(c, k));
    }
  }

  // Every rank has its sample.
  lemma RankExists(h: seq<Sample>, t: nat) returns (v: nat)
    requires 1 <= t <= Mass(h, Any())
    ensures IsRank(h, t, v)
  {
    var top := Top(h);
    MassMono(h, Any(), AtMost(top));
    v := 0;
    MassNone(h, Less(0));
    while Mass(h, AtMost(v)) < t
      invariant Mass(h, Less(v)) < t
      decreases top - v
    {
      if v >= top {
        MassMono(h, AtMost(top), AtMost(v));
      }
      MassMono(h, Less(v + 1), AtMost(v));
      v := v + 1;
    }
  }

  ghost function Top(h: seq<Sample>): (x: nat)
    ensures forall k | 0 <= k < |h| :: h[k].value <= x
  {
    if h == [] then 0
    else
      var x := Top(h[1..]);
      assert forall k | 1 <= k < |h| :: h[k] == h[1..][k - 1];
      if h[0].value > x then h[0].value else x
  }

  // A sample of that rank is one of the history.
  lemma {:induction false} RankIsSample(h: seq<Sample>, t: nat, v: nat)
    requires IsRank(h, t, v)
    ensures exists k | 0 <= k < |h| :: h[k].value == v
  {
    if forall k | 0 <= k < |h| :: h[k].value != v {
      MassMono(h, AtMost(v), Less(v));
    }
  }

  // What percentile gives for target t: the edge of the bucket of the sample of
  // rank t.
  ghost predicate Reports(c: Scale, h: seq<Sample>, t: nat, r: nat) {
    forall v: nat :: IsRank(h, t, v) ==> r == Edge(c, v)
  }

  lemma BucketReports(c: Scale, h: seq<Sample>, t: nat, k: nat)
    requires Accepted(c, h) && RankBucket(c, h, t, k)
    ensures Reports(c, h, t, Value(c.m, c.u, k))
  {
    hide BucketOf; hide Value; hide RankBucket; hide IsRank;
    forall v: nat | IsRank(h, t, v)
      ensures Value(c.m, c.u, k) == Edge(c, v)
    {
      RankIsSample(h, t, v);
      RankEdge(c, h, t, k, v);
    }
  }

  // Reported values do not exceed the sample, and are ordered as the ranks are.
  lemma EdgeBelow(c: Scale, v: nat)
    requires BucketOf(c, v) < c.len
    ensures Edge(c, v) <= v
  {
    hide Value; hide Index; hide Pow2;
    Bracket(c.m, c.u, v);
    EdgesGrow(c.m, c.u, BucketOf(c, v), Index(c.m, c.u, v));
  }

  lemma UnderStep(c: Scale, h: seq<Sample>, i: nat)
    ensures Mass(h, Under(c, i + 1)) == Mass(h, Under(c, i)) + Mass(h, In(c, i))
  {
    hide BucketOf;
    MassSplit(h, Under(c, i), In(c, i), Under(c, i + 1));
  }

  lemma UnderAll(c: Scale, h: seq<Sample>)
    requires Accepted(c, h)
    ensures Mass(h, Under(c, c.len)) == Mass(h, Any())
  {
    hide BucketOf;
    MassMono(h, Under(c, c.len), Any());
    MassMono(h, Any(), Under(c, c.len));
  }

  lemma UnderNone(c: Scale, h: seq<Sample>)
    ensures Mass(h, Under(c, 0)) == 0
  {
    hide BucketOf;
    MassNone(h, Under(c, 0));
  }

  lemma UnderGrows(c: Scale, h: seq<Sample>, i: nat, j: nat)
    requires i <= j
    ensures Mass(h, Under(c, i)) <= Mass(h, Under(c, j))
  {
    hide BucketOf;
    MassMono(h, Under(c, i), Under(c, j));
  }

  function Sum(s: seq<nat>): (n: nat) {
    if s == [] then 0 else Sum(s[..|s| - 1]) + s[|s| - 1]
  }

  lemma {:induction false} SumUnder(c: Scale, h: seq<Sample>, s: seq<nat>)
    requires forall i | 0 <= i < |s| :: s[i] == Mass(h, In(c, i))
    ensures Sum(s) == Mass(h, Under(c, |s|))
    decreases |s|
  {
    hide Mass; hide BucketOf;
    if s == [] {
      UnderNone(c, h);
    } else {
      SumUnder(c, h, s[..|s| - 1]);
      UnderStep(c, h, |s| - 1);
    }
  }

  // The counts of the buckets add up to the number of samples.
  lemma CountsAddUp(c: Scale, h: seq<Sample>, s: seq<nat>)
    requires Accepted(c, h) && |s| == c.len && forall i | 0 <= i < |s| :: s[i] == Mass(h, In(c, i))
    ensures Sum(s) == Mass(h, Any())
  {
    hide Mass; hide BucketOf;
    SumUnder(c, h, s);
    UnderAll(c, h);
  }

  // ----- Helpers for the class -----

  lemma FirstRow(m: nat, u: nat)
    ensures 2 * Pow2(m) * Pow2(u) == Pow2(m) * Pow2(1 + u) > 0
  {
    hide Index; hide Value;
    PowStep(1 + u);
    Assoc(Pow2(m), 2, Pow2(u));
    MulPositive(Pow2(m), Pow2(1 + u));
  }

  lemma Doubled(half: nat, n: nat)
    ensures half * Pow2(n) * 2 == half * Pow2(n + 1)
  {
    PowStep(n + 1);
    Assoc(half, 2, Pow2(n));
  }

  lemma MulPositive(a: nat, c: nat)
    requires a > 0 && c > 0
    ensures a * c > 0
  {
  }

  // A table of n + 1 rows covers what is below the next power.
  lemma Covers(m: nat, u: nat, n: nat, highest: nat)
    requires highest < Pow2(m) * Pow2(n + u)
    ensures forall v: nat | v <= highest :: Index(m, u, v) < (n + 1) * Pow2(m)
  {
    hide Pow2; hide Index; hide Value; hide Log2;
    forall v: nat | v <= highest
      ensures Index(m, u, v) < (n + 1) * Pow2(m)
    {
      PowPositive(m);
      ValueRow(m, u, n, 0);
      Bracket(m, u, v);
      if Index(m, u, v) >= (n + 1) * Pow2(m) {
        EdgesGrow(m, u, Pow2(m) * (n + 1), Index(m, u, v));
      }
    }
  }

  // How often the first row doubles until it passes the highest value, plus one.
  function Rows(smallest: nat, highest: nat): (n: nat)
    requires smallest > 0
    decreases if smallest <= highest then highest - smallest + 1 else 0
  {
    if smallest <= highest && smallest <= UINT64_MAX / 2 then 1 + Rows(2 * smallest, highest) else 1
  }

  // The number of buckets in use.
  function Length(m: nat, u: nat, highest: nat): (n: nat) {
    MulPositive(2 * Pow2(m), Pow2(u));
    var len := (Rows(2 * Pow2(m) * Pow2(u), highest) + 1) * Pow2(m);
    if len > MAX_BUCKETS then MAX_BUCKETS else len
  }

  lemma {:induction false} RowsAre(smallest: nat, k: nat, highest: nat)
    requires smallest > 0 && highest <= UINT64_MAX / 2 && highest < smallest * Pow2(k)
    requires k > 0 ==> smallest * Pow2(k - 1) <= highest
    ensures Rows(smallest, highest) == k + 1
    decreases k
  {
    if k > 0 {
      PowPositive(k - 1);
      MulPositive(smallest, Pow2(k - 1));
      AtLeastOnce(smallest, Pow2(k - 1));
      Doubled(smallest, k - 1);
      DoubledRow(smallest, k);
      RowsAre(2 * smallest, k - 1, highest);
    }
  }

  lemma AtLeastOnce(a: nat, b: nat)
    requires b > 0
    ensures a <= a * b
  {
  }

  lemma DoubledRow(smallest: nat, k: nat)
    requires k > 0
    ensures 2 * smallest * Pow2(k - 1) == smallest * Pow2(k)
    ensures k > 1 ==> 2 * smallest * Pow2(k - 2) == smallest * Pow2(k - 1)
  {
    Regroup(smallest, Pow2(k - 1));
    if k > 1 {
      Regroup(smallest, Pow2(k - 2));
    }
  }

  lemma Regroup(a: nat, b: nat)
    ensures 2 * a * b == a * (2 * b)
  {
  }

  // The default scale: two significant figures, up to 10^10, counted in 3584
  // buckets that cover everything below 2^34.
  lemma DefaultScale(v: nat)
    requires v < Pow2(34)
    ensures Length(7, 0, 10_000_000_000) == 3584 && Index(7, 0, v) < 3584
    ensures var lo := Value(7, 0, Index(7, 0, v));
      lo <= v && (v >= 128 ==> 128 * (v - lo) < lo) && (v < 256 ==> lo == v)
  {
    hide Index; hide Value; hide Rows; hide Pow2;
    SmallPowers();
    PowSum(7, 27);
    Covers(7, 0, 27, v);
    DefaultRows();
    ErrorBound(7, 0, v);
  }

  lemma SmallPowers()
    ensures Pow2(7) == 128 && Pow2(0) == 1
  {
  }

  lemma DefaultRows()
    ensures Rows(256, 10_000_000_000) == 27
  {
    hide Pow2;
    PowersAre();
    RowsAre(256, 26, 10_000_000_000);
  }

  lemma PowersAre()
    ensures Pow2(26) == 67108864 && Pow2(25) == 33554432
  {
    assert Pow2(5) == 32 && Pow2(6) == 64;
    PowSum(5, 5);
    PowSum(10, 10);
    PowSum(20, 5);
    PowSum(20, 6);
  }

  // A sample at or above the linear part is always counted: in its own bucket, or
  // in the last one if that lies beyond the table.
  lemma OverflowCounted(c: Scale, v: nat)
    requires c.len > 0 && v >= 2 * Pow2(c.m) * Pow2(c.u)
    ensures BucketOf(c, v) < c.len
    ensures Index(c.m, c.u, v) < c.len ==> BucketOf(c, v) == Index(c.m, c.u, v)
    ensures Index(c.m, c.u, v) >= c.len ==> BucketOf(c, v) == c.len - 1
  {
    hide Index; hide Pow2;
  }

  lemma LargeCounted(c: Scale, v: nat)
    requires c.len > 0
    ensures v >= 2 * Pow2(c.m) * Pow2(c.u) ==> BucketOf(c, v) < c.len
  {
    hide Index; hide Pow2;
  }

  // A constructed histogram whose linear part fits the table refuses no sample.
  lemma AcceptsAll(m: nat, u: nat, highest: nat, v: nat)
    requires 2 * Pow2(m) <= MAX_BUCKETS
    ensures var len := Length(m, u, highest); len > 0 && BucketOf(Scale(m, u, len), v) < len
  {
    hide Index; hide Pow2; hide Value;
    PowPositive(m);
    PowPositive(u);
    MulPositive(2 * Pow2(m), Pow2(u));
    var rows, len := Rows(2 * Pow2(m) * Pow2(u), highest), Length(m, u, highest);
    MulMono(2, rows + 1, Pow2(m));
    assert len >= 2 * Pow2(m);
    if v < 2 * Pow2(m) * Pow2(u) {
      IndexLinear(m, u, v);
      Below(v, 2 * Pow2(m), Pow2(u));
    } else {
      OverflowCounted(Scale(m, u, len), v);
    }
  }

  lemma Below(v: nat, a: nat, b: nat)
    requires b > 0 && v < a * b
    ensures v / b < a
  {
    var q := v / b;
    assert v == q * b + v % b;
    if q >= a {
      MulMono(a, q, b);
    }
  }

  // The sum of all samples.
  function Weight(h: seq<Sample>): (n: nat) {
    if h == [] then 0 else Weight(h[..|h| - 1]) + h[|h| - 1].value * h[|h| - 1].count
  }

  lemma WeightNext(h: seq<Sample>, x: Sample)
    ensures Weight(h + [x]) == Weight(h) + x.value * x.count
  {
    assert (h + [x])[..|h|] == h;
  }

  lemma ReadyNext(h: seq<Sample>, x: Sample, max: nat, min: nat)
    requires h != [] ==> Ready(h, max, min)
    requires h == [] ==> max == 0 && x.value <= min
    ensures Ready(h + [x], if x.value > max then x.value else max, if x.value < min then x.value else min)
  {
    var h' := h + [x];
    assert h'[|h|] == x;
    if h != [] {
      var a :| 0 <= a < |h| && h[a].value == max;
      var c :| 0 <= c < |h| && h[c].value == min;
      assert h'[a].value == max && h'[c].value == min;
    }
  }

  // ----- The histogram -----

  ghost predicate Ready(h: seq<Sample>, max: nat, min: nat) {
    && (forall k | 0 <= k < |h| :: min <= h[k].value <= max)
    && (h != [] ==> exists k | 0 <= k < |h| :: h[k].value == max)
    && (h != [] ==> exists k | 0 <= k < |h| :: h[k].value == min)
  }

  datatype Percentiles = Percentiles(p50: nat, p90: nat, p99: nat, p999: nat, min: nat, max: nat, totalCount: nat)

  class HdrHistogram {
    const scale: Scale
    const counts: array<nat>
    var totalCount: nat
    var totalSum: nat
    var minValue: nat
    var maxValue: nat
    ghost var history: seq<Sample>

    ghost predicate CountsOk()
      reads this, counts
    {
      scale.len <= counts.Length && forall i | 0 <= i < scale.len :: counts[i] == Mass(history, In(scale, i))
    }

    ghost predicate Valid()
      reads this, counts
    {
      && 0 < scale.len <= counts.Length == MAX_BUCKETS && Accepted(scale, history) && CountsOk()
      && totalCount == Mass(history, Any()) && totalSum == Weight(history)
      && (history == [] ==> minValue == UINT64_MAX && maxValue == 0)
      && (history != [] ==> Ready(history, maxValue, minValue))
    }

    // Doubles the range until it covers the highest value to track.
    constructor (m: nat, u: nat, highest: nat)
      ensures Valid() && history == [] && scale.m == m && scale.u == u && fresh(counts)
      ensures scale.len == Length(m, u, highest)
      ensures scale.len < MAX_BUCKETS && highest <= UINT64_MAX / 2 ==>
        forall v: nat | v <= highest :: Index(m, u, v) < scale.len
    {
      hide Pow2; hide Index; hide Value;
      PowPositive(m);
      var half := Pow2(m);
      MulPositive(2 * half, Pow2(u));
      var smallest := 2 * half * Pow2(u);
      var bucketCount: nat := 1;
      FirstRow(m, u);
      while smallest <= highest && smallest <= UINT64_MAX / 2
        invariant smallest == half * Pow2(bucketCount + u) && smallest > 0
        invariant bucketCount - 1 + Rows(smallest, highest) == Rows(2 * half * Pow2(u), highest)
        decreases highest - smallest
      {
        Doubled(half, bucketCount + u);
        smallest := smallest * 2;
        bucketCount := bucketCount + 1;
      }
      var len := (bucketCount + 1) * half;
      MulPositive(bucketCount + 1, half);
      if len > MAX_BUCKETS {
        len := MAX_BUCKETS;
      }
      scale := Scale(m, u, len);
      counts := new nat[MAX_BUCKETS](_ => 0);
      totalCount, totalSum, minValue, maxValue, history := 0, 0, UINT64_MAX, 0, [];
      if len < MAX_BUCKETS && highest <= UINT64_MAX / 2 {
        Covers(m, u, bucketCount, highest);
      }
    }

    method RecordWithCount(value: nat, count: nat) returns (ok: bool)
      requires Valid() && value <= UINT64_MAX
      modifies this, counts
      ensures Valid() && ok == (BucketOf(scale, value) < scale.len)
      ensures value >= 2 * Pow2(scale.m) * Pow2(scale.u) ==> ok
      ensures history == if ok then old(history) + [Sample(value, count)] else old(history)
    {
      hide BucketOf; hide Mass; hide Weight; hide Pow2; hide Index; hide Ready;
      var idx := BucketOf(scale, value);
      LargeCounted(scale, value);
      ok := idx < scale.len;
      if ok {
        ghost var h, x := history, Sample(value, count);
        counts[idx] := counts[idx] + count;
        totalCount := totalCount + count;
        totalSum := totalSum + value * count;
        if value < minValue {
          minValue := value;
        }
        if value > maxValue {
          maxValue := value;
        }
        history := history + [x];
        forall i | 0 <= i < scale.len
          ensures counts[i] == Mass(history, In(scale, i))
        {
          MassAppend(h, x, In(scale, i));
        }
        MassAppend(h, x, Any());
        WeightNext(h, x);
        ReadyNext(h, x, old(maxValue), old(minValue));
      }
    }

    // The lower edge of the bucket that holds the sample of rank `target`.
    method Percentile(target: nat) returns (r: nat)
      requires Valid() && target >= 1
      ensures totalCount == 0 ==> r == 0
      ensures target <= totalCount ==> Reports(scale, history, target, r) && r <= maxValue
      ensures 0 < totalCount < target ==> r == maxValue
    {
      hide BucketOf; hide Mass; hide Value; hide Ready;
      if totalCount == 0 {
        return 0;
      }
      var cumulative: nat := 0;
      UnderNone(scale, history);
      for i := 0 to scale.len
        invariant cumulative == Mass(history, Under(scale, i)) < target
      {
        UnderStep(scale, history, i);
        cumulative := cumulative + counts[i];
        if cumulative >= target {
          BucketReports(scale, history, target, i);
          UnderGrows(scale, history, i + 1, scale.len);
          UnderAll(scale, history);
          RankBelowMax(scale, history, target, Value(scale.m, scale.u, i), maxValue, minValue);
          return Value(scale.m, scale.u, i);
        }
      }
      UnderAll(scale, history);
      return maxValue;
    }

    // All four percentiles in one pass, for targets that are ranks in order.
    method GetPercentiles(t50: nat, t90: nat, t99: nat, t999: nat) returns (p: Percentiles)
      requires Valid() && (totalCount > 0 ==> 1 <= t50 <= t90 <= t99 <= t999 <= totalCount)
      ensures totalCount == 0 ==> p == Percentiles(0, 0, 0, 0, 0, 0, 0)
      ensures totalCount > 0 ==>
        && Reports(scale, history, t50, p.p50) && Reports(scale, history, t90, p.p90)
        && Reports(scale, history, t99, p.p99) && Reports(scale, history, t999, p.p999)
        && p.p50 <= p.p90 <= p.p99 <= p.p999 <= p.max && p.min == minValue && p.max == maxValue
        && p.totalCount == totalCount
    {
      hide BucketOf; hide Mass; hide Value; hide Ready; hide Reports;
      if totalCount == 0 {
        return Percentiles(0, 0, 0, 0, 0, 0, 0);
      }
      var cumulative: nat := 0;
      var got50, got90, got99, got999 := false, false, false, false;
      var p50, p90, p99, p999 := 0, 0, 0, 0;
      UnderNone(scale, history);
      var i: nat := 0;
      while i < scale.len && !got999
        invariant i <= scale.len && cumulative == Mass(history, Under(scale, i))
        invariant Found(scale, history, t50, cumulative, got50, p50, i)
        invariant Found(scale, history, t90, cumulative, got90, p90, i)
        invariant Found(scale, history, t99, cumulative, got99, p99, i)
        invariant Found(scale, history, t999, cumulative, got999, p999, i)
        invariant (got90 ==> p50 <= p90) && (got99 ==> p90 <= p99) && (got999 ==> p99 <= p999)
      {
        UnderStep(scale, history, i);
        ghost var before := cumulative;
        cumulative := cumulative + counts[i];
        var val := Value(scale.m, scale.u, i);
        FindStep(scale, history, t50, before, cumulative, got50, p50, i);
        FindStep(scale, history, t90, before, cumulative, got90, p90, i);
        FindStep(scale, history, t99, before, cumulative, got99, p99, i);
        FindStep(scale, history, t999, before, cumulative, got999, p999, i);
        if !got50 && cumulative >= t50 {
          p50, got50 := val, true;
        }
        if !got90 && cumulative >= t90 {
          p90, got90 := val, true;
        }
        if !got99 && cumulative >= t99 {
          p99, got99 := val, true;
        }
        if !got999 && cumulative >= t999 {
          p999, got999 := val, true;
        }
        i := i + 1;
      }
      UnderAll(scale, history);
      RankBelowMax(scale, history, t999, p999, maxValue, minValue);
      p := Percentiles(p50, p90, p99, p999, minValue, maxValue, totalCount);
    }
  }

  // Where a scan stands with one target: found, with a value already passed, or
  // not yet reached.
  ghost predicate Found(c: Scale, h: seq<Sample>, t: nat, cumulative: nat, got: bool, r: nat, i: nat) {
    if got then t <= cumulative && Reports(c, h, t, r) && exists k | 0 <= k < i :: r == Value(c.m, c.u, k)
    else cumulative < t
  }

  lemma FindStep(c: Scale, h: seq<Sample>, t: nat, before: nat, after: nat, got: bool, r: nat, i: nat)
    requires Accepted(c, h) && Found(c, h, t, before, got, r, i) && before <= after
    requires before == Mass(h, Under(c, i)) && after == Mass(h, Under(c, i + 1))
    ensures var val := Value(c.m, c.u, i);
      var found := !got && after >= t;
      && Found(c, h, t, after, got || found, if found then val else r, i + 1)
      && (got ==> r <= val)
  {
    hide BucketOf; hide Mass; hide Value; hide Reports;
    if got {
      var k :| 0 <= k < i && r == Value(c.m, c.u, k);
      EdgesGrow(c.m, c.u, k, i);
    } else if after >= t {
      BucketReports(c, h, t, i);
    }
  }

  lemma RankBelowMax(c: Scale, h: seq<Sample>, t: nat, r: nat, max: nat, min: nat)
    requires Accepted(c, h) && Reports(c, h, t, r) && 1 <= t <= Mass(h, Any()) && (h != [] ==> Ready(h, max, min))
    ensures r <= max
  {
    hide BucketOf; hide Value; hide IsRank;
    var v := RankExists(h, t);
    RankIsSample(h, t, v);
    EdgeBelow(c, v);
  }
}
