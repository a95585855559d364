/**
 Counting arguments and 32-bit words, shared by several models.
 */
module Counting {

  ghost predicate Distinct(q: seq<nat>) {
    forall i, j | 0 <= i < j < |q| :: q[i] != q[j]
  }

  // A sequence of distinct numbers below n has at most n elements.
  lemma {:induction false} DistinctBound(q: seq<nat>, n: nat)
    requires Distinct(q) && forall i | 0 <= i < |q| :: q[i] < n
    ensures |q| <= n
  {
    assert |q| > 0 ==> q[0] < n;
    if n > 0 {
      if i :| 0 <= i < |q| && q[i] == n - 1 {
        var r := q[..i] + q[i + 1..];
        assert forall j | 0 <= j < |r| :: r[j] == if j < i then q[j] else q[j + 1];
        DistinctBound(r, n - 1);
      } else {
        DistinctBound(q, n - 1);
      }
    }
  }

  const WIDTH: nat := 0x1_0000_0000

  // What a 32-bit counter shows of an unbounded count.
  function Low(n: nat): (w: nat)
    ensures w < WIDTH
  {
    n % WIDTH
  }

  // Less than a lap apart, the low words tell two counts apart.
  lemma LowDiffers(a: nat, b: nat)
    requires a <= b < a + WIDTH && Low(a) == Low(b)
    ensures a == b
  {
  }

  // Counts that show the same word are whole laps apart.
  lemma WholeLaps(a: nat, b: nat)
    requires a < b && Low(a) == Low(b)
    ensures a + WIDTH <= b && Low(b - a) == 0
  {
    if b < a + WIDTH {
      LowDiffers(a, b);
    }
  }

  // After a whole lap the word is the same again.
  lemma LapShows()
    ensures Low(WIDTH) == Low(0) == 0
  {
  }
}
