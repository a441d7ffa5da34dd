/**
 * The fixed parameter steps 0, res, 2 res, ... used when a curve is
 * sampled, and how many of them stay within [0, 1].
 */
module Steps {

  /** The k-th fixed step, k Resolution. */
  function Step(k: int, res: real): real {
    k as real * res
  }

  lemma StepNext(k: int, res: real)
    ensures Step(k + 1, res) == Step(k, res) + res
  {}

  lemma Between(q: real, res: real, lo: real, hi: real)
    requires 0.0 < res && lo <= q < hi
    ensures lo * res <= q * res < hi * res
  {
    assert (q - lo) * res >= 0.0;
    assert (hi - q) * res > 0.0;
  }

  lemma Recip(res: real)
    requires 0.0 < res
    ensures (1.0 / res) * res == 1.0 && 1.0 / res > 0.0
  {}

  lemma FloorOf(q: real)
    requires q > 0.0
    ensures q.Floor >= 0 && q.Floor as real <= q < (q.Floor + 1) as real
  {}

  /** The whole number of steps below q = 1 / res brackets 1. */
  lemma FloorBounds(q: real, res: real)
    requires 0.0 < res && q > 0.0 && q * res == 1.0
    ensures q.Floor >= 0 && Step(q.Floor, res) <= 1.0 < Step(q.Floor + 1, res)
  {
    FloorOf(q);
    var f := q.Floor;
    var lo, hi := f as real, (f + 1) as real;
    Between(q, res, lo, hi);
    assert Step(f, res) == lo * res;
    assert Step(f + 1, res) == hi * res;
  }

  /** How many of the steps 0, res, 2 res, ... are at most 1. */
  function StepCount(res: real): (r: nat)
    requires 0.0 < res
    ensures r >= 1 && Step(r - 1, res) <= 1.0 < Step(r, res)
  {
    var q := 1.0 / res;
    Recip(res);
    FloorBounds(q, res);
    q.Floor + 1
  }

  /** Steps grow with k. */
  lemma StepOrder(i: int, j: int, res: real)
    requires i <= j && 0.0 < res
    ensures Step(i, res) <= Step(j, res)
    ensures i < j ==> Step(i, res) < Step(j, res)
  {
    Between(i as real, res, i as real, j as real + 1.0);
    if i < j {
      Between(i as real, res, i as real, j as real);
      assert Step(j, res) == (j as real) * res;
    }
  }
}
