/** Evaluation timestamps: start, start + step, ... up to end. */
module Grid {

  ghost predicate InGrid(ts: int, start: int, end: int, step: int)
    requires step > 0
  {
    start <= ts <= end && (ts - start) % step == 0
  }

  lemma MultipleBounds(d: int, m: int)
    requires m > 0
    ensures d >= 1 ==> d * m >= m
    ensures d <= -1 ==> d * m <= -m
  {
    if d >= 1 {
      assert (d - 1) * m >= 0;
    } else if d <= -1 {
      assert (-d - 1) * m >= 0;
    }
  }

  lemma ModUnique(a: int, m: int, q: int, r: int)
    requires m > 0 && a == q * m + r && 0 <= r < m
    ensures a % m == r && a / m == q
  {
    var q', r' := a / m, a % m;
    assert a == m * q' + r';
    assert (q' - q) * m == r - r' by {
      assert (q' - q) * m == q' * m - q * m;
    }
    MultipleBounds(q' - q, m);
  }

  lemma ModSum(a: int, b: int, m: int)
    requires m > 0 && b % m == 0
    ensures (a + b) % m == a % m && (a - b) % m == a % m
  {
    var qa, qb := a / m, b / m;
    assert a + b == (qa + qb) * m + a % m by {
      assert (qa + qb) * m == qa * m + qb * m;
    }
    ModUnique(a + b, m, qa + qb, a % m);
    assert a - b == (qa - qb) * m + a % m by {
      assert (qa - qb) * m == qa * m - qb * m;
    }
    ModUnique(a - b, m, qa - qb, a % m);
  }

  lemma ModSelf(m: int)
    requires m > 0
    ensures m % m == 0 && 0 % m == 0
  {
    ModUnique(m, m, 1, 0);
    ModUnique(0, m, 0, 0);
  }

  /** A step taken on the grid stays on it until the end is passed. */
  lemma GridStep(ts: int, start: int, end: int, step: int)
    requires step > 0
    ensures (ts + step - start) % step == (ts - start) % step
    ensures start <= end ==> InGrid(start, start, end, step)
  {
    ModSelf(step);
    ModSum(ts - start, step, step);
  }

  /** Two different timestamps of a grid are at least a step apart. */
  lemma GridGap(x: int, y: int, start: int, step: int)
    requires step > 0 && x < y
    requires (x - start) % step == 0 && (y - start) % step == 0
    ensures x + step <= y
  {
    ModSum(y - start, x - start, step);
    assert (y - x) % step == 0 by {
      assert (y - start) - (x - start) == y - x;
    }
    if y - x < step {
      ModUnique(y - x, step, 0, y - x);
    }
  }

  /** Integer division truncating toward zero, as Go's `/`. */
  function TruncDiv(a: int, b: int): int
    requires b > 0
  {
    if a >= 0 then a / b else -((-a) / b)
  }

  /** Where a subquery starts: its range start moved up to a multiple of its step. */
  function AlignUp(x: int, step: int): int
    requires step > 0
  {
    var a := step * TruncDiv(x, step);
    if a < x then a + step else a
  }

  /** Despite truncating division, the start is the first multiple of the step at or after `x`, also below zero. */
  lemma AlignUpIsNext(x: int, step: int)
    requires step > 0
    ensures AlignUp(x, step) % step == 0
    ensures x <= AlignUp(x, step) < x + step
  {
    var q := TruncDiv(x, step);
    if x >= 0 {
      assert x == step * q + x % step;
    } else {
      assert -x == step * ((-x) / step) + (-x) % step;
      assert step * q == -(step * ((-x) / step));
    }
    ModUnique(step * q, step, q, 0);
    ModUnique(step * q + step, step, q + 1, 0);
  }

  /** The timestamps of a subquery are the multiples of its step in its range. */
  lemma AlignedGrid(g: int, x: int, hi: int, step: int)
    requires step > 0
    ensures InGrid(g, AlignUp(x, step), hi, step) <==> x <= g <= hi && g % step == 0
  {
    AlignUpIsNext(x, step);
    var a := AlignUp(x, step);
    ModSum(g, a, step);
    ModSelf(step);
    if x <= g < a && g % step == 0 {
      GridGap(g, a, 0, step);
    }
  }

  /** The steps are the start and every whole number of intervals after it up to the end. */
  lemma GridMeans(ts: int, start: int, end: int, step: int)
    requires step > 0
    ensures InGrid(ts, start, end, step) <==> ts <= end && exists k: nat :: ts == start + k * step
  {
    if InGrid(ts, start, end, step) {
      var k := (ts - start) / step;
      assert ts - start == step * k;
      assert k >= 0 by {
        MultipleBounds(k, step);
      }
    }
    if k: nat :| ts == start + k * step {
      assert k * step >= 0;
      ModUnique(ts - start, step, k, 0);
    }
  }
}
