/** Evaluating a range-vector function over one series, step by step: the
    buffered iterator, `matrixIterSlice` and the matrix loop of `eval`. */
module MatrixWindow {
  import opened Common

  import opened Samples

  /** The number of leading samples before time `t`. */
  function Before(s: seq<Sample>, t: int): (n: nat)
    ensures n <= |s|
    ensures forall i :: 0 <= i < n ==> s[i].t < t
    ensures n < |s| ==> s[n].t >= t
  {
    if s == [] || s[0].t >= t then 0 else 1 + Before(s[1..], t)
  }

  /** A buffered series iterator, known only by what it promises: after
      `Seek(t)` the current sample is the first one at or after `t`, and the
      buffer is a run of samples just before it that reaches back at least
      `delta`. How much further back it reaches is left open. */
  class BufferedIterator {
    const series: seq<Sample>
    var delta: int
    var buf: seq<Sample>
    var cur: nat

    constructor (series: seq<Sample>, delta: int)
      ensures this.series == series && this.delta == delta
    {
      this.series, this.delta, buf, cur := series, delta, [], 0;
    }

    ghost predicate Sought(t: int)
      reads this
    {
      && cur == Before(series, t)
      && |buf| <= cur && buf == series[cur - |buf|..cur]
      && (forall i :: 0 <= i < cur - |buf| ==> series[i].t < t - delta)
    }

    method Seek(t: int) returns (ok: bool)
      modifies this`buf, this`cur
      ensures Sought(t) && ok == (cur < |series|)
    {
      cur := Before(series, t);
      var start :| 0 <= start <= cur && forall i :: 0 <= i < start ==> series[i].t < t - delta;
      buf := series[start..cur];
      ok := cur < |series|;
    }

    /** Only ever shrinks the buffered span. */
    method ReduceDelta(d: int)
      modifies this`delta
      ensures delta == if d <= old(delta) then d else old(delta)
    {
      if d <= delta {
        delta := d;
      }
    }
  }

  lemma {:induction false} BeforeAscending(s: seq<Sample>, t: int)
    requires Ascending(s)
    ensures forall i :: Before(s, t) <= i < |s| ==> s[i].t >= t
  {
  }

  lemma WindowFromCurrent(s: seq<Sample>, cur: nat, lo: int, hi: int)
    requires Ascending(s) && cur == Before(s, hi)
    ensures Window(s[cur..], lo, hi) == if cur < |s| && s[cur].t == hi then Window([s[cur]], lo, hi) else []
  {
    hide Window;
    BeforeAscending(s, hi);
    if cur < |s| && s[cur].t == hi {
      assert s[cur..] == [s[cur]] + s[cur + 1..];
      WindowConcat([s[cur]], s[cur + 1..], lo, hi);
      WindowEmpty(s[cur + 1..], lo, hi);
    } else {
      WindowEmpty(s[cur..], lo, hi);
    }
  }

  /** Only samples the iterator buffered, and the one it stands on, can lie in
      [lo, hi] once it is sought to `hi`, when everything it may have let go of
      is known to hold no live sample from `lo` on. */
  lemma SoughtWindow(s: seq<Sample>, start: nat, cur: nat, lo: int, hi: int)
    requires Ascending(s) && start <= cur == Before(s, hi)
    requires forall x :: x in s[..start] ==> !Live(x, lo, hi)
    ensures Window(s, lo, hi)
         == Window(s[start..cur], lo, hi)
          + (if cur < |s| && s[cur].t == hi then Window([s[cur]], lo, hi) else [])
  {
    hide Window, Ascending;
    WindowFromCurrent(s, cur, lo, hi);
    WindowEmpty(s[..start], lo, hi);
    WindowConcat(s[..start], s[start..cur], lo, hi);
    WindowConcat(s[..cur], s[cur..], lo, hi);
    assert s[..start] + s[start..cur] == s[..cur];
    assert s[..cur] + s[cur..] == s;
  }

  /** Keeps the points of the earlier window [prevLo, prevHi] that are still in
      [mint, maxt]; only points from `from` on remain to be read. */
  method RetainOverlap(ghost s: seq<Sample>, mint: int, ghost maxt: int, out: seq<Point>, ghost prevLo: int, ghost prevHi: int)
      returns (kept: seq<Point>, from: int)
    requires Ascending(s) && out == Window(s, prevLo, prevHi)
    requires prevLo <= mint <= maxt && prevHi < maxt
    ensures mint <= from <= maxt
    ensures kept + Window(s, from, maxt) == Window(s, mint, maxt)
    ensures forall x :: x in s ==> !Live(x, from, prevHi)
  {
    hide Window, Ascending;
    kept, from := [], mint;
    if |out| > 0 && out[|out| - 1].t >= mint {
      var drop := 0;
      while out[drop].t < mint
        invariant 0 <= drop < |out|
        invariant forall i :: 0 <= i < drop ==> out[i].t < mint
        decreases |out| - drop
      {
        drop := drop + 1;
      }
      kept := out[drop..];
      from := kept[|kept| - 1].t + 1;
      WindowPopFront(s, prevLo, prevHi, mint, drop);
      WindowMembers(s, prevLo, prevHi);
      assert out[|out| - 1] in out;
      WindowSplit(s, mint, prevHi, maxt);
      WindowSplit(s, from, prevHi, maxt);
    }
    NoneAfterLast(s, prevLo, prevHi, from);
  }

  /** Appends what the sought iterator holds from `from` on. */
  method AppendBuffered(it: BufferedIterator, from: int, maxt: int, kept: seq<Point>) returns (r: seq<Point>)
    requires it.Sought(maxt) && from <= maxt
    ensures r == kept + Window(it.buf, from, maxt)
      + (if it.cur < |it.series| && it.series[it.cur].t == maxt then Window([it.series[it.cur]], from, maxt) else [])
  {
    r := kept;
    var buf := it.buf;
    for i := 0 to |buf|
      invariant r == kept + Window(buf[..i], from, maxt)
    {
      WindowConcat(buf[..i], [buf[i]], from, maxt);
      assert buf[..i + 1] == buf[..i] + [buf[i]];
      // everything buffered is before maxt
      if buf[i].v.Num? && buf[i].t >= from {
        r := r + [Point(buf[i].t, buf[i].v.r)];
      }
    }
    assert buf[..|buf|] == buf;
    // the sought sample may be in the range too
    if it.cur < |it.series| {
      var c := it.series[it.cur];
      if c.t == maxt && c.v.Num? {
        r := r + [Point(c.t, c.v.r)];
      }
    }
  }

  /** The points of the series in [mint, maxt], given in `out` the points of an
      earlier window [prevLo, prevHi] and an iterator whose buffer reaches back to
      whichever is later, the start of the new window or the end of the old one. */
  method MatrixIterSlice(it: BufferedIterator, mint: int, maxt: int, out: seq<Point>, ghost prevLo: int, ghost prevHi: int)
      returns (r: seq<Point>)
    requires Ascending(it.series)
    requires out == Window(it.series, prevLo, prevHi)
    requires prevLo <= mint <= maxt && prevHi < maxt
    requires maxt - it.delta <= mint || maxt - it.delta <= prevHi + 1
    modifies it
    ensures it.delta == old(it.delta)
    ensures r == Window(it.series, mint, maxt)
  {
    hide Window, Ascending;
    var kept, from := RetainOverlap(it.series, mint, maxt, out, prevLo, prevHi);
    var _ := it.Seek(maxt);
    ghost var start := it.cur - |it.buf|;
    forall x | x in it.series[..start] ensures !Live(x, from, maxt) {
      var i :| 0 <= i < start && it.series[..start][i] == x;
      assert it.series[i] == x && x in it.series;
    }
    SoughtWindow(it.series, start, it.cur, from, maxt);
    r := AppendBuffered(it, from, maxt, kept);
  }

  /** A range function: from the points of a window and the evaluation time to a value, or nothing. */
  type RangeFn = (seq<Point>, int) -> Option<real>

  /** The result of a range function at one step, evaluated on its window alone. */
  function StepValue(s: seq<Sample>, f: RangeFn, ts: int, range: int, offset: int): Option<real> {
    var w := Window(s, ts - offset - range, ts - offset);
    if w == [] then None else f(w, ts)
  }

  function StepAt(s: seq<Sample>, f: RangeFn, range: int, offset: int): int -> Option<real> {
    ts => StepValue(s, f, ts, range, offset)
  }

  /** The points at ts, ts + interval, ... up to end where `g` has a value: every step evaluated on its own. */
  function Collect(g: int -> Option<real>, ts: int, end: int, interval: int): seq<Point>
    requires interval > 0
    decreases end - ts
  {
    if ts > end then []
    else
      var rest := Collect(g, ts + interval, end, interval);
      match g(ts)
      case None => rest
      case Some(v) => [Point(ts, v)] + rest
  }

  function StepResults(s: seq<Sample>, f: RangeFn, ts: int, end: int, interval: int, range: int, offset: int): seq<Point>
    requires interval > 0
  {
    Collect(StepAt(s, f, range, offset), ts, end, interval)
  }

  /** The matrix loop for one series. Points are carried over from step to step
      and, once there has been a result, only min(range, interval) is buffered;
      the outcome is that of evaluating every step on its own. */
  method MatrixSeries(series: seq<Sample>, f: RangeFn, start: int, end: int, interval: int, range: int, offset: int)
      returns (r: seq<Point>)
    requires Ascending(series) && interval > 0 && range >= 0
    ensures r == StepResults(series, f, start, end, interval, range, offset)
  {
    hide Window, Ascending;
    var stepRange := if range > interval then interval else range;
    var it := new BufferedIterator(series, range);
    var points: seq<Point> := [];
    r := [];
    var ts := start;
    ghost var prevLo, prevHi := start - offset - range, start - offset - range - 1;
    assert points == Window(series, prevLo, prevHi) by {
      WindowEmpty(series, prevLo, prevHi);
    }
    while ts <= end
      invariant it.series == series && fresh(it)
      invariant points == Window(series, prevLo, prevHi)
      invariant prevLo <= ts - offset - range && prevHi < ts - offset
      invariant it.delta == range || (it.delta == stepRange && prevHi == ts - interval - offset)
      invariant r + StepResults(series, f, ts, end, interval, range, offset)
             == StepResults(series, f, start, end, interval, range, offset)
      decreases end - ts
    {
      var maxt := ts - offset;
      var mint := maxt - range;
      points := MatrixIterSlice(it, mint, maxt, points, prevLo, prevHi);
      prevLo, prevHi := mint, maxt;
      if points == [] {
        ts := ts + interval;
        continue;
      }
      match f(points, ts) {
        case None =>
        case Some(v) => r := r + [Point(ts, v)];
      }
      it.ReduceDelta(stepRange);
      ts := ts + interval;
    }
  }
}
