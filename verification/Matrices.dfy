/** Range results as matrices: their slices at a step, and the facts that tie
    points collected over a grid to the slices they make up. */
module Matrices {
  import opened Common
  import opened Samples
  import opened Grid
  import opened MatrixWindow

  import opened PromExpr

  function At(points: seq<Point>, ts: int): Option<real> {
    if points == [] then None
    else if points[0].t == ts then Some(points[0].v)
    else At(points[1..], ts)
  }

  /** The vector of a matrix at one step. */
  ghost function Slice(m: Matrix, ts: int): Vector {
    map k | k in m && At(m[k], ts).Some? :: At(m[k], ts).value
  }

  ghost predicate PointsOnGrid(points: seq<Point>, start: int, end: int, step: int)
    requires step > 0
  {
    AscendingPoints(points) && forall p :: p in points ==> InGrid(p.t, start, end, step)
  }

  ghost predicate OnGrid(m: Matrix, start: int, end: int, step: int)
    requires step > 0
  {
    forall k :: k in m ==> m[k] != [] && PointsOnGrid(m[k], start, end, step)
  }

  lemma {:induction false} AtMember(points: seq<Point>, ts: int)
    requires AscendingPoints(points)
    ensures At(points, ts).Some? <==> exists p :: p in points && p.t == ts
    ensures forall p :: p in points && p.t == ts ==> At(points, ts) == Some(p.v)
  {
    if points != [] {
      AtMember(points[1..], ts);
      assert forall p :: p in points <==> p == points[0] || p in points[1..];
    }
  }

  lemma {:induction false} AtAppend(points: seq<Point>, p: Point, ts: int)
    requires forall q :: q in points ==> q.t < p.t
    ensures At(points + [p], ts) == if ts == p.t then Some(p.v) else At(points, ts)
  {
    if points != [] {
      assert (points + [p])[1..] == points[1..] + [p];
      AtAppend(points[1..], p, ts);
    }
  }

  lemma AtNothing(points: seq<Point>, ts: int)
    requires AscendingPoints(points) && forall p :: p in points ==> p.t != ts
    ensures At(points, ts) == None
  {
    AtMember(points, ts);
  }

  /** Ascending lists of points with the same members are the same list. */
  lemma {:induction false} SameMembers(a: seq<Point>, b: seq<Point>)
    requires AscendingPoints(a) && AscendingPoints(b)
    requires forall p :: p in a <==> p in b
    ensures a == b
  {
    assert b != [] ==> b[0] in b;
    if a != [] {
      assert a[0] in a;
      assert a[0] == b[0];
      assert forall p :: p in a <==> p == a[0] || p in a[1..];
      assert forall p :: p in b <==> p == b[0] || p in b[1..];
      SameMembers(a[1..], b[1..]);
      assert a == [a[0]] + a[1..] && b == [b[0]] + b[1..];
    }
  }

  lemma GridTail(ts: int, from: int, end: int, step: int)
    requires step > 0
    ensures InGrid(ts, from + step, end, step) <==> InGrid(ts, from, end, step) && ts != from
  {
    ModSelf(step);
    ModSum(ts - from, step, step);
    assert ts - from - step == ts - (from + step);
    if InGrid(ts, from, end, step) && ts != from {
      GridGap(from, ts, from, step);
    }
  }

  /** Collecting over a grid keeps, at every timestamp of the grid, exactly the value there. */
  lemma {:induction false} CollectFacts(g: int -> Option<real>, from: int, end: int, step: int)
    requires step > 0
    ensures PointsOnGrid(Collect(g, from, end, step), from, end, step)
    ensures forall p :: p in Collect(g, from, end, step) ==> g(p.t) == Some(p.v)
    ensures forall ts :: InGrid(ts, from, end, step) ==> At(Collect(g, from, end, step), ts) == g(ts)
    decreases end - from
  {
    if from <= end {
      CollectFacts(g, from + step, end, step);
      var rest, all := Collect(g, from + step, end, step), Collect(g, from, end, step);
      GridStep(from, from, end, step);
      forall p | p in all ensures InGrid(p.t, from, end, step) && g(p.t) == Some(p.v) {
        GridTail(p.t, from, end, step);
      }
      forall ts | InGrid(ts, from, end, step) ensures At(all, ts) == g(ts) {
        GridTail(ts, from, end, step);
        if ts == from && g(from).None? {
          AtNothing(rest, ts);
        }
        assert g(from).Some? ==> all[1..] == rest;
      }
    }
  }

  /** A row of a matrix on the grid has a point, so some slice has its key. */
  lemma RowHasSlice(m: Matrix, k: Metric, start: int, end: int, step: int) returns (ts: int)
    requires step > 0 && OnGrid(m, start, end, step) && k in m
    ensures InGrid(ts, start, end, step) && k in Slice(m, ts)
  {
    var p := m[k][0];
    assert p in m[k];
    ts := p.t;
    AtMember(m[k], ts);
  }

  predicate NoClash(m: Matrix) {
    forall k, k' :: k in m && k' in m ==> !NameClash(k, k')
  }

  /** Rows with the metric name dropped, when that keeps them apart. */
  function RenameRows(m: Matrix): Matrix
    requires NoClash(m)
  {
    map k | k in m :: DropName(k) := m[k]
  }

  lemma RenamedVector(v: Vector)
    requires forall k, k' :: k in v && k' in v ==> !NameClash(k, k')
    ensures forall k :: k in v ==> DropName(k) in Renamed(v) && Renamed(v)[DropName(k)] == v[k]
    ensures forall k' :: k' in Renamed(v) ==> exists k :: k in v && DropName(k) == k'
  {
    forall k | k in v ensures DropName(k) in Renamed(v) && Renamed(v)[DropName(k)] == v[k] {
      assert DropName(k) in Stripped(v);
      assert !NameClash(k, Origin(v, DropName(k)));
    }
  }

  lemma RenamedRows(m: Matrix)
    requires NoClash(m)
    ensures forall k :: k in m ==> DropName(k) in RenameRows(m) && RenameRows(m)[DropName(k)] == m[k]
    ensures forall k' :: k' in RenameRows(m) ==> exists k :: k in m && DropName(k) == k'
  {
  }

  lemma RenameRowsSlice(m: Matrix, ts: int)
    requires NoClash(m)
    ensures Slice(RenameRows(m), ts) == Renamed(Slice(m, ts))
  {
    hide DropName, At, Renamed, RenameRows, NameClash, Slice, NoClash;
    var r, s := Slice(RenameRows(m), ts), Renamed(Slice(m, ts));
    forall k' ensures (k' in r ==> k' in s && s[k'] == r[k']) && (k' in s ==> k' in r) {
      if k' in r {
        InSlice(RenameRows(m), ts, k');
        var k := RowFrom(m, k');
        InSlice(m, ts, k);
        SampleTo(m, ts, k);
      } else if k' in s {
        var k := SampleFrom(m, ts, k');
        InSlice(m, ts, k);
        RowTo(m, k);
        InSlice(RenameRows(m), ts, k');
      }
    }
  }

  lemma RowFrom(m: Matrix, k': Metric) returns (k: Metric)
    requires NoClash(m) && k' in RenameRows(m)
    ensures k in m && DropName(k) == k' && RenameRows(m)[k'] == m[k]
  {
    RenamedRows(m);
    k :| k in m && DropName(k) == k';
  }

  lemma RowTo(m: Matrix, k: Metric)
    requires NoClash(m) && k in m
    ensures DropName(k) in RenameRows(m) && RenameRows(m)[DropName(k)] == m[k]
  {
    RenamedRows(m);
  }

  lemma SampleFrom(m: Matrix, ts: int, k': Metric) returns (k: Metric)
    requires NoClash(m) && k' in Renamed(Slice(m, ts))
    ensures k in Slice(m, ts) && DropName(k) == k'
  {
    hide Slice;
    SliceApart(m, ts);
    RenamedVector(Slice(m, ts));
    k :| k in Slice(m, ts) && DropName(k) == k';
  }

  lemma SampleTo(m: Matrix, ts: int, k: Metric)
    requires NoClash(m) && k in Slice(m, ts)
    ensures DropName(k) in Renamed(Slice(m, ts)) && Renamed(Slice(m, ts))[DropName(k)] == Slice(m, ts)[k]
  {
    hide Slice;
    SliceApart(m, ts);
    RenamedVector(Slice(m, ts));
  }

  lemma InSlice(m: Matrix, ts: int, k: Metric)
    ensures k in Slice(m, ts) <==> k in m && At(m[k], ts).Some?
    ensures k in Slice(m, ts) ==> At(m[k], ts) == Some(Slice(m, ts)[k])
  {
  }

  lemma SliceApart(m: Matrix, ts: int)
    requires NoClash(m)
    ensures forall k, k' :: k in Slice(m, ts) && k' in Slice(m, ts) ==> !NameClash(k, k')
  {
    hide At, NameClash;
  }

  lemma RenameRowsOnGrid(m: Matrix, start: int, end: int, step: int)
    requires step > 0 && NoClash(m) && OnGrid(m, start, end, step)
    ensures OnGrid(RenameRows(m), start, end, step)
  {
    RenamedRows(m);
    hide DropName, RenameRows, PointsOnGrid;
  }
}
