/** Time series samples, the points kept after dropping stale markers, and the
    closed time windows that range functions are evaluated on. */
module Samples {

  /** A stored value: Prometheus' stale marker, or a number. */
  datatype Value = StaleNaN | Num(r: real)

  datatype Sample = Sample(t: int, v: Value)

  datatype Point = Point(t: int, v: real)

  ghost predicate Ascending(s: seq<Sample>) {
    forall i, j :: 0 <= i < j < |s| ==> s[i].t < s[j].t
  }

  predicate AscendingPoints(s: seq<Point>) {
    forall i, j :: 0 <= i < j < |s| ==> s[i].t < s[j].t
  }

  predicate Live(x: Sample, lo: int, hi: int) {
    x.v.Num? && lo <= x.t <= hi
  }

  /** The non-stale samples of `s` with a timestamp in [lo, hi], in order. */
  function Window(s: seq<Sample>, lo: int, hi: int): seq<Point> {
    if s == [] then []
    else
      var rest := Window(s[1..], lo, hi);
      if Live(s[0], lo, hi) then [Point(s[0].t, s[0].v.r)] + rest else rest
  }

  lemma {:induction false} WindowMembers(s: seq<Sample>, lo: int, hi: int)
    ensures forall p :: p in Window(s, lo, hi) <==> Sample(p.t, Num(p.v)) in s && lo <= p.t <= hi
  {
    if s != [] {
      WindowMembers(s[1..], lo, hi);
    }
  }

  lemma {:induction false} WindowConcat(a: seq<Sample>, b: seq<Sample>, lo: int, hi: int)
    ensures Window(a + b, lo, hi) == Window(a, lo, hi) + Window(b, lo, hi)
  {
    if a == [] {
      assert a + b == b;
    } else {
      assert (a + b)[1..] == a[1..] + b;
      WindowConcat(a[1..], b, lo, hi);
    }
  }

  lemma {:induction false} WindowEmpty(s: seq<Sample>, lo: int, hi: int)
    requires forall x :: x in s ==> !Live(x, lo, hi)
    ensures Window(s, lo, hi) == []
  {
    if s != [] {
      WindowEmpty(s[1..], lo, hi);
    }
  }

  lemma {:induction false} WindowAscending(s: seq<Sample>, lo: int, hi: int)
    requires Ascending(s)
    ensures AscendingPoints(Window(s, lo, hi))
  {
    if s != [] {
      WindowAscending(s[1..], lo, hi);
      WindowMembers(s[1..], lo, hi);
      var rest := Window(s[1..], lo, hi);
      forall p | p in rest ensures s[0].t < p.t {
        assert Sample(p.t, Num(p.v)) in s[1..];
      }
    }
  }

  /** A window splits at any inner time: the basis of carrying points over from one step to the next. */
  lemma {:induction false} WindowSplit(s: seq<Sample>, lo: int, mid: int, hi: int)
    requires Ascending(s)
    requires lo <= mid + 1 && mid <= hi
    ensures Window(s, lo, hi) == Window(s, lo, mid) + Window(s, mid + 1, hi)
  {
    if s != [] {
      WindowSplit(s[1..], lo, mid, hi);
      if s[0].t > mid {
        WindowEmpty(s[1..], lo, mid);
        WindowEmpty(s, lo, mid);
      }
    }
  }

  lemma {:induction false} WindowSameBounds(s: seq<Sample>, lo: int, hi: int, lo': int, hi': int)
    requires forall x :: x in s ==> (Live(x, lo, hi) <==> Live(x, lo', hi'))
    ensures Window(s, lo, hi) == Window(s, lo', hi')
  {
    if s != [] {
      WindowSameBounds(s[1..], lo, hi, lo', hi');
    }
  }

  /** Dropping from the front every point before a later start leaves the window that starts there. */
  lemma WindowPopFront(s: seq<Sample>, lo: int, hi: int, lo': int, i: nat)
    requires Ascending(s) && lo <= lo'
    requires i <= |Window(s, lo, hi)|
    requires forall j :: 0 <= j < i ==> Window(s, lo, hi)[j].t < lo'
    requires i < |Window(s, lo, hi)| ==> Window(s, lo, hi)[i].t >= lo'
    ensures Window(s, lo, hi)[i..] == Window(s, lo', hi)
  {
    hide Window, Ascending;
    var w := Window(s, lo, hi);
    if lo' - 1 <= hi {
      WindowSplit(s, lo, lo' - 1, hi);
      var a, b := Window(s, lo, lo' - 1), Window(s, lo', hi);
      WindowMembers(s, lo, lo' - 1);
      WindowMembers(s, lo', hi);
      assert forall j :: 0 <= j < |a| ==> a[j] in a && w[j].t < lo';
      assert |b| > 0 ==> w[|a|] == b[0] && b[0] in b;
      assert i == |a|;
      assert w[i..] == b;
    } else {
      WindowMembers(s, lo, hi);
      assert forall j :: 0 <= j < |w| ==> w[j] in w && w[j].t < lo';
      WindowEmpty(s, lo', hi);
    }
  }

  /** Where the last point of a window is before `from`, the window holds nothing from `from` on. */
  lemma NoneAfterLast(s: seq<Sample>, lo: int, hi: int, from: int)
    requires Ascending(s) && lo <= from
    requires var w := Window(s, lo, hi); w == [] || w[|w| - 1].t < from
    ensures forall x :: x in s ==> !Live(x, from, hi)
    ensures Window(s, from, hi) == []
  {
    hide Window;
    var w := Window(s, lo, hi);
    WindowMembers(s, lo, hi);
    WindowAscending(s, lo, hi);
    assert forall x :: x in s && Live(x, lo, hi) ==> Point(x.t, x.v.r) in w;
    WindowEmpty(s, from, hi);
  }

  /** The samples of `s` with a timestamp in [lo, hi]. */
  function InRange(s: seq<Sample>, lo: int, hi: int): seq<Sample> {
    if s == [] then []
    else (if lo <= s[0].t <= hi then [s[0]] else []) + InRange(s[1..], lo, hi)
  }

  lemma {:induction false} InRangeMembers(s: seq<Sample>, lo: int, hi: int)
    requires Ascending(s)
    ensures forall x :: x in InRange(s, lo, hi) <==> x in s && lo <= x.t <= hi
    ensures Ascending(InRange(s, lo, hi))
  {
    if s != [] {
      InRangeMembers(s[1..], lo, hi);
    }
  }

  lemma WindowOne(x: Sample, lo: int, hi: int)
    ensures Window([x], lo, hi) == if lo <= x.t <= hi && x.v.Num? then [Point(x.t, x.v.r)] else []
  {
    assert [x][1..] == [];
    assert Window([], lo, hi) == [];
  }
}
