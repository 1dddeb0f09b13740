/** Quantiles of a histogram given by its cumulative buckets. */
module Quantile {
  import opened Sorting

  datatype Bound = Finite(r: real) | PosInf
  datatype Bucket = Bucket(upperBound: Bound, count: real)
  datatype Result = NaN | MinusInfinity | PlusInfinity | Value(r: real)

  predicate Leq(a: Bound, b: Bound) {
    b.PosInf? || (a.Finite? && a.r <= b.r)
  }

  predicate Lower(a: Bound, b: Bound) {
    Leq(a, b) && a != b
  }

  function ByBound(): (Bucket, Bucket) -> bool {
    (a: Bucket, b: Bucket) => Leq(a.upperBound, b.upperBound)
  }

  ghost predicate StrictBounds(s: seq<Bucket>) {
    forall i, j :: 0 <= i < j < |s| ==> Lower(s[i].upperBound, s[j].upperBound)
  }

  // ----- merging equal bounds -----

  /** The count of all buckets with one bound together. */
  function TotalAt(s: seq<Bucket>, u: Bound): real {
    if s == [] then 0.0
    else TotalAt(s[..|s| - 1], u) + if s[|s| - 1].upperBound == u then s[|s| - 1].count else 0.0
  }

  lemma TotalAppend(s: seq<Bucket>, b: Bucket, u: Bound)
    ensures TotalAt(s + [b], u) == TotalAt(s, u) + if b.upperBound == u then b.count else 0.0
  {
    assert (s + [b])[..|s|] == s;
  }

  lemma {:induction false} TotalWithout(s: seq<Bucket>, k: nat, u: Bound)
    requires k < |s|
    ensures TotalAt(s, u) == TotalAt(s[..k] + s[k + 1..], u) + if s[k].upperBound == u then s[k].count else 0.0
    decreases |s|
  {
    var n := |s| - 1;
    if k == n {
      assert s[..k] + s[k + 1..] == s[..n];
    } else {
      TotalWithout(s[..n], k, u);
      var rest := s[..n][..k] + s[..n][k + 1..];
      assert s[..k] + s[k + 1..] == rest + [s[n]];
      TotalAppend(rest, s[n], u);
    }
  }

  lemma RemovedOne(s: seq<Bucket>, k: nat)
    requires k < |s|
    ensures multiset(s[..k] + s[k + 1..]) == multiset(s) - multiset{s[k]}
  {
    assert s == s[..k] + [s[k]] + s[k + 1..];
  }

  /** The order of the buckets does not matter. */
  lemma {:induction false} TotalOfPermutation(a: seq<Bucket>, b: seq<Bucket>, u: Bound)
    requires multiset(a) == multiset(b)
    ensures TotalAt(a, u) == TotalAt(b, u)
    decreases |a|
  {
    if a == [] {
      assert |multiset(b)| == 0;
    } else {
      var n := |a| - 1;
      SameMembers(a, b);
      assert a[n] in b;
      var k :| 0 <= k < |b| && b[k] == a[n];
      TotalWithout(b, k, u);
      var rest := b[..k] + b[k + 1..];
      RemovedOne(b, k);
      RemovedOne(a, n);
      assert a[..n] + a[n + 1..] == a[..n];
      TotalOfPermutation(a[..n], rest, u);
    }
  }

  ghost predicate HasBound(s: seq<Bucket>, u: Bound) {
    exists i :: 0 <= i < |s| && s[i].upperBound == u
  }

  /** `now` has one bucket for each bound of `was`, in order, with the total of its counts. */
  ghost predicate Coalesced(was: seq<Bucket>, now: seq<Bucket>) {
    && StrictBounds(now)
    && (forall u :: TotalAt(now, u) == TotalAt(was, u))
    && (forall u :: HasBound(now, u) <==> HasBound(was, u))
  }

  /** Merging the next bucket of the sorted input. */
  lemma CoalesceNext(was: seq<Bucket>, done: seq<Bucket>, last: Bucket, b: Bucket)
    requires Coalesced(was, done + [last]) && Leq(last.upperBound, b.upperBound)
    ensures b.upperBound == last.upperBound ==> Coalesced(was + [b], done + [last.(count := last.count + b.count)])
    ensures b.upperBound != last.upperBound ==> Coalesced(was + [b], done + [last] + [b])
  {
    hide TotalAt, Leq;
    forall u
      ensures b.upperBound == last.upperBound ==> TotalAt(done + [last.(count := last.count + b.count)], u) == TotalAt(was + [b], u)
      ensures TotalAt(done + [last] + [b], u) == TotalAt(was + [b], u)
    {
      TotalAppend(was, b, u);
      TotalAppend(done + [last], b, u);
      TotalAppend(done, last, u);
      TotalAppend(done, last.(count := last.count + b.count), u);
      assert TotalAt(done + [last], u) == TotalAt(was, u);
    }
    BoundsAppend(was, b);
    BoundsAppend(done + [last], b);
    BoundsAppend(done, last);
    BoundsAppend(done, last.(count := last.count + b.count));
    hide HasBound;
    if b.upperBound == last.upperBound {
      StrictSame(done, last, last.(count := last.count + b.count));
    } else {
      StrictAppend(done, last, b);
    }
  }

  lemma StrictSame(done: seq<Bucket>, last: Bucket, last': Bucket)
    requires StrictBounds(done + [last]) && last'.upperBound == last.upperBound
    ensures StrictBounds(done + [last'])
  {
    var s, s' := done + [last], done + [last'];
    assert forall i :: 0 <= i < |s| ==> s'[i].upperBound == s[i].upperBound;
  }

  lemma StrictAppend(done: seq<Bucket>, last: Bucket, b: Bucket)
    requires StrictBounds(done + [last]) && Lower(last.upperBound, b.upperBound)
    ensures StrictBounds(done + [last] + [b])
  {
    var s := done + [last];
    assert s[|s| - 1] == last;
    forall i | 0 <= i < |s| ensures Lower(s[i].upperBound, b.upperBound) {
      assert i < |s| - 1 ==> Lower(s[i].upperBound, last.upperBound);
    }
  }

  lemma BoundsAppend(s: seq<Bucket>, b: Bucket)
    ensures forall u :: HasBound(s + [b], u) <==> HasBound(s, u) || b.upperBound == u
  {
    forall u ensures HasBound(s + [b], u) <==> HasBound(s, u) || b.upperBound == u {
      if HasBound(s, u) {
        var i :| 0 <= i < |s| && s[i].upperBound == u;
        assert (s + [b])[i].upperBound == u;
      }
      if b.upperBound == u {
        assert (s + [b])[|s|].upperBound == u;
      }
    }
  }

  method CoalesceBuckets(a: array<Bucket>) returns (n: nat)
    requires a.Length > 0 && SortedBy(a[..], ByBound())
    modifies a
    ensures 0 < n <= a.Length && Coalesced(old(a[..]), a[..n])
    ensures a[n - 1].upperBound == old(a[a.Length - 1].upperBound)
  {
    hide Coalesced, SortedBy;
    ghost var was := a[..];
    var last := a[0];
    var i := 0;
    CoalesceOne(was[0]);
    assert was[..1] == [was[0]] && a[..0] + [last] == [last];
    for k := 1 to a.Length
      invariant i < k && a[k..] == was[k..]
      invariant Coalesced(was[..k], a[..i] + [last])
      invariant last.upperBound == was[k - 1].upperBound
    {
      var b := a[k];
      assert b == a[k..][0] == was[k];
      SortedAt(was, k);
      CoalesceNext(was[..k], a[..i], last, b);
      assert was[..k + 1] == was[..k] + [b];
      if b.upperBound == last.upperBound {
        last := last.(count := last.count + b.count);
        assert a[k + 1..] == was[k + 1..];
      } else {
        ghost var done := a[..i];
        a[i] := last;
        assert a[..i + 1] == done + [last];
        assert a[k + 1..] == was[k + 1..];
        last := b;
        i := i + 1;
      }
    }
    ghost var done := a[..i];
    a[i] := last;
    assert a[..i + 1] == done + [last];
    assert was[..|was|] == was;
    n := i + 1;
  }

  lemma CoalesceOne(b: Bucket)
    ensures Coalesced([b], [b])
  {
  }

  lemma SortedAt(s: seq<Bucket>, k: nat)
    requires SortedBy(s, ByBound()) && 0 < k < |s|
    ensures Leq(s[k - 1].upperBound, s[k].upperBound)
  {
    assert ByBound()(s[k - 1], s[k]);
  }

  // ----- removing decreases -----

  /** The largest count among the buckets up to `i`. */
  function PrefixMax(s: seq<Bucket>, i: nat): real
    requires i < |s|
  {
    if i == 0 then s[0].count
    else
      var m := PrefixMax(s, i - 1);
      if s[i].count > m then s[i].count else m
  }

  lemma {:induction false} PrefixMaxBounds(s: seq<Bucket>, i: nat, j: nat)
    requires j <= i < |s|
    ensures s[j].count <= PrefixMax(s, i)
    decreases i
  {
    if j < i {
      PrefixMaxBounds(s, i - 1, j);
    }
  }

  lemma {:induction false} PrefixMaxReached(s: seq<Bucket>, i: nat) returns (j: nat)
    requires i < |s|
    ensures j <= i && s[j].count == PrefixMax(s, i)
    decreases i
  {
    j := i;
    if i > 0 && s[i].count <= PrefixMax(s, i - 1) {
      j := PrefixMaxReached(s, i - 1);
    }
  }

  /** The envelope: every count but the last raised to the largest before it. */
  ghost predicate Envelope(was: seq<Bucket>, now: seq<Bucket>) {
    && |now| == |was|
    && (forall i :: 0 <= i < |was| ==> now[i].upperBound == was[i].upperBound)
    && (forall i :: 0 <= i < |was| - 1 ==> now[i].count == PrefixMax(was, i))
    && (was != [] ==> now[|was| - 1] == was[|was| - 1])
  }

  method EnsureMonotonic(a: array<Bucket>, n: nat)
    requires 0 < n <= a.Length
    modifies a
    ensures Envelope(old(a[..n]), a[..n])
  {
    ghost var was := a[..n];
    var max := a[0].count;
    for i := 0 to n - 1
      invariant forall k :: 0 <= k < n ==> a[k].upperBound == was[k].upperBound
      invariant forall k :: 0 <= k < i ==> a[k].count == PrefixMax(was, k)
      invariant forall k :: i <= k < n ==> a[k] == was[k]
      invariant i == 0 ==> max == was[0].count
      invariant i > 0 ==> max == PrefixMax(was, i - 1)
    {
      if a[i].count > max {
        max := a[i].count;
      } else if a[i].count < max {
        a[i] := a[i].(count := max);
      }
    }
  }

  ghost predicate NonDecreasing(s: seq<Bucket>, n: nat)
    requires n <= |s|
  {
    forall i, j :: 0 <= i <= j < n ==> s[i].count <= s[j].count
  }

  lemma {:induction false} PrefixMaxGrows(s: seq<Bucket>, i: nat, j: nat)
    requires i <= j < |s|
    ensures PrefixMax(s, i) <= PrefixMax(s, j)
    decreases j
  {
    if i < j {
      PrefixMaxGrows(s, i, j - 1);
    }
  }

  /** The part that is searched never decreases; the whole does not exactly if
      the last count is as large as every other. */
  lemma EnvelopeNonDecreasing(was: seq<Bucket>, now: seq<Bucket>)
    requires Envelope(was, now) && was != []
    ensures NonDecreasing(now, |was| - 1)
    ensures NonDecreasing(now, |was|) <==> forall i :: 0 <= i < |was| ==> was[i].count <= was[|was| - 1].count
  {
    var last := |was| - 1;
    forall i, j | 0 <= i <= j < last ensures now[i].count <= now[j].count {
      PrefixMaxGrows(was, i, j);
    }
    if NonDecreasing(now, |was|) {
      forall i | 0 <= i < |was| ensures was[i].count <= was[last].count {
        assert now[i].count <= now[last].count;
        PrefixMaxBounds(was, i, i);
      }
    } else {
      var i, j :| 0 <= i <= j < |was| && now[i].count > now[j].count;
      assert j == last && i < last;
      var k := PrefixMaxReached(was, i);
      assert was[k].count > was[last].count;
    }
  }

  // ----- the quantile -----

  /** The first of the first `n` buckets whose count reaches the rank, or `n`. */
  ghost predicate Chosen(s: seq<Bucket>, rank: real, n: nat, b: nat)
    requires n <= |s|
  {
    && b <= n && (forall i :: 0 <= i < b ==> s[i].count < rank)
    && (b < n ==> s[b].count >= rank)
  }

  /** Binary search over counts that do not decrease. */
  method Search(a: array<Bucket>, n: nat, rank: real) returns (b: nat)
    requires n <= a.Length && NonDecreasing(a[..], n)
    ensures Chosen(a[..], rank, n, b)
  {
    var i, j := 0, n;
    while i < j
      invariant 0 <= i <= j <= n
      invariant forall k :: 0 <= k < i ==> a[k].count < rank
      invariant forall k :: j <= k < n ==> a[k].count >= rank
    {
      var h := (i + j) / 2;
      assert a[..][h] == a[h];
      if a[h].count < rank {
        forall k | i <= k <= h ensures a[k].count < rank {
          assert a[..][k].count <= a[..][h].count;
        }
        i := h + 1;
      } else {
        forall k | h <= k < j ensures a[k].count >= rank {
          assert a[..][h].count <= a[..][k].count;
        }
        j := h;
      }
    }
    b := i;
  }

  /** Where a bucket starts: at the bound below it, or at 0. */
  function StartOf(s: seq<Bucket>, b: nat): real
    requires b < |s|
  {
    if b > 0 && s[b - 1].upperBound.Finite? then s[b - 1].upperBound.r else 0.0
  }

  function CountBelow(s: seq<Bucket>, b: nat): real
    requires b < |s|
  {
    if b > 0 then s[b - 1].count else 0.0
  }

  /** The point of [start, end] that lies as far along as `r` does on the way to `count`. */
  function Interpolated(start: real, end: real, r: real, count: real): real
    requires count != 0.0
  {
    start + (end - start) * (r / count)
  }

  /** The quantile with the given rank, if it falls into bucket `b`. */
  function InBucket(s: seq<Bucket>, rank: real, b: nat): Result
    requires b < |s| - 1 && s[b].upperBound.Finite? && s[|s| - 2].upperBound.Finite?
  {
    var end := s[b].upperBound.r;
    if b == 0 && end <= 0.0 then Value(end)
    else
      var start, count, r := StartOf(s, b), s[b].count - CountBelow(s, b), rank - CountBelow(s, b);
      if count == 0.0 then (if r == 0.0 then NaN else if r < 0.0 then MinusInfinity else PlusInfinity)
      else Value(Interpolated(start, end, r, count))
  }

  /** The rank of quantile `q` among all observations. */
  function Rank(s: seq<Bucket>, q: real): real
    requires s != []
  {
    q * s[|s| - 1].count
  }

  /** A histogram ready for searching. */
  ghost predicate Histogram(s: seq<Bucket>) {
    && |s| >= 2 && StrictBounds(s) && s[|s| - 1].upperBound.PosInf?
    && NonDecreasing(s, |s| - 1) && s[0].count >= 0.0 && s[|s| - 1].count >= 0.0
  }

  lemma FiniteBelow(s: seq<Bucket>, i: nat)
    requires StrictBounds(s) && i < |s| - 1
    ensures s[i].upperBound.Finite?
  {
    assert Lower(s[i].upperBound, s[i + 1].upperBound);
  }

  /** The quantile of the given rank, where bucket `b` is the one chosen for it. */
  ghost function QuantileOf(s: seq<Bucket>, rank: real, b: nat): Result
    requires |s| >= 2 && StrictBounds(s) && b < |s|
  {
    FiniteBelow(s, |s| - 2);
    if b == |s| - 1 then Value(s[|s| - 2].upperBound.r)
    else
      FiniteBelow(s, b);
      InBucket(s, rank, b)
  }

  lemma Product(a: real, x: real, y: real)
    requires a >= 0.0 && x <= y
    ensures a * x <= a * y
  {
  }

  lemma Quotient(x: real, y: real, count: real)
    requires count > 0.0 && x <= y
    ensures x / count <= y / count
  {
  }

  lemma RatioGrows(start: real, end: real, r1: real, r2: real, count: real)
    requires start <= end && r1 <= r2 && count > 0.0
    ensures Interpolated(start, end, r1, count) <= Interpolated(start, end, r2, count)
  {
    Quotient(r1, r2, count);
    Product(end - start, r1 / count, r2 / count);
  }

  lemma Between(start: real, end: real, r: real, count: real)
    requires start <= end && 0.0 <= r <= count && count > 0.0
    ensures start <= Interpolated(start, end, r, count) <= end
  {
    RatioGrows(start, end, 0.0, r, count);
    RatioGrows(start, end, r, count, count);
    assert 0.0 / count == 0.0 && count / count == 1.0;
  }

  /** With a positive rank the quantile is a number within its bucket: between
      the bounds around it, or at the highest finite bound. */
  lemma WithinBucket(s: seq<Bucket>, rank: real, b: nat)
    requires Histogram(s) && rank > 0.0 && Chosen(s, rank, |s| - 1, b)
    ensures var r := QuantileOf(s, rank, b);
      && r.Value?
      && (b == |s| - 1 ==> r == Value(s[b - 1].upperBound.r))
      && (b < |s| - 1 ==> r.r <= s[b].upperBound.r)
      && (0 < b < |s| - 1 ==> s[b - 1].upperBound.r <= r.r)
      && (b == 0 ==> r.r >= 0.0 || r.r == s[0].upperBound.r)
  {
    hide Interpolated;
    FiniteBelow(s, |s| - 2);
    if b < |s| - 1 {
      FiniteBelow(s, b);
      var start, end := StartOf(s, b), s[b].upperBound.r;
      if b > 0 {
        FiniteBelow(s, b - 1);
        assert Lower(s[b - 1].upperBound, s[b].upperBound);
      }
      if !(b == 0 && end <= 0.0) {
        assert b > 0 ==> s[b - 1].count < rank;
        Between(start, end, rank - CountBelow(s, b), s[b].count - CountBelow(s, b));
      }
    }
  }

  lemma ChosenGrows(s: seq<Bucket>, rank1: real, rank2: real, n: nat, b1: nat, b2: nat)
    requires n <= |s| && Chosen(s, rank1, n, b1) && Chosen(s, rank2, n, b2) && rank1 <= rank2
    ensures b1 <= b2 <= n
  {
  }

  lemma BoundsGrow(s: seq<Bucket>, i: nat, j: nat)
    requires StrictBounds(s) && i <= j < |s| - 1
    ensures s[i].upperBound.Finite? && s[j].upperBound.Finite? && s[i].upperBound.r <= s[j].upperBound.r
  {
    FiniteBelow(s, i);
    FiniteBelow(s, j);
    assert i < j ==> Lower(s[i].upperBound, s[j].upperBound);
  }

  lemma MonotoneInRank(s: seq<Bucket>, rank1: real, rank2: real, b1: nat, b2: nat)
    requires Histogram(s) && 0.0 < rank1 <= rank2
    requires Chosen(s, rank1, |s| - 1, b1) && Chosen(s, rank2, |s| - 1, b2)
    ensures QuantileOf(s, rank1, b1).Value? && QuantileOf(s, rank2, b2).Value?
    ensures QuantileOf(s, rank1, b1).r <= QuantileOf(s, rank2, b2).r
  {
    hide InBucket, NonDecreasing, StrictBounds, Chosen, QuantileOf;
    ChosenGrows(s, rank1, rank2, |s| - 1, b1, b2);
    WithinBucket(s, rank1, b1);
    WithinBucket(s, rank2, b2);
    if b1 < b2 {
      BoundsOf(s, b1, b2);
    } else {
      SameBucketGrows(s, rank1, rank2, b1);
    }
  }

  lemma RankGrows(s: seq<Bucket>, q1: real, q2: real)
    requires Histogram(s) && q1 <= q2
    ensures Rank(s, q1) <= Rank(s, q2)
  {
    Product(s[|s| - 1].count, q1, q2);
  }

  /** A higher quantile is never a smaller number. */
  lemma MonotoneInQ(s: seq<Bucket>, q1: real, q2: real, b1: nat, b2: nat)
    requires Histogram(s) && q1 <= q2 && Rank(s, q1) > 0.0
    requires Chosen(s, Rank(s, q1), |s| - 1, b1) && Chosen(s, Rank(s, q2), |s| - 1, b2)
    ensures QuantileOf(s, Rank(s, q1), b1).Value? && QuantileOf(s, Rank(s, q2), b2).Value?
    ensures QuantileOf(s, Rank(s, q1), b1).r <= QuantileOf(s, Rank(s, q2), b2).r
  {
    hide InBucket, NonDecreasing, StrictBounds, Chosen, QuantileOf, Rank;
    RankGrows(s, q1, q2);
    MonotoneInRank(s, Rank(s, q1), Rank(s, q2), b1, b2);
  }

  lemma BoundsOf(s: seq<Bucket>, b1: nat, b2: nat)
    requires Histogram(s) && b1 < b2 < |s|
    ensures s[b1].upperBound.Finite? && s[b2 - 1].upperBound.Finite? && s[b1].upperBound.r <= s[b2 - 1].upperBound.r
  {
    BoundsGrow(s, b1, b2 - 1);
  }

  lemma SameBucketGrows(s: seq<Bucket>, rank1: real, rank2: real, b: nat)
    requires Histogram(s) && 0.0 < rank1 <= rank2 && Chosen(s, rank1, |s| - 1, b) && Chosen(s, rank2, |s| - 1, b)
    ensures var r1, r2 := QuantileOf(s, rank1, b), QuantileOf(s, rank2, b); r1.Value? && r2.Value? ==> r1.r <= r2.r
  {
    hide Interpolated;
    if b < |s| - 1 {
      FiniteBelow(s, b);
      var end, below := s[b].upperBound.r, CountBelow(s, b);
      if !(b == 0 && end <= 0.0) {
        if b > 0 {
          BoundsGrow(s, b - 1, b);
          assert s[b - 1].count < rank1;
        }
        RatioGrows(StartOf(s, b), end, rank1 - below, rank2 - below, s[b].count - below);
      }
    }
  }

  /** Sorts the buckets by bound, in place. */
  method SortBuckets(a: array<Bucket>)
    modifies a
    ensures SortedBy(a[..], ByBound()) && multiset(a[..]) == old(multiset(a[..]))
  {
    BoundsAreOrdered();
    var sorted := Sort(a[..], ByBound());
    SortSorted(a[..], ByBound());
    forall i | 0 <= i < a.Length {
      a[i] := sorted[i];
    }
    assert a[..] == sorted;
  }

  lemma BoundsAreOrdered()
    ensures TotalPreorder(ByBound())
  {
  }

  lemma CoalescedPermutation(was: seq<Bucket>, sorted: seq<Bucket>, now: seq<Bucket>)
    requires multiset(was) == multiset(sorted) && Coalesced(sorted, now)
    ensures Coalesced(was, now)
  {
    hide TotalAt, StrictBounds;
    forall u ensures TotalAt(now, u) == TotalAt(was, u) {
      TotalOfPermutation(was, sorted, u);
    }
    SameMembers(was, sorted);
    forall u ensures HasBound(now, u) <==> HasBound(was, u) {
      if HasBound(was, u) {
        var i :| 0 <= i < |was| && was[i].upperBound == u;
        assert was[i] in sorted;
      }
      if HasBound(sorted, u) {
        var i :| 0 <= i < |sorted| && sorted[i].upperBound == u;
        assert sorted[i] in was;
      }
    }
  }

  /** The quantile of buckets in any order, which are sorted, merged and raised in
      place. */
  method BucketQuantile(q: real, a: array<Bucket>) returns (r: Result)
    requires a.Length > 0
    modifies a
    ensures r == QuantileOfBuckets(q, old(a[..]))
  {
    hide Searched, HasBound, QuantileOf, FirstReaching;
    if q < 0.0 {
      return MinusInfinity;
    }
    if q > 1.0 {
      return PlusInfinity;
    }
    r := HistogramQuantile(q, a);
  }

  method HistogramQuantile(q: real, a: array<Bucket>) returns (r: Result)
    requires a.Length > 0 && 0.0 <= q <= 1.0
    modifies a
    ensures r == QuantileOfBuckets(q, old(a[..]))
  {
    hide Coalesced, Envelope, StrictBounds, Chosen, InBucket, HasBound, SortedBy, NonDecreasing, Rank, Searched, FirstReaching;
    ghost var was := a[..];
    SortBuckets(a);
    ghost var sorted := a[..];
    LastIsInfinite(was, sorted);
    if a[a.Length - 1].upperBound != PosInf {
      return NaN;
    }
    var n := CoalesceBuckets(a);
    ghost var merged := a[..n];
    CoalescedPermutation(was, sorted, merged);
    EnsureMonotonic(a, n);
    ghost var h := a[..n];
    SearchedUnique(was, merged, h);
    if n < 2 {
      return NaN;
    }
    EnvelopeKeepsBounds(was, merged, h);
    EnvelopeNonDecreasing(merged, h);
    PartNonDecreasing(a[..], h, n - 1);
    var rank := Rank(a[..n], q);
    var b := Search(a, n - 1, rank);
    PartChosen(a[..], h, rank, n - 1, b);
    ChosenUnique(h, rank, n - 1, b);
    FiniteBelow(h, n - 2);
    if b == n - 1 {
      return Value(a[n - 2].upperBound.r);
    }
    FiniteBelow(h, b);
    r := InBucket(a[..n], rank, b);
  }

  lemma LastIsInfinite(was: seq<Bucket>, sorted: seq<Bucket>)
    requires sorted != [] && multiset(was) == multiset(sorted) && SortedBy(sorted, ByBound())
    ensures HasBound(was, PosInf) <==> sorted[|sorted| - 1].upperBound.PosInf?
  {
    SameMembers(was, sorted);
    var last := |sorted| - 1;
    if HasBound(was, PosInf) {
      var i :| 0 <= i < |was| && was[i].upperBound == PosInf;
      assert was[i] in sorted;
      var j :| 0 <= j < |sorted| && sorted[j] == was[i];
      assert j < last ==> ByBound()(sorted[j], sorted[last]);
    }
    if sorted[last].upperBound.PosInf? {
      assert sorted[last] in was;
      var i :| 0 <= i < |was| && was[i] == sorted[last];
      assert was[i].upperBound == PosInf;
    }
  }

  lemma EnvelopeKeepsBounds(was: seq<Bucket>, merged: seq<Bucket>, h: seq<Bucket>)
    requires Coalesced(was, merged) && Envelope(merged, h)
    ensures StrictBounds(h) && |h| == |merged|
  {
    hide TotalAt, HasBound, PrefixMax;
  }

  lemma PartNonDecreasing(all: seq<Bucket>, h: seq<Bucket>, n: nat)
    requires h <= all && n <= |h| && NonDecreasing(h, n)
    ensures NonDecreasing(all, n)
  {
  }

  lemma PartChosen(all: seq<Bucket>, h: seq<Bucket>, rank: real, n: nat, b: nat)
    requires h <= all && n <= |h| && Chosen(all, rank, n, b)
    ensures Chosen(h, rank, n, b) && b <= n
  {
  }

  lemma {:induction false} TotalElsewhere(s: seq<Bucket>, u: Bound)
    requires forall i :: 0 <= i < |s| ==> s[i].upperBound != u
    ensures TotalAt(s, u) == 0.0
  {
    if s != [] {
      TotalElsewhere(s[..|s| - 1], u);
    }
  }

  lemma {:induction false} TotalOfStrict(s: seq<Bucket>, i: nat)
    requires StrictBounds(s) && i < |s|
    ensures TotalAt(s, s[i].upperBound) == s[i].count
  {
    var n := |s| - 1;
    if i == n {
      TotalElsewhere(s[..n], s[n].upperBound);
    } else {
      TotalOfStrict(s[..n], i);
      assert Lower(s[i].upperBound, s[n].upperBound);
    }
  }

  lemma {:induction false} TotalNonNegative(s: seq<Bucket>, u: Bound)
    requires forall i :: 0 <= i < |s| ==> s[i].count >= 0.0
    ensures TotalAt(s, u) >= 0.0
  {
    if s != [] {
      TotalNonNegative(s[..|s| - 1], u);
    }
  }

  /** A merged bucket has the total count of the buckets with its bound. */
  lemma MergedCount(was: seq<Bucket>, merged: seq<Bucket>, i: nat)
    requires Coalesced(was, merged) && i < |merged|
    ensures merged[i].count == TotalAt(was, merged[i].upperBound)
  {
    TotalOfStrict(merged, i);
  }

  /** Counts that are not negative and a bucket up to infinity give a histogram, whatever the order. */
  lemma BucketsMakeHistogram(was: seq<Bucket>, merged: seq<Bucket>, h: seq<Bucket>)
    requires Coalesced(was, merged) && Envelope(merged, h) && |h| >= 2
    requires HasBound(was, PosInf) && forall i :: 0 <= i < |was| ==> was[i].count >= 0.0
    ensures Histogram(h)
  {
    EnvelopeKeepsBounds(was, merged, h);
    EnvelopeNonDecreasing(merged, h);
    InfinityIsLast(was, merged);
    hide NonDecreasing, StrictBounds;
    var last := |h| - 1;
    MergedCount(was, merged, 0);
    MergedCount(was, merged, last);
    TotalNonNegative(was, merged[0].upperBound);
    TotalNonNegative(was, merged[last].upperBound);
    assert h[0].count == PrefixMax(merged, 0) == merged[0].count;
  }

  lemma InfinityIsLast(was: seq<Bucket>, merged: seq<Bucket>)
    requires Coalesced(was, merged) && HasBound(was, PosInf)
    ensures merged != [] && merged[|merged| - 1].upperBound.PosInf?
  {
    assert HasBound(merged, PosInf);
    var i :| 0 <= i < |merged| && merged[i].upperBound == PosInf;
    assert i < |merged| - 1 ==> Lower(merged[i].upperBound, merged[|merged| - 1].upperBound);
  }

  // ----- the result as a function of the buckets -----

  lemma {:induction false} StrictSameMembers(a: seq<Bucket>, b: seq<Bucket>)
    requires StrictBounds(a) && StrictBounds(b) && forall x :: x in a <==> x in b
    ensures a == b
    decreases |a|
  {
    if a == [] {
      HeadIsMember(b);
    } else {
      assert a[0] in b;
      var n, m := |a| - 1, |b| - 1;
      SameLast(a, b);
      forall x ensures x in a[..n] <==> x in b[..m] {
        InitMembers(a, x);
        InitMembers(b, x);
      }
      StrictSameMembers(a[..n], b[..m]);
      assert a == a[..n] + [a[n]] && b == b[..m] + [b[m]];
    }
  }

  lemma HeadIsMember(s: seq<Bucket>)
    ensures s == [] || s[0] in s
  {
  }

  lemma InitMembers(s: seq<Bucket>, x: Bucket)
    requires StrictBounds(s) && s != []
    ensures x in s[..|s| - 1] <==> x in s && x != s[|s| - 1]
  {
    var n := |s| - 1;
    if x in s[..n] {
      var i :| 0 <= i < n && s[i] == x;
      assert Lower(s[i].upperBound, s[n].upperBound);
    }
    if x in s && x != s[n] {
      var i :| 0 <= i < |s| && s[i] == x;
      assert s[..n][i] == x;
    }
  }

  lemma SameLast(a: seq<Bucket>, b: seq<Bucket>)
    requires StrictBounds(a) && StrictBounds(b) && a != [] && b != [] && forall x :: x in a <==> x in b
    ensures a[|a| - 1] == b[|b| - 1]
  {
    LastIsHighest(a, b[|b| - 1]);
    LastIsHighest(b, a[|a| - 1]);
  }

  lemma LastIsHighest(s: seq<Bucket>, x: Bucket)
    requires StrictBounds(s) && x in s
    ensures x == s[|s| - 1] || Lower(x.upperBound, s[|s| - 1].upperBound)
  {
    var i :| 0 <= i < |s| && s[i] == x;
  }

  /** Buckets merge in one way only. */
  lemma CoalescedUnique(was: seq<Bucket>, a: seq<Bucket>, b: seq<Bucket>)
    requires Coalesced(was, a) && Coalesced(was, b)
    ensures a == b
  {
    forall x ensures x in a <==> x in b {
      if x in a {
        MemberOfOther(was, a, b, x);
      }
      if x in b {
        MemberOfOther(was, b, a, x);
      }
    }
    StrictSameMembers(a, b);
  }

  lemma MemberOfOther(was: seq<Bucket>, a: seq<Bucket>, b: seq<Bucket>, x: Bucket)
    requires Coalesced(was, a) && Coalesced(was, b) && x in a
    ensures x in b
  {
    var i :| 0 <= i < |a| && a[i] == x;
    assert HasBound(a, x.upperBound);
    assert HasBound(b, x.upperBound);
    var j :| 0 <= j < |b| && b[j].upperBound == x.upperBound;
    MergedCount(was, a, i);
    MergedCount(was, b, j);
  }

  /** Merging sorted buckets. */
  function Merged(s: seq<Bucket>): seq<Bucket> {
    if s == [] then []
    else
      var m, b := Merged(s[..|s| - 1]), s[|s| - 1];
      if m != [] && m[|m| - 1].upperBound == b.upperBound then m[..|m| - 1] + [m[|m| - 1].(count := m[|m| - 1].count + b.count)]
      else m + [b]
  }

  lemma {:induction false} MergedIsCoalesced(s: seq<Bucket>)
    requires SortedBy(s, ByBound())
    ensures Coalesced(s, Merged(s))
    ensures s != [] ==> Merged(s) != [] && Merged(s)[|Merged(s)| - 1].upperBound == s[|s| - 1].upperBound
  {
    hide Coalesced, SortedBy;
    if s == [] {
      CoalesceNone();
    } else {
      var n := |s| - 1;
      SortedPrefix(s, n);
      MergedIsCoalesced(s[..n]);
      var m := Merged(s[..n]);
      assert s == s[..n] + [s[n]];
      if m == [] {
        assert s[..n] == [];
        CoalesceOne(s[n]);
        assert s == [s[n]];
      } else {
        assert s[..n] != [];
        SortedAt(s, n);
        assert m == m[..|m| - 1] + [m[|m| - 1]];
        CoalesceNext(s[..n], m[..|m| - 1], m[|m| - 1], s[n]);
      }
    }
  }

  lemma CoalesceNone()
    ensures Coalesced([], [])
  {
  }

  lemma SortedPrefix(s: seq<Bucket>, n: nat)
    requires SortedBy(s, ByBound()) && n <= |s|
    ensures SortedBy(s[..n], ByBound())
  {
  }

  function EnvelopeOf(s: seq<Bucket>): (r: seq<Bucket>)
    ensures |r| == |s|
  {
    seq(|s|, i requires 0 <= i < |s| => if i < |s| - 1 then s[i].(count := PrefixMax(s, i)) else s[i])
  }

  lemma EnvelopeUnique(s: seq<Bucket>, h: seq<Bucket>)
    requires Envelope(s, h)
    ensures h == EnvelopeOf(s)
  {
    forall i | 0 <= i < |s| ensures h[i] == EnvelopeOf(s)[i] {
    }
  }

  lemma EnvelopeOfIs(s: seq<Bucket>)
    ensures Envelope(s, EnvelopeOf(s))
  {
  }

  /** The first of the first `n` buckets whose count reaches the rank, or `n`. */
  function FirstReaching(s: seq<Bucket>, rank: real, n: nat): (b: nat)
    requires n <= |s|
    ensures b <= n
  {
    if n == 0 then 0
    else
      var b := FirstReaching(s, rank, n - 1);
      if b < n - 1 || s[n - 1].count >= rank then b else n
  }

  lemma {:induction false} FirstReachingIsChosen(s: seq<Bucket>, rank: real, n: nat)
    requires n <= |s|
    ensures Chosen(s, rank, n, FirstReaching(s, rank, n))
  {
    if n > 0 {
      FirstReachingIsChosen(s, rank, n - 1);
    }
  }

  lemma ChosenUnique(s: seq<Bucket>, rank: real, n: nat, b: nat)
    requires n <= |s| && Chosen(s, rank, n, b)
    ensures b == FirstReaching(s, rank, n)
  {
    FirstReachingIsChosen(s, rank, n);
    ChosenGrows(s, rank, rank, n, b, FirstReaching(s, rank, n));
    ChosenGrows(s, rank, rank, n, FirstReaching(s, rank, n), b);
  }

  /** The histogram that is searched, for buckets in any order. */
  ghost function Searched(s: seq<Bucket>): (h: seq<Bucket>)
    ensures StrictBounds(h)
  {
    BoundsAreOrdered();
    SortSorted(s, ByBound());
    MergedIsCoalesced(Sort(s, ByBound()));
    EnvelopeOfIs(Merged(Sort(s, ByBound())));
    EnvelopeKeepsBounds(Sort(s, ByBound()), Merged(Sort(s, ByBound())), EnvelopeOf(Merged(Sort(s, ByBound()))));
    EnvelopeOf(Merged(Sort(s, ByBound())))
  }

  /** The quantile of buckets: the specification of `bucketQuantile`. */
  ghost function QuantileOfBuckets(q: real, s: seq<Bucket>): Result {
    if q < 0.0 then MinusInfinity
    else if q > 1.0 then PlusInfinity
    else if !HasBound(s, PosInf) then NaN
    else
      var h := Searched(s);
      if |h| < 2 then NaN
      else QuantileOf(h, Rank(h, q), FirstReaching(h, Rank(h, q), |h| - 1))
  }

  /** Whatever way buckets were merged and raised, it is the histogram searched. */
  lemma SearchedUnique(was: seq<Bucket>, merged: seq<Bucket>, h: seq<Bucket>)
    requires Coalesced(was, merged) && Envelope(merged, h)
    ensures h == Searched(was)
  {
    hide Coalesced, Envelope, Merged, SortedBy;
    var sorted := Sort(was, ByBound());
    BoundsAreOrdered();
    SortSorted(was, ByBound());
    MergedIsCoalesced(sorted);
    CoalescedPermutation(was, sorted, Merged(sorted));
    CoalescedUnique(was, merged, Merged(sorted));
    EnvelopeUnique(merged, h);
  }

  /** The order of the buckets does not matter. */
  lemma QuantileOfPermutation(q: real, a: seq<Bucket>, b: seq<Bucket>)
    requires multiset(a) == multiset(b)
    ensures QuantileOfBuckets(q, a) == QuantileOfBuckets(q, b)
  {
    hide QuantileOf, FirstReaching, HasBound, Rank, Searched;
    SameBounds(a, b);
    SearchedOfPermutation(a, b);
  }

  lemma SearchedOfPermutation(a: seq<Bucket>, b: seq<Bucket>)
    requires multiset(a) == multiset(b)
    ensures Searched(a) == Searched(b)
  {
    hide Searched, SortedBy, Coalesced, Envelope, Merged, EnvelopeOf;
    var sorted := Sort(b, ByBound());
    BoundsAreOrdered();
    SortSorted(b, ByBound());
    var merged := Merged(sorted);
    MergedIsCoalesced(sorted);
    CoalescedPermutation(a, sorted, merged);
    CoalescedPermutation(b, sorted, merged);
    EnvelopeOfIs(merged);
    SearchedUnique(a, merged, EnvelopeOf(merged));
    SearchedUnique(b, merged, EnvelopeOf(merged));
  }

  lemma SameBounds(a: seq<Bucket>, b: seq<Bucket>)
    requires multiset(a) == multiset(b)
    ensures HasBound(a, PosInf) <==> HasBound(b, PosInf)
  {
    SameMembers(a, b);
    if i :| 0 <= i < |a| && a[i].upperBound == PosInf {
      assert a[i] in b;
    }
    if i :| 0 <= i < |b| && b[i].upperBound == PosInf {
      assert b[i] in a;
    }
  }

  lemma SearchedFacts(s: seq<Bucket>)
    requires HasBound(s, PosInf) && (forall i :: 0 <= i < |s| ==> s[i].count >= 0.0)
    requires exists i :: 0 <= i < |s| && s[i].upperBound.Finite?
    ensures Histogram(Searched(s)) && Searched(s)[|Searched(s)| - 1].count == TotalAt(s, PosInf)
  {
    hide SortedBy, Merged, TotalAt, Coalesced, Envelope, EnvelopeOf, HasBound, Histogram;
    var sorted := Sort(s, ByBound());
    BoundsAreOrdered();
    SortSorted(s, ByBound());
    MergedIsCoalesced(sorted);
    var merged := Merged(sorted);
    CoalescedPermutation(s, sorted, merged);
    var h := EnvelopeOf(merged);
    EnvelopeOfIs(merged);
    TwoBounds(s, merged);
    InfinityIsLast(s, merged);
    BucketsMakeHistogram(s, merged, h);
    MergedCount(s, merged, |merged| - 1);
    EnvelopeLast(merged);
  }

  lemma EnvelopeLast(s: seq<Bucket>)
    requires s != []
    ensures |EnvelopeOf(s)| == |s| && EnvelopeOf(s)[|s| - 1] == s[|s| - 1]
  {
  }

  lemma TwoBounds(was: seq<Bucket>, merged: seq<Bucket>)
    requires Coalesced(was, merged) && HasBound(was, PosInf) && exists i :: 0 <= i < |was| && was[i].upperBound.Finite?
    ensures |merged| >= 2
  {
    var i :| 0 <= i < |was| && was[i].upperBound.Finite?;
    assert HasBound(was, was[i].upperBound);
    assert HasBound(merged, was[i].upperBound) && HasBound(merged, PosInf);
    var j :| 0 <= j < |merged| && merged[j].upperBound == was[i].upperBound;
    var k :| 0 <= k < |merged| && merged[k].upperBound == PosInf;
    assert j != k;
  }

  /** For the same buckets in any order, a higher quantile is never a smaller number. */
  lemma QuantileMonotone(q1: real, a: seq<Bucket>, q2: real, b: seq<Bucket>)
    requires multiset(a) == multiset(b) && 0.0 <= q1 <= q2 <= 1.0
    requires HasBound(a, PosInf) && (forall i :: 0 <= i < |a| ==> a[i].count >= 0.0)
    requires exists i :: 0 <= i < |a| && a[i].upperBound.Finite?
    requires q1 * TotalAt(a, PosInf) > 0.0
    ensures QuantileOfBuckets(q1, a).Value? && QuantileOfBuckets(q2, b).Value?
    ensures QuantileOfBuckets(q1, a).r <= QuantileOfBuckets(q2, b).r
  {
    hide HasBound, TotalAt, QuantileOf, Histogram, Searched;
    QuantileOfPermutation(q2, a, b);
    SearchedFacts(a);
    HistogramHasTwo(Searched(a));
    var h := Searched(a);
    var n := |h| - 1;
    FirstReachingIsChosen(h, Rank(h, q1), n);
    FirstReachingIsChosen(h, Rank(h, q2), n);
    hide FirstReaching;
    MonotoneInQ(h, q1, q2, FirstReaching(h, Rank(h, q1), n), FirstReaching(h, Rank(h, q2), n));
  }

  lemma HistogramHasTwo(h: seq<Bucket>)
    requires Histogram(h)
    ensures |h| >= 2
  {
  }

  // ----- the value said of the histogram searched -----

  /** The bucket a rank falls into: the first whose count reaches it, the last if none before does. */
  ghost predicate FallsInto(h: seq<Bucket>, rank: real, b: nat) {
    && b < |h| && (forall i :: 0 <= i < b ==> h[i].count < rank)
    && (b < |h| - 1 ==> h[b].count >= rank)
  }

  ghost predicate Before(a: Bound, b: Bound) {
    a.Finite? && (b.PosInf? || a.r < b.r)
  }

  /** In the histogram searched the bounds increase, and only the last can be infinite. */
  lemma SearchedAscends(s: seq<Bucket>, i: nat, j: nat)
    requires i < j < |Searched(s)|
    ensures Before(Searched(s)[i].upperBound, Searched(s)[j].upperBound)
  {
    hide Searched;
    assert Lower(Searched(s)[i].upperBound, Searched(s)[j].upperBound);
  }

  lemma QuantileCases(q: real, s: seq<Bucket>)
    ensures q < 0.0 ==> QuantileOfBuckets(q, s) == MinusInfinity
    ensures q > 1.0 ==> QuantileOfBuckets(q, s) == PlusInfinity
    ensures 0.0 <= q <= 1.0 && (forall i :: 0 <= i < |s| ==> s[i].upperBound.Finite?) ==> QuantileOfBuckets(q, s) == NaN
  {
    hide Searched, QuantileOf, FirstReaching;
  }

  /** Between the bounds of the bucket its rank falls into, a quantile divides the
      bucket as the rank divides its count. The first bucket begins at zero, or is
      a single value if it ends at or below zero; above the last finite bound the
      answer is that bound. */
  lemma QuantileInterpolates(q: real, s: seq<Bucket>, b: nat)
    requires 0.0 <= q <= 1.0 && HasBound(s, PosInf) && |Searched(s)| >= 2
    requires FallsInto(Searched(s), q * Searched(s)[|Searched(s)| - 1].count, b)
    ensures var h, n, x := Searched(s), |Searched(s)|, QuantileOfBuckets(q, s);
      var rank := q * h[n - 1].count;
      && h[n - 2].upperBound.Finite? && (b < n - 1 ==> h[b].upperBound.Finite?) && (0 < b ==> h[b - 1].upperBound.Finite?)
      && (b == n - 1 ==> x == Value(h[n - 2].upperBound.r))
      && (b == 0 && b < n - 1 && h[0].upperBound.r <= 0.0 ==> x == Value(h[0].upperBound.r))
      && (b == 0 && b < n - 1 && h[0].upperBound.r > 0.0 && h[0].count != 0.0 ==>
            x.Value? && x.r * h[0].count == h[0].upperBound.r * rank)
      && (b == 0 && b < n - 1 && h[0].upperBound.r > 0.0 && h[0].count == 0.0 ==> x == if rank == 0.0 then NaN else MinusInfinity)
      && (0 < b < n - 1 ==>
            && x.Value? && h[b].count > h[b - 1].count
            && (x.r - h[b - 1].upperBound.r) * (h[b].count - h[b - 1].count)
                 == (h[b].upperBound.r - h[b - 1].upperBound.r) * (rank - h[b - 1].count))
  {
    hide Searched, StrictBounds, Interpolated;
    var h, n := Searched(s), |Searched(s)|;
    var rank := Rank(h, q);
    SearchedAscends(s, n - 2, n - 1);
    if b < n - 1 {
      SearchedAscends(s, b, n - 1);
    }
    if 0 < b {
      SearchedAscends(s, b - 1, b);
    }
    ChosenUnique(h, rank, n - 1, b);
    if 0 < b < n - 1 {
      InterpolatedMeans(h[b - 1].upperBound.r, h[b].upperBound.r, rank - h[b - 1].count, h[b].count - h[b - 1].count);
    } else if b == 0 && h[0].count != 0.0 && h[0].upperBound.r > 0.0 {
      InterpolatedMeans(0.0, h[0].upperBound.r, rank, h[0].count);
    }
  }

  lemma InterpolatedMeans(start: real, end: real, r: real, count: real)
    requires count != 0.0
    ensures (Interpolated(start, end, r, count) - start) * count == (end - start) * r
  {
    var part := r / count;
    assert part * count == r;
    assert (end - start) * part * count == (end - start) * (part * count);
  }
}
