/** The canonical string of a label set, and the interner that shares label sets
    by it. Strings are byte strings: every character is one byte. */
module LabelStrings {
  import opened Common

  import opened Sorting

  datatype Label = Label(name: string, value: string)

  const MAX_UINT16 := 0xffff
  // ----- the string -----

  /** A length as two bytes, the low one first. */
  function Uint16(n: nat): string
    requires n <= MAX_UINT16
  {
    [(n % 256) as char, (n / 256) as char]
  }

  function Prefixed(s: string): string
    requires |s| <= MAX_UINT16
  {
    Uint16(|s|) + s
  }

  /** The space all names and values take, with a length of two bytes each. */
  function Total(ls: seq<Label>): nat {
    if ls == [] then 0 else Total(ls[..|ls| - 1]) + 4 + |ls[|ls| - 1].name| + |ls[|ls| - 1].value|
  }

  predicate FitsOne(l: Label) {
    |l.name| <= MAX_UINT16 && |l.value| <= MAX_UINT16
  }

  predicate Fits(ls: seq<Label>) {
    forall i :: 0 <= i < |ls| ==> FitsOne(ls[i])
  }

  function EncodedOne(l: Label): string
    requires FitsOne(l)
  {
    Prefixed(l.name) + Prefixed(l.value)
  }

  lemma {:induction false} TotalFits(ls: seq<Label>)
    ensures forall i :: 0 <= i < |ls| ==> |ls[i].name| + |ls[i].value| <= Total(ls)
  {
    if ls != [] {
      TotalFits(ls[..|ls| - 1]);
      assert forall i :: 0 <= i < |ls| - 1 ==> ls[i] == ls[..|ls| - 1][i];
    }
  }

  function Encoded(ls: seq<Label>): string
    requires Fits(ls)
  {
    if ls == [] then ""
    else Encoded(ls[..|ls| - 1]) + EncodedOne(ls[|ls| - 1])
  }

  lemma {:induction false} EncodedLength(ls: seq<Label>)
    requires Fits(ls)
    ensures |Encoded(ls)| == Total(ls)
  {
    if ls != [] {
      EncodedLength(ls[..|ls| - 1]);
    }
  }

  lemma {:induction false} EncodedConcat(a: seq<Label>, b: seq<Label>)
    requires Fits(a) && Fits(b) && Fits(a + b)
    ensures Encoded(a + b) == Encoded(a) + Encoded(b)
    decreases |b|
  {
    hide EncodedOne, FitsOne;
    if b == [] {
      assert a + b == a;
    } else {
      var n := |b| - 1;
      assert (a + b)[..|a + b| - 1] == a + b[..n];
      EncodedConcat(a, b[..n]);
      assert (a + b)[|a + b| - 1] == b[n];
    }
  }

  // ----- reading it back -----

  /** The string with a length in front of it at `i`, and the index after it. */
  function ReadPrefixed(s: string, i: nat): Result<(string, nat)> {
    if i + 2 > |s| then Err
    else
      var n := s[i] as int + 256 * s[i + 1] as int;
      if i + 2 + n > |s| then Err else Ok((s[i + 2..i + 2 + n], i + 2 + n))
  }

  function Decoded(s: string, i: nat): Result<seq<Label>>
    decreases |s| - i
  {
    if i >= |s| then Ok([])
    else
      match ReadPrefixed(s, i)
      case Err => Err
      case Ok((name, j)) =>
        match ReadPrefixed(s, j)
        case Err => Err
        case Ok((value, k)) =>
          match Decoded(s, k)
          case Err => Err
          case Ok(rest) => Ok([Label(name, value)] + rest)
  }

  lemma ReadBack(before: string, x: string, after: string)
    requires |x| <= MAX_UINT16
    ensures ReadPrefixed(before + Prefixed(x) + after, |before|) == Ok((x, |before| + 2 + |x|))
  {
    var s := before + Prefixed(x) + after;
    var i := |before|;
    assert s[i] == Uint16(|x|)[0] && s[i + 1] == Uint16(|x|)[1];
    assert (|x| % 256) + 256 * (|x| / 256) == |x|;
    assert s[i + 2..i + 2 + |x|] == x;
  }

  /** The first label of an encoding. */
  lemma EncodedHead(ls: seq<Label>)
    requires Fits(ls) && ls != []
    ensures Fits(ls[1..]) && Encoded(ls) == EncodedOne(ls[0]) + Encoded(ls[1..])
  {
    hide EncodedOne, FitsOne;
    var one := [ls[0]];
    assert ls == one + ls[1..];
    assert Fits(one);
    EncodedConcat(one, ls[1..]);
    assert one[..0] == [];
    assert Encoded(one) == Encoded(one[..0]) + EncodedOne(ls[0]);
  }

  lemma {:induction false} DecodeFrom(before: string, ls: seq<Label>)
    requires Fits(ls)
    ensures Decoded(before + Encoded(ls), |before|) == Ok(ls)
    decreases |ls|
  {
    hide Prefixed, ReadPrefixed, Encoded;
    var s := before + Encoded(ls);
    if ls == [] {
      EmptyEncoding(ls);
    } else {
      EncodedHead(ls);
      var name, value, rest := Prefixed(ls[0].name), Prefixed(ls[0].value), Encoded(ls[1..]);
      assert s == before + name + (value + rest);
      ReadBack(before, ls[0].name, value + rest);
      assert s == (before + name) + value + rest;
      ReadBack(before + name, ls[0].value, rest);
      PrefixedLength(ls[0].name);
      PrefixedLength(ls[0].value);
      assert s == (before + name + value) + rest;
      DecodeFrom(before + name + value, ls[1..]);
      assert ls == [Label(ls[0].name, ls[0].value)] + ls[1..];
    }
  }

  lemma EmptyEncoding(ls: seq<Label>)
    requires ls == []
    ensures Encoded(ls) == ""
  {
  }

  lemma PrefixedLength(x: string)
    requires |x| <= MAX_UINT16
    ensures |Prefixed(x)| == 2 + |x|
  {
  }

  /** The string decodes to the labels it was made from. */
  lemma StringRoundTrip(ls: seq<Label>)
    requires Fits(ls)
    ensures Decoded(Encoded(ls), 0) == Ok(ls)
  {
    DecodeFrom("", ls);
    assert "" + Encoded(ls) == Encoded(ls);
  }

  // ----- canonical form -----

  function ByName(): (Label, Label) -> bool {
    (a: Label, b: Label) => StringLeq(a.name, b.name)
  }

  lemma NamesAreOrdered()
    ensures TotalPreorder(ByName())
  {
    var leq := ByName();
    forall a, b ensures leq(a, b) || leq(b, a) {
      StringTotal(a.name, b.name);
    }
    forall a, b, c | leq(a, b) && leq(b, c) ensures leq(a, c) {
      StringTransitive(a.name, b.name, c.name);
    }
  }

  ghost predicate DistinctNames(ls: seq<Label>) {
    forall x, y :: x in ls && y in ls && x.name == y.name ==> x == y
  }

  /** Sorted lists have the same string if and only if they hold the same labels. */
  lemma SameStringIffPermutation(a: seq<Label>, b: seq<Label>)
    requires SortedBy(a, ByName()) && SortedBy(b, ByName()) && Fits(a) && Fits(b) && DistinctNames(a)
    ensures Encoded(a) == Encoded(b) <==> multiset(a) == multiset(b)
  {
    hide SortedBy, Encoded, TotalPreorder;
    if Encoded(a) == Encoded(b) {
      StringRoundTrip(a);
      StringRoundTrip(b);
    }
    if multiset(a) == multiset(b) {
      NamesAreOrdered();
      forall x, y | x in a && y in a && ByName()(x, y) && ByName()(y, x) ensures x == y {
        StringTotal(x.name, y.name);
      }
      SortedUnique(a, b, ByName());
    }
  }

  /** Sorts the labels in place and builds their string; fails if it would be too long. */
  method GetStr(a: array<Label>) returns (r: Result<string>)
    modifies a
    ensures SortedBy(a[..], ByName()) && multiset(a[..]) == old(multiset(a[..]))
    ensures r.Ok? <==> Total(a[..]) <= MAX_UINT16
    ensures r.Ok? ==> Fits(a[..]) && r.value == Encoded(a[..])
  {
    hide SortedBy, Encoded, Total, Fits;
    if a.Length == 0 {
      EmptyList(a[..]);
      return Ok("");
    }
    SortByName(a);
    var expected := ExpectedLength(a);
    if expected > MAX_UINT16 {
      return Err;
    }
    ShortFits(a[..]);
    var built := BuildString(a);
    return Ok(built);
  }

  lemma EmptyList(ls: seq<Label>)
    requires ls == []
    ensures SortedBy(ls, ByName()) && Total(ls) == 0 && Fits(ls) && Encoded(ls) == ""
  {
  }

  lemma ShortFits(ls: seq<Label>)
    requires Total(ls) <= MAX_UINT16
    ensures Fits(ls)
  {
    TotalFits(ls);
  }

  method ExpectedLength(a: array<Label>) returns (expected: nat)
    ensures expected == Total(a[..])
  {
    expected := 4 * a.Length;
    for i := 0 to a.Length
      invariant expected == Total(a[..i]) + 4 * (a.Length - i)
    {
      assert a[..i + 1][..i] == a[..i];
      expected := expected + |a[i].name| + |a[i].value|;
    }
    assert a[..a.Length] == a[..];
  }

  method BuildString(a: array<Label>) returns (built: string)
    requires Fits(a[..])
    ensures built == Encoded(a[..])
  {
    hide Prefixed;
    built := "";
    for i := 0 to a.Length
      invariant Fits(a[..i]) && built == Encoded(a[..i])
    {
      assert a[..][i] == a[i];
      assert a[..i + 1][..i] == a[..i];
      built := built + (Prefixed(a[i].name) + Prefixed(a[i].value));
    }
    assert a[..a.Length] == a[..];
  }

  method SortByName(a: array<Label>)
    modifies a
    ensures SortedBy(a[..], ByName()) && multiset(a[..]) == old(multiset(a[..]))
  {
    NamesAreOrdered();
    var sorted := Sort(a[..], ByName());
    SortSorted(a[..], ByName());
    forall i | 0 <= i < a.Length {
      a[i] := sorted[i];
    }
    assert a[..] == sorted;
  }

  // ----- interning -----

  datatype Labels = Labels(names: seq<string>, values: seq<string>, metricName: string, str: string)

  /** The value of the last label with the metric name's label name. */
  function MetricOf(ls: seq<Label>): string {
    if ls == [] then ""
    else if ls[|ls| - 1].name == METRIC_NAME then ls[|ls| - 1].value
    else MetricOf(ls[..|ls| - 1])
  }

  /** A label set built from these labels. */
  ghost predicate BuiltFrom(l: Labels, ls: seq<Label>) {
    && |l.names| == |ls| && |l.values| == |ls|
    && (forall i :: 0 <= i < |ls| ==> l.names[i] == ls[i].name && l.values[i] == ls[i].value)
    && l.metricName == MetricOf(ls) && Fits(ls) && l.str == Encoded(ls)
  }

  /** Two label sets with one string are the same. */
  lemma SameStringSameLabels(l: Labels, ls: seq<Label>, l': Labels, ls': seq<Label>)
    requires BuiltFrom(l, ls) && BuiltFrom(l', ls') && l.str == l'.str
    ensures ls == ls' && l == l'
  {
    StringRoundTrip(ls);
    StringRoundTrip(ls');
    assert l.names == l'.names && l.values == l'.values;
  }

  class Interner {
    var entries: map<string, Labels>

    ghost predicate Valid()
      reads this
    {
      forall s :: s in entries ==> entries[s].str == s && exists ls :: BuiltFrom(entries[s], ls)
    }

    constructor ()
      ensures Valid() && entries == map[]
    {
      entries := map[];
    }

    /** Keeps the label set that is there already, if there is one. */
    method SetLabels(str: string, l: Labels) returns (r: Labels)
      requires Valid() && l.str == str && exists ls :: BuiltFrom(l, ls)
      modifies this
      ensures Valid() && str in entries && r == entries[str]
      ensures entries == if str in old(entries) then old(entries) else old(entries)[str := l]
    {
      if str !in entries {
        entries := entries[str := l];
      }
      r := entries[str];
    }

    /** The shared label set of some labels: whether found or built, it is the
        one made from them in sorted order. */
    method LabelProtosToLabels(a: array<Label>) returns (r: Result<(Labels, string)>)
      requires Valid()
      modifies this, a
      ensures Valid()
      ensures SortedBy(a[..], ByName()) && multiset(a[..]) == old(multiset(a[..]))
      ensures r.Ok? <==> Total(a[..]) <= MAX_UINT16
      ensures r.Ok? ==> BuiltFrom(r.value.0, a[..]) && r.value.1 == MetricOf(a[..])
      ensures r.Ok? ==> r.value.0.str in entries && entries[r.value.0.str] == r.value.0
      ensures forall s :: s in old(entries) ==> s in entries && entries[s] == old(entries[s])
    {
      hide SortedBy, Total, Encoded, MetricOf;
      var str := GetStr(a);
      if str.Err? {
        return Err;
      }
      var built := Build(a[..], str.value);
      if str.value in entries {
        var found := entries[str.value];
        ghost var ls :| BuiltFrom(found, ls);
        SameStringSameLabels(found, ls, built, a[..]);
        return Ok((found, found.metricName));
      }
      var l := SetLabels(str.value, built);
      return Ok((l, l.metricName));
    }

    method Build(ls: seq<Label>, str: string) returns (l: Labels)
      requires Fits(ls) && str == Encoded(ls)
      ensures BuiltFrom(l, ls)
    {
      var names, values, metric := [], [], "";
      for i := 0 to |ls|
        invariant |names| == i && |values| == i && metric == MetricOf(ls[..i])
        invariant forall j :: 0 <= j < i ==> names[j] == ls[j].name && values[j] == ls[j].value
      {
        assert ls[..i + 1][..i] == ls[..i];
        names, values := names + [ls[i].name], values + [ls[i].value];
        if ls[i].name == METRIC_NAME {
          metric := ls[i].value;
        }
      }
      assert ls[..|ls|] == ls;
      l := Labels(names, values, metric, str);
    }
  }

  /** A string stands behind its length, the low byte first. */
  lemma PrefixedMeans(s: string)
    requires |s| <= 0xffff
    ensures var p := Prefixed(s); |p| == |s| + 2 && p[2..] == s && p[0] as int + 256 * p[1] as int == |s| && p[0] as int < 256 && p[1] as int < 256
  {
    assert |s| == 256 * (|s| / 256) + |s| % 256;
  }

  /** The string of a label list is the strings of its names and values, in turn. */
  lemma EncodedMeans(a: seq<Label>, l: Label, b: seq<Label>)
    requires Fits(a) && FitsOne(l) && Fits(b)
    ensures Fits(a + [l] + b) && Encoded(a + [l] + b) == Encoded(a) + Prefixed(l.name) + Prefixed(l.value) + Encoded(b)
  {
    hide Prefixed;
    assert (a + [l])[..|a|] == a;
    EncodedConcat(a + [l], b);
  }
}
