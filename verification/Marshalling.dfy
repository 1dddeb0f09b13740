/** The generated marshalling code: it writes a message back to front into a
    buffer of exactly the size computed beforehand. */
module Marshalling {
  import opened Varint
  import opened Wire
  import opened Messages

  // ----- sizes -----

  lemma DelimitedSize(tag: Byte, body: Bytes)
    ensures |Delimited(tag, body)| == 1 + |body| + Sov(|body|)
  {
    SovIsLength(|body|);
  }

  method SizeSample(m: Sample) returns (n: nat)
    ensures n == |EncSample(m)|
  {
    n := 0;
    if !IsZero(m.value) {
      n := n + 9;
    }
    if m.timestamp != 0 {
      SovIsLength(ToU64(m.timestamp));
      n := n + 1 + Sov(ToU64(m.timestamp));
    }
    n := n + |m.unknown|;
  }

  method SizeLabel(m: Label) returns (n: nat)
    ensures n == |EncLabel(m)|
  {
    n := 0;
    DelimitedSize(0x0a, m.name);
    DelimitedSize(0x12, m.value);
    if |m.name| > 0 {
      n := n + 1 + |m.name| + Sov(|m.name|);
    }
    if |m.value| > 0 {
      n := n + 1 + |m.value| + Sov(|m.value|);
    }
    n := n + |m.unknown|;
  }

  method SizeTimeSeries(m: TimeSeries) returns (n: nat)
    ensures n == |EncTimeSeries(m)|
  {
    hide EncLabel, EncSample, Delimited;
    n := 0;
    for k := 0 to |m.labels|
      invariant n + |EncLabels(m.labels[k..])| == |EncLabels(m.labels)|
    {
      var l := SizeLabel(m.labels[k]);
      DelimitedSize(0x0a, EncLabel(m.labels[k]));
      n := n + 1 + l + Sov(l);
    }
    for k := 0 to |m.samples|
      invariant n + |EncSamples(m.samples[k..])| == |EncLabels(m.labels)| + |EncSamples(m.samples)|
    {
      var l := SizeSample(m.samples[k]);
      DelimitedSize(0x12, EncSample(m.samples[k]));
      n := n + 1 + l + Sov(l);
    }
    n := n + |m.unknown|;
  }

  method SizeWriteRequest(m: WriteRequest) returns (n: nat)
    ensures n == |EncWriteRequest(m)|
  {
    hide EncTimeSeries, Delimited;
    n := 0;
    for k := 0 to |m.timeseries|
      invariant n + |EncAllSeries(m.timeseries[k..])| == |EncAllSeries(m.timeseries)|
    {
      var l := SizeTimeSeries(m.timeseries[k]);
      DelimitedSize(0x0a, EncTimeSeries(m.timeseries[k]));
      n := n + 1 + l + Sov(l);
    }
    n := n + |m.unknown|;
  }

  // ----- writing back to front -----

  /** `now` is `was` with `part` written so that it ends before `end`. */
  ghost predicate Wrote(was: Bytes, now: Bytes, start: int, end: int, part: Bytes) {
    && 0 <= start && start + |part| == end <= |was| == |now|
    && now[..start] == was[..start] && now[start..end] == part && now[end..] == was[end..]
  }

  lemma WroteNothing(a: Bytes, end: nat)
    requires end <= |a|
    ensures Wrote(a, a, end, end, [])
  {
  }

  /** Writing `b` up to `end` and then `a` up to where `b` starts writes `a + b`. */
  lemma WroteBoth(s0: Bytes, s1: Bytes, s2: Bytes, start: int, mid: int, end: int, a: Bytes, b: Bytes)
    requires Wrote(s0, s1, mid, end, b) && Wrote(s1, s2, start, mid, a)
    ensures Wrote(s0, s2, start, end, a + b)
  {
    assert s2[mid..] == s1[mid..];
    assert s2[mid..end] == s2[mid..][..end - mid] == s1[mid..][..end - mid] == s1[mid..end];
    assert s2[start..end] == s2[start..mid] + s2[mid..end];
    assert s2[end..] == s2[mid..][end - mid..] == s1[mid..][end - mid..] == s1[end..];
    assert s1[..start] == s1[..mid][..start] && s0[..start] == s0[..mid][..start];
  }

  method WriteByte(a: array<Byte>, end: nat, b: Byte) returns (i: nat)
    requires 0 < end <= a.Length
    modifies a
    ensures Wrote(old(a[..]), a[..], i, end, [b])
  {
    i := end - 1;
    a[i] := b;
  }

  method WriteVarint(a: array<Byte>, end: nat, v: nat) returns (i: nat)
    requires v < TWO_64 && |EncVarint(v)| <= end <= a.Length
    modifies a
    ensures Wrote(old(a[..]), a[..], i, end, EncVarint(v))
  {
    i := EncodeVarint(a, end, v);
    assert a[..][..i] == a[..i] && a[..][i..end] == a[i..end] && a[..][end..] == a[end..];
    assert old(a[..])[..i] == old(a[..i]) && old(a[..])[end..] == old(a[end..]);
  }

  method Copy(a: array<Byte>, end: nat, part: Bytes) returns (i: nat)
    requires |part| <= end <= a.Length
    modifies a
    ensures Wrote(old(a[..]), a[..], i, end, part)
  {
    i := end - |part|;
    for k := 0 to |part|
      invariant a[..i] == old(a[..i]) && a[i..i + k] == part[..k] && a[end..] == old(a[end..])
    {
      a[i + k] := part[k];
      assert a[i..i + k + 1] == a[i..i + k] + [part[k]];
      assert part[..k + 1] == part[..k] + [part[k]];
    }
    assert a[i..i + |part|] == part[..|part|] == part;
    assert a[..][..i] == a[..i] && a[..][i..end] == a[i..end] && a[..][end..] == a[end..];
    assert old(a[..])[..i] == old(a[..i]) && old(a[..])[end..] == old(a[end..]);
  }

  /** The length and the tag in front of a body already written at `i`. */
  method WriteHeader(a: array<Byte>, i: nat, tag: Byte, size: nat) returns (start: nat)
    requires size < TWO_64 && 1 + |EncVarint(size)| <= i <= a.Length
    modifies a
    ensures Wrote(old(a[..]), a[..], start, i, [tag] + EncVarint(size))
  {
    hide Wrote, EncVarint;
    ghost var s0 := a[..];
    var mid := WriteVarint(a, i, size);
    ghost var s1 := a[..];
    WroteBounds(s0, s1, mid, i, EncVarint(size));
    start := WriteByte(a, mid, tag);
    WroteBoth(s0, s1, a[..], start, mid, i, [tag], EncVarint(size));
  }

  lemma WroteBounds(was: Bytes, now: Bytes, start: int, end: int, part: Bytes)
    requires Wrote(was, now, start, end, part)
    ensures 0 <= start && start + |part| == end <= |was| == |now|
  {
  }

  lemma HeaderAndBody(tag: Byte, body: Bytes)
    ensures ([tag] + EncVarint(|body|)) + body == Delimited(tag, body)
    ensures |Delimited(tag, body)| == 1 + |EncVarint(|body|)| + |body|
  {
  }

  /** The header in front of a body just written completes a length-delimited field. */
  method CloseField(a: array<Byte>, end: nat, i: nat, tag: Byte, ghost was: Bytes, ghost body: Bytes) returns (start: nat)
    requires Wrote(was, a[..], i, end, body) && |body| < TWO_64 && |Delimited(tag, body)| <= end
    modifies a
    ensures Wrote(was, a[..], start, end, Delimited(tag, body))
  {
    hide Wrote, EncVarint, Delimited;
    HeaderAndBody(tag, body);
    ghost var s1 := a[..];
    WroteBounds(was, s1, i, end, body);
    start := WriteHeader(a, i, tag, end - i);
    WroteBoth(was, s1, a[..], start, i, end, [tag] + EncVarint(|body|), body);
  }

  lemma SameWrite(was: Bytes, now: Bytes, start: int, end: int, part: Bytes, same: Bytes)
    requires Wrote(was, now, start, end, part) && part == same
    ensures Wrote(was, now, start, end, same)
  {
  }

  method WriteTimestamp(a: array<Byte>, end: nat, t: Int64) returns (i: nat)
    requires |EncTimestamp(t)| <= end <= a.Length
    modifies a
    ensures Wrote(old(a[..]), a[..], i, end, EncTimestamp(t))
  {
    hide Wrote, EncVarint;
    i := end;
    if t != 0 {
      i := WriteHeader(a, i, 0x10, ToU64(t));
    } else {
      WroteNothing(a[..], end);
    }
  }

  method WriteValue(a: array<Byte>, end: nat, v: Float64Bits) returns (i: nat)
    requires |EncValue(v)| <= end <= a.Length
    modifies a
    ensures Wrote(old(a[..]), a[..], i, end, EncValue(v))
  {
    hide Wrote, LittleEndian;
    i := end;
    ghost var s0 := a[..];
    if !IsZero(v) {
      var mid := Copy(a, end, LittleEndian(v, 8));
      ghost var s1 := a[..];
      WroteBounds(s0, s1, mid, end, LittleEndian(v, 8));
      i := WriteByte(a, mid, 0x09);
      WroteBoth(s0, s1, a[..], i, mid, end, [0x09], LittleEndian(v, 8));
    } else {
      WroteNothing(s0, end);
    }
  }

  method WriteString(a: array<Byte>, end: nat, tag: Byte, s: Bytes) returns (i: nat)
    requires |EncString(tag, s)| <= end <= a.Length && |s| < TWO_64
    modifies a
    ensures Wrote(old(a[..]), a[..], i, end, EncString(tag, s))
  {
    hide Wrote, Delimited;
    i := end;
    ghost var s0 := a[..];
    if |s| > 0 {
      HeaderAndBody(tag, s);
      i := Copy(a, end, s);
      i := CloseField(a, end, i, tag, s0, s);
    } else {
      WroteNothing(s0, end);
    }
  }

  method MarshalSample(a: array<Byte>, end: nat, m: Sample) returns (i: nat)
    requires |EncSample(m)| <= end <= a.Length
    modifies a
    ensures Wrote(old(a[..]), a[..], i, end, EncSample(m))
  {
    hide Wrote, EncValue, EncTimestamp;
    ghost var s0 := a[..];
    var first := Copy(a, end, m.unknown);
    ghost var s1 := a[..];
    WroteBounds(s0, s1, first, end, m.unknown);
    var second := WriteTimestamp(a, first, m.timestamp);
    ghost var s2 := a[..];
    WroteBounds(s1, s2, second, first, EncTimestamp(m.timestamp));
    WroteBoth(s0, s1, s2, second, first, end, EncTimestamp(m.timestamp), m.unknown);
    i := WriteValue(a, second, m.value);
    WroteBoth(s0, s2, a[..], i, second, end, EncValue(m.value), EncTimestamp(m.timestamp) + m.unknown);
    SameWrite(s0, a[..], i, end, EncValue(m.value) + (EncTimestamp(m.timestamp) + m.unknown), EncSample(m));
  }

  method MarshalLabel(a: array<Byte>, end: nat, m: Label) returns (i: nat)
    requires |EncLabel(m)| <= end <= a.Length < TWO_63
    modifies a
    ensures Wrote(old(a[..]), a[..], i, end, EncLabel(m))
  {
    hide Wrote, EncString;
    StringShorter(0x0a, m.name);
    StringShorter(0x12, m.value);
    ghost var s0 := a[..];
    var first := Copy(a, end, m.unknown);
    ghost var s1 := a[..];
    WroteBounds(s0, s1, first, end, m.unknown);
    var second := WriteString(a, first, 0x12, m.value);
    ghost var s2 := a[..];
    WroteBounds(s1, s2, second, first, EncString(0x12, m.value));
    WroteBoth(s0, s1, s2, second, first, end, EncString(0x12, m.value), m.unknown);
    i := WriteString(a, second, 0x0a, m.name);
    WroteBoth(s0, s2, a[..], i, second, end, EncString(0x0a, m.name), EncString(0x12, m.value) + m.unknown);
    SameWrite(s0, a[..], i, end, EncString(0x0a, m.name) + (EncString(0x12, m.value) + m.unknown), EncLabel(m));
  }

  lemma StringShorter(tag: Byte, s: Bytes)
    ensures |s| <= |EncString(tag, s)|
  {
  }

  method MarshalSamples(a: array<Byte>, end: nat, ss: seq<Sample>) returns (i: nat)
    requires |EncSamples(ss)| <= end <= a.Length < TWO_63
    modifies a
    ensures Wrote(old(a[..]), a[..], i, end, EncSamples(ss))
  {
    hide Wrote, EncSample, Delimited;
    i := end;
    ghost var s0 := a[..];
    WroteNothing(s0, end);
    for k := |ss| downto 0
      invariant i <= end && Wrote(s0, a[..], i, end, EncSamples(ss[k..]))
    {
      ghost var s1, x := a[..], Delimited(0x12, EncSample(ss[k]));
      assert ss[k..][0] == ss[k] && ss[k..][1..] == ss[k + 1..];
      assert EncSamples(ss[k..]) == x + EncSamples(ss[k + 1..]);
      SamplesLonger(ss, k);
      WroteBounds(s0, s1, i, end, EncSamples(ss[k + 1..]));
      HeaderAndBody(0x12, EncSample(ss[k]));
      var at := MarshalSample(a, i, ss[k]);
      var start := CloseField(a, i, at, 0x12, s1, EncSample(ss[k]));
      WroteBoth(s0, s1, a[..], start, i, end, x, EncSamples(ss[k + 1..]));
      WroteBounds(s1, a[..], start, i, x);
      i := start;
    }
    assert ss[0..] == ss;
  }

  lemma {:induction false} SamplesLonger(ss: seq<Sample>, k: nat)
    requires k <= |ss|
    ensures |EncSamples(ss[k..])| <= |EncSamples(ss)|
  {
    hide Delimited, EncSample;
    if k > 0 {
      SamplesLonger(ss[1..], k - 1);
      assert ss[1..][k - 1..] == ss[k..];
    }
  }

  method MarshalLabels(a: array<Byte>, end: nat, ls: seq<Label>) returns (i: nat)
    requires |EncLabels(ls)| <= end <= a.Length < TWO_63
    modifies a
    ensures Wrote(old(a[..]), a[..], i, end, EncLabels(ls))
  {
    hide Wrote, EncLabel, Delimited;
    i := end;
    ghost var s0 := a[..];
    WroteNothing(s0, end);
    for k := |ls| downto 0
      invariant i <= end && Wrote(s0, a[..], i, end, EncLabels(ls[k..]))
    {
      ghost var s1, x := a[..], Delimited(0x0a, EncLabel(ls[k]));
      assert ls[k..][0] == ls[k] && ls[k..][1..] == ls[k + 1..];
      assert EncLabels(ls[k..]) == x + EncLabels(ls[k + 1..]);
      LabelsLonger(ls, k);
      WroteBounds(s0, s1, i, end, EncLabels(ls[k + 1..]));
      HeaderAndBody(0x0a, EncLabel(ls[k]));
      var at := MarshalLabel(a, i, ls[k]);
      var start := CloseField(a, i, at, 0x0a, s1, EncLabel(ls[k]));
      WroteBoth(s0, s1, a[..], start, i, end, x, EncLabels(ls[k + 1..]));
      WroteBounds(s1, a[..], start, i, x);
      i := start;
    }
    assert ls[0..] == ls;
  }

  lemma {:induction false} LabelsLonger(ls: seq<Label>, k: nat)
    requires k <= |ls|
    ensures |EncLabels(ls[k..])| <= |EncLabels(ls)|
  {
    hide Delimited, EncLabel;
    if k > 0 {
      LabelsLonger(ls[1..], k - 1);
      assert ls[1..][k - 1..] == ls[k..];
    }
  }

  method MarshalTimeSeries(a: array<Byte>, end: nat, m: TimeSeries) returns (i: nat)
    requires |EncTimeSeries(m)| <= end <= a.Length < TWO_63
    modifies a
    ensures Wrote(old(a[..]), a[..], i, end, EncTimeSeries(m))
  {
    hide Wrote, EncLabels, EncSamples;
    ghost var s0 := a[..];
    var first := Copy(a, end, m.unknown);
    ghost var s1 := a[..];
    WroteBounds(s0, s1, first, end, m.unknown);
    var second := MarshalSamples(a, first, m.samples);
    ghost var s2 := a[..];
    WroteBounds(s1, s2, second, first, EncSamples(m.samples));
    WroteBoth(s0, s1, s2, second, first, end, EncSamples(m.samples), m.unknown);
    i := MarshalLabels(a, second, m.labels);
    WroteBoth(s0, s2, a[..], i, second, end, EncLabels(m.labels), EncSamples(m.samples) + m.unknown);
    SameWrite(s0, a[..], i, end, EncLabels(m.labels) + (EncSamples(m.samples) + m.unknown), EncTimeSeries(m));
  }

  method MarshalAllSeries(a: array<Byte>, end: nat, ts: seq<TimeSeries>) returns (i: nat)
    requires |EncAllSeries(ts)| <= end <= a.Length < TWO_63
    modifies a
    ensures Wrote(old(a[..]), a[..], i, end, EncAllSeries(ts))
  {
    hide Wrote, EncTimeSeries, Delimited;
    i := end;
    ghost var s0 := a[..];
    WroteNothing(s0, end);
    for k := |ts| downto 0
      invariant i <= end && Wrote(s0, a[..], i, end, EncAllSeries(ts[k..]))
    {
      ghost var s1, x := a[..], Delimited(0x0a, EncTimeSeries(ts[k]));
      assert ts[k..][0] == ts[k] && ts[k..][1..] == ts[k + 1..];
      assert EncAllSeries(ts[k..]) == x + EncAllSeries(ts[k + 1..]);
      SeriesLonger(ts, k);
      WroteBounds(s0, s1, i, end, EncAllSeries(ts[k + 1..]));
      HeaderAndBody(0x0a, EncTimeSeries(ts[k]));
      var at := MarshalTimeSeries(a, i, ts[k]);
      var start := CloseField(a, i, at, 0x0a, s1, EncTimeSeries(ts[k]));
      WroteBoth(s0, s1, a[..], start, i, end, x, EncAllSeries(ts[k + 1..]));
      WroteBounds(s1, a[..], start, i, x);
      i := start;
    }
    assert ts[0..] == ts;
  }

  lemma {:induction false} SeriesLonger(ts: seq<TimeSeries>, k: nat)
    requires k <= |ts|
    ensures |EncAllSeries(ts[k..])| <= |EncAllSeries(ts)|
  {
    hide Delimited, EncTimeSeries;
    if k > 0 {
      SeriesLonger(ts[1..], k - 1);
      assert ts[1..][k - 1..] == ts[k..];
    }
  }

  /** Marshalling a request: the buffer of the computed size is filled exactly. */
  method MarshalWriteRequest(m: WriteRequest) returns (data: array<Byte>)
    requires |EncWriteRequest(m)| < TWO_63
    ensures data[..] == EncWriteRequest(m)
  {
    hide Wrote, EncAllSeries;
    var size := SizeWriteRequest(m);
    data := new Byte[size](_ => 0);
    ghost var s0 := data[..];
    var first := Copy(data, size, m.unknown);
    ghost var s1 := data[..];
    WroteBounds(s0, s1, first, size, m.unknown);
    var i := MarshalAllSeries(data, first, m.timeseries);
    WroteBoth(s0, s1, data[..], i, first, size, EncAllSeries(m.timeseries), m.unknown);
    WroteAll(s0, data[..], i, size, EncWriteRequest(m));
  }

  lemma WroteAll(was: Bytes, now: Bytes, start: int, end: int, part: Bytes)
    requires Wrote(was, now, start, end, part) && |part| == |was|
    ensures now == part
  {
    assert start == 0 && end == |was|;
    assert now[0..|was|] == now;
  }
}
