/** Write requests and their encoding as a function of bytes: what `Marshal`
    writes, what `Unmarshal` reads, and the round trip between the two. */
module Messages {
  import opened Varint
  import opened Wire
  import opened UnknownFields

  /** The bit pattern of a float64. */
  type Float64Bits = u: int | 0 <= u < TWO_64
  type Int64 = x: int | -TWO_63 <= x < TWO_63

  datatype Sample = Sample(value: Float64Bits, timestamp: Int64, unknown: Bytes)
  datatype Label = Label(name: Bytes, value: Bytes, unknown: Bytes)
  datatype TimeSeries = TimeSeries(labels: seq<Label>, samples: seq<Sample>, unknown: Bytes)
  datatype WriteRequest = WriteRequest(timeseries: seq<TimeSeries>, unknown: Bytes)

  const NO_SAMPLE := Sample(0, 0, [])
  const NO_LABEL := Label([], [], [])
  const NO_SERIES := TimeSeries([], [], [])
  const NO_REQUEST := WriteRequest([], [])

  // 0.0 and -0.0 are the floats equal to zero
  const NEGATIVE_ZERO: Float64Bits := TWO_63

  predicate IsZero(v: Float64Bits) {
    v == 0 || v == NEGATIVE_ZERO
  }

  // ----- encoding -----

  function EncValue(v: Float64Bits): Bytes {
    if IsZero(v) then [] else [0x09] + LittleEndian(v, 8)
  }

  function EncTimestamp(t: Int64): Bytes {
    if t == 0 then [] else [0x10] + EncVarint(ToU64(t))
  }

  function EncSample(m: Sample): Bytes {
    EncValue(m.value) + EncTimestamp(m.timestamp) + m.unknown
  }

  function EncString(tag: Byte, s: Bytes): Bytes {
    if s == [] then [] else Delimited(tag, s)
  }

  function EncLabel(m: Label): Bytes {
    EncString(0x0a, m.name) + EncString(0x12, m.value) + m.unknown
  }

  function EncLabels(ls: seq<Label>): Bytes {
    if ls == [] then [] else Delimited(0x0a, EncLabel(ls[0])) + EncLabels(ls[1..])
  }

  function EncSamples(ss: seq<Sample>): Bytes {
    if ss == [] then [] else Delimited(0x12, EncSample(ss[0])) + EncSamples(ss[1..])
  }

  function EncTimeSeries(m: TimeSeries): Bytes {
    EncLabels(m.labels) + EncSamples(m.samples) + m.unknown
  }

  function EncAllSeries(ts: seq<TimeSeries>): Bytes {
    if ts == [] then [] else Delimited(0x0a, EncTimeSeries(ts[0])) + EncAllSeries(ts[1..])
  }

  function EncWriteRequest(m: WriteRequest): Bytes {
    EncAllSeries(m.timeseries) + m.unknown
  }

  // ----- decoding, one field at a time -----

  function SampleField(data: Bytes, i: nat, m: Sample): (r: Decoding<(Sample, nat)>)
    requires i < |data|
    ensures r.Ok? ==> i < r.value.1 <= |data|
  {
    match ReadTag(data, i)
    case Err(e) => Err(e)
    case Ok(tag) =>
      if tag.field == 1 then
        if tag.wireType != 1 then Err(WrongWireType)
        else if tag.next + 8 > |data| then Err(UnexpectedEOF)
        else
          var b := data[tag.next..tag.next + 8];
          LittleEndianBound(b);
          Pow256Of8();
          Ok((m.(value := FromLittleEndian(b)), tag.next + 8))
      else if tag.field == 2 then
        if tag.wireType != 0 then Err(WrongWireType)
        else
          match DecVarint(data, tag.next, 0, 0)
          case Err(e) => Err(e)
          case Ok((u, next)) => Ok((m.(timestamp := ToI64(u)), next))
      else
        match UnknownEnd(data, i)
        case Err(e) => Err(e)
        case Ok(end) => Ok((m.(unknown := m.unknown + data[i..end]), end))
  }

  function DecSample(data: Bytes, i: nat, m: Sample): Decoding<Sample>
    decreases |data| - i
  {
    if i >= |data| then Ok(m)
    else
      match SampleField(data, i, m)
      case Err(e) => Err(e)
      case Ok((m', next)) => DecSample(data, next, m')
  }

  function LabelField(data: Bytes, i: nat, m: Label): (r: Decoding<(Label, nat)>)
    requires i < |data|
    ensures r.Ok? ==> i < r.value.1 <= |data|
  {
    match ReadTag(data, i)
    case Err(e) => Err(e)
    case Ok(tag) =>
      if tag.field == 1 || tag.field == 2 then
        if tag.wireType != 2 then Err(WrongWireType)
        else
          match ReadSpan(data, tag.next)
          case Err(e) => Err(e)
          case Ok((start, end)) =>
            Ok((if tag.field == 1 then m.(name := data[start..end]) else m.(value := data[start..end]), end))
      else
        match UnknownEnd(data, i)
        case Err(e) => Err(e)
        case Ok(end) => Ok((m.(unknown := m.unknown + data[i..end]), end))
  }

  function DecLabel(data: Bytes, i: nat, m: Label): Decoding<Label>
    decreases |data| - i
  {
    if i >= |data| then Ok(m)
    else
      match LabelField(data, i, m)
      case Err(e) => Err(e)
      case Ok((m', next)) => DecLabel(data, next, m')
  }

  function SeriesField(data: Bytes, i: nat, m: TimeSeries): (r: Decoding<(TimeSeries, nat)>)
    requires i < |data|
    ensures r.Ok? ==> i < r.value.1 <= |data|
  {
    match ReadTag(data, i)
    case Err(e) => Err(e)
    case Ok(tag) =>
      if tag.field == 1 || tag.field == 2 then
        if tag.wireType != 2 then Err(WrongWireType)
        else
          match ReadSpan(data, tag.next)
          case Err(e) => Err(e)
          case Ok((start, end)) =>
            if tag.field == 1 then
              match DecLabel(data[start..end], 0, NO_LABEL)
              case Err(e) => Err(e)
              case Ok(x) => Ok((m.(labels := m.labels + [x]), end))
            else
              match DecSample(data[start..end], 0, NO_SAMPLE)
              case Err(e) => Err(e)
              case Ok(x) => Ok((m.(samples := m.samples + [x]), end))
      else
        match UnknownEnd(data, i)
        case Err(e) => Err(e)
        case Ok(end) => Ok((m.(unknown := m.unknown + data[i..end]), end))
  }

  function DecTimeSeries(data: Bytes, i: nat, m: TimeSeries): Decoding<TimeSeries>
    decreases |data| - i
  {
    if i >= |data| then Ok(m)
    else
      match SeriesField(data, i, m)
      case Err(e) => Err(e)
      case Ok((m', next)) => DecTimeSeries(data, next, m')
  }

  function RequestField(data: Bytes, i: nat, m: WriteRequest): (r: Decoding<(WriteRequest, nat)>)
    requires i < |data|
    ensures r.Ok? ==> i < r.value.1 <= |data|
  {
    match ReadTag(data, i)
    case Err(e) => Err(e)
    case Ok(tag) =>
      if tag.field == 1 then
        if tag.wireType != 2 then Err(WrongWireType)
        else
          match ReadSpan(data, tag.next)
          case Err(e) => Err(e)
          case Ok((start, end)) =>
            match DecTimeSeries(data[start..end], 0, NO_SERIES)
            case Err(e) => Err(e)
            case Ok(x) => Ok((m.(timeseries := m.timeseries + [x]), end))
      else
        match UnknownEnd(data, i)
        case Err(e) => Err(e)
        case Ok(end) => Ok((m.(unknown := m.unknown + data[i..end]), end))
  }

  function DecWriteRequest(data: Bytes, i: nat, m: WriteRequest): Decoding<WriteRequest>
    decreases |data| - i
  {
    if i >= |data| then Ok(m)
    else
      match RequestField(data, i, m)
      case Err(e) => Err(e)
      case Ok((m', next)) => DecWriteRequest(data, next, m')
  }

  // ----- round trip -----

  /** What comes back for a sample: a negative zero turns into zero. */
  function Normal(m: Sample): Sample {
    if m.value == NEGATIVE_ZERO then m.(value := 0) else m
  }

  function NormalSamples(ss: seq<Sample>): (r: seq<Sample>)
    ensures |r| == |ss| && forall i :: 0 <= i < |ss| ==> r[i] == Normal(ss[i])
  {
    if ss == [] then [] else [Normal(ss[0])] + NormalSamples(ss[1..])
  }

  function NormalSeries(ts: seq<TimeSeries>): (r: seq<TimeSeries>)
    ensures |r| == |ts| && forall i :: 0 <= i < |ts| ==> r[i] == ts[i].(samples := NormalSamples(ts[i].samples))
  {
    if ts == [] then [] else [ts[0].(samples := NormalSamples(ts[0].samples))] + NormalSeries(ts[1..])
  }

  /** The unknown bytes of a message are fields that it does not know. */
  ghost predicate SampleOk(m: Sample) {
    Unknowns(m.unknown, 2)
  }

  ghost predicate LabelOk(m: Label) {
    Unknowns(m.unknown, 2)
  }

  ghost predicate SeriesOk(m: TimeSeries) {
    && Unknowns(m.unknown, 2)
    && (forall i :: 0 <= i < |m.labels| ==> LabelOk(m.labels[i]))
    && (forall i :: 0 <= i < |m.samples| ==> SampleOk(m.samples[i]))
  }

  ghost predicate RequestOk(m: WriteRequest) {
    Unknowns(m.unknown, 1) && forall i :: 0 <= i < |m.timeseries| ==> SeriesOk(m.timeseries[i])
  }

  lemma {:induction false} SampleUnknown(data: Bytes, i: nat, b: Bytes, m: Sample)
    requires HasAt(data, i, b) && Unknowns(b, 2) && |data| < TWO_63
    ensures DecSample(data, i, m) == DecSample(data, i + |b|, m.(unknown := m.unknown + b))
    decreases |b|
  {
    hide HasAt, ReadTag, DecVarint, UnknownEnd, Unknowns, FromLittleEndian;
    if b == [] {
      assert m.unknown + b == m.unknown;
    } else {
      var n := FirstUnknown(data, i, b, 2);
      var next := m.(unknown := m.unknown + b[..n]);
      assert SampleField(data, i, m) == Ok((next, i + n));
      SampleUnknown(data, i + n, b[n..], next);
      assert next.unknown + b[n..] == m.unknown + b;
    }
  }

  lemma {:induction false} LabelUnknown(data: Bytes, i: nat, b: Bytes, m: Label)
    requires HasAt(data, i, b) && Unknowns(b, 2) && |data| < TWO_63
    ensures DecLabel(data, i, m) == DecLabel(data, i + |b|, m.(unknown := m.unknown + b))
    decreases |b|
  {
    hide HasAt, ReadTag, ReadSpan, UnknownEnd, Unknowns;
    if b == [] {
      assert m.unknown + b == m.unknown;
    } else {
      var n := FirstUnknown(data, i, b, 2);
      var next := m.(unknown := m.unknown + b[..n]);
      assert LabelField(data, i, m) == Ok((next, i + n));
      LabelUnknown(data, i + n, b[n..], next);
      assert next.unknown + b[n..] == m.unknown + b;
    }
  }

  lemma {:induction false} SeriesUnknown(data: Bytes, i: nat, b: Bytes, m: TimeSeries)
    requires HasAt(data, i, b) && Unknowns(b, 2) && |data| < TWO_63
    ensures DecTimeSeries(data, i, m) == DecTimeSeries(data, i + |b|, m.(unknown := m.unknown + b))
    decreases |b|
  {
    hide HasAt, ReadTag, ReadSpan, UnknownEnd, Unknowns, DecLabel, DecSample;
    if b == [] {
      assert m.unknown + b == m.unknown;
    } else {
      var n := FirstUnknown(data, i, b, 2);
      var next := m.(unknown := m.unknown + b[..n]);
      assert SeriesField(data, i, m) == Ok((next, i + n));
      SeriesUnknown(data, i + n, b[n..], next);
      assert next.unknown + b[n..] == m.unknown + b;
    }
  }

  lemma {:induction false} RequestUnknown(data: Bytes, i: nat, b: Bytes, m: WriteRequest)
    requires HasAt(data, i, b) && Unknowns(b, 1) && |data| < TWO_63
    ensures DecWriteRequest(data, i, m) == DecWriteRequest(data, i + |b|, m.(unknown := m.unknown + b))
    decreases |b|
  {
    hide HasAt, ReadTag, ReadSpan, UnknownEnd, Unknowns, DecTimeSeries;
    if b == [] {
      assert m.unknown + b == m.unknown;
    } else {
      var n := FirstUnknown(data, i, b, 1);
      var next := m.(unknown := m.unknown + b[..n]);
      assert RequestField(data, i, m) == Ok((next, i + n));
      RequestUnknown(data, i + n, b[n..], next);
      assert next.unknown + b[n..] == m.unknown + b;
    }
  }

  lemma ValueField(data: Bytes, i: nat, v: Float64Bits, m: Sample)
    requires HasAt(data, i, EncValue(v)) && m.value == 0
    ensures DecSample(data, i, m) == DecSample(data, i + |EncValue(v)|, m.(value := if v == NEGATIVE_ZERO then 0 else v))
  {
    hide HasAt, LittleEndian, FromLittleEndian, ReadTag, DecVarint, UnknownEnd;
    if !IsZero(v) {
      HasAtSplit(data, i, [0x09], LittleEndian(v, 8));
      TagRoundTrip(data, i, 0x09);
      Pow256Of8();
      FixedRoundTrip(v, 8);
      PartAt(data, i + 1, LittleEndian(v, 8));
      assert SampleField(data, i, m) == Ok((m.(value := v), i + 9));
    }
  }

  lemma PartAt(data: Bytes, i: nat, part: Bytes)
    requires HasAt(data, i, part)
    ensures i + |part| <= |data| && data[i..i + |part|] == part
  {
  }

  lemma TimestampField(data: Bytes, i: nat, t: Int64, m: Sample)
    requires HasAt(data, i, EncTimestamp(t)) && m.timestamp == 0
    ensures DecSample(data, i, m) == DecSample(data, i + |EncTimestamp(t)|, m.(timestamp := t))
  {
    hide HasAt, EncVarint, ReadTag, DecVarint, UnknownEnd;
    if t != 0 {
      HasAtSplit(data, i, [0x10], EncVarint(ToU64(t)));
      TagRoundTrip(data, i, 0x10);
      VarintRoundTrip(data, i + 1, ToU64(t));
      assert SampleField(data, i, m) == Ok((m.(timestamp := t), i + |EncTimestamp(t)|));
    }
  }

  lemma SampleEnd(data: Bytes, m: Sample)
    ensures DecSample(data, |data|, m) == Ok(m)
  {
  }

  lemma LabelEnd(data: Bytes, m: Label)
    ensures DecLabel(data, |data|, m) == Ok(m)
  {
  }

  /** Three parts of a buffer, one behind the other. */
  lemma ThreeParts(data: Bytes, a: Bytes, b: Bytes, c: Bytes)
    requires data == a + b + c
    ensures HasAt(data, 0, a) && HasAt(data, |a|, b) && HasAt(data, |a| + |b|, c)
  {
    HasAtSplit(data, 0, a + b, c);
    HasAtSplit(data, 0, a, b);
  }

  lemma SampleRoundTrip(m: Sample)
    requires SampleOk(m) && |EncSample(m)| < TWO_63
    ensures DecSample(EncSample(m), 0, NO_SAMPLE) == Ok(Normal(m))
  {
    hide EncValue, EncTimestamp, Unknowns, DecSample, HasAt;
    var data, value, time := EncSample(m), EncValue(m.value), EncTimestamp(m.timestamp);
    ThreeParts(data, value, time, m.unknown);
    ValueField(data, 0, m.value, NO_SAMPLE);
    var half := NO_SAMPLE.(value := if m.value == NEGATIVE_ZERO then 0 else m.value);
    TimestampField(data, |value|, m.timestamp, half);
    SampleUnknown(data, |value| + |time|, m.unknown, half.(timestamp := m.timestamp));
    assert [] + m.unknown == m.unknown;
    SampleEnd(data, Normal(m));
  }

  lemma NameField(data: Bytes, i: nat, s: Bytes, m: Label)
    requires HasAt(data, i, EncString(0x0a, s)) && m.name == [] && |data| < TWO_63
    ensures DecLabel(data, i, m) == DecLabel(data, i + |EncString(0x0a, s)|, m.(name := s))
  {
    hide HasAt, Delimited, ReadTag, ReadSpan, UnknownEnd;
    if s != [] {
      DelimitedRoundTrip(data, i, 0x0a, s);
      assert LabelField(data, i, m) == Ok((m.(name := s), i + |Delimited(0x0a, s)|));
    }
  }

  lemma LabelValueField(data: Bytes, i: nat, s: Bytes, m: Label)
    requires HasAt(data, i, EncString(0x12, s)) && m.value == [] && |data| < TWO_63
    ensures DecLabel(data, i, m) == DecLabel(data, i + |EncString(0x12, s)|, m.(value := s))
  {
    hide HasAt, Delimited, ReadTag, ReadSpan, UnknownEnd;
    if s != [] {
      DelimitedRoundTrip(data, i, 0x12, s);
      assert LabelField(data, i, m) == Ok((m.(value := s), i + |Delimited(0x12, s)|));
    }
  }

  lemma LabelRoundTrip(m: Label)
    requires LabelOk(m) && |EncLabel(m)| < TWO_63
    ensures DecLabel(EncLabel(m), 0, NO_LABEL) == Ok(m)
  {
    hide EncString, Unknowns, DecLabel, HasAt;
    var data, name, value := EncLabel(m), EncString(0x0a, m.name), EncString(0x12, m.value);
    ThreeParts(data, name, value, m.unknown);
    NameField(data, 0, m.name, NO_LABEL);
    LabelValueField(data, |name|, m.value, NO_LABEL.(name := m.name));
    LabelUnknown(data, |name| + |value|, m.unknown, NO_LABEL.(name := m.name, value := m.value));
    assert [] + m.unknown == m.unknown;
    LabelEnd(data, m);
  }

  lemma OneLabelField(data: Bytes, i: nat, x: Label, m: TimeSeries)
    requires HasAt(data, i, Delimited(0x0a, EncLabel(x))) && |data| < TWO_63 && LabelOk(x)
    ensures DecTimeSeries(data, i, m) == DecTimeSeries(data, i + |Delimited(0x0a, EncLabel(x))|, m.(labels := m.labels + [x]))
  {
    hide HasAt, DecLabel, EncLabel, LabelOk, ReadTag, ReadSpan, DecSample, UnknownEnd, Delimited;
    var body := EncLabel(x);
    DelimitedRoundTrip(data, i, 0x0a, body);
    BodyShorter(data, i, 0x0a, body);
    LabelRoundTrip(x);
    assert SeriesField(data, i, m) == Ok((m.(labels := m.labels + [x]), i + |Delimited(0x0a, body)|));
  }

  lemma OneSampleField(data: Bytes, i: nat, x: Sample, m: TimeSeries)
    requires HasAt(data, i, Delimited(0x12, EncSample(x))) && |data| < TWO_63 && SampleOk(x)
    ensures DecTimeSeries(data, i, m) == DecTimeSeries(data, i + |Delimited(0x12, EncSample(x))|, m.(samples := m.samples + [Normal(x)]))
  {
    hide HasAt, DecLabel, EncSample, Normal, SampleOk, ReadTag, ReadSpan, DecSample, UnknownEnd, Delimited;
    var body := EncSample(x);
    DelimitedRoundTrip(data, i, 0x12, body);
    BodyShorter(data, i, 0x12, body);
    SampleRoundTrip(x);
    assert SeriesField(data, i, m) == Ok((m.(samples := m.samples + [Normal(x)]), i + |Delimited(0x12, body)|));
  }

  lemma Regroup<T>(a: seq<T>, x: T, rest: seq<T>)
    ensures a + [x] + rest == a + ([x] + rest)
  {
  }

  lemma {:induction false} LabelsField(data: Bytes, i: nat, ls: seq<Label>, m: TimeSeries)
    requires HasAt(data, i, EncLabels(ls)) && |data| < TWO_63
    requires forall k :: 0 <= k < |ls| ==> LabelOk(ls[k])
    ensures DecTimeSeries(data, i, m) == DecTimeSeries(data, i + |EncLabels(ls)|, m.(labels := m.labels + ls))
    decreases |ls|
  {
    hide HasAt, Delimited, EncLabel, LabelOk, DecTimeSeries;
    if ls == [] {
      assert m.labels + ls == m.labels;
    } else {
      var first := Delimited(0x0a, EncLabel(ls[0]));
      HasAtSplit(data, i, first, EncLabels(ls[1..]));
      OneLabelField(data, i, ls[0], m);
      var next := m.(labels := m.labels + [ls[0]]);
      LabelsField(data, i + |first|, ls[1..], next);
      Regroup(m.labels, ls[0], ls[1..]);
      assert ls == [ls[0]] + ls[1..];
    }
  }

  lemma {:induction false} SamplesField(data: Bytes, i: nat, ss: seq<Sample>, m: TimeSeries)
    requires HasAt(data, i, EncSamples(ss)) && |data| < TWO_63
    requires forall k :: 0 <= k < |ss| ==> SampleOk(ss[k])
    ensures DecTimeSeries(data, i, m) == DecTimeSeries(data, i + |EncSamples(ss)|, m.(samples := m.samples + NormalSamples(ss)))
    decreases |ss|
  {
    hide HasAt, Delimited, EncSample, Normal, SampleOk, DecTimeSeries;
    if ss == [] {
      assert m.samples + NormalSamples(ss) == m.samples;
    } else {
      var first := Delimited(0x12, EncSample(ss[0]));
      HasAtSplit(data, i, first, EncSamples(ss[1..]));
      OneSampleField(data, i, ss[0], m);
      var next := m.(samples := m.samples + [Normal(ss[0])]);
      SamplesField(data, i + |first|, ss[1..], next);
      Regroup(m.samples, Normal(ss[0]), NormalSamples(ss[1..]));
    }
  }

  lemma SeriesEnd(data: Bytes, m: TimeSeries)
    ensures DecTimeSeries(data, |data|, m) == Ok(m)
  {
  }

  lemma WholeAt(data: Bytes)
    ensures HasAt(data, 0, data)
  {
  }

  lemma SeriesRoundTrip(m: TimeSeries)
    requires SeriesOk(m) && |EncTimeSeries(m)| < TWO_63
    ensures DecTimeSeries(EncTimeSeries(m), 0, NO_SERIES) == Ok(m.(samples := NormalSamples(m.samples)))
  {
    hide EncLabels, EncSamples, NormalSamples, DecTimeSeries, HasAt, Unknowns;
    var data, labels, samples := EncTimeSeries(m), EncLabels(m.labels), EncSamples(m.samples);
    ThreeParts(data, labels, samples, m.unknown);
    LabelsField(data, 0, m.labels, NO_SERIES);
    var half := NO_SERIES.(labels := m.labels);
    assert [] + m.labels == m.labels;
    SamplesField(data, |labels|, m.samples, half);
    assert [] + NormalSamples(m.samples) == NormalSamples(m.samples);
    SeriesUnknown(data, |labels| + |samples|, m.unknown, half.(samples := NormalSamples(m.samples)));
    assert [] + m.unknown == m.unknown;
    SeriesEnd(data, m.(samples := NormalSamples(m.samples)));
  }

  lemma OneSeriesField(data: Bytes, i: nat, x: TimeSeries, m: WriteRequest)
    requires HasAt(data, i, Delimited(0x0a, EncTimeSeries(x))) && |data| < TWO_63 && SeriesOk(x)
    ensures DecWriteRequest(data, i, m)
         == DecWriteRequest(data, i + |Delimited(0x0a, EncTimeSeries(x))|,
                            m.(timeseries := m.timeseries + [x.(samples := NormalSamples(x.samples))]))
  {
    hide HasAt, DecTimeSeries, EncTimeSeries, NormalSamples, SeriesOk, ReadTag, ReadSpan, UnknownEnd, Delimited;
    var body := EncTimeSeries(x);
    DelimitedRoundTrip(data, i, 0x0a, body);
    BodyShorter(data, i, 0x0a, body);
    SeriesRoundTrip(x);
    assert RequestField(data, i, m)
        == Ok((m.(timeseries := m.timeseries + [x.(samples := NormalSamples(x.samples))]), i + |Delimited(0x0a, body)|));
  }

  lemma BodyShorter(data: Bytes, i: nat, tag: Byte, body: Bytes)
    requires HasAt(data, i, Delimited(tag, body))
    ensures |body| < |data|
  {
  }

  lemma {:induction false} AllSeriesField(data: Bytes, i: nat, ts: seq<TimeSeries>, m: WriteRequest)
    requires HasAt(data, i, EncAllSeries(ts)) && |data| < TWO_63
    requires forall k :: 0 <= k < |ts| ==> SeriesOk(ts[k])
    ensures DecWriteRequest(data, i, m)
         == DecWriteRequest(data, i + |EncAllSeries(ts)|, m.(timeseries := m.timeseries + NormalSeries(ts)))
    decreases |ts|
  {
    hide HasAt, Delimited, DecWriteRequest, EncTimeSeries, NormalSamples, SeriesOk;
    if ts == [] {
      assert m.timeseries + NormalSeries(ts) == m.timeseries;
    } else {
      var first := Delimited(0x0a, EncTimeSeries(ts[0]));
      HasAtSplit(data, i, first, EncAllSeries(ts[1..]));
      OneSeriesField(data, i, ts[0], m);
      var next := m.(timeseries := m.timeseries + [ts[0].(samples := NormalSamples(ts[0].samples))]);
      AllSeriesField(data, i + |first|, ts[1..], next);
      Regroup(m.timeseries, ts[0].(samples := NormalSamples(ts[0].samples)), NormalSeries(ts[1..]));
    }
  }

  lemma RequestEnd(data: Bytes, m: WriteRequest)
    ensures DecWriteRequest(data, |data|, m) == Ok(m)
  {
  }

  /** What comes back for a request. */
  function NormalRequest(m: WriteRequest): WriteRequest {
    m.(timeseries := NormalSeries(m.timeseries))
  }

  /** Decoding what was encoded gives the request back, unknown fields included,
      with every negative zero among the sample values replaced by zero. A
      slice's length is an int64. */
  lemma RequestRoundTrip(m: WriteRequest)
    requires RequestOk(m) && |EncWriteRequest(m)| < TWO_63
    ensures DecWriteRequest(EncWriteRequest(m), 0, NO_REQUEST) == Ok(NormalRequest(m))
  {
    hide EncAllSeries, NormalSeries, SeriesOk, Unknowns, DecWriteRequest, HasAt;
    var data, series := EncWriteRequest(m), EncAllSeries(m.timeseries);
    WholeAt(data);
    HasAtSplit(data, 0, series, m.unknown);
    AllSeriesField(data, 0, m.timeseries, NO_REQUEST);
    assert [] + NormalSeries(m.timeseries) == NormalSeries(m.timeseries);
    RequestUnknown(data, |series|, m.unknown, NO_REQUEST.(timeseries := NormalSeries(m.timeseries)));
    assert [] + m.unknown == m.unknown;
    RequestEnd(data, NormalRequest(m));
  }

  ghost predicate HasNegativeZero(m: WriteRequest) {
    exists i, j :: 0 <= i < |m.timeseries| && 0 <= j < |m.timeseries[i].samples| && m.timeseries[i].samples[j].value == NEGATIVE_ZERO
  }

  /** Nothing but negative zeros is changed. */
  lemma NormalExactly(m: WriteRequest)
    ensures NormalRequest(m) == m <==> !HasNegativeZero(m)
  {
    var back := NormalSeries(m.timeseries);
    if HasNegativeZero(m) {
      var i, j :| 0 <= i < |m.timeseries| && 0 <= j < |m.timeseries[i].samples| && m.timeseries[i].samples[j].value == NEGATIVE_ZERO;
      assert back[i].samples[j].value == 0;
      assert back != m.timeseries;
    } else {
      forall i | 0 <= i < |m.timeseries| ensures back[i] == m.timeseries[i] {
        assert NormalSamples(m.timeseries[i].samples) == m.timeseries[i].samples;
      }
      assert back == m.timeseries;
    }
  }

  /** The round trip is exact if and only if no sample value is a negative zero. */
  lemma RoundTripExactly(m: WriteRequest)
    requires RequestOk(m) && |EncWriteRequest(m)| < TWO_63
    ensures DecWriteRequest(EncWriteRequest(m), 0, NO_REQUEST) == Ok(m) <==> !HasNegativeZero(m)
  {
    hide EncWriteRequest, DecWriteRequest, RequestOk, HasNegativeZero, NormalRequest;
    RequestRoundTrip(m);
    NormalExactly(m);
  }

  // ----- whatever was decoded can be sent on -----

  lemma {:induction false} DecodedSample(data: Bytes, i: nat, m: Sample)
    requires |data| < TWO_63 && SampleOk(m) && |m.unknown| <= i
    ensures var r := DecSample(data, i, m); r.Ok? ==> SampleOk(r.value)
    decreases |data| - i
  {
    hide ReadTag, DecVarint, UnknownEnd, Unknowns, FromLittleEndian;
    if i < |data| {
      var r := SampleField(data, i, m);
      if r.Ok? {
        var tag := ReadTag(data, i).value;
        if tag.field != 1 && tag.field != 2 {
          KeptUnknown(data, i, m.unknown, 2);
        }
        DecodedSample(data, r.value.1, r.value.0);
      }
    }
  }

  /** One more unknown field read keeps the unknown bytes readable. */
  lemma KeptUnknown(data: Bytes, i: nat, b: Bytes, known: nat)
    requires i < |data| < TWO_63 && |b| <= i && Unknowns(b, known)
    requires ReadTag(data, i).Ok? && ReadTag(data, i).value.field > known && UnknownEnd(data, i).Ok?
    ensures var end := UnknownEnd(data, i).value; Unknowns(b + data[i..end], known) && |b + data[i..end]| <= end
  {
    hide ReadTag, UnknownEnd, Unknowns;
    ReadIsUnknown(data, i, known);
    UnknownsJoin(b, data[i..UnknownEnd(data, i).value], known);
  }

  lemma {:induction false} DecodedLabel(data: Bytes, i: nat, m: Label)
    requires |data| < TWO_63 && LabelOk(m) && |m.unknown| <= i
    ensures var r := DecLabel(data, i, m); r.Ok? ==> LabelOk(r.value)
    decreases |data| - i
  {
    hide ReadTag, ReadSpan, UnknownEnd, Unknowns;
    if i < |data| {
      var r := LabelField(data, i, m);
      if r.Ok? {
        var tag := ReadTag(data, i).value;
        if tag.field != 1 && tag.field != 2 {
          KeptUnknown(data, i, m.unknown, 2);
        }
        DecodedLabel(data, r.value.1, r.value.0);
      }
    }
  }

  lemma {:induction false} DecodedSeries(data: Bytes, i: nat, m: TimeSeries)
    requires |data| < TWO_63 && SeriesOk(m) && |m.unknown| <= i
    ensures var r := DecTimeSeries(data, i, m); r.Ok? ==> SeriesOk(r.value)
    decreases |data| - i
  {
    hide SeriesField, SeriesOk;
    if i < |data| {
      var r := SeriesField(data, i, m);
      if r.Ok? {
        DecodedSeriesField(data, i, m);
        DecodedSeries(data, r.value.1, r.value.0);
      }
    }
  }

  lemma DecodedSeriesField(data: Bytes, i: nat, m: TimeSeries)
    requires i < |data| < TWO_63 && SeriesOk(m) && |m.unknown| <= i && SeriesField(data, i, m).Ok?
    ensures var (m', next) := SeriesField(data, i, m).value; SeriesOk(m') && |m'.unknown| <= next
  {
    hide ReadTag, ReadSpan, UnknownEnd, Unknowns, DecLabel, DecSample;
    NoUnknowns(2);
    var tag := ReadTag(data, i).value;
    if tag.field == 1 || tag.field == 2 {
      var (start, end) := ReadSpan(data, tag.next).value;
      DecodedLabel(data[start..end], 0, NO_LABEL);
      DecodedSample(data[start..end], 0, NO_SAMPLE);
    } else {
      KeptUnknown(data, i, m.unknown, 2);
    }
  }

  lemma {:induction false} DecodedRequest(data: Bytes, i: nat, m: WriteRequest)
    requires |data| < TWO_63 && RequestOk(m) && |m.unknown| <= i
    ensures var r := DecWriteRequest(data, i, m); r.Ok? ==> RequestOk(r.value)
    decreases |data| - i
  {
    hide RequestField, RequestOk;
    if i < |data| {
      var r := RequestField(data, i, m);
      if r.Ok? {
        DecodedRequestField(data, i, m);
        DecodedRequest(data, r.value.1, r.value.0);
      }
    }
  }

  lemma DecodedRequestField(data: Bytes, i: nat, m: WriteRequest)
    requires i < |data| < TWO_63 && RequestOk(m) && |m.unknown| <= i && RequestField(data, i, m).Ok?
    ensures var (m', next) := RequestField(data, i, m).value; RequestOk(m') && |m'.unknown| <= next
  {
    hide ReadTag, ReadSpan, UnknownEnd, Unknowns, DecTimeSeries;
    NoUnknowns(2);
    var tag := ReadTag(data, i).value;
    if tag.field == 1 {
      var (start, end) := ReadSpan(data, tag.next).value;
      DecodedSeries(data[start..end], 0, NO_SERIES);
    } else {
      KeptUnknown(data, i, m.unknown, 1);
    }
  }

  /** Whatever bytes a request was decoded from, encoding and decoding it again
      gives the same request up to negative zeros: unknown fields are passed on. */
  lemma DecodedRoundTrip(data: Bytes)
    requires |data| < TWO_63
    ensures var r := DecWriteRequest(data, 0, NO_REQUEST);
            r.Ok? && |EncWriteRequest(r.value)| < TWO_63 ==>
              DecWriteRequest(EncWriteRequest(r.value), 0, NO_REQUEST) == Ok(NormalRequest(r.value))
  {
    hide DecWriteRequest, EncWriteRequest, NormalRequest, Unknowns;
    var r := DecWriteRequest(data, 0, NO_REQUEST);
    NoUnknowns(1);
    DecodedRequest(data, 0, NO_REQUEST);
    if r.Ok? && |EncWriteRequest(r.value)| < TWO_63 {
      RequestRoundTrip(r.value);
    }
  }
}
