/** The wire format of write requests: which fields a message is made of, with
    their numbers and wire types, and what any sequence of fields decodes to. */
module WireFormat {
  import opened Grid
  import opened Varint
  import opened Wire
  import opened UnknownFields
  import opened Messages

  // ----- numbers on the wire -----

  /** The groups of seven bits, least significant first. */
  function Groups(b: Bytes): nat {
    if b == [] then 0 else b[0] % 128 + 128 * Groups(b[1..])
  }

  /** A varint is the value in groups of seven bits, every byte but the last
      having its top bit set, without needless groups. */
  lemma {:induction false} VarintBytes(v: nat)
    ensures var b := EncVarint(v);
      && Groups(b) == v && b[|b| - 1] < 128
      && (forall k :: 0 <= k < |b| - 1 ==> b[k] >= 128)
      && (|b| > 1 ==> b[|b| - 1] != 0)
  {
    if v >= 128 {
      VarintBytes(v / 128);
      var rest := EncVarint(v / 128);
      assert EncVarint(v) == [v % 128 + 128] + rest;
      assert EncVarint(v)[1..] == rest;
    } else {
      assert EncVarint(v)[1..] == [];
      assert Groups([]) == 0;
    }
  }

  /** In a fixed value byte k has the weight 256 to the k. */
  lemma FixedBytes(b: Bytes)
    requires |b| == 8
    ensures FromLittleEndian(b) ==
      b[0] as int + 0x100 * (b[1] as int) + 0x1_0000 * (b[2] as int) + 0x100_0000 * (b[3] as int)
      + 0x1_0000_0000 * (b[4] as int) + 0x100_0000_0000 * (b[5] as int) + 0x1_0000_0000_0000 * (b[6] as int) + 0x100_0000_0000_0000 * (b[7] as int)
  {
    LastBytes(b[4..]);
    assert b[1..][1..] == b[2..] && b[2..][1..] == b[3..] && b[3..][1..] == b[4..];
    assert FromLittleEndian(b) == b[0] + 0x100 * FromLittleEndian(b[1..]);
    assert FromLittleEndian(b[1..]) == b[1] + 0x100 * FromLittleEndian(b[2..]);
    assert FromLittleEndian(b[2..]) == b[2] + 0x100 * FromLittleEndian(b[3..]);
    assert FromLittleEndian(b[3..]) == b[3] + 0x100 * FromLittleEndian(b[4..]);
  }

  lemma LastBytes(b: Bytes)
    requires |b| == 4
    ensures FromLittleEndian(b) == b[0] as int + 0x100 * (b[1] as int) + 0x1_0000 * (b[2] as int) + 0x100_0000 * (b[3] as int)
  {
    assert b[1..][1..] == b[2..] && b[2..][1..] == b[3..] && b[3..][1..] == [];
    assert FromLittleEndian(b[3..]) == b[3];
    assert FromLittleEndian(b[2..]) == b[2] + 0x100 * FromLittleEndian(b[3..]);
    assert FromLittleEndian(b[1..]) == b[1] + 0x100 * FromLittleEndian(b[2..]);
  }

  // ----- the fields of each message -----

  function SampleFields(m: Sample): seq<Field> {
    (if m.value == 0 || m.value == 0x8000_0000_0000_0000 then [] else [Fixed64Field(1, LittleEndian(m.value, 8))])
    + (if m.timestamp == 0 then [] else [VarintField(2, if m.timestamp < 0 then m.timestamp + TWO_64 else m.timestamp)])
  }

  function LabelFields(m: Label): seq<Field> {
    (if m.name == [] then [] else [BytesField(1, m.name)]) + (if m.value == [] then [] else [BytesField(2, m.value)])
  }

  function LabelsAsFields(ls: seq<Label>): seq<Field> {
    if ls == [] then [] else [BytesField(1, EncLabel(ls[0]))] + LabelsAsFields(ls[1..])
  }

  function SamplesAsFields(ss: seq<Sample>): seq<Field> {
    if ss == [] then [] else [BytesField(2, EncSample(ss[0]))] + SamplesAsFields(ss[1..])
  }

  function SeriesAsFields(ts: seq<TimeSeries>): seq<Field> {
    if ts == [] then [] else [BytesField(1, EncTimeSeries(ts[0]))] + SeriesAsFields(ts[1..])
  }

  lemma {:induction false} FieldsJoin(a: seq<Field>, b: seq<Field>)
    ensures EncFields(a + b) == EncFields(a) + EncFields(b)
  {
    hide EncField;
    if a == [] {
      assert a + b == b;
    } else {
      assert (a + b)[1..] == a[1..] + b;
      FieldsJoin(a[1..], b);
      assert EncField(a[0]) + (EncFields(a[1..]) + EncFields(b)) == EncField(a[0]) + EncFields(a[1..]) + EncFields(b);
    }
  }

  lemma OneField(f: Field)
    ensures EncFields([f]) == EncField(f)
  {
    hide EncField;
    assert [f][1..] == [];
    assert EncFields([]) == [];
  }

  lemma SmallTag(number: nat, wireType: nat)
    requires number < 16 && wireType < 8
    ensures EncTag(number, wireType) == [8 * number + wireType]
  {
  }

  /** A sample is its value as a fixed 64-bit field 1 and its time as a varint
      field 2, each left out if zero, and its unknown fields. */
  lemma SampleOnWire(m: Sample)
    ensures EncSample(m) == EncFields(SampleFields(m)) + m.unknown
  {
    hide EncTag, LittleEndian, EncVarint, EncFields;
    SmallTag(1, 1);
    SmallTag(2, 0);
    var value: seq<Field> := if IsZero(m.value) then [] else [Fixed64Field(1, LittleEndian(m.value, 8))];
    var time: seq<Field> := if m.timestamp == 0 then [] else [VarintField(2, ToU64(m.timestamp))];
    FieldsJoin(value, time);
    NoFields();
    OneField(Fixed64Field(1, LittleEndian(m.value, 8)));
    OneField(VarintField(2, ToU64(m.timestamp)));
    assert EncFields(value) == EncValue(m.value);
    assert EncFields(time) == EncTimestamp(m.timestamp);
  }

  lemma NoFields()
    ensures EncFields([]) == []
  {
  }

  lemma DelimitedIsField(number: nat, body: Bytes)
    requires 0 < number < 16
    ensures Delimited(8 * number + 2, body) == EncField(BytesField(number, body))
  {
    hide EncVarint, EncTag;
    SmallTag(number, 2);
  }

  /** A label is its name as field 1 and its value as field 2, each left out if empty. */
  lemma LabelOnWire(m: Label)
    ensures EncLabel(m) == EncFields(LabelFields(m)) + m.unknown
  {
    hide EncField, EncFields, Delimited;
    DelimitedIsField(1, m.name);
    DelimitedIsField(2, m.value);
    var name: seq<Field> := if m.name == [] then [] else [BytesField(1, m.name)];
    var value: seq<Field> := if m.value == [] then [] else [BytesField(2, m.value)];
    FieldsJoin(name, value);
    NoFields();
    OneField(BytesField(1, m.name));
    OneField(BytesField(2, m.value));
  }

  lemma {:induction false} LabelsOnWire(ls: seq<Label>)
    ensures EncLabels(ls) == EncFields(LabelsAsFields(ls))
  {
    hide EncLabel, EncField, Delimited;
    if ls != [] {
      LabelsOnWire(ls[1..]);
      DelimitedIsField(1, EncLabel(ls[0]));
      assert LabelsAsFields(ls)[1..] == LabelsAsFields(ls[1..]);
    }
  }

  lemma {:induction false} SamplesOnWire(ss: seq<Sample>)
    ensures EncSamples(ss) == EncFields(SamplesAsFields(ss))
  {
    hide EncSample, EncField, Delimited;
    if ss != [] {
      SamplesOnWire(ss[1..]);
      DelimitedIsField(2, EncSample(ss[0]));
      assert SamplesAsFields(ss)[1..] == SamplesAsFields(ss[1..]);
    }
  }

  /** A time series is its labels as fields 1 and its samples as fields 2, in order. */
  lemma SeriesOnWire(m: TimeSeries)
    ensures EncTimeSeries(m) == EncFields(LabelsAsFields(m.labels) + SamplesAsFields(m.samples)) + m.unknown
  {
    hide EncLabels, EncSamples, EncFields, LabelsAsFields, SamplesAsFields;
    LabelsOnWire(m.labels);
    SamplesOnWire(m.samples);
    FieldsJoin(LabelsAsFields(m.labels), SamplesAsFields(m.samples));
  }

  /** A write request is its time series as fields 1, in order. */
  lemma {:induction false} AllSeriesOnWire(ts: seq<TimeSeries>)
    ensures EncAllSeries(ts) == EncFields(SeriesAsFields(ts))
  {
    hide EncTimeSeries, EncField, Delimited;
    if ts != [] {
      AllSeriesOnWire(ts[1..]);
      DelimitedIsField(1, EncTimeSeries(ts[0]));
      assert SeriesAsFields(ts)[1..] == SeriesAsFields(ts[1..]);
    }
  }

  lemma RequestOnWire(m: WriteRequest)
    ensures EncWriteRequest(m) == EncFields(SeriesAsFields(m.timeseries)) + m.unknown
  {
    AllSeriesOnWire(m.timeseries);
  }

  // ----- what a sequence of fields decodes to -----

  /** The sample that fields make of another: later ones win, a known number with
      another wire type is an error, and unknown numbers are kept. */
  function SampleWith(m: Sample, f: Field): Decoding<Sample>
    requires FieldOk(f)
  {
    match f.number
    case 1 => if f.Fixed64Field? then LittleEndianBound(f.bits); Pow256Of8(); Ok(m.(value := FromLittleEndian(f.bits))) else Err(WrongWireType)
    case 2 => if f.VarintField? then Ok(m.(timestamp := ToI64(f.v))) else Err(WrongWireType)
    case _ => Ok(m.(unknown := m.unknown + EncField(f)))
  }

  function LabelWith(m: Label, f: Field): Decoding<Label> {
    match f.number
    case 1 => if f.BytesField? then Ok(m.(name := f.body)) else Err(WrongWireType)
    case 2 => if f.BytesField? then Ok(m.(value := f.body)) else Err(WrongWireType)
    case _ => Ok(m.(unknown := m.unknown + EncField(f)))
  }

  function SeriesWith(m: TimeSeries, f: Field): Decoding<TimeSeries> {
    match f.number
    case 1 =>
      if !f.BytesField? then Err(WrongWireType)
      else (match DecLabel(f.body, 0, NO_LABEL) case Err(e) => Err(e) case Ok(x) => Ok(m.(labels := m.labels + [x])))
    case 2 =>
      if !f.BytesField? then Err(WrongWireType)
      else (match DecSample(f.body, 0, NO_SAMPLE) case Err(e) => Err(e) case Ok(x) => Ok(m.(samples := m.samples + [x])))
    case _ => Ok(m.(unknown := m.unknown + EncField(f)))
  }

  function RequestWith(m: WriteRequest, f: Field): Decoding<WriteRequest> {
    match f.number
    case 1 =>
      if !f.BytesField? then Err(WrongWireType)
      else (match DecTimeSeries(f.body, 0, NO_SERIES) case Err(e) => Err(e) case Ok(x) => Ok(m.(timeseries := m.timeseries + [x])))
    case _ => Ok(m.(unknown := m.unknown + EncField(f)))
  }

  /** Where the tag and the value of an encoded field are, and that a number above `known` is skipped. */
  lemma FieldAt(data: Bytes, i: nat, f: Field, known: nat)
    requires HasAt(data, i, EncField(f)) && FieldOk(f) && |data| < TWO_63
    ensures var tag := |EncTag(f.number, WireType(f))|;
      && 0 < tag && i + tag <= |data| && ReadTag(data, i) == Ok(Tag(f.number, WireType(f), i + tag))
      && HasAt(data, i + tag, EncBody(f)) && |EncField(f)| == tag + |EncBody(f)| && i + |EncField(f)| <= |data|
    ensures f.number > known ==> UnknownEnd(data, i) == Ok(i + |EncField(f)|) && data[i..i + |EncField(f)|] == EncField(f)
  {
    hide EncTag, EncBody, ReadTag, FieldOk, Skip;
    HasAtEnd(data, i, EncField(f));
    HasAtSplit(data, i, EncTag(f.number, WireType(f)), EncBody(f));
    var b := data[i..];
    TailHas(data, i, EncTag(f.number, WireType(f)));
    FieldNumber(f);
    EncodedTag(b, f.number, WireType(f));
    TagShift(data, i);
    TailHas(data, i, EncField(f));
    SkipField(b, 0, f, 0);
  }

  lemma TailHas(data: Bytes, i: nat, part: Bytes)
    requires HasAt(data, i, part)
    ensures i <= |data| && HasAt(data[i..], 0, part)
  {
    assert data[i..][0..|part|] == data[i..i + |part|];
  }

  lemma FixedAt(data: Bytes, i: nat, f: Field)
    requires HasAt(data, i, EncBody(f)) && FieldOk(f) && f.Fixed64Field?
    ensures i + 8 <= |data| && data[i..i + 8] == f.bits && |EncBody(f)| == 8
  {
  }

  lemma VarintAt(data: Bytes, i: nat, f: Field)
    requires HasAt(data, i, EncBody(f)) && i <= |data| && FieldOk(f) && f.VarintField?
    ensures DecVarint(data, i, 0, 0) == Ok((f.v, i + |EncBody(f)|))
  {
    hide EncVarint, DecVarint;
    VarintRoundTrip(data, i, f.v);
  }

  lemma SpanAt(data: Bytes, i: nat, f: Field)
    requires HasAt(data, i, EncBody(f)) && i <= |data| < TWO_63 && FieldOk(f) && f.BytesField?
    ensures var end := i + |EncBody(f)|;
      ReadSpan(data, i) == Ok((end - |f.body|, end)) && end <= |data| && data[end - |f.body|..end] == f.body
  {
    hide EncVarint, ReadSpan;
    SpanRoundTrip(data, i, f.body);
  }

  lemma ReadSampleField(data: Bytes, i: nat, f: Field, m: Sample)
    requires HasAt(data, i, EncField(f)) && FieldOk(f) && |data| < TWO_63
    ensures i < |data| && SampleField(data, i, m) == match SampleWith(m, f) case Err(e) => Err(e) case Ok(m') => Ok((m', i + |EncField(f)|))
  {
    hide HasAt, EncField, EncTag, EncBody, ReadTag, DecVarint, UnknownEnd, FromLittleEndian, FieldOk;
    FieldAt(data, i, f, 2);
    FieldNumber(f);
    var at := i + |EncTag(f.number, WireType(f))|;
    if f.Fixed64Field? {
      FixedAt(data, at, f);
    } else if f.VarintField? {
      VarintAt(data, at, f);
    }
  }

  lemma ReadLabelField(data: Bytes, i: nat, f: Field, m: Label)
    requires HasAt(data, i, EncField(f)) && FieldOk(f) && |data| < TWO_63
    ensures i < |data| && LabelField(data, i, m) == match LabelWith(m, f) case Err(e) => Err(e) case Ok(m') => Ok((m', i + |EncField(f)|))
  {
    hide HasAt, EncField, EncTag, EncBody, ReadTag, ReadSpan, UnknownEnd, FieldOk;
    FieldAt(data, i, f, 2);
    FieldNumber(f);
    if f.BytesField? {
      SpanAt(data, i + |EncTag(f.number, WireType(f))|, f);
    }
  }

  lemma ReadSeriesField(data: Bytes, i: nat, f: Field, m: TimeSeries)
    requires HasAt(data, i, EncField(f)) && FieldOk(f) && |data| < TWO_63
    ensures i < |data| && SeriesField(data, i, m) == match SeriesWith(m, f) case Err(e) => Err(e) case Ok(m') => Ok((m', i + |EncField(f)|))
  {
    hide HasAt, EncField, EncTag, EncBody, ReadTag, ReadSpan, UnknownEnd, FieldOk, DecLabel, DecSample;
    FieldAt(data, i, f, 2);
    FieldNumber(f);
    if f.BytesField? {
      SpanAt(data, i + |EncTag(f.number, WireType(f))|, f);
    }
  }

  lemma ReadRequestField(data: Bytes, i: nat, f: Field, m: WriteRequest)
    requires HasAt(data, i, EncField(f)) && FieldOk(f) && |data| < TWO_63
    ensures i < |data| && RequestField(data, i, m) == match RequestWith(m, f) case Err(e) => Err(e) case Ok(m') => Ok((m', i + |EncField(f)|))
  {
    hide HasAt, EncField, EncTag, EncBody, ReadTag, ReadSpan, UnknownEnd, FieldOk, DecTimeSeries;
    FieldAt(data, i, f, 1);
    FieldNumber(f);
    if f.BytesField? {
      SpanAt(data, i + |EncTag(f.number, WireType(f))|, f);
    }
  }

  ghost predicate FieldsOk(fs: seq<Field>) {
    forall k :: 0 <= k < |fs| ==> FieldOk(fs[k])
  }

  function SampleOf(m: Sample, fs: seq<Field>): Decoding<Sample>
    requires FieldsOk(fs)
    decreases |fs|
  {
    if fs == [] then Ok(m)
    else match SampleWith(m, fs[0]) case Err(e) => Err(e) case Ok(m') => SampleOf(m', fs[1..])
  }

  function LabelOf(m: Label, fs: seq<Field>): Decoding<Label>
    decreases |fs|
  {
    if fs == [] then Ok(m)
    else match LabelWith(m, fs[0]) case Err(e) => Err(e) case Ok(m') => LabelOf(m', fs[1..])
  }

  function SeriesOf(m: TimeSeries, fs: seq<Field>): Decoding<TimeSeries>
    decreases |fs|
  {
    if fs == [] then Ok(m)
    else match SeriesWith(m, fs[0]) case Err(e) => Err(e) case Ok(m') => SeriesOf(m', fs[1..])
  }

  function RequestOf(m: WriteRequest, fs: seq<Field>): Decoding<WriteRequest>
    decreases |fs|
  {
    if fs == [] then Ok(m)
    else match RequestWith(m, fs[0]) case Err(e) => Err(e) case Ok(m') => RequestOf(m', fs[1..])
  }

  lemma {:induction false} SampleFromFields(data: Bytes, i: nat, fs: seq<Field>, m: Sample)
    requires HasAt(data, i, EncFields(fs)) && i + |EncFields(fs)| == |data| < TWO_63 && FieldsOk(fs)
    ensures DecSample(data, i, m) == SampleOf(m, fs)
    decreases |fs|
  {
    hide HasAt, EncField, SampleField, SampleWith, FieldOk;
    if fs != [] {
      HasAtSplit(data, i, EncField(fs[0]), EncFields(fs[1..]));
      ReadSampleField(data, i, fs[0], m);
      var r := SampleWith(m, fs[0]);
      if r.Ok? {
        SampleFromFields(data, i + |EncField(fs[0])|, fs[1..], r.value);
      }
    }
  }

  lemma {:induction false} LabelFromFields(data: Bytes, i: nat, fs: seq<Field>, m: Label)
    requires HasAt(data, i, EncFields(fs)) && i + |EncFields(fs)| == |data| < TWO_63 && FieldsOk(fs)
    ensures DecLabel(data, i, m) == LabelOf(m, fs)
    decreases |fs|
  {
    hide HasAt, EncField, LabelField, LabelWith, FieldOk;
    if fs != [] {
      HasAtSplit(data, i, EncField(fs[0]), EncFields(fs[1..]));
      ReadLabelField(data, i, fs[0], m);
      var r := LabelWith(m, fs[0]);
      if r.Ok? {
        LabelFromFields(data, i + |EncField(fs[0])|, fs[1..], r.value);
      }
    }
  }

  lemma {:induction false} SeriesFromFields(data: Bytes, i: nat, fs: seq<Field>, m: TimeSeries)
    requires HasAt(data, i, EncFields(fs)) && i + |EncFields(fs)| == |data| < TWO_63 && FieldsOk(fs)
    ensures DecTimeSeries(data, i, m) == SeriesOf(m, fs)
    decreases |fs|
  {
    hide HasAt, EncField, SeriesField, SeriesWith, FieldOk;
    if fs != [] {
      HasAtSplit(data, i, EncField(fs[0]), EncFields(fs[1..]));
      ReadSeriesField(data, i, fs[0], m);
      var r := SeriesWith(m, fs[0]);
      if r.Ok? {
        SeriesFromFields(data, i + |EncField(fs[0])|, fs[1..], r.value);
      }
    }
  }

  lemma {:induction false} RequestFromFields(data: Bytes, i: nat, fs: seq<Field>, m: WriteRequest)
    requires HasAt(data, i, EncFields(fs)) && i + |EncFields(fs)| == |data| < TWO_63 && FieldsOk(fs)
    ensures DecWriteRequest(data, i, m) == RequestOf(m, fs)
    decreases |fs|
  {
    hide HasAt, EncField, RequestField, RequestWith, FieldOk;
    if fs != [] {
      HasAtSplit(data, i, EncField(fs[0]), EncFields(fs[1..]));
      ReadRequestField(data, i, fs[0], m);
      var r := RequestWith(m, fs[0]);
      if r.Ok? {
        RequestFromFields(data, i + |EncField(fs[0])|, fs[1..], r.value);
      }
    }
  }

  /** The value and the time of a sample, in either order on the wire. */
  lemma SampleInEitherOrder(bits: Bytes, t: Int64)
    requires |bits| == 8
    ensures var value, time := Fixed64Field(1, bits), VarintField(2, if t < 0 then t + TWO_64 else t);
      && FromLittleEndian(bits) < TWO_64
      && DecSample(EncField(value) + EncField(time), 0, NO_SAMPLE) == Ok(Sample(FromLittleEndian(bits), t, []))
      && DecSample(EncField(time) + EncField(value), 0, NO_SAMPLE) == Ok(Sample(FromLittleEndian(bits), t, []))
  {
    hide DecSample, EncField, EncFields, FromLittleEndian;
    LittleEndianBound(bits);
    Pow256Of8();
    var value, time := Fixed64Field(1, bits), VarintField(2, ToU64(t));
    TwoFields(value, time);
    TwoFields(time, value);
    OneByOne(NO_SAMPLE, value, time);
    OneByOne(NO_SAMPLE, time, value);
  }

  lemma OneByOne(m: Sample, a: Field, b: Field)
    requires FieldOk(a) && FieldOk(b)
    ensures SampleOf(m, [a, b]) == (var r := SampleWith(m, a); if r.Err? then r else SampleWith(r.value, b))
  {
    hide SampleWith, FieldOk;
    assert [a, b][1..] == [b] && [b][1..] == [];
    var r := SampleWith(m, a);
    if r.Ok? {
      var r2 := SampleWith(r.value, b);
      assert SampleOf(r.value, [b]) == if r2.Err? then r2 else SampleOf(r2.value, []);
    }
  }

  lemma TwoFields(a: Field, b: Field)
    requires FieldOk(a) && FieldOk(b) && !a.GroupField? && !b.GroupField? && !a.BytesField? && !b.BytesField?
    ensures DecSample(EncField(a) + EncField(b), 0, NO_SAMPLE) == SampleOf(NO_SAMPLE, [a, b])
  {
    hide DecSample, EncField, EncFields, SampleWith, FieldOk;
    FieldsJoin([a], [b]);
    OneField(a);
    OneField(b);
    ShortField(a);
    ShortField(b);
    var data := EncField(a) + EncField(b);
    WholeField(data);
    assert [a] + [b] == [a, b];
    SampleFromFields(data, 0, [a, b], NO_SAMPLE);
  }

  lemma ShortField(f: Field)
    requires FieldOk(f) && !f.GroupField? && !f.BytesField?
    ensures |EncField(f)| < 1000
  {
    hide EncVarint;
    TenBytes(8 * f.number + WireType(f));
    match f
    case VarintField(_, v) => TenBytes(v);
    case Fixed64Field(_, _) =>
    case Fixed32Field(_, _) =>
  }

  function Pow128(n: nat): nat {
    if n == 0 then 1 else 128 * Pow128(n - 1)
  }

  lemma {:induction false} VarintLength(v: nat, n: nat)
    requires n > 0 && v < Pow128(n)
    ensures |EncVarint(v)| <= n
  {
    assert Pow128(1) == 128 * Pow128(0);
    if v >= 128 {
      VarintLength(v / 128, n - 1);
    }
  }

  /** No 64-bit varint has more than ten bytes. */
  lemma TenBytes(v: nat)
    requires v < TWO_64
    ensures |EncVarint(v)| <= 10
  {
    assert Pow128(10) == 128 * Pow128(9) == 0x4000 * Pow128(8) == 0x20_0000 * Pow128(7) == 0x1000_0000 * Pow128(6);
    assert Pow128(6) == 128 * Pow128(5) == 0x4000 * Pow128(4) == 0x20_0000 * Pow128(3) == 0x1000_0000 * Pow128(2);
    assert Pow128(2) == 128 * Pow128(1) == 0x4000 * Pow128(0);
    VarintLength(v, 10);
  }

  /** A sample with a value and a time, byte by byte of the value. */
  lemma SampleWithBoth(m: Sample)
    requires m.value != 0 && m.value != 0x8000_0000_0000_0000 && m.timestamp != 0
    ensures var b := LittleEndian(m.value, 8);
      && EncSample(m) == EncField(Fixed64Field(1, b)) + EncField(VarintField(2, ToU64(m.timestamp))) + m.unknown
      && m.value == b[0] as int + 0x100 * (b[1] as int) + 0x1_0000 * (b[2] as int) + 0x100_0000 * (b[3] as int)
        + 0x1_0000_0000 * (b[4] as int) + 0x100_0000_0000 * (b[5] as int) + 0x1_0000_0000_0000 * (b[6] as int) + 0x100_0000_0000_0000 * (b[7] as int)
  {
    hide EncField, EncFields, EncSample, LittleEndian, FromLittleEndian;
    var b := LittleEndian(m.value, 8);
    Pow256Of8();
    FixedRoundTrip(m.value, 8);
    FixedBytes(b);
    SampleOnWire(m);
    FieldsJoin([Fixed64Field(1, b)], [VarintField(2, ToU64(m.timestamp))]);
    OneField(Fixed64Field(1, b));
    OneField(VarintField(2, ToU64(m.timestamp)));
  }

  /** The value 1.0 at time 1, as a Prometheus server sends it. */
  lemma OneAtOne()
    ensures DecSample([0x09, 0, 0, 0, 0, 0, 0, 0xf0, 0x3f, 0x10, 0x01], 0, NO_SAMPLE) == Ok(Sample(0x3ff0_0000_0000_0000, 1, []))
  {
    hide DecSample, FromLittleEndian;
    var bits: Bytes := [0, 0, 0, 0, 0, 0, 0xf0, 0x3f];
    FixedBytes(bits);
    SampleInEitherOrder(bits, 1);
    SmallTag(1, 1);
    SmallTag(2, 0);
    assert EncField(Fixed64Field(1, bits)) == [0x09] + bits;
    assert EncField(VarintField(2, 1)) == [0x10] + [0x01];
    assert ([0x09] + bits) + ([0x10] + [0x01]) == [0x09, 0, 0, 0, 0, 0, 0, 0xf0, 0x3f, 0x10, 0x01];
    assert FromLittleEndian(bits) == 0x3ff0_0000_0000_0000;
  }

  // ----- reading numbers -----

  /** The first byte from `i` on without its top bit set is `k` bytes on. */
  ghost predicate EndsAfter(data: Bytes, i: nat, k: nat) {
    i + k < |data| && data[i + k] < 128 && forall j :: i <= j < i + k ==> data[j] >= 128
  }

  lemma {:induction false} ReadGroups(data: Bytes, i: nat, shift: nat, acc: nat, k: nat)
    requires i <= |data| && acc < TWO_64 && EndsAfter(data, i, k) && shift + 7 * k < 64
    ensures DecVarint(data, i, shift, acc) == Ok(((acc + Shl(Groups(data[i..i + k + 1]), shift)) % TWO_64, i + k + 1))
    decreases k
  {
    hide Shl;
    var b := data[i..i + k + 1];
    if k == 0 {
      assert b[1..] == [];
      assert Groups(b) == data[i] % 128;
    } else {
      var rest := data[i + 1..i + k + 1];
      assert b[1..] == rest;
      var v := (acc + Shl(data[i] % 128, shift)) % TWO_64;
      ReadGroups(data, i + 1, shift + 7, v, k - 1);
      ShlGroups(Groups(b), shift);
      GroupsSplit(b);
      ModTwice(acc + Shl(data[i] % 128, shift), Shl(Groups(rest), shift + 7), TWO_64);
    }
  }

  lemma GroupsSplit(b: Bytes)
    requires b != []
    ensures Groups(b) % 128 == b[0] % 128 && Groups(b) / 128 == Groups(b[1..])
  {
  }

  lemma ModTwice(a: nat, b: nat, m: nat)
    requires m > 0
    ensures (a % m + b) % m == (a + b) % m
  {
    var q := a / m;
    assert a == m * q + a % m;
    ModUnique(m * q, m, q, 0);
    ModSum(a % m + b, m * q, m);
  }

  lemma {:induction false} ReadsOn(data: Bytes, i: nat, shift: nat, acc: nat)
    requires i <= |data| && acc < TWO_64 && shift <= 70 && shift % 7 == 0
    requires forall j :: i <= j < |data| && j < i + (70 - shift) / 7 ==> data[j] >= 128
    ensures DecVarint(data, i, shift, acc) == Err(if |data| < i + (70 - shift) / 7 then UnexpectedEOF else IntOverflow)
    decreases 70 - shift
  {
    hide Shl;
    if shift < 64 && i < |data| {
      ReadsOn(data, i + 1, shift + 7, (acc + Shl(data[i] % 128, shift)) % TWO_64);
    }
  }

  /** Reading a varint: it ends within ten bytes with the groups up to there, cut
      to 64 bits; or the data ends before; or there is no end within ten bytes. */
  lemma VarintMeans(data: Bytes, i: nat)
    requires i <= |data|
    ensures forall k: nat :: k < 10 && EndsAfter(data, i, k) ==> DecVarint(data, i, 0, 0) == Ok((Groups(data[i..i + k + 1]) % TWO_64, i + k + 1))
    ensures (forall j :: i <= j < |data| && j < i + 10 ==> data[j] >= 128) ==>
      DecVarint(data, i, 0, 0) == Err(if |data| < i + 10 then UnexpectedEOF else IntOverflow)
  {
    hide DecVarint;
    forall k: nat | k < 10 && EndsAfter(data, i, k)
      ensures DecVarint(data, i, 0, 0) == Ok((Groups(data[i..i + k + 1]) % TWO_64, i + k + 1))
    {
      ReadGroups(data, i, 0, 0, k);
    }
    if forall j :: i <= j < |data| && j < i + 10 ==> data[j] >= 128 {
      ReadsOn(data, i, 0, 0);
    }
  }

  /** A tag is a varint with the wire type in its low three bits and the field
      number in the 32 bits above them, which must be positive as a signed number;
      the end of a group is refused here. */
  lemma TagMeans(data: Bytes, i: nat)
    requires i <= |data|
    ensures DecVarint(data, i, 0, 0).Err? ==> ReadTag(data, i) == Err(DecVarint(data, i, 0, 0).error)
    ensures DecVarint(data, i, 0, 0).Ok? ==>
      var (wire, next) := DecVarint(data, i, 0, 0).value;
      var number := (wire / 8) % 0x1_0000_0000;
      ReadTag(data, i) ==
        if wire % 8 == 4 then Err(EndGroup)
        else if 0 < number < 0x8000_0000 then Ok(Tag(number, wire % 8, next))
        else Err(IllegalTag)
  {
    hide DecVarint;
  }
}
