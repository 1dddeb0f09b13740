/** The generated unmarshalling code, decoding into messages whose slices may
    have been used before, and the recycling of write requests. */
module Unmarshalling {
  import opened Varint
  import opened Wire
  import opened Messages
  import opened Marshalling

  datatype RawSlice<T> = RawSlice(cells: seq<T>, len: nat) {
    function Contents(): seq<T>
      requires len <= |cells|
    {
      cells[..len]
    }
  }

  /** A Go slice: the cells of its array, of which the first `len` belong to it.
      What the others hold is left over from earlier uses. */
  type Slice<T> = s: RawSlice<T> | s.len <= |s.cells| witness RawSlice([], 0)

  datatype SeriesBuffer = SeriesBuffer(labels: Slice<Label>, samples: Slice<Sample>, unknown: Bytes)

  const NO_BUFFER := SeriesBuffer(RawSlice([], 0), RawSlice([], 0), [])

  function Held(m: SeriesBuffer): TimeSeries {
    TimeSeries(m.labels.Contents(), m.samples.Contents(), m.unknown)
  }

  function HeldAll(s: seq<SeriesBuffer>): (r: seq<TimeSeries>)
    ensures |r| == |s| && forall i :: 0 <= i < |s| ==> r[i] == Held(s[i])
  {
    seq(|s|, i requires 0 <= i < |s| => Held(s[i]))
  }

  /** `Reset` of a time series keeps the arrays of its slices. */
  function ResetSeries(m: SeriesBuffer): (r: SeriesBuffer)
    ensures Held(r) == NO_SERIES
  {
    SeriesBuffer(RawSlice(m.labels.cells, 0), RawSlice(m.samples.cells, 0), [])
  }

  /** One more element: the next cell of the array after a reset, or a new cell. */
  function Grown<T>(s: Slice<T>, reset: T -> T, zero: T): (r: Slice<T>)
    ensures r.len == s.len + 1 && r.cells[..s.len] == s.Contents()
    ensures r.cells[s.len] == if s.len < |s.cells| then reset(s.cells[s.len]) else zero
  {
    if s.len < |s.cells| then RawSlice(s.cells[s.len := reset(s.cells[s.len])], s.len + 1)
    else RawSlice(s.Contents() + [zero], s.len + 1)
  }

  function SetLast<T>(s: Slice<T>, x: T): (r: Slice<T>)
    requires s.len > 0
    ensures r.Contents() == s.Contents()[..s.len - 1] + [x]
  {
    RawSlice(s.cells[s.len - 1 := x], s.len)
  }

  method UnmarshalSample(m: Sample, data: Bytes) returns (r: Decoding<Sample>)
    ensures r == DecSample(data, 0, m)
  {
    hide SampleField;
    var i: nat, x := 0, m;
    while i < |data|
      invariant DecSample(data, 0, m) == DecSample(data, i, x)
      decreases |data| - i
    {
      var step := SampleField(data, i, x);
      if step.Err? {
        return Err(step.error);
      }
      x, i := step.value.0, step.value.1;
    }
    return Ok(x);
  }

  method UnmarshalLabel(m: Label, data: Bytes) returns (r: Decoding<Label>)
    ensures r == DecLabel(data, 0, m)
  {
    hide LabelField;
    var i: nat, x := 0, m;
    while i < |data|
      invariant DecLabel(data, 0, m) == DecLabel(data, i, x)
      decreases |data| - i
    {
      var step := LabelField(data, i, x);
      if step.Err? {
        return Err(step.error);
      }
      x, i := step.value.0, step.value.1;
    }
    return Ok(x);
  }

  ghost predicate SameStep<B, V>(r: Decoding<(B, nat)>, spec: Decoding<(V, nat)>, held: B -> V) {
    match spec
    case Err(e) => r == Err(e)
    case Ok((v, next)) => r.Ok? && held(r.value.0) == v && r.value.1 == next
  }

  method AddLabel(m: SeriesBuffer, data: Bytes) returns (r: Decoding<SeriesBuffer>)
    ensures match DecLabel(data, 0, NO_LABEL)
            case Err(e) => r == Err(e)
            case Ok(x) => r.Ok? && Held(r.value) == Held(m).(labels := m.labels.Contents() + [x])
  {
    hide DecLabel;
    var grown := Grown(m.labels, _ => NO_LABEL, NO_LABEL);
    var x := UnmarshalLabel(grown.cells[grown.len - 1], data);
    if x.Err? {
      return Err(x.error);
    }
    r := Ok(m.(labels := SetLast(grown, x.value)));
  }

  method AddSample(m: SeriesBuffer, data: Bytes) returns (r: Decoding<SeriesBuffer>)
    ensures match DecSample(data, 0, NO_SAMPLE)
            case Err(e) => r == Err(e)
            case Ok(x) => r.Ok? && Held(r.value) == Held(m).(samples := m.samples.Contents() + [x])
  {
    hide DecSample;
    var grown := Grown(m.samples, _ => NO_SAMPLE, NO_SAMPLE);
    var x := UnmarshalSample(grown.cells[grown.len - 1], data);
    if x.Err? {
      return Err(x.error);
    }
    r := Ok(m.(samples := SetLast(grown, x.value)));
  }

  method SeriesFieldInto(m: SeriesBuffer, data: Bytes, i: nat) returns (r: Decoding<(SeriesBuffer, nat)>)
    requires i < |data|
    ensures SameStep(r, SeriesField(data, i, Held(m)), Held)
  {
    hide DecLabel, DecSample, ReadTag, ReadSpan, UnknownEnd;
    var tag := ReadTag(data, i);
    if tag.Err? {
      return Err(tag.error);
    }
    if tag.value.field == 1 || tag.value.field == 2 {
      if tag.value.wireType != 2 {
        return Err(WrongWireType);
      }
      var span := ReadSpan(data, tag.value.next);
      if span.Err? {
        return Err(span.error);
      }
      var body := data[span.value.0..span.value.1];
      var next;
      if tag.value.field == 1 {
        next := AddLabel(m, body);
      } else {
        next := AddSample(m, body);
      }
      if next.Err? {
        return Err(next.error);
      }
      return Ok((next.value, span.value.1));
    }
    var end := UnknownEnd(data, i);
    if end.Err? {
      return Err(end.error);
    }
    return Ok((m.(unknown := m.unknown + data[i..end.value]), end.value));
  }

  ghost predicate SameResult<B, V>(r: Decoding<B>, spec: Decoding<V>, held: B -> V) {
    match spec
    case Err(e) => r == Err(e)
    case Ok(v) => r.Ok? && held(r.value) == v
  }

  method UnmarshalTimeSeries(m: SeriesBuffer, data: Bytes) returns (r: Decoding<SeriesBuffer>)
    ensures SameResult(r, DecTimeSeries(data, 0, Held(m)), Held)
  {
    hide SeriesField, Held;
    var i: nat, x := 0, m;
    while i < |data|
      invariant DecTimeSeries(data, 0, Held(m)) == DecTimeSeries(data, i, Held(x))
      decreases |data| - i
    {
      var step := SeriesFieldInto(x, data, i);
      if step.Err? {
        return Err(step.error);
      }
      x, i := step.value.0, step.value.1;
    }
    return Ok(x);
  }

  class WriteRequestMessage {
    var timeseries: Slice<SeriesBuffer>
    var unknown: Bytes

    function Message(): WriteRequest
      reads this
    {
      WriteRequest(HeldAll(timeseries.Contents()), unknown)
    }

    constructor ()
      ensures Message() == NO_REQUEST
    {
      timeseries, unknown := RawSlice([], 0), [];
    }

    method Reset()
      modifies this
      ensures Message() == NO_REQUEST
    {
      timeseries, unknown := RawSlice(timeseries.cells, 0), [];
    }

    method AddSeries(data: Bytes) returns (e: Decoding<()>)
      modifies this
      ensures match DecTimeSeries(data, 0, NO_SERIES)
              case Err(err) => e == Err(err)
              case Ok(x) => e.Ok? && Message() == old(Message()).(timeseries := old(Message()).timeseries + [x])
    {
      hide DecTimeSeries, Held, ResetSeries;
      assert Held(NO_BUFFER) == NO_SERIES by { HeldNothing(); }
      var grown := Grown(timeseries, ResetSeries, NO_BUFFER);
      var x := UnmarshalTimeSeries(grown.cells[grown.len - 1], data);
      if x.Err? {
        timeseries := grown;
        return Err(x.error);
      }
      timeseries := SetLast(grown, x.value);
      return Ok(());
    }

    method FieldInto(data: Bytes, i: nat) returns (r: Decoding<nat>)
      requires i < |data|
      modifies this
      ensures match RequestField(data, i, old(Message()))
              case Err(e) => r == Err(e)
              case Ok((m, next)) => r == Ok(next) && Message() == m
    {
      hide DecTimeSeries, ReadTag, ReadSpan, UnknownEnd, HeldAll;
      var tag := ReadTag(data, i);
      if tag.Err? {
        return Err(tag.error);
      }
      if tag.value.field == 1 {
        if tag.value.wireType != 2 {
          return Err(WrongWireType);
        }
        var span := ReadSpan(data, tag.value.next);
        if span.Err? {
          return Err(span.error);
        }
        var e := AddSeries(data[span.value.0..span.value.1]);
        if e.Err? {
          return Err(e.error);
        }
        return Ok(span.value.1);
      }
      var end := UnknownEnd(data, i);
      if end.Err? {
        return Err(end.error);
      }
      unknown := unknown + data[i..end.value];
      return Ok(end.value);
    }

    /** Decodes into the message whatever its arrays hold: the outcome depends
        on its contents alone. */
    method Unmarshal(data: Bytes) returns (e: Decoding<()>)
      modifies this
      ensures match DecWriteRequest(data, 0, old(Message()))
              case Err(err) => e == Err(err)
              case Ok(m) => e.Ok? && Message() == m
    {
      hide RequestField, HeldAll;
      var i: nat := 0;
      while i < |data|
        invariant DecWriteRequest(data, 0, old(Message())) == DecWriteRequest(data, i, Message())
        decreases |data| - i
      {
        var step := FieldInto(data, i);
        if step.Err? {
          return Err(step.error);
        }
        i := step.value;
      }
      return Ok(());
    }

    /** Empties the request before it goes back to the pool. */
    method Finish()
      modifies this
      ensures Message() == NO_REQUEST
      ensures |timeseries.cells| == |old(timeseries.cells)|
      // nothing in the pool keeps a label or an unknown field of the request
      ensures forall k :: 0 <= k < old(timeseries.len) ==> Emptied(old(timeseries.cells[k]), timeseries.cells[k])
    {
      for k := 0 to timeseries.len
        invariant timeseries.len == old(timeseries.len) && |timeseries.cells| == |old(timeseries.cells)|
        invariant forall j :: k <= j < |timeseries.cells| ==> timeseries.cells[j] == old(timeseries.cells[j])
        invariant forall j :: 0 <= j < k ==> Emptied(old(timeseries.cells[j]), timeseries.cells[j])
      {
        var ts := timeseries.cells[k];
        var labels := ts.labels.cells;
        for j := 0 to ts.labels.len
          invariant |labels| == |ts.labels.cells| && forall l :: 0 <= l < j ==> labels[l] == NO_LABEL
        {
          labels := labels[j := NO_LABEL];
        }
        var emptied := SeriesBuffer(RawSlice(labels, 0), RawSlice(ts.samples.cells, 0), []);
        assert Emptied(old(timeseries.cells[k]), emptied);
        timeseries := RawSlice(timeseries.cells[k := emptied], timeseries.len);
      }
      timeseries, unknown := RawSlice(timeseries.cells, 0), [];
    }

    /** A request decoded in a recycled message is the one decoded in a new one. */
    method UnmarshalRecycled(data: Bytes) returns (e: Decoding<()>)
      modifies this
      ensures match DecWriteRequest(data, 0, NO_REQUEST)
              case Err(err) => e == Err(err)
              case Ok(m) => e.Ok? && Message() == m
    {
      Finish();
      e := Unmarshal(data);
    }
  }

  ghost predicate Emptied(was: SeriesBuffer, now: SeriesBuffer) {
    && Held(now) == NO_SERIES && |now.labels.cells| == |was.labels.cells|
    && forall j :: 0 <= j < was.labels.len ==> now.labels.cells[j] == NO_LABEL
  }

  lemma HeldNothing()
    ensures Held(NO_BUFFER) == NO_SERIES
  {
  }

  /** A request sent through the wire into a recycled message arrives as it was,
      unknown fields included, with negative zeros turned into zeros. */
  method Transfer(m: WriteRequest, into: WriteRequestMessage) returns (e: Decoding<()>)
    requires RequestOk(m) && |EncWriteRequest(m)| < TWO_63
    modifies into
    ensures e.Ok? && into.Message() == NormalRequest(m)
    ensures into.Message() == m <==> !HasNegativeZero(m)
  {
    hide NormalRequest, EncWriteRequest, DecWriteRequest, HasNegativeZero, RequestOk;
    RequestRoundTrip(m);
    NormalExactly(m);
    var data := MarshalWriteRequest(m);
    e := into.UnmarshalRecycled(data[..]);
  }
}
