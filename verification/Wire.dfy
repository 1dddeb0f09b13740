/** Tags, length-delimited fields and the skipping of unknown fields in the
    Protocol Buffers encoding. */
module Wire {
  import opened Varint

  datatype Tag = Tag(field: int, wireType: nat, next: nat)

  /** The low 32 bits as a signed number. */
  function Int32(x: nat): int {
    var low := x % TWO_32;
    if low < TWO_32 / 2 then low else low - TWO_32
  }

  function ReadTag(data: Bytes, i: nat): (r: Decoding<Tag>)
    requires i <= |data|
    ensures r.Ok? ==> i < r.value.next <= |data| && r.value.field > 0
  {
    match DecVarint(data, i, 0, 0)
    case Err(e) => Err(e)
    case Ok((wire, next)) =>
      if wire % 8 == 4 then Err(EndGroup)
      else if Int32(wire / 8) <= 0 then Err(IllegalTag)
      else Ok(Tag(Int32(wire / 8), wire % 8, next))
  }

  /** The span of a length-delimited field: where its bytes start and end. */
  function ReadSpan(data: Bytes, i: nat): (r: Decoding<(nat, nat)>)
    requires i <= |data|
    ensures r.Ok? ==> i < r.value.0 <= r.value.1 <= |data|
  {
    match DecVarint(data, i, 0, 0)
    case Err(e) => Err(e)
    case Ok((len, next)) =>
      // a negative int, or a sum beyond the largest int
      if ToI64(len) < 0 || next + len >= TWO_63 then Err(InvalidLength)
      else if next + len > |data| then Err(UnexpectedEOF)
      else Ok((next, next + len))
  }

  /** The end of the unknown field that starts at index 0 of `data`, read up to
      `i` with `depth` groups open. It may lie beyond the data. */
  function Skip(data: Bytes, i: nat, depth: nat): (r: Decoding<nat>)
    ensures r.Ok? ==> r.value > i
    decreases |data| - i
  {
    if i >= |data| then Err(UnexpectedEOF)
    else
      match DecVarint(data, i, 0, 0)
      case Err(e) => Err(e)
      case Ok((wire, next)) =>
        match SkipValue(data, next, wire % 8, depth)
        case Err(e) => Err(e)
        case Ok((at, open)) =>
          if at >= TWO_63 then Err(InvalidLength)
          else if open == 0 then Ok(at)
          else Skip(data, at, open)
  }

  /** Past the value of a field of the given wire type: the index and the groups open after it. */
  function SkipValue(data: Bytes, i: nat, wireType: nat, depth: nat): (r: Decoding<(nat, nat)>)
    requires i <= |data|
    ensures r.Ok? ==> r.value.0 >= i
  {
    match wireType
    case 0 =>
      (match DecVarint(data, i, 0, 0)
       case Err(e) => Err(e)
       case Ok((_, next)) => Ok((next, depth)))
    case 1 => Ok((i + 8, depth))
    case 2 =>
      (match DecVarint(data, i, 0, 0)
       case Err(e) => Err(e)
       case Ok((len, next)) => if ToI64(len) < 0 then Err(InvalidLength) else Ok((next + len, depth)))
    case 3 => Ok((i, depth + 1))
    case 4 => if depth == 0 then Err(UnexpectedEndOfGroup) else Ok((i, depth - 1))
    case 5 => Ok((i + 4, depth))
    case _ => Err(IllegalWireType)
  }

  /** The end of the unknown field at `i`. */
  function UnknownEnd(data: Bytes, i: nat): (r: Decoding<nat>)
    requires i < |data|
    ensures r.Ok? ==> i < r.value <= |data|
  {
    match Skip(data[i..], 0, 0)
    case Err(e) => Err(e)
    case Ok(n) =>
      if i + n >= TWO_63 then Err(InvalidLength)
      else if i + n > |data| then Err(UnexpectedEOF)
      else Ok(i + n)
  }

  method SkipTypes(data: Bytes) returns (r: Decoding<nat>)
    ensures r == Skip(data, 0, 0)
  {
    hide DecVarint;
    var i: nat, depth: nat := 0, 0;
    while i < |data|
      invariant Skip(data, 0, 0) == Skip(data, i, depth)
      decreases |data| - i
    {
      var tag := ReadVarint(data, i);
      if tag.Err? {
        return Err(tag.error);
      }
      var wireType := tag.value.0 % 8;
      i := tag.value.1;
      match wireType {
        case 0 =>
          var v := ReadVarint(data, i);
          if v.Err? {
            return Err(v.error);
          }
          i := v.value.1;
        case 1 => i := i + 8;
        case 2 =>
          var v := ReadVarint(data, i);
          if v.Err? {
            return Err(v.error);
          }
          if ToI64(v.value.0) < 0 {
            return Err(InvalidLength);
          }
          i := v.value.1 + v.value.0;
        case 3 => depth := depth + 1;
        case 4 =>
          if depth == 0 {
            return Err(UnexpectedEndOfGroup);
          }
          depth := depth - 1;
        case 5 => i := i + 4;
        case _ => return Err(IllegalWireType);
      }
      if i >= TWO_63 {
        return Err(InvalidLength);
      }
      if depth == 0 {
        return Ok(i);
      }
    }
    return Err(UnexpectedEOF);
  }

  // ----- writing -----

  /** A length-delimited field. */
  function Delimited(tag: Byte, body: Bytes): Bytes {
    [tag] + EncVarint(|body|) + body
  }

  /** A one-byte tag reads back as its field number and wire type. */
  lemma TagRoundTrip(data: Bytes, i: nat, tag: Byte)
    requires HasAt(data, i, [tag]) && 8 <= tag < 128 && tag % 8 != 4
    ensures ReadTag(data, i) == Ok(Tag(tag / 8, tag % 8, i + 1))
  {
    assert EncVarint(tag) == [tag];
    VarintRoundTrip(data, i, tag);
  }

  lemma SpanRoundTrip(data: Bytes, i: nat, body: Bytes)
    requires HasAt(data, i, EncVarint(|body|) + body) && |data| < TWO_63
    ensures var start := i + |EncVarint(|body|)|;
            ReadSpan(data, i) == Ok((start, start + |body|)) && HasAt(data, start, body)
  {
    HasAtSplit(data, i, EncVarint(|body|), body);
    VarintRoundTrip(data, i, |body|);
  }

  /** A length-delimited field reads back as its tag and its body. */
  lemma DelimitedRoundTrip(data: Bytes, i: nat, tag: Byte, body: Bytes)
    requires HasAt(data, i, Delimited(tag, body)) && |data| < TWO_63 && 8 <= tag < 128 && tag % 8 == 2
    ensures ReadTag(data, i) == Ok(Tag(tag / 8, 2, i + 1))
    ensures var end := i + |Delimited(tag, body)|;
            i + 1 <= |data| && ReadSpan(data, i + 1) == Ok((end - |body|, end)) && data[end - |body|..end] == body
  {
    assert Delimited(tag, body) == [tag] + (EncVarint(|body|) + body);
    HasAtSplit(data, i, [tag], EncVarint(|body|) + body);
    TagRoundTrip(data, i, tag);
    SpanRoundTrip(data, i + 1, body);
  }
}
