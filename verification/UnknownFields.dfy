/** Unknown fields of a message: what skipping them ends at, and that the bytes
    kept of them can be read again wherever they are written. */
module UnknownFields {
  import opened Varint
  import opened Wire

  // ----- skipping what was encoded -----

  datatype Field =
    | VarintField(number: nat, v: nat)
    | Fixed64Field(number: nat, bits: Bytes)
    | BytesField(number: nat, body: Bytes)
    | GroupField(number: nat, fields: seq<Field>)
    | Fixed32Field(number: nat, bits: Bytes)

  ghost predicate FieldOk(f: Field) {
    && 0 < f.number < TWO_32 / 2
    && match f
       case VarintField(_, v) => v < TWO_64
       case Fixed64Field(_, bits) => |bits| == 8
       case BytesField(_, body) => |body| < TWO_63
       case GroupField(_, fields) => forall i :: 0 <= i < |fields| ==> FieldOk(fields[i])
       case Fixed32Field(_, bits) => |bits| == 4
  }

  function WireType(f: Field): nat {
    match f
    case VarintField(_, _) => 0
    case Fixed64Field(_, _) => 1
    case BytesField(_, _) => 2
    case GroupField(_, _) => 3
    case Fixed32Field(_, _) => 5
  }

  function EncTag(number: nat, wireType: nat): Bytes {
    EncVarint(8 * number + wireType)
  }

  function EncField(f: Field): Bytes
    decreases f, 1
  {
    EncTag(f.number, WireType(f)) + EncBody(f)
  }

  function EncBody(f: Field): Bytes
    decreases f, 0
  {
    match f
    case VarintField(_, v) => EncVarint(v)
    case Fixed64Field(_, bits) => bits
    case BytesField(_, body) => EncVarint(|body|) + body
    case GroupField(number, fields) => EncFields(fields) + EncTag(number, 4)
    case Fixed32Field(_, bits) => bits
  }

  function EncFields(fs: seq<Field>): Bytes
    decreases fs
  {
    if fs == [] then [] else EncField(fs[0]) + EncFields(fs[1..])
  }

  /** Where skipping goes on after a field: done if no group is open. */
  function Resumed(data: Bytes, at: nat, depth: nat): Decoding<nat> {
    if depth == 0 then Ok(at) else Skip(data, at, depth)
  }

  lemma TagAt(data: Bytes, i: nat, number: nat, wireType: nat)
    requires HasAt(data, i, EncTag(number, wireType)) && number < TWO_32 && wireType < 8
    ensures i < |data| && DecVarint(data, i, 0, 0) == Ok((8 * number + wireType, i + |EncTag(number, wireType)|))
  {
    hide EncVarint;
    VarintRoundTrip(data, i, 8 * number + wireType);
  }

  /** Skipping an encoded field ends right behind it, whatever groups it nests. */
  lemma {:induction false} SkipField(data: Bytes, i: nat, f: Field, depth: nat)
    requires HasAt(data, i, EncField(f)) && FieldOk(f) && |data| < TWO_63
    ensures Skip(data, i, depth) == Resumed(data, i + |EncField(f)|, depth)
    decreases f, 1
  {
    hide HasAt, EncTag, EncBody, FieldOk, SkipValue, Skip;
    var tag, body := EncTag(f.number, WireType(f)), EncBody(f);
    HasAtSplit(data, i, tag, body);
    var at := i + |tag|;
    HasAtEnd(data, at, body);
    if f.GroupField? {
      GroupBody(f);
      HasAtSplit(data, at, EncFields(f.fields), EncTag(f.number, 4));
      GroupEnds(data, at, depth);
      SkipTag(data, i, f.number, 3, depth, at, depth + 1);
      SkipFields(data, at, f.fields, depth + 1);
      var end := at + |EncFields(f.fields)|;
      HasAtEnd(data, end, EncTag(f.number, 4));
      GroupEnds(data, end + |EncTag(f.number, 4)|, depth);
      SkipTag(data, end, f.number, 4, depth + 1, end + |EncTag(f.number, 4)|, depth);
    } else {
      SkipBody(data, at, f, depth);
      FieldNumber(f);
      SkipTag(data, i, f.number, WireType(f), depth, at + |body|, depth);
    }
  }

  lemma FieldNumber(f: Field)
    requires FieldOk(f)
    ensures 0 < f.number < TWO_32 / 2
  {
  }

  lemma GroupBody(f: Field)
    requires FieldOk(f) && f.GroupField?
    ensures EncBody(f) == EncFields(f.fields) + EncTag(f.number, 4)
    ensures 0 < f.number < TWO_32 / 2 && forall i :: 0 <= i < |f.fields| ==> FieldOk(f.fields[i])
  {
    hide EncFields, EncTag;
  }

  /** Skipping goes on behind a tag and its value. */
  lemma SkipTag(data: Bytes, i: nat, number: nat, wireType: nat, depth: nat, at: nat, open: nat)
    requires HasAt(data, i, EncTag(number, wireType)) && number < TWO_32 && wireType < 8 && at <= |data| < TWO_63
    requires i + |EncTag(number, wireType)| <= |data|
    requires SkipValue(data, i + |EncTag(number, wireType)|, wireType, depth) == Ok((at, open))
    ensures Skip(data, i, depth) == Resumed(data, at, open)
  {
    hide HasAt, EncTag, DecVarint, SkipValue;
    TagAt(data, i, number, wireType);
    assert (8 * number + wireType) % 8 == wireType;
  }

  lemma GroupEnds(data: Bytes, i: nat, depth: nat)
    requires i <= |data|
    ensures SkipValue(data, i, 3, depth) == Ok((i, depth + 1)) && SkipValue(data, i, 4, depth + 1) == Ok((i, depth))
  {
  }

  lemma SkipBody(data: Bytes, at: nat, f: Field, depth: nat)
    requires HasAt(data, at, EncBody(f)) && FieldOk(f) && at <= |data| < TWO_63 && !f.GroupField?
    ensures SkipValue(data, at, WireType(f), depth) == Ok((at + |EncBody(f)|, depth))
  {
    hide HasAt, EncTag, EncFields, DecVarint, EncVarint;
    match f
    case VarintField(_, v) => VarintRoundTrip(data, at, v);
    case Fixed64Field(_, _) =>
    case Fixed32Field(_, _) =>
    case BytesField(_, b) =>
      HasAtSplit(data, at, EncVarint(|b|), b);
      VarintRoundTrip(data, at, |b|);
  }

  lemma HasAtEnd(data: Bytes, i: nat, part: Bytes)
    requires HasAt(data, i, part)
    ensures i + |part| <= |data|
  {
  }

  lemma {:induction false} SkipFields(data: Bytes, i: nat, fs: seq<Field>, depth: nat)
    requires HasAt(data, i, EncFields(fs)) && |data| < TWO_63 && depth > 0
    requires forall k :: 0 <= k < |fs| ==> FieldOk(fs[k])
    ensures Skip(data, i, depth) == Skip(data, i + |EncFields(fs)|, depth)
    decreases fs, 0
  {
    hide HasAt, Skip, EncField, FieldOk;
    if fs != [] {
      HasAtSplit(data, i, EncField(fs[0]), EncFields(fs[1..]));
      SkipField(data, i, fs[0], depth);
      SkipFields(data, i + |EncField(fs[0])|, fs[1..], depth);
    }
  }

  // ----- what is read does not depend on what lies behind it -----

  lemma {:induction false} VarintLocal(a: Bytes, b: Bytes, i: nat, shift: nat, acc: nat)
    requires i <= |a| && acc < TWO_64
    ensures DecVarint(a, i, shift, acc).Ok? ==> DecVarint(a + b, i, shift, acc) == DecVarint(a, i, shift, acc)
    ensures var r := DecVarint(a + b, i, shift, acc); r.Ok? && r.value.1 <= |a| ==> DecVarint(a, i, shift, acc) == r
    decreases |a| - i
  {
    hide Shl;
    if shift < 64 && i < |a| {
      assert (a + b)[i] == a[i];
      var v := (acc + Shl(a[i] % 128, shift)) % TWO_64;
      if a[i] >= 128 {
        VarintLocal(a, b, i + 1, shift + 7, v);
      }
    }
  }

  lemma SkipValueLocal(a: Bytes, b: Bytes, i: nat, wireType: nat, depth: nat)
    requires i <= |a|
    ensures SkipValue(a, i, wireType, depth).Ok? ==> SkipValue(a + b, i, wireType, depth) == SkipValue(a, i, wireType, depth)
    ensures var r := SkipValue(a + b, i, wireType, depth); r.Ok? && r.value.0 <= |a| ==> SkipValue(a, i, wireType, depth) == r
  {
    hide DecVarint;
    VarintLocal(a, b, i, 0, 0);
  }

  /** A field that ends within `a` is skipped the same with anything behind `a`. */
  lemma {:induction false} SkipLocal(a: Bytes, b: Bytes, i: nat, depth: nat)
    requires i <= |a|
    ensures var r := Skip(a, i, depth); r.Ok? && r.value <= |a| ==> Skip(a + b, i, depth) == r
    ensures var r := Skip(a + b, i, depth); r.Ok? && r.value <= |a| ==> Skip(a, i, depth) == r
    decreases |a| - i
  {
    hide DecVarint, SkipValue;
    if i < |a| {
      VarintLocal(a, b, i, 0, 0);
      var wire := DecVarint(a + b, i, 0, 0);
      if wire.Ok? && wire.value.1 <= |a| {
        var next := wire.value.1;
        SkipValueLocal(a, b, next, wire.value.0 % 8, depth);
        var past := SkipValue(a + b, next, wire.value.0 % 8, depth);
        if past.Ok? && past.value.0 <= |a| && past.value.1 > 0 {
          SkipLocal(a, b, past.value.0, past.value.1);
        }
      }
    }
  }

  // ----- the bytes kept of unknown fields -----

  /** The end of the first field, if it is one that a message with fields up to `known` keeps as unknown. */
  ghost predicate Chunk(b: Bytes, known: nat, n: nat) {
    && 0 < n <= |b| < TWO_63
    && (var tag := ReadTag(b, 0); tag.Ok? && tag.value.field > known && tag.value.next <= n)
    && Skip(b, 0, 0) == Ok(n)
  }

  /** Bytes that are read as unknown fields, one after the other. */
  ghost predicate Unknowns(b: Bytes, known: nat)
    decreases |b|
  {
    b == [] || exists n: nat :: Chunk(b, known, n) && Unknowns(b[n..], known)
  }

  lemma SkipPastTag(b: Bytes)
    ensures ReadTag(b, 0).Ok? && Skip(b, 0, 0).Ok? ==> ReadTag(b, 0).value.next <= Skip(b, 0, 0).value
  {
    hide DecVarint;
  }

  lemma TagLocal(a: Bytes, b: Bytes)
    ensures ReadTag(a, 0).Ok? ==> ReadTag(a + b, 0) == ReadTag(a, 0)
    ensures var r := ReadTag(a + b, 0); r.Ok? && r.value.next <= |a| ==> ReadTag(a, 0) == r
  {
    hide DecVarint;
    VarintLocal(a, b, 0, 0, 0);
  }

  lemma ChunkLocal(a: Bytes, b: Bytes, known: nat, n: nat)
    requires |a + b| < TWO_63 && n <= |a|
    ensures Chunk(a, known, n) <==> Chunk(a + b, known, n)
  {
    hide ReadTag, Skip;
    TagLocal(a, b);
    SkipLocal(a, b, 0, 0);
  }

  lemma {:induction false} UnknownsJoin(a: Bytes, b: Bytes, known: nat)
    requires Unknowns(a, known) && Unknowns(b, known) && |a + b| < TWO_63
    ensures Unknowns(a + b, known)
    decreases |a|
  {
    hide Chunk;
    if a == [] {
      assert a + b == b;
    } else {
      var n := FirstChunk(a, known);
      UnknownsJoin(a[n..], b, known);
      assert (a + b)[n..] == a[n..] + b;
      ChunkLocal(a, b, known, n);
    }
  }

  /** The part of a buffer up to the end of an unknown field is one. */
  lemma ReadIsUnknown(data: Bytes, i: nat, known: nat)
    requires i < |data| < TWO_63 && ReadTag(data, i).Ok? && ReadTag(data, i).value.field > known && UnknownEnd(data, i).Ok?
    ensures Unknowns(data[i..UnknownEnd(data, i).value], known)
  {
    hide ReadTag, Skip, Unknowns, Chunk;
    var n := UnknownEnd(data, i).value - i;
    TagShift(data, i);
    SkipPastTag(data[i..]);
    ChunkOf(data[i..], known, n);
    var a, b := data[i..i + n], data[i + n..];
    assert data[i..] == a + b;
    ChunkLocal(a, b, known, n);
    OneChunk(a, known);
  }

  lemma ChunkOf(b: Bytes, known: nat, n: nat)
    requires 0 < n <= |b| < TWO_63 && ReadTag(b, 0).Ok? && ReadTag(b, 0).value.field > known
    requires Skip(b, 0, 0) == Ok(n) && ReadTag(b, 0).value.next <= n
    ensures Chunk(b, known, n)
  {
  }

  lemma OneChunk(b: Bytes, known: nat)
    requires Chunk(b, known, |b|)
    ensures Unknowns(b, known)
  {
    hide Chunk;
    assert b[|b|..] == [];
    assert Unknowns(b[|b|..], known);
  }

  lemma {:induction false} VarintShift(data: Bytes, i: nat, j: nat, shift: nat, acc: nat)
    requires i <= |data| && i + j <= |data| && acc < TWO_64
    ensures DecVarint(data, i + j, shift, acc) == match DecVarint(data[i..], j, shift, acc)
      case Err(e) => Err(e)
      case Ok((v, n)) => Ok((v, i + n))
    decreases |data| - j
  {
    hide Shl;
    if shift < 64 && i + j < |data| && data[i + j] >= 128 {
      VarintShift(data, i, j + 1, shift + 7, (acc + Shl(data[i + j] % 128, shift)) % TWO_64);
    }
  }

  lemma TagShift(data: Bytes, i: nat)
    requires i <= |data|
    ensures ReadTag(data, i) == match ReadTag(data[i..], 0)
      case Err(e) => Err(e)
      case Ok(tag) => Ok(tag.(next := i + tag.next))
  {
    hide DecVarint, Int32;
    VarintShift(data, i, 0, 0, 0);
  }

  /** Unknown bytes anywhere in a buffer begin with a field that is read as unknown. */
  lemma FirstUnknown(data: Bytes, i: nat, b: Bytes, known: nat) returns (n: nat)
    requires HasAt(data, i, b) && b != [] && Unknowns(b, known) && |data| < TWO_63
    ensures 0 < n <= |b| && i < |data| && Unknowns(b[n..], known)
    ensures ReadTag(data, i).Ok? && ReadTag(data, i).value.field > known && UnknownEnd(data, i) == Ok(i + n)
    ensures data[i..i + n] == b[..n] && HasAt(data, i + n, b[n..])
  {
    hide ReadTag, Skip, Chunk, Unknowns;
    n := FirstChunk(b, known);
    var rest := data[i + |b|..];
    assert data[i..] == b + rest;
    ChunkLocal(b, rest, known, n);
    ChunkFacts(data[i..], known, n);
    TagShift(data, i);
    assert b == b[..n] + b[n..];
    HasAtSplit(data, i, b[..n], b[n..]);
  }

  lemma FirstChunk(b: Bytes, known: nat) returns (n: nat)
    requires b != [] && Unknowns(b, known)
    ensures 0 < n <= |b| && Chunk(b, known, n) && Unknowns(b[n..], known)
  {
    n :| Chunk(b, known, n) && Unknowns(b[n..], known);
  }

  lemma ChunkFacts(b: Bytes, known: nat, n: nat)
    requires Chunk(b, known, n)
    ensures ReadTag(b, 0).Ok? && ReadTag(b, 0).value.field > known && Skip(b, 0, 0) == Ok(n)
  {
  }

  /** Encoded fields with numbers a message does not know are kept as unknown. */
  lemma {:induction false} EncodedUnknowns(fs: seq<Field>, known: nat)
    requires forall k :: 0 <= k < |fs| ==> FieldOk(fs[k]) && fs[k].number > known
    requires |EncFields(fs)| < TWO_63
    ensures Unknowns(EncFields(fs), known)
    decreases |fs|
  {
    hide FieldOk, Unknowns;
    if fs == [] {
      NoUnknowns(known);
    } else {
      var first, rest := EncField(fs[0]), EncFields(fs[1..]);
      assert |first| + |rest| < TWO_63;
      EncodedUnknowns(fs[1..], known);
      EncodedUnknown(fs[0], known);
      UnknownsJoin(first, rest, known);
    }
  }

  lemma NoUnknowns(known: nat)
    ensures Unknowns([], known)
  {
  }

  lemma EncodedUnknown(f: Field, known: nat)
    requires FieldOk(f) && f.number > known && |EncField(f)| < TWO_63
    ensures Unknowns(EncField(f), known)
  {
    hide Skip, Unknowns, EncTag, EncBody, Chunk;
    var b := EncField(f);
    var tag := EncTag(f.number, WireType(f));
    WholeField(b);
    SkipField(b, 0, f, 0);
    HasAtSplit(b, 0, tag, EncBody(f));
    EncodedTag(b, f.number, WireType(f));
    ChunkOf(b, known, |b|);
    OneChunk(b, known);
  }

  lemma WholeField(b: Bytes)
    ensures HasAt(b, 0, b)
  {
  }

  lemma EncodedTag(b: Bytes, number: nat, wireType: nat)
    requires HasAt(b, 0, EncTag(number, wireType)) && 0 < number < TWO_32 / 2 && wireType < 8 && wireType != 4
    ensures ReadTag(b, 0) == Ok(Tag(number, wireType, |EncTag(number, wireType)|)) && 0 < |EncTag(number, wireType)| <= |b|
  {
    hide DecVarint, EncVarint;
    TagAt(b, 0, number, wireType);
  }
}
