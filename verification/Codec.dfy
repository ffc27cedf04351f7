/** The ABI type language and the values it describes (`jamscript-ir`, `jamscript-codec`). */
module Abi {
  import opened Bytes
  import opened Ownerships

  datatype TypeIr =
    | Unit | Bool
    | U8 | U16 | U32 | U64 | U128
    | I8 | I16 | I32 | I64 | I128
    | Address
    | OwnershipType
    | FixedBytes(len: u32)
    | BoundedBytes(max: u32)
    | BoundedString(max: u32)
    | FixedArray(item: TypeIr, len: u32)
    | BoundedArray(item: TypeIr, max: u32)
    | OptionOf(item: TypeIr)
    | Tuple(items: seq<TypeIr>)
    | Record(fields: seq<FieldIr>)
    | Enum(variants: seq<VariantIr>)
    | ResultOf(ok: TypeIr, err: TypeIr)
    | Unsupported(name: string)

  datatype FieldIr = FieldIr(name: string, ty: TypeIr)

  datatype VariantIr = VariantIr(name: string, index: byte, ty: TypeIr)

  const U128_LIMIT: nat := 0x1_0000_0000_0000_0000_0000_0000_0000_0000
  const I128_LIMIT: int := 0x8000_0000_0000_0000_0000_0000_0000_0000

  type u128 = x: nat | x < U128_LIMIT
  type i128 = x: int | -I128_LIMIT <= x < I128_LIMIT

  predicate Continuation(b: seq<byte>, i: nat) {
    i < |b| && 0x80 <= b[i] <= 0xbf
  }

  /** Well-formed UTF-8, the invariant of a Rust `String` (table 3-7 of the Unicode Standard). */
  predicate ValidUtf8(b: seq<byte>) {
    if b == [] then true
    else if b[0] < 0x80 then ValidUtf8(b[1..])
    else if 0xc2 <= b[0] <= 0xdf then Continuation(b, 1) && ValidUtf8(b[2..])
    else if 0xe0 <= b[0] <= 0xef then
      && Continuation(b, 1) && Continuation(b, 2)
      && (b[0] == 0xe0 ==> b[1] >= 0xa0) && (b[0] == 0xed ==> b[1] <= 0x9f)
      && ValidUtf8(b[3..])
    else if 0xf0 <= b[0] <= 0xf4 then
      && Continuation(b, 1) && Continuation(b, 2) && Continuation(b, 3)
      && (b[0] == 0xf0 ==> b[1] >= 0x90) && (b[0] == 0xf4 ==> b[1] <= 0x8f)
      && ValidUtf8(b[4..])
    else false
  }

  type Utf8 = b: seq<byte> | ValidUtf8(b)

  datatype Value =
    | UnitValue
    | BoolValue(bit: bool)
    | Unsigned(n: u128)
    | Signed(i: i128)
    | BytesValue(bytes: seq<byte>)
    | OwnershipValue(owner: Ownership)
    | StringValue(text: Utf8)
    | ArrayValue(elements: seq<Value>)
    | TupleValue(components: seq<Value>)
    | RecordValue(entries: seq<Entry>)
    | NoneValue
    | SomeValue(inner: Value)
    | EnumValue(index: byte, payload: Value)
    | OkValue(okay: Value)
    | ErrValue(error: Value)

  datatype Entry = Entry(name: string, value: Value)

  /** Byte width of an unsigned integer type; zero for every other type. */
  function UnsignedWidth(ty: TypeIr): nat {
    match ty
    case U8 => 1
    case U16 => 2
    case U32 => 4
    case U64 => 8
    case U128 => 16
    case _ => 0
  }

  /** Byte width of a signed integer type; zero for every other type. */
  function SignedWidth(ty: TypeIr): nat {
    match ty
    case I8 => 1
    case I16 => 2
    case I32 => 4
    case I64 => 8
    case I128 => 16
    case _ => 0
  }

  /** `variants.iter().find(|variant| variant.index == index)`: the position of the first match. */
  function FindVariant(variants: seq<VariantIr>, index: byte): (k: nat)
    ensures k <= |variants|
    ensures k < |variants| ==> variants[k].index == index
    ensures forall j :: 0 <= j < k ==> variants[j].index != index
  {
    if variants == [] || variants[0].index == index then 0
    else 1 + FindVariant(variants[1..], index)
  }
}

/** Integers of every ABI width, unsigned and two's complement. */
module Scalars {
  import opened Wrappers
  import opened Bytes
  import opened Abi

  datatype CodecError =
    | TypeMismatch(what: string) | UnexpectedEof | TrailingBytes | InvalidBool | InvalidUtf8
    | InvalidVariant | InvalidLength | OutOfRange | BoundExceeded | UnsupportedType

  predicate Width(w: nat) { w == 1 || w == 2 || w == 4 || w == 8 || w == 16 }

  lemma {:induction false} WidthValues(w: nat)
    requires Width(w)
    ensures Pow256(w) <= Pow256(16) == U128_LIMIT
    ensures Pow256(w) == 2 * Half(w)
    ensures Half(w) <= I128_LIMIT
    ensures Pow256(16) == Pow256(16 - w) * Pow256(w)
  {
    Pow256Values();
    Pow256Add(8, 8);
    Pow256Monotone(w, 16);
    Pow256Add(16 - w, w);
  }

  /** The magnitude bound of a signed integer of `w` bytes. */
  function Half(w: nat): (h: int)
    requires w > 0
    ensures h > 0
  {
    128 * Pow256(w - 1)
  }

  /** `push_unsigned` with the type's maximum. */
  function PushUnsigned(v: u128, w: nat): Result<seq<byte>, CodecError>
    requires Width(w)
  {
    if v > Pow256(w) - 1 then Err(OutOfRange) else Ok(LE(v, 16)[..w])
  }

  /** `push_signed`: the two's complement image of an `i128`, cut to `w` bytes. */
  function PushSigned(v: i128, w: nat): Result<seq<byte>, CodecError>
    requires Width(w)
  {
    if v < -Half(w) || v > Half(w) - 1 then Err(OutOfRange)
    else Ok(LE(if v < 0 then v + U128_LIMIT else v, 16)[..w])
  }

  /** `uN::from_le_bytes(..) as u128`. */
  function PullUnsigned(b: seq<byte>): u128
    requires Width(|b|)
  {
    FromLEBound(b);
    WidthValues(|b|);
    FromLE(b)
  }

  /** `iN::from_le_bytes(..) as i128`: reinterprets the top bit as the sign. */
  function PullSigned(b: seq<byte>): i128
    requires Width(|b|)
  {
    FromLEBound(b);
    WidthValues(|b|);
    if FromLE(b) < Half(|b|) then FromLE(b) else FromLE(b) - Pow256(|b|)
  }

  /** Reading inverts writing at every width; every in-range value can be written. */
  lemma {:induction false} UnsignedInverse(v: u128, b: seq<byte>)
    requires Width(|b|)
    ensures PushUnsigned(v, |b|) == Ok(b) <==> PullUnsigned(b) == v
  {
    WidthValues(|b|);
    FromLEBound(b);
    LEPrefix(v, 16, |b|);
    LEOfFromLE(b);
    if v < Pow256(|b|) {
      FromLEOfLE(v, |b|);
    }
  }

  /** Truncating a two's complement `i128` and sign-extending back are mutually inverse. */
  lemma {:induction false} SignedInverse(v: i128, b: seq<byte>)
    requires Width(|b|)
    ensures PushSigned(v, |b|) == Ok(b) <==> PullSigned(b) == v
  {
    hide LE, FromLE, Pow256;
    var w := |b|;
    WidthValues(w);
    FromLEBound(b);
    LEOfFromLE(b);
    if -Half(w) <= v < Half(w) {
      var image: nat := if v < 0 then v + Pow256(w) else v;
      SignedTruncation(v, w);
      FromLEOfLE(image, w);
    }
  }

  lemma {:induction false} SignedTruncation(v: i128, w: nat)
    requires Width(w) && -Half(w) <= v < Half(w)
    ensures PushSigned(v, w) == Ok(LE(if v < 0 then v + Pow256(w) else v, w))
  {
    hide LE, Pow256;
    WidthValues(w);
    if v < 0 {
      LEPrefix(v + U128_LIMIT, 16, w);
      var k: nat := Pow256(16 - w) - 1;
      assert v + U128_LIMIT == (v + Pow256(w)) + k * Pow256(w);
      LEDropsHighBytes(v + Pow256(w), k, w);
    } else {
      LEPrefix(v, 16, w);
    }
  }
}

/** The codec as functions on byte strings, and its laws. */
module Codec {
  import opened Wrappers
  import opened Bytes
  import opened Natural
  import opened Ownerships
  import opened Abi
  import opened Scalars

  function EncodeCount(n: nat, max: u32): Result<seq<byte>, CodecError> {
    if n > max then Err(BoundExceeded) else Ok(EncodeNatural(n))
  }

  predicate Scalar(ty: TypeIr) { UnsignedWidth(ty) > 0 || SignedWidth(ty) > 0 }

  /** A tag byte followed by at most one part. */
  predicate Tagged(ty: TypeIr) { ty.OptionOf? || ty.Enum? || ty.ResultOf? }

  /** Parts laid end to end. */
  predicate Sequence(ty: TypeIr) { ty.FixedArray? || ty.BoundedArray? || ty.Tuple? || ty.Record? }

  function EncodeScalar(ty: TypeIr, v: Value): Result<seq<byte>, CodecError>
    requires Scalar(ty)
  {
    if UnsignedWidth(ty) > 0 && v.Unsigned? then PushUnsigned(v.n, UnsignedWidth(ty))
    else if SignedWidth(ty) > 0 && v.Signed? then PushSigned(v.i, SignedWidth(ty))
    else Err(TypeMismatch("value"))
  }

  function EncodeLeaf(ty: TypeIr, v: Value): Result<seq<byte>, CodecError>
    requires !Scalar(ty) && !Tagged(ty) && !Sequence(ty)
  {
    match (ty, v)
    case (Unit, UnitValue) => Ok([])
    case (Bool, BoolValue(bit)) => Ok([if bit then 1 else 0])
    case (Address, BytesValue(b)) => if |b| == 32 then Ok(b) else Err(InvalidLength)
    case (OwnershipType, OwnershipValue(o)) =>
      (match EncodeOwnership(o) case Ok(b) => Ok(b) case Err(_) => Err(InvalidLength))
    case (FixedBytes(len), BytesValue(b)) => if |b| == len then Ok(b) else Err(InvalidLength)
    case (BoundedBytes(max), BytesValue(b)) =>
      var head :- EncodeCount(|b|, max);
      Ok(head + b)
    case (BoundedString(max), StringValue(t)) =>
      var head :- EncodeCount(|t|, max);
      Ok(head + t)
    case (Unsupported(_), _) => Err(UnsupportedType)
    case _ => Err(TypeMismatch("value"))
  }

  /** `encode`. */
  function Encode(ty: TypeIr, v: Value): (r: Result<seq<byte>, CodecError>)
    decreases ty, 1
  {
    if Scalar(ty) then EncodeScalar(ty, v)
    else if Tagged(ty) then EncodeTagged(ty, v)
    else if Sequence(ty) then EncodeSequence(ty, v)
    else EncodeLeaf(ty, v)
  }

  function Prefixed(tag: byte, r: Result<seq<byte>, CodecError>): Result<seq<byte>, CodecError> {
    var body :- r;
    Ok([tag] + body)
  }

  function EncodeTagged(ty: TypeIr, v: Value): Result<seq<byte>, CodecError>
    requires Tagged(ty)
    decreases ty, 0
  {
    match (ty, v)
    case (OptionOf(_), NoneValue) => Ok([0])
    case (OptionOf(item), SomeValue(inner)) => Prefixed(1, Encode(item, inner))
    case (Enum(variants), EnumValue(index, payload)) =>
      var k := FindVariant(variants, index);
      if k == |variants| then Err(InvalidVariant)
      else Prefixed(index, Encode(variants[k].ty, payload))
    case (ResultOf(okTy, _), OkValue(x)) => Prefixed(0, Encode(okTy, x))
    case (ResultOf(_, errTy), ErrValue(x)) => Prefixed(1, Encode(errTy, x))
    case _ => Err(TypeMismatch("value"))
  }

  function EncodeSequence(ty: TypeIr, v: Value): Result<seq<byte>, CodecError>
    requires Sequence(ty)
    decreases ty, 0
  {
    match (ty, v)
    case (FixedArray(item, len), ArrayValue(vs)) =>
      if |vs| == len then EncodeAll(item, vs) else Err(TypeMismatch("value"))
    case (BoundedArray(item, max), ArrayValue(vs)) =>
      var head :- EncodeCount(|vs|, max);
      var body :- EncodeAll(item, vs);
      Ok(head + body)
    case (Tuple(items), TupleValue(vs)) =>
      if |items| == |vs| then EncodeTuple(items, vs) else Err(TypeMismatch("value"))
    case (Record(fields), RecordValue(entries)) =>
      if |fields| == |entries| then EncodeFields(fields, entries) else Err(TypeMismatch("value"))
    case _ => Err(TypeMismatch("value"))
  }

  function EncodeAll(item: TypeIr, vs: seq<Value>): Result<seq<byte>, CodecError>
    decreases item, 2 + |vs|
  {
    if vs == [] then Ok([])
    else
      var head :- Encode(item, vs[0]);
      var tail :- EncodeAll(item, vs[1..]);
      Ok(head + tail)
  }

  function EncodeTuple(items: seq<TypeIr>, vs: seq<Value>): Result<seq<byte>, CodecError>
    requires |items| == |vs|
    decreases items, 2
  {
    if items == [] then Ok([])
    else
      var head :- Encode(items[0], vs[0]);
      var tail :- EncodeTuple(items[1..], vs[1..]);
      Ok(head + tail)
  }

  function EncodeFields(fields: seq<FieldIr>, entries: seq<Entry>): Result<seq<byte>, CodecError>
    requires |fields| == |entries|
    decreases fields, 2
  {
    if fields == [] then Ok([])
    else if fields[0].name != entries[0].name then Err(TypeMismatch("record field order"))
    else
      var head :- Encode(fields[0].ty, entries[0].value);
      var tail :- EncodeFields(fields[1..], entries[1..]);
      Ok(head + tail)
  }

  /** `Reader::take` on the bytes ahead. */
  function Take(b: seq<byte>, n: nat): (r: Result<Parsed<seq<byte>>, CodecError>)
    ensures r.Ok? ==> r.value.used == |r.value.value| == n <= |b| && r.value.value == b[..n]
  {
    if n > |b| then Err(UnexpectedEof) else Ok(Parsed(b[..n], n))
  }

  /** A length prefix checked against its bound. */
  function ReadCount(b: seq<byte>, max: u32): (r: Result<Parsed<nat>, CodecError>)
    ensures r.Ok? ==> 1 <= r.value.used <= |b| && r.value.value <= max
  {
    match ReadNatural(b)
    case None => Err(UnexpectedEof)
    case Some(p) => if p.value > max then Err(BoundExceeded) else Ok(p)
  }

  function DecodeScalar(ty: TypeIr, b: seq<byte>): (r: Result<Parsed<Value>, CodecError>)
    requires Scalar(ty)
    ensures r.Ok? ==> r.value.used <= |b|
  {
    if UnsignedWidth(ty) > 0 then
      var p :- Take(b, UnsignedWidth(ty));
      Ok(Parsed(Unsigned(PullUnsigned(p.value)), p.used))
    else
      var p :- Take(b, SignedWidth(ty));
      Ok(Parsed(Signed(PullSigned(p.value)), p.used))
  }

  function DecodeLeaf(ty: TypeIr, b: seq<byte>): (r: Result<Parsed<Value>, CodecError>)
    requires !Scalar(ty) && !Tagged(ty) && !Sequence(ty)
    ensures r.Ok? ==> r.value.used <= |b|
  {
    match ty
    case Unit => Ok(Parsed(UnitValue, 0))
    case Bool =>
      var p :- Take(b, 1);
      if p.value[0] == 0 then Ok(Parsed(BoolValue(false), 1))
      else if p.value[0] == 1 then Ok(Parsed(BoolValue(true), 1))
      else Err(InvalidBool)
    case Address =>
      var p :- Take(b, 32);
      Ok(Parsed(BytesValue(p.value), 32))
    case OwnershipType =>
      var head :- Take(b, 4);
      var n := 4 + FromLE(head.value[2..4]);
      var p :- Take(b, n);
      (match DecodeOwnership(p.value)
       case Ok(o) => Ok(Parsed(OwnershipValue(o), n))
       case Err(_) => Err(InvalidLength))
    case FixedBytes(len) =>
      var p :- Take(b, len);
      Ok(Parsed(BytesValue(p.value), p.used))
    case BoundedBytes(max) =>
      var n :- ReadCount(b, max);
      var p :- Take(b[n.used..], n.value);
      Ok(Parsed(BytesValue(p.value), n.used + p.used))
    case BoundedString(max) =>
      var n :- ReadCount(b, max);
      var p :- Take(b[n.used..], n.value);
      if ValidUtf8(p.value) then Ok(Parsed(StringValue(p.value), n.used + p.used))
      else Err(InvalidUtf8)
    case _ => Err(UnsupportedType)
  }

  /** `decode_from` on the bytes ahead of the reader. */
  function Decode(ty: TypeIr, b: seq<byte>): (r: Result<Parsed<Value>, CodecError>)
    ensures r.Ok? ==> r.value.used <= |b|
    decreases ty, 1
  {
    if Scalar(ty) then DecodeScalar(ty, b)
    else if Tagged(ty) then DecodeTagged(ty, b)
    else if Sequence(ty) then DecodeSequence(ty, b)
    else DecodeLeaf(ty, b)
  }

  function DecodeTagged(ty: TypeIr, b: seq<byte>): (r: Result<Parsed<Value>, CodecError>)
    requires Tagged(ty)
    ensures r.Ok? ==> 1 <= r.value.used <= |b|
    decreases ty, 0
  {
    if b == [] then Err(UnexpectedEof)
    else match ty
      case OptionOf(item) =>
        if b[0] == 0 then Ok(Parsed(NoneValue, 1))
        else if b[0] == 1 then
          var p :- Decode(item, b[1..]);
          Ok(Parsed(SomeValue(p.value), 1 + p.used))
        else Err(InvalidVariant)
      case Enum(variants) =>
        var k := FindVariant(variants, b[0]);
        if k == |variants| then Err(InvalidVariant)
        else
          var p :- Decode(variants[k].ty, b[1..]);
          Ok(Parsed(EnumValue(b[0], p.value), 1 + p.used))
      case ResultOf(okTy, errTy) =>
        if b[0] == 0 then
          var p :- Decode(okTy, b[1..]);
          Ok(Parsed(OkValue(p.value), 1 + p.used))
        else if b[0] == 1 then
          var p :- Decode(errTy, b[1..]);
          Ok(Parsed(ErrValue(p.value), 1 + p.used))
        else Err(InvalidVariant)
  }

  function DecodeSequence(ty: TypeIr, b: seq<byte>): (r: Result<Parsed<Value>, CodecError>)
    requires Sequence(ty)
    ensures r.Ok? ==> r.value.used <= |b|
    decreases ty, 0
  {
    match ty
    case FixedArray(item, len) =>
      var p :- DecodeAll(item, len, b);
      Ok(Parsed(ArrayValue(p.value), p.used))
    case BoundedArray(item, max) =>
      var n :- ReadCount(b, max);
      var p :- DecodeAll(item, n.value, b[n.used..]);
      Ok(Parsed(ArrayValue(p.value), n.used + p.used))
    case Tuple(items) =>
      var p :- DecodeTuple(items, b);
      Ok(Parsed(TupleValue(p.value), p.used))
    case Record(fields) =>
      var p :- DecodeFields(fields, b);
      Ok(Parsed(RecordValue(p.value), p.used))
  }

  function DecodeAll(item: TypeIr, n: nat, b: seq<byte>): (r: Result<Parsed<seq<Value>>, CodecError>)
    ensures r.Ok? ==> r.value.used <= |b| && |r.value.value| == n
    decreases item, 2 + n
  {
    if n == 0 then Ok(Parsed([], 0))
    else
      var head :- Decode(item, b);
      var tail :- DecodeAll(item, n - 1, b[head.used..]);
      Ok(Parsed([head.value] + tail.value, head.used + tail.used))
  }

  function DecodeTuple(items: seq<TypeIr>, b: seq<byte>): (r: Result<Parsed<seq<Value>>, CodecError>)
    ensures r.Ok? ==> r.value.used <= |b| && |r.value.value| == |items|
    decreases items, 2
  {
    if items == [] then Ok(Parsed([], 0))
    else
      var head :- Decode(items[0], b);
      var tail :- DecodeTuple(items[1..], b[head.used..]);
      Ok(Parsed([head.value] + tail.value, head.used + tail.used))
  }

  function DecodeFields(fields: seq<FieldIr>, b: seq<byte>): (r: Result<Parsed<seq<Entry>>, CodecError>)
    ensures r.Ok? ==> r.value.used <= |b| && |r.value.value| == |fields|
    decreases fields, 2
  {
    if fields == [] then Ok(Parsed([], 0))
    else
      var head :- Decode(fields[0].ty, b);
      var tail :- DecodeFields(fields[1..], b[head.used..]);
      Ok(Parsed([Entry(fields[0].name, head.value)] + tail.value, head.used + tail.used))
  }

  lemma {:induction false} CountRoundTrip(n: nat, max: u32, s: seq<byte>)
    requires n <= max
    ensures ReadCount(EncodeNatural(n) + s, max) == Ok(Parsed(n, |EncodeNatural(n)|))
    ensures (EncodeNatural(n) + s)[|EncodeNatural(n)|..] == s
  {
    NaturalRoundTrip(n, s);
  }

  lemma {:induction false} ScalarRoundTrip(ty: TypeIr, v: Value, s: seq<byte>)
    requires Scalar(ty) && EncodeScalar(ty, v).Ok?
    ensures var e := EncodeScalar(ty, v).value; DecodeScalar(ty, e + s) == Ok(Parsed(v, |e|))
  {
    var e := EncodeScalar(ty, v).value;
    assert (e + s)[..|e|] == e;
    if UnsignedWidth(ty) > 0 {
      UnsignedInverse(v.n, e);
    } else {
      SignedInverse(v.i, e);
    }
  }

  lemma {:induction false} LeafRoundTrip(ty: TypeIr, v: Value, s: seq<byte>)
    requires !Scalar(ty) && !Tagged(ty) && !Sequence(ty) && EncodeLeaf(ty, v).Ok?
    ensures var e := EncodeLeaf(ty, v).value; DecodeLeaf(ty, e + s) == Ok(Parsed(v, |e|))
  {
    hide EncodeNatural, ReadNatural, EncodeOwnership, DecodeOwnership, ValidUtf8;
    var e := EncodeLeaf(ty, v).value;
    var b := e + s;
    assert b[..|e|] == e;
    match ty {
      case OwnershipType =>
        OwnershipLayout(v.owner);
        OwnershipInverse(v.owner, e);
        assert b[..4][2..4] == e[2..4];
      case BoundedBytes(max) => CountedRoundTrip(v.bytes, max, s);
      case BoundedString(max) => CountedRoundTrip(v.text, max, s);
      case _ =>
    }
  }

  /** A length prefix and the bytes it counts read back as written. */
  lemma {:induction false} CountedRoundTrip(bytes: seq<byte>, max: u32, s: seq<byte>)
    requires |bytes| <= max
    ensures var b := EncodeNatural(|bytes|) + bytes + s;
      && ReadCount(b, max) == Ok(Parsed(|bytes|, |EncodeNatural(|bytes|)|))
      && Take(b[|EncodeNatural(|bytes|)|..], |bytes|) == Ok(Parsed(bytes, |bytes|))
  {
    hide EncodeNatural, ReadNatural;
    var head := EncodeNatural(|bytes|);
    CountRoundTrip(|bytes|, max, bytes + s);
    assert head + bytes + s == head + (bytes + s);
    assert (bytes + s)[..|bytes|] == bytes;
  }

  /** Decoding an encoding followed by anything gives the value back and consumes the encoding
      exactly; so encodings of one type are injective and prefix-free. */
  lemma {:induction false} RoundTrip(ty: TypeIr, v: Value, s: seq<byte>)
    requires Encode(ty, v).Ok?
    ensures Decode(ty, Encode(ty, v).value + s) == Ok(Parsed(v, |Encode(ty, v).value|))
    decreases ty, 1
  {
    hide EncodeScalar, DecodeScalar, EncodeLeaf, DecodeLeaf;
    hide EncodeTagged, DecodeTagged, EncodeSequence, DecodeSequence;
    if Scalar(ty) {
      ScalarRoundTrip(ty, v, s);
    } else if Tagged(ty) {
      TaggedRoundTrip(ty, v, s);
    } else if Sequence(ty) {
      SequenceRoundTrip(ty, v, s);
    } else {
      LeafRoundTrip(ty, v, s);
    }
  }

  lemma {:induction false} TaggedRoundTrip(ty: TypeIr, v: Value, s: seq<byte>)
    requires Tagged(ty) && EncodeTagged(ty, v).Ok?
    ensures var e := EncodeTagged(ty, v).value; DecodeTagged(ty, e + s) == Ok(Parsed(v, |e|))
    decreases ty, 0
  {
    hide Encode, Decode;
    var e := EncodeTagged(ty, v).value;
    assert (e + s)[1..] == e[1..] + s;
    match v {
      case SomeValue(inner) => RoundTrip(ty.item, inner, s);
      case EnumValue(index, payload) =>
        RoundTrip(ty.variants[FindVariant(ty.variants, index)].ty, payload, s);
      case OkValue(x) => RoundTrip(ty.ok, x, s);
      case ErrValue(x) => RoundTrip(ty.err, x, s);
      case _ =>
    }
  }

  lemma {:induction false} SequenceRoundTrip(ty: TypeIr, v: Value, s: seq<byte>)
    requires Sequence(ty) && EncodeSequence(ty, v).Ok?
    ensures var e := EncodeSequence(ty, v).value; DecodeSequence(ty, e + s) == Ok(Parsed(v, |e|))
    decreases ty, 0
  {
    hide Encode, Decode;
    hide EncodeAll, DecodeAll, EncodeTuple, DecodeTuple, EncodeFields, DecodeFields;
    match ty {
      case FixedArray(item, len) => RoundTripAll(item, v.elements, s);
      case BoundedArray(item, max) =>
        var n, body := |v.elements|, EncodeAll(item, v.elements).value;
        CountRoundTrip(n, max, body + s);
        assert EncodeSequence(ty, v).value + s == EncodeNatural(n) + (body + s);
        RoundTripAll(item, v.elements, s);
      case Tuple(items) => RoundTripTuple(items, v.components, s);
      case Record(fields) => RoundTripFields(fields, v.entries, s);
    }
  }

  lemma {:induction false} RoundTripAll(item: TypeIr, vs: seq<Value>, s: seq<byte>)
    requires EncodeAll(item, vs).Ok?
    ensures DecodeAll(item, |vs|, EncodeAll(item, vs).value + s)
         == Ok(Parsed(vs, |EncodeAll(item, vs).value|))
    decreases item, 2 + |vs|
  {
    hide Encode, Decode;
    if vs != [] {
      var head, tail := Encode(item, vs[0]).value, EncodeAll(item, vs[1..]).value;
      var b := EncodeAll(item, vs).value + s;
      assert b == head + (tail + s);
      assert b[|head|..] == tail + s;
      RoundTrip(item, vs[0], tail + s);
      RoundTripAll(item, vs[1..], s);
      assert [vs[0]] + vs[1..] == vs;
    }
  }

  lemma {:induction false} RoundTripTuple(items: seq<TypeIr>, vs: seq<Value>, s: seq<byte>)
    requires |items| == |vs| && EncodeTuple(items, vs).Ok?
    ensures DecodeTuple(items, EncodeTuple(items, vs).value + s)
         == Ok(Parsed(vs, |EncodeTuple(items, vs).value|))
    decreases items, 2
  {
    hide Encode, Decode;
    if items != [] {
      var head, tail := Encode(items[0], vs[0]).value, EncodeTuple(items[1..], vs[1..]).value;
      var b := EncodeTuple(items, vs).value + s;
      assert b == head + (tail + s);
      assert b[|head|..] == tail + s;
      RoundTrip(items[0], vs[0], tail + s);
      RoundTripTuple(items[1..], vs[1..], s);
      assert [vs[0]] + vs[1..] == vs;
    }
  }

  lemma {:induction false} RoundTripFields(fields: seq<FieldIr>, entries: seq<Entry>, s: seq<byte>)
    requires |fields| == |entries| && EncodeFields(fields, entries).Ok?
    ensures DecodeFields(fields, EncodeFields(fields, entries).value + s)
         == Ok(Parsed(entries, |EncodeFields(fields, entries).value|))
    decreases fields, 2
  {
    hide Encode, Decode;
    if fields != [] {
      var head, tail := Encode(fields[0].ty, entries[0].value).value,
                        EncodeFields(fields[1..], entries[1..]).value;
      var b := EncodeFields(fields, entries).value + s;
      assert b == head + (tail + s);
      assert b[|head|..] == tail + s;
      RoundTrip(fields[0].ty, entries[0].value, tail + s);
      RoundTripFields(fields[1..], entries[1..], s);
      assert [entries[0]] + entries[1..] == entries;
    }
  }

  /** No encoding of a type is a prefix of another encoding of that type. */
  lemma {:induction false} EncodingPrefixFree(ty: TypeIr, v: Value, s: seq<byte>, w: Value, t: seq<byte>)
    requires Encode(ty, v).Ok? && Encode(ty, w).Ok?
    requires Encode(ty, v).value + s == Encode(ty, w).value + t
    ensures v == w && s == t
  {
    RoundTrip(ty, v, s);
    RoundTrip(ty, w, t);
    assert s == (Encode(ty, v).value + s)[|Encode(ty, v).value|..];
    assert t == (Encode(ty, w).value + t)[|Encode(ty, w).value|..];
  }

  lemma {:induction false} CountShortest(b: seq<byte>, max: u32)
    requires ReadCount(b, max).Ok?
    ensures |EncodeNatural(ReadCount(b, max).value.value)| <= ReadCount(b, max).value.used
  {
    NaturalShortest(b);
  }

  /** `v` encodes under `ty`, in at most `n` bytes. */
  ghost predicate EncodesWithin(r: Result<seq<byte>, CodecError>, n: nat) {
    r.Ok? && |r.value| <= n
  }

  lemma {:induction false} ScalarReencodes(ty: TypeIr, b: seq<byte>)
    requires Scalar(ty) && DecodeScalar(ty, b).Ok?
    ensures var p := DecodeScalar(ty, b).value; EncodesWithin(EncodeScalar(ty, p.value), p.used)
  {
    if UnsignedWidth(ty) > 0 {
      var w := b[..UnsignedWidth(ty)];
      UnsignedInverse(PullUnsigned(w), w);
    } else {
      var w := b[..SignedWidth(ty)];
      SignedInverse(PullSigned(w), w);
    }
  }

  lemma {:induction false} LeafReencodes(ty: TypeIr, b: seq<byte>)
    requires !Scalar(ty) && !Tagged(ty) && !Sequence(ty) && DecodeLeaf(ty, b).Ok?
    ensures var p := DecodeLeaf(ty, b).value; EncodesWithin(EncodeLeaf(ty, p.value), p.used)
  {
    hide EncodeNatural, ReadNatural, EncodeOwnership, DecodeOwnership, ValidUtf8;
    match ty {
      case OwnershipType =>
        var n := 4 + FromLE(b[..4][2..4]);
        OwnershipInverse(DecodeOwnership(b[..n]).value, b[..n]);
      case BoundedBytes(max) => CountShortest(b, max);
      case BoundedString(max) => CountShortest(b, max);
      case _ =>
    }
  }

  /** Whatever bytes decode, the value re-encodes, in no more bytes than were consumed. */
  lemma {:induction false} DecodedReencodes(ty: TypeIr, b: seq<byte>)
    requires Decode(ty, b).Ok?
    ensures var p := Decode(ty, b).value; EncodesWithin(Encode(ty, p.value), p.used)
    decreases ty, 1
  {
    hide EncodeScalar, DecodeScalar, EncodeLeaf, DecodeLeaf;
    hide EncodeTagged, DecodeTagged, EncodeSequence, DecodeSequence;
    if Scalar(ty) {
      ScalarReencodes(ty, b);
    } else if Tagged(ty) {
      TaggedReencodes(ty, b);
    } else if Sequence(ty) {
      SequenceReencodes(ty, b);
    } else {
      LeafReencodes(ty, b);
    }
  }

  lemma {:induction false} TaggedReencodes(ty: TypeIr, b: seq<byte>)
    requires Tagged(ty) && DecodeTagged(ty, b).Ok?
    ensures var p := DecodeTagged(ty, b).value; EncodesWithin(EncodeTagged(ty, p.value), p.used)
    decreases ty, 0
  {
    hide Encode, Decode;
    match ty {
      case OptionOf(item) => if b[0] == 1 { DecodedReencodes(item, b[1..]); }
      case Enum(variants) => DecodedReencodes(variants[FindVariant(variants, b[0])].ty, b[1..]);
      case ResultOf(okTy, errTy) =>
        if b[0] == 0 { DecodedReencodes(okTy, b[1..]); } else { DecodedReencodes(errTy, b[1..]); }
    }
  }

  lemma {:induction false} SequenceReencodes(ty: TypeIr, b: seq<byte>)
    requires Sequence(ty) && DecodeSequence(ty, b).Ok?
    ensures var p := DecodeSequence(ty, b).value; EncodesWithin(EncodeSequence(ty, p.value), p.used)
    decreases ty, 0
  {
    hide Encode, Decode;
    hide EncodeAll, DecodeAll, EncodeTuple, DecodeTuple, EncodeFields, DecodeFields;
    match ty {
      case FixedArray(item, len) => DecodedAllReencode(item, len, b);
      case BoundedArray(item, max) =>
        CountShortest(b, max);
        var n := ReadCount(b, max).value;
        DecodedAllReencode(item, n.value, b[n.used..]);
      case Tuple(items) => DecodedTupleReencodes(items, b);
      case Record(fields) => DecodedFieldsReencode(fields, b);
    }
  }

  lemma {:induction false} DecodedAllReencode(item: TypeIr, n: nat, b: seq<byte>)
    requires DecodeAll(item, n, b).Ok?
    ensures var p := DecodeAll(item, n, b).value; EncodesWithin(EncodeAll(item, p.value), p.used)
    decreases item, 2 + n
  {
    hide Encode, Decode;
    if n > 0 {
      DecodedReencodes(item, b);
      var head := Decode(item, b).value;
      DecodedAllReencode(item, n - 1, b[head.used..]);
      assert DecodeAll(item, n, b).value.value[1..] == DecodeAll(item, n - 1, b[head.used..]).value.value;
    }
  }

  lemma {:induction false} DecodedTupleReencodes(items: seq<TypeIr>, b: seq<byte>)
    requires DecodeTuple(items, b).Ok?
    ensures var p := DecodeTuple(items, b).value; EncodesWithin(EncodeTuple(items, p.value), p.used)
    decreases items, 2
  {
    hide Encode, Decode;
    if items != [] {
      DecodedReencodes(items[0], b);
      var head := Decode(items[0], b).value;
      DecodedTupleReencodes(items[1..], b[head.used..]);
      assert DecodeTuple(items, b).value.value[1..] == DecodeTuple(items[1..], b[head.used..]).value.value;
    }
  }

  lemma {:induction false} DecodedFieldsReencode(fields: seq<FieldIr>, b: seq<byte>)
    requires DecodeFields(fields, b).Ok?
    ensures var p := DecodeFields(fields, b).value; EncodesWithin(EncodeFields(fields, p.value), p.used)
    decreases fields, 2
  {
    hide Encode, Decode;
    if fields != [] {
      DecodedReencodes(fields[0].ty, b);
      var head := Decode(fields[0].ty, b).value;
      DecodedFieldsReencode(fields[1..], b[head.used..]);
      assert DecodeFields(fields, b).value.value[1..] == DecodeFields(fields[1..], b[head.used..]).value.value;
    }
  }

  /** Decoding then encoding normalises: the result is no longer, and means the same. */
  lemma {:induction false} DecodeNormalises(ty: TypeIr, b: seq<byte>)
    requires Decode(ty, b).Ok?
    ensures var v := Decode(ty, b).value.value;
      && Encode(ty, v).Ok?
      && |Encode(ty, v).value| <= Decode(ty, b).value.used
      && Decode(ty, Encode(ty, v).value) == Ok(Parsed(v, |Encode(ty, v).value|))
  {
    DecodedReencodes(ty, b);
    var v := Decode(ty, b).value.value;
    RoundTrip(ty, v, []);
    assert Encode(ty, v).value + [] == Encode(ty, v).value;
  }
}
