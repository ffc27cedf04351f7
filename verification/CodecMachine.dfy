/** The codec as the source runs it: an output buffer that grows and a reader that advances. */
module CodecMachine {
  import opened Wrappers
  import opened Bytes
  import opened Natural
  import opened Ownerships
  import opened Abi
  import opened Scalars
  import opened Codec

  /** The buffer after appending an encoding, if there is one. */
  ghost predicate Appends(r: Result<(), CodecError>, out: seq<byte>, buffer: seq<byte>,
                          expected: Result<seq<byte>, CodecError>) {
    match expected
    case Ok(e) => r.Ok? && buffer == out + e
    case Err(error) => r == Err(error)
  }

  /** `encode_into`: appends the encoding to `out`. */
  method EncodeInto(ty: TypeIr, v: Value, out: seq<byte>)
    returns (r: Result<(), CodecError>, buffer: seq<byte>)
    ensures Appends(r, out, buffer, Encode(ty, v))
    decreases ty, 1
  {
    hide EncodeScalar, EncodeLeaf, EncodeTagged, EncodeSequence;
    if Tagged(ty) {
      r, buffer := EncodeTaggedInto(ty, v, out);
    } else if Sequence(ty) {
      r, buffer := EncodeSequenceInto(ty, v, out);
    } else {
      var bytes := if Scalar(ty) then EncodeScalar(ty, v) else EncodeLeaf(ty, v);
      if bytes.Err? {
        return Err(bytes.error), out;
      }
      return Ok(()), out + bytes.value;
    }
  }

  method EncodeTaggedInto(ty: TypeIr, v: Value, out: seq<byte>)
    returns (r: Result<(), CodecError>, buffer: seq<byte>)
    requires Tagged(ty)
    ensures Appends(r, out, buffer, EncodeTagged(ty, v))
    decreases ty, 0
  {
    hide Encode;
    match (ty, v) {
      case (OptionOf(_), NoneValue) => r, buffer := Ok(()), out + [0];
      case (OptionOf(item), SomeValue(inner)) => r, buffer := EncodeInto(item, inner, out + [1]);
      case (Enum(variants), EnumValue(index, payload)) =>
        var k := FindVariant(variants, index);
        if k == |variants| {
          return Err(InvalidVariant), out;
        }
        r, buffer := EncodeInto(variants[k].ty, payload, out + [index]);
      case (ResultOf(okTy, _), OkValue(x)) => r, buffer := EncodeInto(okTy, x, out + [0]);
      case (ResultOf(_, errTy), ErrValue(x)) => r, buffer := EncodeInto(errTy, x, out + [1]);
      case _ => r, buffer := Err(TypeMismatch("value")), out;
    }
  }

  method EncodeSequenceInto(ty: TypeIr, v: Value, out: seq<byte>)
    returns (r: Result<(), CodecError>, buffer: seq<byte>)
    requires Sequence(ty)
    ensures Appends(r, out, buffer, EncodeSequence(ty, v))
    decreases ty, 0
  {
    hide Encode, EncodeAll, EncodeTuple, EncodeFields, EncodeNatural;
    match (ty, v) {
      case (FixedArray(item, len), ArrayValue(vs)) =>
        if |vs| != len {
          return Err(TypeMismatch("value")), out;
        }
        r, buffer := EncodeElements(item, vs, out);
      case (BoundedArray(item, max), ArrayValue(vs)) =>
        if |vs| > max {
          return Err(BoundExceeded), out;
        }
        r, buffer := EncodeElements(item, vs, out + EncodeNatural(|vs|));
      case (Tuple(items), TupleValue(vs)) =>
        if |items| != |vs| {
          return Err(TypeMismatch("value")), out;
        }
        r, buffer := EncodeComponents(items, vs, out);
      case (Record(fields), RecordValue(entries)) =>
        if |fields| != |entries| {
          return Err(TypeMismatch("value")), out;
        }
        r, buffer := EncodeEntries(fields, entries, out);
      case _ => r, buffer := Err(TypeMismatch("value")), out;
    }
  }

  /** `done` followed by what is still to be encoded. */
  ghost function After(done: seq<byte>, rest: Result<seq<byte>, CodecError>): Result<seq<byte>, CodecError> {
    match rest case Ok(e) => Ok(done + e) case Err(error) => Err(error)
  }

  lemma {:induction false} AfterNothing(rest: Result<seq<byte>, CodecError>)
    ensures After([], rest) == rest
  {
    if rest.Ok? { assert [] + rest.value == rest.value; }
  }

  lemma {:induction false} AfterBoth(a: seq<byte>, b: seq<byte>, rest: Result<seq<byte>, CodecError>)
    ensures After(a, After(b, rest)) == After(a + b, rest)
  {
    if rest.Ok? { assert a + (b + rest.value) == a + b + rest.value; }
  }

  method EncodeElements(item: TypeIr, vs: seq<Value>, out: seq<byte>)
    returns (r: Result<(), CodecError>, buffer: seq<byte>)
    ensures Appends(r, out, buffer, EncodeAll(item, vs))
    decreases item, 2
  {
    hide Encode;
    buffer := out;
    ghost var done: seq<byte> := [];
    AfterNothing(EncodeAll(item, vs));
    assert vs[0..] == vs;
    var i := 0;
    while i < |vs|
      invariant 0 <= i <= |vs|
      invariant buffer == out + done
      invariant EncodeAll(item, vs) == After(done, EncodeAll(item, vs[i..]))
    {
      var next;
      r, next := EncodeInto(item, vs[i], buffer);
      assert vs[i..][0] == vs[i] && vs[i..][1..] == vs[i + 1..];
      if r.Err? {
        return;
      }
      AfterBoth(done, Encode(item, vs[i]).value, EncodeAll(item, vs[i + 1..]));
      done, buffer := done + Encode(item, vs[i]).value, next;
      i := i + 1;
    }
    assert vs[i..] == [];
    r := Ok(());
  }

  method EncodeComponents(items: seq<TypeIr>, vs: seq<Value>, out: seq<byte>)
    returns (r: Result<(), CodecError>, buffer: seq<byte>)
    requires |items| == |vs|
    ensures Appends(r, out, buffer, EncodeTuple(items, vs))
    decreases items, 2
  {
    hide Encode;
    buffer := out;
    ghost var done: seq<byte> := [];
    AfterNothing(EncodeTuple(items, vs));
    assert items[0..] == items && vs[0..] == vs;
    var i := 0;
    while i < |items|
      invariant 0 <= i <= |items|
      invariant buffer == out + done
      invariant EncodeTuple(items, vs) == After(done, EncodeTuple(items[i..], vs[i..]))
    {
      var next;
      r, next := EncodeInto(items[i], vs[i], buffer);
      assert items[i..][1..] == items[i + 1..] && vs[i..][1..] == vs[i + 1..];
      if r.Err? {
        return;
      }
      AfterBoth(done, Encode(items[i], vs[i]).value, EncodeTuple(items[i + 1..], vs[i + 1..]));
      done, buffer := done + Encode(items[i], vs[i]).value, next;
      i := i + 1;
    }
    assert items[i..] == [];
    r := Ok(());
  }

  method EncodeEntries(fields: seq<FieldIr>, entries: seq<Entry>, out: seq<byte>)
    returns (r: Result<(), CodecError>, buffer: seq<byte>)
    requires |fields| == |entries|
    ensures Appends(r, out, buffer, EncodeFields(fields, entries))
    decreases fields, 2
  {
    hide Encode;
    buffer := out;
    ghost var done: seq<byte> := [];
    AfterNothing(EncodeFields(fields, entries));
    assert fields[0..] == fields && entries[0..] == entries;
    var i := 0;
    while i < |fields|
      invariant 0 <= i <= |fields|
      invariant buffer == out + done
      invariant EncodeFields(fields, entries) == After(done, EncodeFields(fields[i..], entries[i..]))
    {
      assert fields[i..][1..] == fields[i + 1..] && entries[i..][1..] == entries[i + 1..];
      if fields[i].name != entries[i].name {
        return Err(TypeMismatch("record field order")), buffer;
      }
      var next;
      r, next := EncodeInto(fields[i].ty, entries[i].value, buffer);
      if r.Err? {
        return;
      }
      AfterBoth(done, Encode(fields[i].ty, entries[i].value).value, EncodeFields(fields[i + 1..], entries[i + 1..]));
      done, buffer := done + Encode(fields[i].ty, entries[i].value).value, next;
      i := i + 1;
    }
    assert fields[i..] == [];
    r := Ok(());
  }

  /** A read returned what `expected` says and moved the reader past the bytes it used. */
  ghost predicate Reads<T>(r: Result<T, CodecError>, expected: Result<Parsed<T>, CodecError>,
                           before: nat, after: nat) {
    match expected
    case Ok(p) => r == Ok(p.value) && after == before + p.used
    case Err(error) => r == Err(error)
  }

  /** `Reader`. */
  class Reader {
    const bytes: seq<byte>
    var offset: nat

    ghost predicate Valid()
      reads this
    {
      offset <= |bytes|
    }

    constructor (bytes: seq<byte>)
      ensures Valid() && this.bytes == bytes && offset == 0
    {
      this.bytes := bytes;
      offset := 0;
    }

    /** The bytes not read yet. */
    ghost function Ahead(): seq<byte>
      reads this
      requires Valid()
    {
      bytes[offset..]
    }

    method TakeBytes(len: nat) returns (r: Result<seq<byte>, CodecError>)
      requires Valid()
      modifies this
      ensures Valid() && Reads(r, Take(old(Ahead()), len), old(offset), offset)
      ensures r.Ok? ==> |r.value| == len
    {
      var end := offset + len;
      if end > |bytes| {
        return Err(UnexpectedEof);
      }
      assert bytes[offset..end] == Ahead()[..len];
      r := Ok(bytes[offset..end]);
      offset := end;
    }

    /** `Reader::natural`. */
    method ReadNatural() returns (r: Result<nat, CodecError>)
      requires Valid()
      modifies this
      ensures Valid()
      ensures match Natural.ReadNatural(old(Ahead()))
        case Some(p) => r == Ok(p.value) && offset == old(offset) + p.used
        case None => r == Err(UnexpectedEof)
    {
      hide Pow2, Pow256, FromLE;
      ghost var ahead := Ahead();
      var head := TakeBytes(1);
      if head.Err? {
        return Err(head.error);
      }
      var first := head.value[0];
      if first < 0x80 {
        return Ok(first);
      }
      var extra := LeadingOnes(first);
      LeadingOnesRange(first);
      if extra == 8 {
        var all := TakeBytes(8);
        if all.Err? {
          return Err(all.error);
        }
        assert all.value == ahead[1..9];
        return Ok(FromLE(all.value));
      }
      var low := TakeBytes(extra);
      if low.Err? {
        return Err(low.error);
      }
      assert low.value == ahead[1..1 + extra];
      return Ok(FromLE(low.value) + ShiftBytes(first % Pow2(7 - extra), extra));
    }

    /** A length prefix checked against its bound. */
    method ReadLength(max: u32) returns (r: Result<nat, CodecError>)
      requires Valid()
      modifies this
      ensures Valid() && Reads(r, ReadCount(old(Ahead()), max), old(offset), offset)
      ensures r.Ok? ==> r.value <= max
    {
      hide Natural.ReadNatural;
      r := ReadNatural();
      if r.Ok? && r.value > max {
        r := Err(BoundExceeded);
      }
    }
  }

  /** `decode_from`. */
  method DecodeFrom(ty: TypeIr, reader: Reader) returns (r: Result<Value, CodecError>)
    requires reader.Valid()
    modifies reader
    ensures reader.Valid() && Reads(r, Decode(ty, old(reader.Ahead())), old(reader.offset), reader.offset)
    decreases ty, 1
  {
    hide DecodeScalar, DecodeLeaf, DecodeTagged, DecodeSequence;
    if Scalar(ty) {
      r := DecodeScalarFrom(ty, reader);
    } else if Tagged(ty) {
      r := DecodeTaggedFrom(ty, reader);
    } else if Sequence(ty) {
      r := DecodeSequenceFrom(ty, reader);
    } else {
      r := DecodeLeafFrom(ty, reader);
    }
  }

  method DecodeScalarFrom(ty: TypeIr, reader: Reader) returns (r: Result<Value, CodecError>)
    requires Scalar(ty) && reader.Valid()
    modifies reader
    ensures reader.Valid() && Reads(r, DecodeScalar(ty, old(reader.Ahead())), old(reader.offset), reader.offset)
  {
    var bytes := reader.TakeBytes(UnsignedWidth(ty) + SignedWidth(ty));
    if bytes.Err? {
      return Err(bytes.error);
    }
    if UnsignedWidth(ty) > 0 {
      return Ok(Unsigned(PullUnsigned(bytes.value)));
    }
    return Ok(Signed(PullSigned(bytes.value)));
  }

  method DecodeLeafFrom(ty: TypeIr, reader: Reader) returns (r: Result<Value, CodecError>)
    requires !Scalar(ty) && !Tagged(ty) && !Sequence(ty) && reader.Valid()
    modifies reader
    ensures reader.Valid() && Reads(r, DecodeLeaf(ty, old(reader.Ahead())), old(reader.offset), reader.offset)
  {
    hide Natural.ReadNatural, DecodeOwnership, ValidUtf8, FromLE;
    match ty {
      case Unit => r := Ok(UnitValue);
      case Bool =>
        var flag := reader.TakeBytes(1);
        if flag.Err? { return Err(flag.error); }
        r := if flag.value[0] == 0 then Ok(BoolValue(false))
             else if flag.value[0] == 1 then Ok(BoolValue(true)) else Err(InvalidBool);
      case OwnershipType => r := DecodeOwnershipFrom(reader);
      case BoundedBytes(max) =>
        var len := reader.ReadLength(max);
        if len.Err? { return Err(len.error); }
        var bytes := reader.TakeBytes(len.value);
        r := if bytes.Ok? then Ok(BytesValue(bytes.value)) else Err(bytes.error);
      case BoundedString(max) =>
        var len := reader.ReadLength(max);
        if len.Err? { return Err(len.error); }
        var bytes := reader.TakeBytes(len.value);
        if bytes.Err? { return Err(bytes.error); }
        r := if ValidUtf8(bytes.value) then Ok(StringValue(bytes.value)) else Err(InvalidUtf8);
      case Unsupported(_) => r := Err(UnsupportedType);
      case Address =>
        var bytes := reader.TakeBytes(32);
        r := if bytes.Ok? then Ok(BytesValue(bytes.value)) else Err(bytes.error);
      case FixedBytes(len) =>
        var bytes := reader.TakeBytes(len);
        r := if bytes.Ok? then Ok(BytesValue(bytes.value)) else Err(bytes.error);
    }
  }

  method DecodeOwnershipFrom(reader: Reader) returns (r: Result<Value, CodecError>)
    requires reader.Valid()
    modifies reader
    ensures reader.Valid() && Reads(r, DecodeLeaf(OwnershipType, old(reader.Ahead())), old(reader.offset),
      reader.offset)
  {
    hide DecodeOwnership, FromLE;
    ghost var ahead := reader.Ahead();
    var start := reader.offset;
    var versionAndKind := reader.TakeBytes(2);
    if versionAndKind.Err? { return Err(versionAndKind.error); }
    assert reader.Ahead() == ahead[2..];
    var length := reader.TakeBytes(2);
    if length.Err? { return Err(length.error); }
    assert length.value == ahead[2..][..2];
    assert ahead[2..][..2] == ahead[2..4];
    assert ahead[..4][2..4] == ahead[2..4];
    assert reader.Ahead() == ahead[4..];
    var public := reader.TakeBytes(FromLE(length.value));
    if public.Err? { return Err(public.error); }
    var bytes := reader.bytes[start..reader.offset];
    assert bytes == ahead[..4 + FromLE(length.value)];
    var owner := DecodeOwnership(bytes);
    r := if owner.Ok? then Ok(OwnershipValue(owner.value)) else Err(InvalidLength);
  }

  method DecodeTaggedFrom(ty: TypeIr, reader: Reader) returns (r: Result<Value, CodecError>)
    requires Tagged(ty) && reader.Valid()
    modifies reader
    ensures reader.Valid() && Reads(r, DecodeTagged(ty, old(reader.Ahead())), old(reader.offset), reader.offset)
    decreases ty, 0
  {
    hide Decode;
    var tag := reader.TakeBytes(1);
    if tag.Err? { return Err(tag.error); }
    match ty {
      case OptionOf(item) =>
        if tag.value[0] == 0 { return Ok(NoneValue); }
        if tag.value[0] != 1 { return Err(InvalidVariant); }
        var inner := DecodeFrom(item, reader);
        r := if inner.Ok? then Ok(SomeValue(inner.value)) else inner;
      case Enum(variants) =>
        var k := FindVariant(variants, tag.value[0]);
        if k == |variants| { return Err(InvalidVariant); }
        var payload := DecodeFrom(variants[k].ty, reader);
        r := if payload.Ok? then Ok(EnumValue(tag.value[0], payload.value)) else payload;
      case ResultOf(okTy, errTy) =>
        if tag.value[0] == 0 {
          var x := DecodeFrom(okTy, reader);
          r := if x.Ok? then Ok(OkValue(x.value)) else x;
        } else if tag.value[0] == 1 {
          var x := DecodeFrom(errTy, reader);
          r := if x.Ok? then Ok(ErrValue(x.value)) else x;
        } else {
          r := Err(InvalidVariant);
        }
    }
  }

  method DecodeSequenceFrom(ty: TypeIr, reader: Reader) returns (r: Result<Value, CodecError>)
    requires Sequence(ty) && reader.Valid()
    modifies reader
    ensures reader.Valid() && Reads(r, DecodeSequence(ty, old(reader.Ahead())), old(reader.offset), reader.offset)
    decreases ty, 0
  {
    hide Decode, DecodeAll, DecodeTuple, DecodeFields, Natural.ReadNatural;
    match ty {
      case FixedArray(item, len) =>
        var vs := DecodeElements(item, len, reader);
        r := if vs.Ok? then Ok(ArrayValue(vs.value)) else Err(vs.error);
      case BoundedArray(item, max) =>
        var len := reader.ReadLength(max);
        if len.Err? { return Err(len.error); }
        var vs := DecodeElements(item, len.value, reader);
        r := if vs.Ok? then Ok(ArrayValue(vs.value)) else Err(vs.error);
      case Tuple(items) =>
        var vs := DecodeComponents(items, reader);
        r := if vs.Ok? then Ok(TupleValue(vs.value)) else Err(vs.error);
      case Record(fields) =>
        var entries := DecodeEntries(fields, reader);
        r := if entries.Ok? then Ok(RecordValue(entries.value)) else Err(entries.error);
    }
  }

  /** What was decoded so far, in front of what is still to be decoded. */
  ghost function Onto<T>(done: seq<T>, used: nat, rest: Result<Parsed<seq<T>>, CodecError>)
    : Result<Parsed<seq<T>>, CodecError>
  {
    match rest case Ok(p) => Ok(Parsed(done + p.value, used + p.used)) case Err(error) => Err(error)
  }

  lemma {:induction false} OntoNothing<T>(rest: Result<Parsed<seq<T>>, CodecError>)
    ensures Onto([], 0, rest) == rest
  {
    if rest.Ok? { assert [] + rest.value.value == rest.value.value; }
  }

  lemma {:induction false} OntoBoth<T>(a: seq<T>, i: nat, b: seq<T>, j: nat, rest: Result<Parsed<seq<T>>, CodecError>)
    ensures Onto(a, i, Onto(b, j, rest)) == Onto(a + b, i + j, rest)
  {
    if rest.Ok? { assert a + (b + rest.value.value) == a + b + rest.value.value; }
  }

  lemma {:induction false} DecodeAllStep(item: TypeIr, n: nat, b: seq<byte>)
    requires n > 0
    ensures match Decode(item, b)
      case Ok(head) =>
        DecodeAll(item, n, b) == Onto([head.value], head.used, DecodeAll(item, n - 1, b[head.used..]))
      case Err(error) => DecodeAll(item, n, b) == Err(error)
  {
    hide Decode;
  }

  lemma {:induction false} DecodeAllNone(item: TypeIr, b: seq<byte>)
    ensures DecodeAll(item, 0, b) == Ok(Parsed([], 0))
  {
  }

  lemma {:induction false} DecodeTupleStep(items: seq<TypeIr>, b: seq<byte>)
    ensures items == [] ==> DecodeTuple(items, b) == Ok(Parsed([], 0))
    ensures items != [] ==>
      match Decode(items[0], b)
      case Ok(head) =>
        DecodeTuple(items, b) == Onto([head.value], head.used, DecodeTuple(items[1..], b[head.used..]))
      case Err(error) => DecodeTuple(items, b) == Err(error)
  {
    hide Decode;
  }

  lemma {:induction false} DecodeFieldsStep(fields: seq<FieldIr>, b: seq<byte>)
    ensures fields == [] ==> DecodeFields(fields, b) == Ok(Parsed([], 0))
    ensures fields != [] ==>
      match Decode(fields[0].ty, b)
      case Ok(head) =>
        DecodeFields(fields, b) ==
          Onto([Entry(fields[0].name, head.value)], head.used, DecodeFields(fields[1..], b[head.used..]))
      case Err(error) => DecodeFields(fields, b) == Err(error)
  {
    hide Decode;
  }

  method DecodeElements(item: TypeIr, n: nat, reader: Reader) returns (r: Result<seq<Value>, CodecError>)
    requires reader.Valid()
    modifies reader
    ensures reader.Valid() && Reads(r, DecodeAll(item, n, old(reader.Ahead())), old(reader.offset), reader.offset)
    decreases item, 2
  {
    hide Decode, DecodeAll;
    var vs: seq<Value> := [];
    ghost var start, origin := reader.Ahead(), reader.offset;
    OntoNothing(DecodeAll(item, n, start));
    var i := 0;
    while i < n
      invariant 0 <= i <= n && reader.Valid() && reader.offset >= origin
      invariant DecodeAll(item, n, start)
             == Onto(vs, reader.offset - origin, DecodeAll(item, n - i, reader.Ahead()))
    {
      ghost var ahead := reader.Ahead();
      var x := DecodeFrom(item, reader);
      DecodeAllStep(item, n - i, ahead);
      if x.Err? { return Err(x.error); }
      assert reader.Ahead() == ahead[Decode(item, ahead).value.used..];
      OntoBoth(vs, reader.offset - Decode(item, ahead).value.used - origin, [x.value], Decode(item, ahead).value.used,
               DecodeAll(item, n - i - 1, reader.Ahead()));
      vs, i := vs + [x.value], i + 1;
    }
    assert DecodeAll(item, 0, reader.Ahead()) == Ok(Parsed([], 0)) by { DecodeAllNone(item, reader.Ahead()); }
    assert vs + [] == vs;
    r := Ok(vs);
  }

  method DecodeComponents(items: seq<TypeIr>, reader: Reader) returns (r: Result<seq<Value>, CodecError>)
    requires reader.Valid()
    modifies reader
    ensures reader.Valid() && Reads(r, DecodeTuple(items, old(reader.Ahead())), old(reader.offset), reader.offset)
    decreases items, 2
  {
    hide Decode, DecodeTuple;
    var done: seq<Value> := [];
    ghost var start, origin := reader.Ahead(), reader.offset;
    OntoNothing(DecodeTuple(items, start));
    assert items[0..] == items;
    var i := 0;
    while i < |items|
      invariant 0 <= i <= |items| && reader.Valid() && reader.offset >= origin
      invariant DecodeTuple(items, start)
             == Onto(done, reader.offset - origin, DecodeTuple(items[i..], reader.Ahead()))
    {
      ghost var ahead := reader.Ahead();
      var x := DecodeFrom(items[i], reader);
      DecodeTupleStep(items[i..], ahead);
      assert items[i..][1..] == items[i + 1..];
      if x.Err? { return Err(x.error); }
      ghost var used := Decode(items[i], ahead).value.used;
      assert reader.Ahead() == ahead[used..];
      OntoBoth(done, reader.offset - used - origin, [x.value], used, DecodeTuple(items[i + 1..], reader.Ahead()));
      done, i := done + [x.value], i + 1;
    }
    DecodeTupleStep(items[i..], reader.Ahead());
    assert done + [] == done;
    r := Ok(done);
  }

  method DecodeEntries(fields: seq<FieldIr>, reader: Reader) returns (r: Result<seq<Entry>, CodecError>)
    requires reader.Valid()
    modifies reader
    ensures reader.Valid() && Reads(r, DecodeFields(fields, old(reader.Ahead())), old(reader.offset), reader.offset)
    decreases fields, 2
  {
    hide Decode, DecodeFields;
    var done: seq<Entry> := [];
    ghost var start, origin := reader.Ahead(), reader.offset;
    OntoNothing(DecodeFields(fields, start));
    assert fields[0..] == fields;
    var i := 0;
    while i < |fields|
      invariant 0 <= i <= |fields| && reader.Valid() && reader.offset >= origin
      invariant DecodeFields(fields, start)
             == Onto(done, reader.offset - origin, DecodeFields(fields[i..], reader.Ahead()))
    {
      ghost var ahead := reader.Ahead();
      var x := DecodeFrom(fields[i].ty, reader);
      DecodeFieldsStep(fields[i..], ahead);
      assert fields[i..][1..] == fields[i + 1..];
      if x.Err? { return Err(x.error); }
      ghost var used := Decode(fields[i].ty, ahead).value.used;
      assert reader.Ahead() == ahead[used..];
      OntoBoth(done, reader.offset - used - origin, [Entry(fields[i].name, x.value)], used,
        DecodeFields(fields[i + 1..], reader.Ahead()));
      done, i := done + [Entry(fields[i].name, x.value)], i + 1;
    }
    DecodeFieldsStep(fields[i..], reader.Ahead());
    assert done + [] == done;
    r := Ok(done);
  }

  /** `decode`: the whole input and nothing after it.  It accepts every encoding, and whatever it
      accepts re-encodes to something no longer. */
  method DecodeExact(ty: TypeIr, bytes: seq<byte>) returns (r: Result<Value, CodecError>)
    ensures r.Ok? ==> Decode(ty, bytes) == Ok(Parsed(r.value, |bytes|))
    ensures r.Ok? ==> Encode(ty, r.value).Ok? && |Encode(ty, r.value).value| <= |bytes|
    ensures forall v :: Encode(ty, v) == Ok(bytes) ==> r == Ok(v)
    ensures match Decode(ty, bytes)
      case Ok(p) => p.used < |bytes| ==> r == Err(TrailingBytes)
      case Err(error) => r == Err(error)
  {
    hide Decode, Encode;
    forall v | Encode(ty, v) == Ok(bytes) ensures Decode(ty, bytes) == Ok(Parsed(v, |bytes|)) {
      RoundTrip(ty, v, []);
      assert bytes + [] == bytes;
    }
    if Decode(ty, bytes).Ok? {
      DecodedReencodes(ty, bytes);
    }
    var reader := new Reader(bytes);
    assert reader.Ahead() == bytes;
    r := DecodeFrom(ty, reader);
    if r.Ok? && reader.offset != |bytes| {
      r := Err(TrailingBytes);
    }
  }
}
