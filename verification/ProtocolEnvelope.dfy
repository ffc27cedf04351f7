/** The protocol crate: encoders, decoders and the commitment its signer computes. */
module ProtocolEnvelopes {
  import opened Wrappers
  import opened Bytes
  import opened Ownerships
  import opened Envelopes

  datatype ProtocolError =
    | UnsupportedVersion(version: byte) | InvalidEnvelope(reason: string) | PayloadTooLarge
    | InvalidOwnershipEncoding | UnsupportedOwnershipKind | InvalidOwnershipPublicValue
    | InvalidOwnershipAuthorization | WrongNetwork | WrongService | UnknownAction | Expired
    | OwnershipNonceMismatch(expected: u64, actual: u64) | PayloadHashMismatch | ActAsUnsupported

  /** `ProtocolError::from_ownership_error`. */
  function FromOwnership(e: OwnershipError): ProtocolError {
    match e
    case UnsupportedKind(_) => UnsupportedOwnershipKind
    case InvalidPublicValue => InvalidOwnershipPublicValue
    case InvalidVersion => InvalidOwnershipEncoding
    case InvalidEncoding => InvalidOwnershipEncoding
    case InvalidPublicLength => InvalidOwnershipEncoding
    case TooLarge => InvalidOwnershipEncoding
  }

  /** `Reader::take`. */
  function Take(b: seq<byte>, n: nat): Result<Read<seq<byte>>, ProtocolError> {
    if |b| < n then Err(InvalidEnvelope("truncated envelope")) else Ok(Read(b[..n], b[n..]))
  }

  function U8(b: seq<byte>): Result<Read<byte>, ProtocolError> {
    var x :- Take(b, 1);
    Ok(Read(x.value[0], x.rest))
  }

  function Unsigned(b: seq<byte>, width: nat): Result<Read<nat>, ProtocolError> {
    var x :- Take(b, width);
    Ok(Read(FromLE(x.value), x.rest))
  }

  /** `bytes_u8` and `bytes_u16`. */
  function Prefixed(b: seq<byte>, width: nat): Result<Read<seq<byte>>, ProtocolError> {
    var n :- Unsigned(b, width);
    Take(n.rest, n.value)
  }

  function BytesU32Limited(b: seq<byte>, limit: nat): Result<Read<seq<byte>>, ProtocolError> {
    var n :- Unsigned(b, 4);
    if n.value > limit then Err(InvalidOwnershipAuthorization) else Take(n.rest, n.value)
  }

  function BytesU32(b: seq<byte>): Result<Read<seq<byte>>, ProtocolError> {
    var n :- Unsigned(b, 4);
    if n.value > MAX_PAYLOAD then Err(PayloadTooLarge) else Take(n.rest, n.value)
  }

  /** The bytes an option-valued reader leaves and this one leaves are the same. */
  ghost predicate Same<T(!new)>(r: Result<Read<T>, ProtocolError>, spec: Option<Read<T>>) {
    match spec
    case Some(x) => r == Ok(x)
    case None => r.Err?
  }

  lemma {:induction false} PrefixedSame(b: seq<byte>, width: nat, limit: nat)
    requires limit + 1 == Pow256(width)
    ensures Same(Prefixed(b, width), Counted(b, width, limit))
  {
    if |b| >= width { FromLEBound(b[..width]); }
  }

  lemma {:induction false} LimitedSame(b: seq<byte>, limit: nat)
    ensures Same(BytesU32Limited(b, limit), Counted(b, 4, limit))
    ensures Same(BytesU32(b), Counted(b, 4, MAX_PAYLOAD))
  {
  }

  function ReadVersioned(b: seq<byte>, version: byte): Result<Read<Target>, ProtocolError> {
    var v :- U8(b);
    if v.value != version then Err(UnsupportedVersion(v.value))
    else
      var domain :- Take(v.rest, 32);
      var key :- Take(domain.rest, 32);
      var selector :- Take(key.rest, 8);
      Ok(Read(Target(v.value, domain.value, key.value, selector.value), selector.rest))
  }

  lemma {:induction false} VersionedSame(b: seq<byte>, version: byte)
    ensures var spec := ReadTarget(b);
      Same(ReadVersioned(b, version), if spec.Some? && spec.value.value.version == version then spec else None)
  {
    if |b| >= 73 {
      assert b[1..][..32] == b[1..33] && b[1..][32..] == b[33..];
      assert b[33..][..32] == b[33..65] && b[33..][32..] == b[65..];
      assert b[65..][..8] == b[65..73] && b[65..][8..] == b[73..];
    }
  }

  function ReadNumbers(b: seq<byte>): Result<Read<Terms>, ProtocolError> {
    var nonce :- Unsigned(b, 8);
    var until :- Unsigned(nonce.rest, 8);
    var hash :- Take(until.rest, 32);
    NumbersFit(b[..8]);
    NumbersFit(nonce.rest[..8]);
    Ok(Read(Terms(nonce.value, until.value, hash.value), hash.rest))
  }

  lemma {:induction false} NumbersSame(b: seq<byte>)
    ensures Same(ReadNumbers(b), ReadTerms(b))
  {
    hide FromLE;
    if |b| >= 48 {
      assert b[8..][..8] == b[8..16] && b[8..][8..] == b[16..];
      assert b[16..][..32] == b[16..48] && b[16..][32..] == b[48..];
    }
  }

  /** Scheme and public key; an unknown scheme is refused before the key is read. */
  function ReadSigner(b: seq<byte>): Result<Read<(byte, seq<byte>)>, ProtocolError> {
    var scheme :- U8(b);
    if scheme.value > 2 then Err(InvalidEnvelope("unknown signer scheme"))
    else
      var key :- Prefixed(scheme.rest, 1);
      Ok(Read((scheme.value, key.value), key.rest))
  }

  lemma {:induction false} SignerSame(b: seq<byte>)
    ensures var spec := ReadSignerV1(b);
      Same(ReadSigner(b), if spec.Some? && spec.value.value.0 <= 2 then spec else None)
  {
    hide Prefixed, Counted;
    Pow256Values();
    if b != [] { PrefixedSame(b[1..], 1, 255); }
  }

  /** `validate_shape_v1`. */
  function CheckShapeV1(a: SignedV1): Result<(), ProtocolError> {
    if |a.publicKey| > MAX_PUBLIC_KEY then Err(InvalidEnvelope("public key is too large"))
    else if |a.signature| > MAX_SIGNATURE then Err(InvalidEnvelope("signature is too large"))
    else if |a.payload| > MAX_PAYLOAD then Err(PayloadTooLarge)
    else Ok(())
  }

  /** `SignedActionV1::decode`. */
  function DecodeV1(b: seq<byte>): Result<SignedV1, ProtocolError> {
    var target :- ReadVersioned(b, 1);
    var signer :- ReadSigner(target.rest);
    var terms :- ReadNumbers(signer.rest);
    var signature :- Prefixed(terms.rest, 1);
    var payload :- BytesU32(signature.rest);
    if payload.rest != [] then Err(InvalidEnvelope("trailing bytes"))
    else
      var a := SignedV1(target.value, signer.value.0, signer.value.1, terms.value, signature.value, payload.value);
      var _ :- CheckShapeV1(a);
      Ok(a)
  }

  /** The decoder accepts exactly the encodings of well-shaped actions of a known scheme. */
  lemma {:induction false} DecodesV1(b: seq<byte>, a: SignedV1)
    ensures DecodeV1(b) == Ok(a) <==> a.Shaped() && a.scheme <= 2 && b == EncodeV1(a)
  {
    hide ReadVersioned, ReadSigner, ReadNumbers, Prefixed, BytesU32, Counted, ReadTarget, ReadSignerV1, ReadTerms,
      EncodeV1;
    V1Inverse(b, a);
    VersionedSame(b, 1);
    if ReadTarget(b).Some? {
      SignerSame(ReadTarget(b).value.rest);
      var signer := ReadSignerV1(ReadTarget(b).value.rest);
      if signer.Some? {
        NumbersSame(signer.value.rest);
        var terms := ReadTerms(signer.value.rest);
        if terms.Some? {
          Pow256Values();
          PrefixedSame(terms.value.rest, 1, 255);
          var signature := Counted(terms.value.rest, 1, 255);
          if signature.Some? { LimitedSame(signature.value.rest, MAX_PROOF); }
        }
      }
    }
  }

  function ReadOwnership(b: seq<byte>): Result<Read<Ownership>, ProtocolError> {
    var e :- Prefixed(b, 2);
    match DecodeOwnership(e.value)
    case Ok(o) => Ok(Read(o, e.rest))
    case Err(error) => Err(FromOwnership(error))
  }

  lemma {:induction false} OwnershipSame(b: seq<byte>)
    ensures Same(ReadOwnership(b), ReadOwner(b))
  {
    hide DecodeOwnership, Prefixed, Counted;
    Pow256Values();
    PrefixedSame(b, 2, 0xffff);
  }

  function ReadDelegate(b: seq<byte>): Result<Read<Option<Ownership>>, ProtocolError> {
    var flag :- U8(b);
    if flag.value == 0 then Ok(Read(None, flag.rest))
    else if flag.value == 1 then
      var o :- ReadOwnership(flag.rest);
      Ok(Read(Some(o.value), o.rest))
    else Err(InvalidEnvelope("invalid act_as flag"))
  }

  lemma {:induction false} DelegateSame(b: seq<byte>)
    ensures Same(ReadDelegate(b), ReadActAs(b))
  {
    hide ReadOwnership, ReadOwner;
    if b != [] { OwnershipSame(b[1..]); }
  }

  /** `validate_shape_v2`. */
  function CheckShapeV2(a: SignedV2): Result<(), ProtocolError> {
    if a.target.version != 2 then Err(UnsupportedVersion(a.target.version))
    else if Validate(a.controller).Err? then Err(FromOwnership(Validate(a.controller).error))
    else if a.actAs.Some? && Validate(a.actAs.value).Err? then Err(FromOwnership(Validate(a.actAs.value).error))
    else if |a.proof| > MAX_PROOF then Err(InvalidOwnershipAuthorization)
    else if |a.payload| > MAX_PAYLOAD then Err(PayloadTooLarge)
    else Ok(())
  }

  /** `SignedActionV2::decode`: the shape is validated last. */
  function DecodeV2(b: seq<byte>): Result<SignedV2, ProtocolError> {
    var target :- ReadVersioned(b, 2);
    var controller :- ReadOwnership(target.rest);
    var actAs :- ReadDelegate(controller.rest);
    var terms :- ReadNumbers(actAs.rest);
    var proof :- BytesU32Limited(terms.rest, MAX_PROOF);
    var payload :- BytesU32(proof.rest);
    if payload.rest != [] then Err(InvalidEnvelope("trailing envelope bytes"))
    else
      var a := SignedV2(target.value, controller.value, actAs.value, terms.value, proof.value, payload.value);
      var _ :- CheckShapeV2(a);
      Ok(a)
  }

  /** The decoder accepts exactly the encodings of well-shaped actions. */
  lemma {:induction false} DecodesV2(b: seq<byte>, a: SignedV2)
    ensures DecodeV2(b) == Ok(a) <==> a.Shaped() && b == EncodeV2(a)
  {
    hide ReadVersioned, ReadOwnership, ReadDelegate, ReadNumbers, BytesU32Limited, BytesU32, Counted, ReadTarget,
      ReadOwner, ReadActAs, ReadTerms, EncodeV2;
    V2Inverse(b, a);
    VersionedSame(b, 2);
    if ReadTarget(b).Some? {
      OwnershipSame(ReadTarget(b).value.rest);
      var o := ReadOwner(ReadTarget(b).value.rest);
      if o.Some? {
        DelegateSame(o.value.rest);
        var f := ReadActAs(o.value.rest);
        if f.Some? {
          NumbersSame(f.value.rest);
          var terms := ReadTerms(f.value.rest);
          if terms.Some? {
            LimitedSame(terms.value.rest, MAX_PROOF);
            var proof := Counted(terms.value.rest, 4, MAX_PROOF);
            if proof.Some? { LimitedSame(proof.value.rest, MAX_PROOF); }
          }
        }
      }
    }
    if ParseV2(b).Some? { V2Inverse(b, ParseV2(b).value); }
  }

  /** What a cursor step returns and leaves, against the step on the bytes still unread. */
  ghost predicate Took<T(!new)>(spec: Result<Read<T>, ProtocolError>, r: Result<T, ProtocolError>, left: seq<byte>) {
    match spec
    case Ok(x) => r == Ok(x.value) && left == x.rest
    case Err(e) => r == Err(e)
  }

  class Reader {
    const bytes: seq<byte>
    var offset: nat

    ghost predicate Valid() reads this { offset <= |bytes| }

    ghost function Left(): seq<byte>
      requires Valid()
      reads this
    {
      bytes[offset..]
    }

    constructor (b: seq<byte>)
      ensures Valid() && bytes == b && Left() == b
    {
      bytes, offset := b, 0;
    }

    method TakeBytes(n: nat) returns (r: Result<seq<byte>, ProtocolError>)
      requires Valid()
      modifies this
      ensures Valid() && Took(Take(old(Left()), n), r, Left())
    {
      if offset + n > |bytes| { return Err(InvalidEnvelope("truncated envelope")); }
      assert Left()[..n] == bytes[offset..offset + n] && Left()[n..] == bytes[offset + n..];
      r := Ok(bytes[offset..offset + n]);
      offset := offset + n;
    }

    method TakeU8() returns (r: Result<byte, ProtocolError>)
      requires Valid()
      modifies this
      ensures Valid() && Took(U8(old(Left())), r, Left())
    {
      var x :- TakeBytes(1);
      return Ok(x[0]);
    }

    method TakeUnsigned(width: nat) returns (r: Result<nat, ProtocolError>)
      requires Valid()
      modifies this
      ensures Valid() && Took(Unsigned(old(Left()), width), r, Left())
    {
      var x :- TakeBytes(width);
      return Ok(FromLE(x));
    }

    method TakeU64() returns (r: Result<u64, ProtocolError>)
      requires Valid()
      modifies this
      ensures Valid()
      ensures var spec := Unsigned(old(Left()), 8);
        if spec.Ok? then r.Ok? && r.value == spec.value.value && Left() == spec.value.rest
        else r.Err? && r.error == spec.error
    {
      var x :- TakeBytes(8);
      NumbersFit(x);
      return Ok(FromLE(x));
    }

    method TakePrefixed(width: nat) returns (r: Result<seq<byte>, ProtocolError>)
      requires Valid()
      modifies this
      ensures Valid() && Took(Prefixed(old(Left()), width), r, Left())
    {
      var n :- TakeUnsigned(width);
      r := TakeBytes(n);
    }

    method TakeU32Limited(limit: nat) returns (r: Result<seq<byte>, ProtocolError>)
      requires Valid()
      modifies this
      ensures Valid() && Took(BytesU32Limited(old(Left()), limit), r, Left())
    {
      var n :- TakeUnsigned(4);
      if n > limit { return Err(InvalidOwnershipAuthorization); }
      r := TakeBytes(n);
    }

    method TakeU32() returns (r: Result<seq<byte>, ProtocolError>)
      requires Valid()
      modifies this
      ensures Valid() && Took(BytesU32(old(Left())), r, Left())
    {
      var n :- TakeUnsigned(4);
      if n > MAX_PAYLOAD { return Err(PayloadTooLarge); }
      r := TakeBytes(n);
    }

    method TakeVersioned(expected: byte) returns (r: Result<Target, ProtocolError>)
      requires Valid()
      modifies this
      ensures Valid() && Took(ReadVersioned(old(Left()), expected), r, Left())
    {
      var version :- TakeU8();
      if version != expected { return Err(UnsupportedVersion(version)); }
      var domain :- TakeBytes(32);
      var serviceKey :- TakeBytes(32);
      var selector :- TakeBytes(8);
      return Ok(Target(version, domain, serviceKey, selector));
    }

    method TakeSigner() returns (r: Result<(byte, seq<byte>), ProtocolError>)
      requires Valid()
      modifies this
      ensures Valid() && Took(ReadSigner(old(Left())), r, Left())
    {
      var scheme :- TakeU8();
      if scheme > 2 { return Err(InvalidEnvelope("unknown signer scheme")); }
      var publicKey :- TakePrefixed(1);
      return Ok((scheme, publicKey));
    }

    method TakeTerms() returns (r: Result<Terms, ProtocolError>)
      requires Valid()
      modifies this
      ensures Valid() && Took(ReadNumbers(old(Left())), r, Left())
    {
      hide FromLE;
      var nonce :- TakeU64();
      var validUntil :- TakeU64();
      var payloadHash :- TakeBytes(32);
      return Ok(Terms(nonce, validUntil, payloadHash));
    }

    method TakeOwner() returns (r: Result<Ownership, ProtocolError>)
      requires Valid()
      modifies this
      ensures Valid() && Took(ReadOwnership(old(Left())), r, Left())
    {
      hide DecodeOwnership;
      var encoded :- TakePrefixed(2);
      var owner := DecodeOwnership(encoded);
      if owner.Err? { return Err(FromOwnership(owner.error)); }
      return Ok(owner.value);
    }

    method TakeDelegate() returns (r: Result<Option<Ownership>, ProtocolError>)
      requires Valid()
      modifies this
      ensures Valid() && Took(ReadDelegate(old(Left())), r, Left())
    {
      hide ReadOwnership;
      var flag :- TakeU8();
      if flag == 0 { return Ok(None); }
      if flag != 1 { return Err(InvalidEnvelope("invalid act_as flag")); }
      var owner :- TakeOwner();
      return Ok(Some(owner));
    }

    method TakeV1() returns (r: Result<SignedV1, ProtocolError>)
      requires Valid() && offset == 0
      modifies this
      ensures r == DecodeV1(bytes)
    {
      hide ReadVersioned, ReadSigner, ReadNumbers, Prefixed, BytesU32;
      var target :- TakeVersioned(1);
      var signer :- TakeSigner();
      var terms :- TakeTerms();
      var signature :- TakePrefixed(1);
      var payload :- TakeU32();
      if offset != |bytes| { return Err(InvalidEnvelope("trailing bytes")); }
      var a := SignedV1(target, signer.0, signer.1, terms, signature, payload);
      var _ :- CheckShapeV1(a);
      return Ok(a);
    }

    method TakeV2() returns (r: Result<SignedV2, ProtocolError>)
      requires Valid() && offset == 0
      modifies this
      ensures r == DecodeV2(bytes)
    {
      hide ReadVersioned, ReadOwnership, ReadDelegate, ReadNumbers, BytesU32, BytesU32Limited;
      var target :- TakeVersioned(2);
      var controller :- TakeOwner();
      var actAs :- TakeDelegate();
      var terms :- TakeTerms();
      var proof :- TakeU32Limited(MAX_PROOF);
      var payload :- TakeU32();
      if offset != |bytes| { return Err(InvalidEnvelope("trailing envelope bytes")); }
      var a := SignedV2(target, controller, actAs, terms, proof, payload);
      var _ :- CheckShapeV2(a);
      return Ok(a);
    }
  }

  /** `SignedActionV1::decode`. */
  method ReadV1(b: seq<byte>) returns (r: Result<SignedV1, ProtocolError>)
    ensures r == DecodeV1(b)
    ensures forall a :: r == Ok(a) <==> a.Shaped() && a.scheme <= 2 && b == EncodeV1(a)
  {
    hide DecodeV1, EncodeV1;
    forall a ensures DecodeV1(b) == Ok(a) <==> a.Shaped() && a.scheme <= 2 && b == EncodeV1(a) { DecodesV1(b, a); }
    var reader := new Reader(b);
    r := reader.TakeV1();
  }

  /** `SignedActionV2::decode`. */
  method ReadV2(b: seq<byte>) returns (r: Result<SignedV2, ProtocolError>)
    ensures r == DecodeV2(b)
    ensures forall a :: r == Ok(a) <==> a.Shaped() && b == EncodeV2(a)
  {
    hide DecodeV2, EncodeV2;
    forall a ensures DecodeV2(b) == Ok(a) <==> a.Shaped() && b == EncodeV2(a) { DecodesV2(b, a); }
    var reader := new Reader(b);
    r := reader.TakeV2();
  }

  /** `SignedActionV1::encode`. */
  method WriteV1(a: SignedV1) returns (r: Result<seq<byte>, ProtocolError>)
    ensures r.Ok? <==> |a.publicKey| <= MAX_PUBLIC_KEY && |a.signature| <= MAX_SIGNATURE && |a.payload| <= MAX_PAYLOAD
    ensures r.Ok? ==> r.value == EncodeV1(a)
    ensures r == Err(PayloadTooLarge) <==>
      |a.publicKey| <= MAX_PUBLIC_KEY && |a.signature| <= MAX_SIGNATURE && |a.payload| > MAX_PAYLOAD
  {
    hide LE;
    var _ :- CheckShapeV1(a);
    var output := [a.target.version];
    output := output + a.target.domain;
    output := output + a.target.serviceKey;
    output := output + a.target.selector;
    assert output == WriteTarget(a.target);
    output := output + [a.scheme];
    output := output + LE(|a.publicKey|, 1);
    output := output + a.publicKey;
    assert output == WriteTarget(a.target) + [a.scheme] + WriteCounted(a.publicKey, 1);
    ghost var head := output;
    output := output + LE(a.terms.nonce, 8);
    output := output + LE(a.terms.validUntil, 8);
    output := output + a.terms.payloadHash;
    assert output == head + WriteTerms(a.terms);
    output := output + LE(|a.signature|, 1);
    output := output + a.signature;
    assert output == head + WriteTerms(a.terms) + WriteCounted(a.signature, 1);
    output := output + LE(|a.payload|, 4);
    output := output + a.payload;
    return Ok(output);
  }

  /** `SignedActionV2::encode`: it succeeds exactly on well-shaped actions. */
  method WriteV2(a: SignedV2) returns (r: Result<seq<byte>, ProtocolError>)
    requires a.target.Sized() && a.terms.Sized()
    ensures r.Ok? <==> a.Shaped()
    ensures r.Ok? ==> r.value == EncodeV2(a)
  {
    hide LE, EncodeOwnership;
    var _ :- CheckShapeV2(a);
    OwnershipLayout(a.controller);
    var controller: seq<byte>;
    match EncodeOwnership(a.controller) {
      case Err(error) => return Err(FromOwnership(error));
      case Ok(encoded) => controller := encoded;
    }
    var actAs: Option<seq<byte>> := None;
    if a.actAs.Some? {
      OwnershipLayout(a.actAs.value);
      match EncodeOwnership(a.actAs.value) {
        case Err(error) => return Err(FromOwnership(error));
        case Ok(encoded) => actAs := Some(encoded);
      }
    }
    var output := [a.target.version];
    output := output + a.target.domain;
    output := output + a.target.serviceKey;
    output := output + a.target.selector;
    assert output == WriteTarget(a.target);
    output := output + LE(|controller|, 2);
    output := output + controller;
    assert output == WriteTarget(a.target) + WriteCounted(OwnerBytes(a.controller), 2);
    ghost var head := output;
    if actAs.Some? {
      output := output + [1];
      output := output + LE(|actAs.value|, 2);
      output := output + actAs.value;
    } else {
      output := output + [0];
    }
    assert output == head + WriteActAs(a.actAs);
    head := output;
    output := output + LE(a.terms.nonce, 8);
    output := output + LE(a.terms.validUntil, 8);
    output := output + a.terms.payloadHash;
    assert output == head + WriteTerms(a.terms);
    output := output + LE(|a.proof|, 4);
    output := output + a.proof;
    assert output == head + WriteTerms(a.terms) + WriteCounted(a.proof, 4);
    output := output + LE(|a.payload|, 4);
    output := output + a.payload;
    return Ok(output);
  }

  /** `action_commitment` before hashing: it exists exactly for well-shaped actions. */
  method Commit(a: SignedV2) returns (r: Result<seq<byte>, ProtocolError>)
    requires a.target.Sized() && a.terms.Sized()
    ensures r.Ok? <==> a.Shaped()
    ensures r == if CheckShapeV2(a).Err? then Err(CheckShapeV2(a).error) else Ok(CommitmentV2(a))
  {
    hide LE, EncodeOwnership;
    var _ :- CheckShapeV2(a);
    var preimage := ActionDomain(2);
    preimage := preimage + a.target.domain;
    preimage := preimage + a.target.serviceKey;
    preimage := preimage + a.target.selector;
    OwnershipLayout(a.controller);
    var controller: seq<byte>;
    match EncodeOwnership(a.controller) {
      case Err(error) => return Err(FromOwnership(error));
      case Ok(encoded) => controller := encoded;
    }
    preimage := preimage + controller;
    ghost var head := preimage;
    if a.actAs.Some? {
      preimage := preimage + [1];
      OwnershipLayout(a.actAs.value);
      match EncodeOwnership(a.actAs.value) {
        case Err(error) => return Err(FromOwnership(error));
        case Ok(encoded) => preimage := preimage + encoded;
      }
    } else {
      preimage := preimage + [0];
    }
    assert preimage == head + (match a.actAs case None => [0] case Some(o) => [1] + OwnerBytes(o));
    head := preimage;
    preimage := preimage + LE(a.terms.nonce, 8);
    preimage := preimage + LE(a.terms.validUntil, 8);
    preimage := preimage + a.terms.payloadHash;
    assert preimage == head + WriteTerms(a.terms);
    return Ok(preimage);
  }

  /** `SignedActionV2::verify` up to the signature check: the error, or the bytes whose hash is checked. */
  function Admit(hash: seq<byte> -> seq<byte>, a: SignedV2, e: Expected, tick: u64): Result<seq<byte>, ProtocolError> {
    var _ :- CheckShapeV2(a);
    if a.target.domain != e.domain then Err(WrongNetwork)
    else if a.target.serviceKey != e.serviceKey then Err(WrongService)
    else if a.target.selector != e.selector then Err(UnknownAction)
    else if tick > a.terms.validUntil then Err(Expired)
    else if e.nonce.Some? && a.terms.nonce != e.nonce.value then
      Err(OwnershipNonceMismatch(e.nonce.value, a.terms.nonce))
    else if hash(a.payload) != a.terms.payloadHash then Err(PayloadHashMismatch)
    else if a.actAs.Some? then Err(ActAsUnsupported)
    else if a.proof == [] then Err(InvalidOwnershipAuthorization)
    else Ok(CommitmentV2(a))
  }

  method Verify(hash: seq<byte> -> seq<byte>, a: SignedV2, e: Expected, tick: u64)
    returns (r: Result<seq<byte>, ProtocolError>)
    requires a.target.Sized() && a.terms.Sized()
    ensures r == Admit(hash, a, e, tick)
    ensures r == Ok(CommitmentV2(a)) <==> a.Shaped() && Due(hash, a, e) && tick <= a.terms.validUntil
  {
    hide CommitmentV2;
    var _ :- CheckShapeV2(a);
    if a.target.domain != e.domain { return Err(WrongNetwork); }
    if a.target.serviceKey != e.serviceKey { return Err(WrongService); }
    if a.target.selector != e.selector { return Err(UnknownAction); }
    if tick > a.terms.validUntil { return Err(Expired); }
    if e.nonce.Some? {
      if a.terms.nonce != e.nonce.value { return Err(OwnershipNonceMismatch(e.nonce.value, a.terms.nonce)); }
    }
    if hash(a.payload) != a.terms.payloadHash { return Err(PayloadHashMismatch); }
    if a.actAs.Some? { return Err(ActAsUnsupported); }
    if a.proof == [] { return Err(InvalidOwnershipAuthorization); }
    r := Commit(a);
  }
}
