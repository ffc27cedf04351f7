/** The runtime core linked into the guest: its own decoders and its own commitment. */
module GuestEnvelopes {
  import opened Wrappers
  import opened Bytes
  import opened Ownerships
  import opened Envelopes

  datatype GuestError =
    | PayloadTooLarge | UnsupportedVersion | InvalidEnvelope | InvalidOwnershipEncoding | WrongNetwork
    | WrongService | UnknownAction | PayloadHashMismatch | OwnershipNonceMismatch | ActAsUnsupported
    | InvalidOwnershipAuthorization

  /** `Reader::take`. */
  function Take(b: seq<byte>, n: nat): Result<Read<seq<byte>>, GuestError> {
    if |b| < n then Err(InvalidEnvelope) else Ok(Read(b[..n], b[n..]))
  }

  function U8(b: seq<byte>): Result<Read<byte>, GuestError> {
    var x :- Take(b, 1);
    Ok(Read(x.value[0], x.rest))
  }

  function Unsigned(b: seq<byte>, width: nat): Result<Read<nat>, GuestError> {
    var x :- Take(b, width);
    Ok(Read(FromLE(x.value), x.rest))
  }

  /** `bytes_u8` and `bytes_u16`. */
  function Prefixed(b: seq<byte>, width: nat): Result<Read<seq<byte>>, GuestError> {
    var n :- Unsigned(b, width);
    Take(n.rest, n.value)
  }

  function BytesU32Limited(b: seq<byte>, limit: nat): Result<Read<seq<byte>>, GuestError> {
    var n :- Unsigned(b, 4);
    if n.value > limit then Err(PayloadTooLarge) else Take(n.rest, n.value)
  }

  function BytesU32(b: seq<byte>): Result<Read<seq<byte>>, GuestError> {
    var n :- Unsigned(b, 4);
    if n.value > MAX_ACTION then Err(PayloadTooLarge) else Take(n.rest, n.value)
  }

  /** The bytes an option-valued reader leaves and this one leaves are the same. */
  ghost predicate Same<T(!new)>(r: Result<Read<T>, GuestError>, spec: Option<Read<T>>) {
    match spec
    case Some(x) => r == Ok(x)
    case None => r.Err?
  }

  lemma {:induction false} PrefixedSame(b: seq<byte>, width: nat, limit: nat)
    requires limit + 1 == Pow256(width)
    ensures Same(Prefixed(b, width), Counted(b, width, limit))
  {
    if |b| >= width { FromLEBound(b[..width]); }
  }

  lemma {:induction false} LimitedSame(b: seq<byte>, limit: nat)
    ensures Same(BytesU32Limited(b, limit), Counted(b, 4, limit))
    ensures Same(BytesU32(b), Counted(b, 4, MAX_ACTION))
  {
  }

  function ReadVersioned(b: seq<byte>, version: byte): Result<Read<Target>, GuestError> {
    var v :- U8(b);
    if v.value != version then Err(UnsupportedVersion)
    else
      var domain :- Take(v.rest, 32);
      var key :- Take(domain.rest, 32);
      var selector :- Take(key.rest, 8);
      Ok(Read(Target(v.value, domain.value, key.value, selector.value), selector.rest))
  }

  lemma {:induction false} VersionedSame(b: seq<byte>, version: byte)
    ensures var spec := ReadTarget(b);
      Same(ReadVersioned(b, version), if spec.Some? && spec.value.value.version == version then spec else None)
  {
    if |b| >= 73 {
      assert b[1..][..32] == b[1..33] && b[1..][32..] == b[33..];
      assert b[33..][..32] == b[33..65] && b[33..][32..] == b[65..];
      assert b[65..][..8] == b[65..73] && b[65..][8..] == b[73..];
    }
  }

  function ReadNumbers(b: seq<byte>): Result<Read<Terms>, GuestError> {
    var nonce :- Unsigned(b, 8);
    var until :- Unsigned(nonce.rest, 8);
    var hash :- Take(until.rest, 32);
    NumbersFit(b[..8]);
    NumbersFit(nonce.rest[..8]);
    Ok(Read(Terms(nonce.value, until.value, hash.value), hash.rest))
  }

  lemma {:induction false} NumbersSame(b: seq<byte>)
    ensures Same(ReadNumbers(b), ReadTerms(b))
  {
    hide FromLE;
    if |b| >= 48 {
      assert b[8..][..8] == b[8..16] && b[8..][8..] == b[16..];
      assert b[16..][..32] == b[16..48] && b[16..][32..] == b[48..];
    }
  }

  /** Scheme and public key; the scheme is not looked at. */
  function ReadSigner(b: seq<byte>): Result<Read<(byte, seq<byte>)>, GuestError> {
    var scheme :- U8(b);
    var key :- Prefixed(scheme.rest, 1);
    Ok(Read((scheme.value, key.value), key.rest))
  }

  lemma {:induction false} SignerSame(b: seq<byte>)
    ensures Same(ReadSigner(b), ReadSignerV1(b))
  {
    hide Prefixed, Counted;
    Pow256Values();
    if b != [] { PrefixedSame(b[1..], 1, 255); }
  }

  /** `decode_signed_action_v1`: length first, key and signature sizes last. */
  function DecodeV1(b: seq<byte>): Result<SignedV1, GuestError> {
    if |b| > MAX_ACTION then Err(PayloadTooLarge)
    else
      var target :- ReadVersioned(b, 1);
      var signer :- ReadSigner(target.rest);
      var terms :- ReadNumbers(signer.rest);
      var signature :- Prefixed(terms.rest, 1);
      var payload :- BytesU32(signature.rest);
      if payload.rest != [] then Err(InvalidEnvelope)
      else if |signer.value.1| > 32 || |signature.value| > 64 then Err(InvalidEnvelope)
      else
        Ok(SignedV1(target.value, signer.value.0, signer.value.1, terms.value, signature.value, payload.value))
  }

  /** The decoder accepts exactly the encodings of well-shaped actions within its length limit. */
  lemma {:induction false} DecodesV1(b: seq<byte>, a: SignedV1)
    ensures DecodeV1(b) == Ok(a) <==> a.Shaped() && |b| <= MAX_ACTION && b == EncodeV1(a)
  {
    hide ReadVersioned, ReadSigner, ReadNumbers, Prefixed, BytesU32, Counted, ReadTarget, ReadSignerV1, ReadTerms,
      EncodeV1;
    V1Inverse(b, a);
    VersionedSame(b, 1);
    if ReadTarget(b).Some? {
      SignerSame(ReadTarget(b).value.rest);
      var signer := ReadSignerV1(ReadTarget(b).value.rest);
      if signer.Some? {
        NumbersSame(signer.value.rest);
        var terms := ReadTerms(signer.value.rest);
        if terms.Some? {
          Pow256Values();
          PrefixedSame(terms.value.rest, 1, 255);
          var signature := Counted(terms.value.rest, 1, 255);
          if signature.Some? { LimitedSame(signature.value.rest, MAX_PROOF); }
        }
      }
    }
  }

  function ReadOwnership(b: seq<byte>): Result<Read<Ownership>, GuestError> {
    var e :- Prefixed(b, 2);
    match DecodeOwnership(e.value)
    case Ok(o) => Ok(Read(o, e.rest))
    case Err(error) => Err(InvalidOwnershipEncoding)
  }

  lemma {:induction false} OwnershipSame(b: seq<byte>)
    ensures Same(ReadOwnership(b), ReadOwner(b))
  {
    hide DecodeOwnership, Prefixed, Counted;
    Pow256Values();
    PrefixedSame(b, 2, 0xffff);
  }

  function ReadDelegate(b: seq<byte>): Result<Read<Option<Ownership>>, GuestError> {
    var flag :- U8(b);
    if flag.value == 0 then Ok(Read(None, flag.rest))
    else if flag.value == 1 then
      var o :- ReadOwnership(flag.rest);
      Ok(Read(Some(o.value), o.rest))
    else Err(InvalidEnvelope)
  }

  lemma {:induction false} DelegateSame(b: seq<byte>)
    ensures Same(ReadDelegate(b), ReadActAs(b))
  {
    hide ReadOwnership, ReadOwner;
    if b != [] { OwnershipSame(b[1..]); }
  }

  /** `decode_signed_action_v2`: length first, and no shape check after the fields. */
  function DecodeV2(b: seq<byte>): Result<SignedV2, GuestError> {
    if |b| > MAX_ACTION then Err(PayloadTooLarge)
    else
      var target :- ReadVersioned(b, 2);
      var controller :- ReadOwnership(target.rest);
      var actAs :- ReadDelegate(controller.rest);
      var terms :- ReadNumbers(actAs.rest);
      var proof :- BytesU32Limited(terms.rest, MAX_PROOF);
      var payload :- BytesU32(proof.rest);
      if payload.rest != [] then Err(InvalidEnvelope)
      else Ok(SignedV2(target.value, controller.value, actAs.value, terms.value, proof.value, payload.value))
  }

  /** The decoder accepts exactly the encodings of well-shaped actions within its length limit. */
  lemma {:induction false} DecodesV2(b: seq<byte>, a: SignedV2)
    ensures DecodeV2(b) == Ok(a) <==> a.Shaped() && |b| <= MAX_ACTION && b == EncodeV2(a)
  {
    hide ReadVersioned, ReadOwnership, ReadDelegate, ReadNumbers, BytesU32Limited, BytesU32, Counted, ReadTarget,
      ReadOwner, ReadActAs, ReadTerms, EncodeV2;
    V2Inverse(b, a);
    VersionedSame(b, 2);
    if ReadTarget(b).Some? {
      OwnershipSame(ReadTarget(b).value.rest);
      var o := ReadOwner(ReadTarget(b).value.rest);
      if o.Some? {
        DelegateSame(o.value.rest);
        var f := ReadActAs(o.value.rest);
        if f.Some? {
          NumbersSame(f.value.rest);
          var terms := ReadTerms(f.value.rest);
          if terms.Some? {
            LimitedSame(terms.value.rest, MAX_PROOF);
            var proof := Counted(terms.value.rest, 4, MAX_PROOF);
            if proof.Some? { LimitedSame(proof.value.rest, MAX_PROOF); }
          }
        }
      }
    }
  }

  /** What a cursor step returns and leaves, against the step on the bytes still unread. */
  ghost predicate Took<T(!new)>(spec: Result<Read<T>, GuestError>, r: Result<T, GuestError>, left: seq<byte>) {
    match spec
    case Ok(x) => r == Ok(x.value) && left == x.rest
    case Err(e) => r == Err(e)
  }

  class Reader {
    const bytes: seq<byte>
    var offset: nat

    ghost predicate Valid() reads this { offset <= |bytes| }

    ghost function Left(): seq<byte>
      requires Valid()
      reads this
    {
      bytes[offset..]
    }

    constructor (b: seq<byte>)
      ensures Valid() && bytes == b && Left() == b
    {
      bytes, offset := b, 0;
    }

    method TakeBytes(n: nat) returns (r: Result<seq<byte>, GuestError>)
      requires Valid()
      modifies this
      ensures Valid() && Took(Take(old(Left()), n), r, Left())
    {
      if offset + n > |bytes| { return Err(InvalidEnvelope); }
      assert Left()[..n] == bytes[offset..offset + n] && Left()[n..] == bytes[offset + n..];
      r := Ok(bytes[offset..offset + n]);
      offset := offset + n;
    }

    method TakeU8() returns (r: Result<byte, GuestError>)
      requires Valid()
      modifies this
      ensures Valid() && Took(U8(old(Left())), r, Left())
    {
      var x :- TakeBytes(1);
      return Ok(x[0]);
    }

    method TakeUnsigned(width: nat) returns (r: Result<nat, GuestError>)
      requires Valid()
      modifies this
      ensures Valid() && Took(Unsigned(old(Left()), width), r, Left())
    {
      var x :- TakeBytes(width);
      return Ok(FromLE(x));
    }

    method TakeU64() returns (r: Result<u64, GuestError>)
      requires Valid()
      modifies this
      ensures Valid()
      ensures var spec := Unsigned(old(Left()), 8);
        if spec.Ok? then r.Ok? && r.value == spec.value.value && Left() == spec.value.rest
        else r.Err? && r.error == spec.error
    {
      var x :- TakeBytes(8);
      NumbersFit(x);
      return Ok(FromLE(x));
    }

    method TakePrefixed(width: nat) returns (r: Result<seq<byte>, GuestError>)
      requires Valid()
      modifies this
      ensures Valid() && Took(Prefixed(old(Left()), width), r, Left())
    {
      var n :- TakeUnsigned(width);
      r := TakeBytes(n);
    }

    method TakeU32Limited(limit: nat) returns (r: Result<seq<byte>, GuestError>)
      requires Valid()
      modifies this
      ensures Valid() && Took(BytesU32Limited(old(Left()), limit), r, Left())
    {
      var n :- TakeUnsigned(4);
      if n > limit { return Err(PayloadTooLarge); }
      r := TakeBytes(n);
    }

    method TakeU32() returns (r: Result<seq<byte>, GuestError>)
      requires Valid()
      modifies this
      ensures Valid() && Took(BytesU32(old(Left())), r, Left())
    {
      var n :- TakeUnsigned(4);
      if n > MAX_ACTION { return Err(PayloadTooLarge); }
      r := TakeBytes(n);
    }

    method TakeVersioned(expected: byte) returns (r: Result<Target, GuestError>)
      requires Valid()
      modifies this
      ensures Valid() && Took(ReadVersioned(old(Left()), expected), r, Left())
    {
      var version :- TakeU8();
      if version != expected { return Err(UnsupportedVersion); }
      var domain :- TakeBytes(32);
      var serviceKey :- TakeBytes(32);
      var selector :- TakeBytes(8);
      return Ok(Target(version, domain, serviceKey, selector));
    }

    method TakeSigner() returns (r: Result<(byte, seq<byte>), GuestError>)
      requires Valid()
      modifies this
      ensures Valid() && Took(ReadSigner(old(Left())), r, Left())
    {
      var scheme :- TakeU8();
      var publicKey :- TakePrefixed(1);
      return Ok((scheme, publicKey));
    }

    method TakeTerms() returns (r: Result<Terms, GuestError>)
      requires Valid()
      modifies this
      ensures Valid() && Took(ReadNumbers(old(Left())), r, Left())
    {
      hide FromLE;
      var nonce :- TakeU64();
      var validUntil :- TakeU64();
      var payloadHash :- TakeBytes(32);
      return Ok(Terms(nonce, validUntil, payloadHash));
    }

    method TakeOwner() returns (r: Result<Ownership, GuestError>)
      requires Valid()
      modifies this
      ensures Valid() && Took(ReadOwnership(old(Left())), r, Left())
    {
      hide DecodeOwnership;
      var encoded :- TakePrefixed(2);
      var owner := DecodeOwnership(encoded);
      if owner.Err? { return Err(InvalidOwnershipEncoding); }
      return Ok(owner.value);
    }

    method TakeDelegate() returns (r: Result<Option<Ownership>, GuestError>)
      requires Valid()
      modifies this
      ensures Valid() && Took(ReadDelegate(old(Left())), r, Left())
    {
      hide ReadOwnership;
      var flag :- TakeU8();
      if flag == 0 { return Ok(None); }
      if flag != 1 { return Err(InvalidEnvelope); }
      var owner :- TakeOwner();
      return Ok(Some(owner));
    }

    method TakeV1() returns (r: Result<SignedV1, GuestError>)
      requires Valid() && offset == 0
      modifies this
      ensures r == DecodeV1(bytes)
    {
      hide ReadVersioned, ReadSigner, ReadNumbers, Prefixed, BytesU32;
      if |bytes| > MAX_ACTION { return Err(PayloadTooLarge); }
      var target :- TakeVersioned(1);
      var signer :- TakeSigner();
      var terms :- TakeTerms();
      var signature :- TakePrefixed(1);
      var payload :- TakeU32();
      if offset != |bytes| { return Err(InvalidEnvelope); }
      var a := SignedV1(target, signer.0, signer.1, terms, signature, payload);
      if |signer.1| > 32 || |signature| > 64 { return Err(InvalidEnvelope); }
      return Ok(a);
    }

    method TakeV2() returns (r: Result<SignedV2, GuestError>)
      requires Valid() && offset == 0
      modifies this
      ensures r == DecodeV2(bytes)
    {
      hide ReadVersioned, ReadOwnership, ReadDelegate, ReadNumbers, BytesU32, BytesU32Limited;
      if |bytes| > MAX_ACTION { return Err(PayloadTooLarge); }
      var target :- TakeVersioned(2);
      var controller :- TakeOwner();
      var actAs :- TakeDelegate();
      var terms :- TakeTerms();
      var proof :- TakeU32Limited(MAX_PROOF);
      var payload :- TakeU32();
      if offset != |bytes| { return Err(InvalidEnvelope); }
      var a := SignedV2(target, controller, actAs, terms, proof, payload);
      return Ok(a);
    }
  }

  /** `decode_signed_action_v1`. */
  method ReadV1(b: seq<byte>) returns (r: Result<SignedV1, GuestError>)
    ensures r == DecodeV1(b)
    ensures forall a :: r == Ok(a) <==> a.Shaped() && |b| <= MAX_ACTION && b == EncodeV1(a)
  {
    hide DecodeV1, EncodeV1;
    forall a ensures DecodeV1(b) == Ok(a) <==> a.Shaped() && |b| <= MAX_ACTION && b == EncodeV1(a) { DecodesV1(b, a); }
    var reader := new Reader(b);
    r := reader.TakeV1();
  }

  /** `decode_signed_action_v2`. */
  method ReadV2(b: seq<byte>) returns (r: Result<SignedV2, GuestError>)
    ensures r == DecodeV2(b)
    ensures forall a :: r == Ok(a) <==> a.Shaped() && |b| <= MAX_ACTION && b == EncodeV2(a)
  {
    hide DecodeV2, EncodeV2;
    forall a ensures DecodeV2(b) == Ok(a) <==> a.Shaped() && |b| <= MAX_ACTION && b == EncodeV2(a) { DecodesV2(b, a); }
    var reader := new Reader(b);
    r := reader.TakeV2();
  }

  /** `verify_signed_action_v2` up to the signature check; its own preimage, built after `act_as` is refused. */
  function Admit(hash: seq<byte> -> seq<byte>, a: SignedV2, e: Expected): Result<seq<byte>, GuestError> {
    if a.target.domain != e.domain then Err(WrongNetwork)
    else if a.target.serviceKey != e.serviceKey then Err(WrongService)
    else if a.target.selector != e.selector then Err(UnknownAction)
    else if hash(a.payload) != a.terms.payloadHash then Err(PayloadHashMismatch)
    else if e.nonce.Some? && a.terms.nonce != e.nonce.value then Err(OwnershipNonceMismatch)
    else if a.actAs.Some? then Err(ActAsUnsupported)
    else if a.proof == [] then Err(InvalidOwnershipAuthorization)
    else
      match EncodeOwnership(a.controller)
      case Err(_) => Err(InvalidOwnershipEncoding)
      case Ok(controller) =>
        Ok(ActionDomain(2) + a.target.domain + a.target.serviceKey + a.target.selector + controller + [0] +
           LE(a.terms.nonce, 8) + LE(a.terms.validUntil, 8) + a.terms.payloadHash)
  }

  /** The guest's preimage exists exactly for an action that is due and has a valid owner, and is then the
      commitment the protocol crate signs. */
  lemma {:induction false} AdmitsIff(hash: seq<byte> -> seq<byte>, a: SignedV2, e: Expected)
    ensures Admit(hash, a, e).Ok? <==> Due(hash, a, e) && Validate(a.controller).Ok?
    ensures Admit(hash, a, e).Ok? ==> Admit(hash, a, e).value == CommitmentV2(a)
  {
    hide LE, EncodeOwnership;
    OwnershipLayout(a.controller);
    if Due(hash, a, e) && Validate(a.controller).Ok? {
      var head := ActionDomain(2) + a.target.domain + a.target.serviceKey + a.target.selector +
        OwnerBytes(a.controller) + [0];
      assert head + WriteTerms(a.terms) ==
        head + LE(a.terms.nonce, 8) + LE(a.terms.validUntil, 8) + a.terms.payloadHash;
    }
  }

  method Verify(hash: seq<byte> -> seq<byte>, a: SignedV2, e: Expected) returns (r: Result<seq<byte>, GuestError>)
    ensures r == Admit(hash, a, e)
    ensures r == Ok(CommitmentV2(a)) <==> Due(hash, a, e) && Validate(a.controller).Ok?
  {
    hide LE, EncodeOwnership, CommitmentV2;
    AdmitsIff(hash, a, e);
    if a.target.domain != e.domain { return Err(WrongNetwork); }
    if a.target.serviceKey != e.serviceKey { return Err(WrongService); }
    if a.target.selector != e.selector { return Err(UnknownAction); }
    if hash(a.payload) != a.terms.payloadHash { return Err(PayloadHashMismatch); }
    if e.nonce.Some? {
      if a.terms.nonce != e.nonce.value { return Err(OwnershipNonceMismatch); }
    }
    if a.actAs.Some? { return Err(ActAsUnsupported); }
    if a.proof == [] { return Err(InvalidOwnershipAuthorization); }
    var commitment := ActionDomain(2);
    commitment := commitment + a.target.domain;
    commitment := commitment + a.target.serviceKey;
    commitment := commitment + a.target.selector;
    var controller := EncodeOwnership(a.controller);
    if controller.Err? { return Err(InvalidOwnershipEncoding); }
    commitment := commitment + controller.value;
    commitment := commitment + [0];
    commitment := commitment + LE(a.terms.nonce, 8);
    commitment := commitment + LE(a.terms.validUntil, 8);
    commitment := commitment + a.terms.payloadHash;
    return Ok(commitment);
  }
}
