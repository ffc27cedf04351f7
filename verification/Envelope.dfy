/** Signed action envelopes: their fields and their wire layout. */
module Envelopes {
  import opened Wrappers
  import opened Bytes
  import opened Ownerships

  const MAX_PAYLOAD: nat := 1_048_576
  const MAX_ACTION: nat := 1_048_576
  const MAX_PROOF: nat := 65_536
  const MAX_PUBLIC_KEY: nat := 32
  const MAX_SIGNATURE: nat := 64

  /** A parsed field and the bytes behind it. */
  datatype Read<+T> = Read(value: T, rest: seq<byte>)

  /** `Reader::array` and `Reader::take`. */
  function Array(b: seq<byte>, n: nat): Option<Read<seq<byte>>> {
    if |b| < n then None else Some(Read(b[..n], b[n..]))
  }

  function Number(b: seq<byte>, width: nat): Option<Read<nat>> {
    if |b| < width then None else Some(Read(FromLE(b[..width]), b[width..]))
  }

  /** `bytes_u8`, `bytes_u16`, `bytes_u32`: a length, at most `limit`, and that many bytes. */
  function Counted(b: seq<byte>, width: nat, limit: nat): Option<Read<seq<byte>>> {
    var n := Number(b, width);
    if n.None? || n.value.value > limit then None else Array(n.value.rest, n.value.value)
  }

  function WriteCounted(x: seq<byte>, width: nat): seq<byte> {
    LE(|x|, width) + x
  }

  lemma {:induction false} ArrayInverse(b: seq<byte>, n: nat, x: seq<byte>, rest: seq<byte>)
    ensures Array(b, n) == Some(Read(x, rest)) <==> |x| == n && b == x + rest
  {
    if |b| >= n {
      assert b == b[..n] + b[n..];
    }
    if |x| == n && b == x + rest {
      assert b[..n] == x && b[n..] == rest;
    }
  }

  lemma {:induction false} NumberInverse(b: seq<byte>, width: nat, v: nat, rest: seq<byte>)
    ensures Number(b, width) == Some(Read(v, rest)) <==> v < Pow256(width) && b == LE(v, width) + rest
  {
    if |b| >= width {
      FromLEBound(b[..width]);
      LEOfFromLE(b[..width]);
      assert b == b[..width] + b[width..];
    }
    if v < Pow256(width) && b == LE(v, width) + rest {
      FromLEOfLE(v, width);
      assert b[..width] == LE(v, width) && b[width..] == rest;
    }
  }

  lemma {:induction false} CountedInverse(b: seq<byte>, width: nat, limit: nat, x: seq<byte>, rest: seq<byte>)
    requires limit < Pow256(width)
    ensures Counted(b, width, limit) == Some(Read(x, rest)) <==> |x| <= limit && b == WriteCounted(x, width) + rest
  {
    hide Array, Number;
    assert WriteCounted(x, width) + rest == LE(|x|, width) + (x + rest);
    NumberInverse(b, width, |x|, x + rest);
    if Counted(b, width, limit) == Some(Read(x, rest)) {
      var n := Number(b, width).value;
      ArrayInverse(n.rest, n.value, x, rest);
    }
    if |x| <= limit && b == WriteCounted(x, width) + rest {
      ArrayInverse(x + rest, |x|, x, rest);
    }
  }

  /** What both versions start with. */
  datatype Target = Target(version: byte, domain: seq<byte>, serviceKey: seq<byte>, selector: seq<byte>)
  {
    predicate Sized() { |domain| == 32 && |serviceKey| == 32 && |selector| == 8 }
  }

  /** What both versions carry between the signer and the variable-length tail. */
  datatype Terms = Terms(nonce: u64, validUntil: u64, payloadHash: seq<byte>)
  {
    predicate Sized() { |payloadHash| == 32 }
  }

  function WriteTarget(t: Target): seq<byte> {
    [t.version] + t.domain + t.serviceKey + t.selector
  }

  function ReadTarget(b: seq<byte>): Option<Read<Target>> {
    if |b| < 73 then None else Some(Read(Target(b[0], b[1..33], b[33..65], b[65..73]), b[73..]))
  }

  function WriteTerms(t: Terms): seq<byte> {
    LE(t.nonce, 8) + LE(t.validUntil, 8) + t.payloadHash
  }

  function ReadTerms(b: seq<byte>): Option<Read<Terms>> {
    if |b| < 48 then None
    else
      NumbersFit(b[..8]);
      NumbersFit(b[8..16]);
      Some(Read(Terms(FromLE(b[..8]), FromLE(b[8..16]), b[16..48]), b[48..]))
  }

  lemma {:induction false} NumbersFit(b: seq<byte>)
    requires |b| == 8
    ensures FromLE(b) <= U64_MAX
  {
    Pow256Values();
    FromLEBound(b);
  }

  lemma {:induction false} TargetInverse(b: seq<byte>, t: Target, rest: seq<byte>)
    ensures ReadTarget(b) == Some(Read(t, rest)) <==> t.Sized() && b == WriteTarget(t) + rest
  {
    if |b| >= 73 {
      assert b == [b[0]] + b[1..33] + b[33..65] + b[65..73] + b[73..];
    }
    if t.Sized() && b == WriteTarget(t) + rest {
      assert b[1..33] == t.domain && b[33..65] == t.serviceKey && b[65..73] == t.selector && b[73..] == rest;
    }
  }

  lemma {:induction false} TermsInverse(b: seq<byte>, t: Terms, rest: seq<byte>)
    ensures ReadTerms(b) == Some(Read(t, rest)) <==> t.Sized() && b == WriteTerms(t) + rest
  {
    hide FromLE, LE;
    Pow256Values();
    if |b| >= 48 {
      LEOfFromLE(b[..8]);
      LEOfFromLE(b[8..16]);
      assert b == b[..8] + b[8..16] + b[16..48] + b[48..];
    }
    if t.Sized() && b == WriteTerms(t) + rest {
      FromLEOfLE(t.nonce, 8);
      FromLEOfLE(t.validUntil, 8);
      assert b[..8] == LE(t.nonce, 8) && b[8..16] == LE(t.validUntil, 8);
      assert b[16..48] == t.payloadHash && b[48..] == rest;
    }
  }

  // ----- version 1: wallet signatures -----

  datatype SignedV1 = SignedV1(
    target: Target, scheme: byte, publicKey: seq<byte>, terms: Terms, signature: seq<byte>, payload: seq<byte>)
  {
    /** What the encoder's shape check demands, and what a decoded action has besides. */
    predicate Shaped() {
      && target.version == 1 && target.Sized() && terms.Sized()
      && |publicKey| <= MAX_PUBLIC_KEY && |signature| <= MAX_SIGNATURE && |payload| <= MAX_PAYLOAD
    }
  }

  function EncodeV1(a: SignedV1): seq<byte> {
    WriteTarget(a.target) + [a.scheme] + WriteCounted(a.publicKey, 1) + WriteTerms(a.terms) +
    WriteCounted(a.signature, 1) + WriteCounted(a.payload, 4)
  }

  datatype TailV1 = TailV1(signature: seq<byte>, payload: seq<byte>)

  /** The rest of the envelope must be the two counted fields and nothing more. */
  function ReadTailV1(b: seq<byte>): Option<TailV1> {
    var s := Counted(b, 1, 255);
    if s.None? then None
    else
      var p := Counted(s.value.rest, 4, MAX_PAYLOAD);
      if p.None? || p.value.rest != [] then None else Some(TailV1(s.value.value, p.value.value))
  }

  lemma {:induction false} TailV1Inverse(b: seq<byte>, t: TailV1)
    ensures ReadTailV1(b) == Some(t) <==>
      && |t.signature| <= 255 && |t.payload| <= MAX_PAYLOAD
      && b == WriteCounted(t.signature, 1) + WriteCounted(t.payload, 4)
  {
    hide Counted, WriteCounted;
    Pow256Values();
    var sig, pay := WriteCounted(t.signature, 1), WriteCounted(t.payload, 4);
    assert pay + [] == pay;
    CountedInverse(b, 1, 255, t.signature, pay);
    CountedInverse(pay, 4, MAX_PAYLOAD, t.payload, []);
    if ReadTailV1(b) == Some(t) {
      var s := Counted(b, 1, 255).value;
      CountedInverse(s.rest, 4, MAX_PAYLOAD, t.payload, []);
      assert s.rest == pay;
    }
  }

  /** The signed part of the envelope before the terms. */
  function ReadSignerV1(b: seq<byte>): Option<Read<(byte, seq<byte>)>> {
    if b == [] then None
    else
      var k := Counted(b[1..], 1, 255);
      if k.None? then None else Some(Read((b[0], k.value.value), k.value.rest))
  }

  lemma {:induction false} SignerV1Inverse(b: seq<byte>, scheme: byte, key: seq<byte>, rest: seq<byte>)
    ensures ReadSignerV1(b) == Some(Read((scheme, key), rest)) <==>
      |key| <= 255 && b == [scheme] + WriteCounted(key, 1) + rest
  {
    hide Counted, WriteCounted;
    Pow256Values();
    assert [scheme] + WriteCounted(key, 1) + rest == [scheme] + (WriteCounted(key, 1) + rest);
    if b != [] {
      CountedInverse(b[1..], 1, 255, key, rest);
      assert b == [b[0]] + b[1..];
    }
  }

  /** The wire layout of version 1 read back, field group by field group. */
  function ParseV1(b: seq<byte>): Option<SignedV1> {
    var t := ReadTarget(b);
    if t.None? || t.value.value.version != 1 then None
    else
      var k := ReadSignerV1(t.value.rest);
      if k.None? then None
      else
        var m := ReadTerms(k.value.rest);
        if m.None? then None
        else
          var e := ReadTailV1(m.value.rest);
          if e.None? then None
          else if |k.value.value.1| > MAX_PUBLIC_KEY || |e.value.signature| > MAX_SIGNATURE then None
          else Some(SignedV1(t.value.value, k.value.value.0, k.value.value.1, m.value.value,
                             e.value.signature, e.value.payload))
  }

  lemma {:induction false} EncodedV1Parts(a: SignedV1)
    ensures var tail := WriteCounted(a.signature, 1) + WriteCounted(a.payload, 4);
      var terms := WriteTerms(a.terms) + tail;
      var signer := [a.scheme] + WriteCounted(a.publicKey, 1) + terms;
      EncodeV1(a) == WriteTarget(a.target) + signer
  {
    hide WriteTarget, WriteCounted, WriteTerms;
  }

  /** The parser accepts exactly the encoder's image of well-shaped actions, and inverts it. */
  lemma {:induction false} V1Inverse(b: seq<byte>, a: SignedV1)
    ensures ParseV1(b) == Some(a) <==> a.Shaped() && b == EncodeV1(a)
  {
    hide ReadTarget, ReadSignerV1, ReadTerms, ReadTailV1, WriteTarget, WriteCounted, WriteTerms, EncodeV1;
    EncodedV1Parts(a);
    var tail := WriteCounted(a.signature, 1) + WriteCounted(a.payload, 4);
    var terms := WriteTerms(a.terms) + tail;
    var signer := [a.scheme] + WriteCounted(a.publicKey, 1) + terms;
    TargetInverse(b, a.target, signer);
    SignerV1Inverse(signer, a.scheme, a.publicKey, terms);
    TermsInverse(terms, a.terms, tail);
    TailV1Inverse(tail, TailV1(a.signature, a.payload));
    if ParseV1(b) == Some(a) {
      var t := ReadTarget(b).value;
      var k := ReadSignerV1(t.rest).value;
      var m := ReadTerms(k.rest).value;
      TailV1Inverse(m.rest, TailV1(a.signature, a.payload));
      TermsInverse(k.rest, a.terms, m.rest);
      SignerV1Inverse(t.rest, a.scheme, a.publicKey, k.rest);
      TargetInverse(b, a.target, t.rest);
    }
  }

  lemma {:induction false} SchemeAt(a: SignedV1)
    requires a.target.Sized()
    ensures |EncodeV1(a)| > 73 && EncodeV1(a)[73] == a.scheme
  {
    hide WriteCounted, WriteTerms;
    assert |WriteTarget(a.target)| == 73;
  }

  // ----- version 2: ownership -----

  datatype SignedV2 = SignedV2(
    target: Target, controller: Ownership, actAs: Option<Ownership>, terms: Terms, proof: seq<byte>, payload: seq<byte>)
  {
    predicate Shaped() {
      && target.version == 2 && target.Sized() && terms.Sized()
      && Validate(controller).Ok? && (actAs.Some? ==> Validate(actAs.value).Ok?)
      && |proof| <= MAX_PROOF && |payload| <= MAX_PAYLOAD
    }
  }

  /** An owner with its own encoding, counted; meant for valid owners. */
  function OwnerBytes(o: Ownership): seq<byte> {
    var e := EncodeOwnership(o);
    if e.Ok? then e.value else []
  }

  function WriteActAs(o: Option<Ownership>): seq<byte> {
    match o
    case None => [0]
    case Some(owner) => [1] + WriteCounted(OwnerBytes(owner), 2)
  }

  function EncodeV2(a: SignedV2): seq<byte> {
    WriteTarget(a.target) + WriteCounted(OwnerBytes(a.controller), 2) + WriteActAs(a.actAs) + WriteTerms(a.terms) +
    WriteCounted(a.proof, 4) + WriteCounted(a.payload, 4)
  }

  function ReadOwner(b: seq<byte>): Option<Read<Ownership>> {
    var e := Counted(b, 2, 0xffff);
    if e.None? then None
    else
      var o := DecodeOwnership(e.value.value);
      if o.Err? then None else Some(Read(o.value, e.value.rest))
  }

  function ReadActAs(b: seq<byte>): Option<Read<Option<Ownership>>> {
    if b == [] then None
    else if b[0] == 0 then Some(Read(None, b[1..]))
    else if b[0] == 1 then
      var o := ReadOwner(b[1..]);
      if o.None? then None else Some(Read(Some(o.value.value), o.value.rest))
    else None
  }

  datatype TailV2 = TailV2(proof: seq<byte>, payload: seq<byte>)

  function ReadTailV2(b: seq<byte>): Option<TailV2> {
    var s := Counted(b, 4, MAX_PROOF);
    if s.None? then None
    else
      var p := Counted(s.value.rest, 4, MAX_PAYLOAD);
      if p.None? || p.value.rest != [] then None else Some(TailV2(s.value.value, p.value.value))
  }

  lemma {:induction false} OwnerInverse(b: seq<byte>, o: Ownership, rest: seq<byte>)
    ensures ReadOwner(b) == Some(Read(o, rest)) <==>
      Validate(o).Ok? && b == WriteCounted(OwnerBytes(o), 2) + rest
  {
    hide Counted, WriteCounted, DecodeOwnership, EncodeOwnership, Validate;
    Pow256Values();
    OwnershipLayout(o);
    CountedInverse(b, 2, 0xffff, OwnerBytes(o), rest);
    OwnershipInverse(o, OwnerBytes(o));
    if ReadOwner(b) == Some(Read(o, rest)) {
      var e := Counted(b, 2, 0xffff).value;
      OwnershipInverse(o, e.value);
      CountedInverse(b, 2, 0xffff, e.value, rest);
    }
  }

  lemma {:induction false} ActAsInverse(b: seq<byte>, o: Option<Ownership>, rest: seq<byte>)
    ensures ReadActAs(b) == Some(Read(o, rest)) <==>
      (o.Some? ==> Validate(o.value).Ok?) && b == WriteActAs(o) + rest
  {
    hide ReadOwner, WriteCounted, OwnerBytes, Validate;
    if b != [] {
      assert b == [b[0]] + b[1..];
      if o.Some? {
        OwnerInverse(b[1..], o.value, rest);
        assert WriteActAs(o) + rest == [1] + (WriteCounted(OwnerBytes(o.value), 2) + rest);
      }
    }
  }

  lemma {:induction false} TailV2Inverse(b: seq<byte>, t: TailV2)
    ensures ReadTailV2(b) == Some(t) <==>
      && |t.proof| <= MAX_PROOF && |t.payload| <= MAX_PAYLOAD
      && b == WriteCounted(t.proof, 4) + WriteCounted(t.payload, 4)
  {
    hide Counted, WriteCounted;
    Pow256Values();
    var pay := WriteCounted(t.payload, 4);
    assert pay + [] == pay;
    CountedInverse(b, 4, MAX_PROOF, t.proof, pay);
    CountedInverse(pay, 4, MAX_PAYLOAD, t.payload, []);
    if ReadTailV2(b) == Some(t) {
      var s := Counted(b, 4, MAX_PROOF).value;
      CountedInverse(s.rest, 4, MAX_PAYLOAD, t.payload, []);
      assert s.rest == pay;
    }
  }

  /** The wire layout of version 2 read back, field group by field group. */
  function ParseV2(b: seq<byte>): Option<SignedV2> {
    var t := ReadTarget(b);
    if t.None? || t.value.value.version != 2 then None
    else
      var o := ReadOwner(t.value.rest);
      if o.None? then None
      else
        var f := ReadActAs(o.value.rest);
        if f.None? then None
        else
          var m := ReadTerms(f.value.rest);
          if m.None? then None
          else
            var e := ReadTailV2(m.value.rest);
            if e.None? then None
            else Some(SignedV2(t.value.value, o.value.value, f.value.value, m.value.value, e.value.proof,
              e.value.payload))
  }

  lemma {:induction false} EncodedV2Parts(a: SignedV2)
    ensures var tail := WriteCounted(a.proof, 4) + WriteCounted(a.payload, 4);
      var terms := WriteTerms(a.terms) + tail;
      var acting := WriteActAs(a.actAs) + terms;
      EncodeV2(a) == WriteTarget(a.target) + (WriteCounted(OwnerBytes(a.controller), 2) + acting)
  {
    hide WriteTarget, WriteCounted, WriteTerms, WriteActAs, OwnerBytes;
  }

  /** Version 2 likewise: exactly the encoder's image. */
  lemma {:induction false} V2Inverse(b: seq<byte>, a: SignedV2)
    ensures ParseV2(b) == Some(a) <==> a.Shaped() && b == EncodeV2(a)
  {
    hide ReadTarget, ReadOwner, ReadActAs, ReadTerms, ReadTailV2, WriteTarget, WriteCounted, WriteTerms, EncodeV2,
      WriteActAs, OwnerBytes, Validate;
    EncodedV2Parts(a);
    var tail := WriteCounted(a.proof, 4) + WriteCounted(a.payload, 4);
    var terms := WriteTerms(a.terms) + tail;
    var acting := WriteActAs(a.actAs) + terms;
    var owned := WriteCounted(OwnerBytes(a.controller), 2) + acting;
    TargetInverse(b, a.target, owned);
    OwnerInverse(owned, a.controller, acting);
    ActAsInverse(acting, a.actAs, terms);
    TermsInverse(terms, a.terms, tail);
    TailV2Inverse(tail, TailV2(a.proof, a.payload));
    if ParseV2(b) == Some(a) {
      var t := ReadTarget(b).value;
      var o := ReadOwner(t.rest).value;
      var f := ReadActAs(o.rest).value;
      var m := ReadTerms(f.rest).value;
      TailV2Inverse(m.rest, TailV2(a.proof, a.payload));
      TermsInverse(f.rest, a.terms, m.rest);
      ActAsInverse(o.rest, a.actAs, f.rest);
      OwnerInverse(t.rest, a.controller, o.rest);
      TargetInverse(b, a.target, t.rest);
    }
  }

  // ----- what a signature covers -----

  /** "JAMSCRIPT_ACTION_V1" and "JAMSCRIPT_ACTION_V2" differ in their last byte. */
  function ActionDomain(version: byte): seq<byte>
    requires version == 1 || version == 2
  {
    [74, 65, 77, 83, 67, 82, 73, 80, 84, 95, 65, 67, 84, 73, 79, 78, 95, 86, 48 + version]
  }

  /** The bytes hashed into a version 1 signing digest. */
  function DigestV1(a: SignedV1): seq<byte> {
    ActionDomain(1) + WriteTarget(a.target) + [a.scheme] + WriteTerms(a.terms)
  }

  /** The bytes hashed into a version 2 action commitment; the version itself is only in the domain. */
  function CommitmentV2(a: SignedV2): seq<byte> {
    ActionDomain(2) + a.target.domain + a.target.serviceKey + a.target.selector + OwnerBytes(a.controller) +
    (match a.actAs case None => [0] case Some(o) => [1] + OwnerBytes(o)) + WriteTerms(a.terms)
  }

  /** What a verifier expects of a version 2 action. */
  datatype Expected = Expected(domain: seq<byte>, serviceKey: seq<byte>, selector: seq<byte>, nonce: Option<u64>)

  /** What has to hold of an action for both verifiers to reach the signature check. */
  predicate Due(hash: seq<byte> -> seq<byte>, a: SignedV2, e: Expected) {
    && a.target.domain == e.domain && a.target.serviceKey == e.serviceKey && a.target.selector == e.selector
    && (e.nonce.Some? ==> a.terms.nonce == e.nonce.value)
    && hash(a.payload) == a.terms.payloadHash && a.actAs.None? && a.proof != []
  }
}
