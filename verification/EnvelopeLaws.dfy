/** What a signature covers, and what the coordinator reads off an action. */
module EnvelopeLaws {
  import opened Wrappers
  import opened Bytes
  import opened Ownerships
  import opened Envelopes
  import P = ProtocolEnvelopes
  import G = GuestEnvelopes
  import opened Transactions
  import opened Coordination

  /** A version 1 digest fixes target, scheme and terms. */
  lemma {:induction false} DigestBinds(a: SignedV1, b: SignedV1)
    requires a.Shaped() && b.Shaped() && DigestV1(a) == DigestV1(b)
    ensures a.target == b.target && a.scheme == b.scheme && a.terms == b.terms
  {
    hide WriteTarget, WriteTerms, ReadTarget, ReadTerms;
    var p, q := DigestV1(a)[19..], DigestV1(b)[19..];
    assert p == WriteTarget(a.target) + ([a.scheme] + WriteTerms(a.terms));
    assert q == WriteTarget(b.target) + ([b.scheme] + WriteTerms(b.terms));
    TargetInverse(p, a.target, [a.scheme] + WriteTerms(a.terms));
    TargetInverse(p, b.target, [b.scheme] + WriteTerms(b.terms));
    var s, t := [a.scheme] + WriteTerms(a.terms), [b.scheme] + WriteTerms(b.terms);
    assert s[0] == a.scheme && t[0] == b.scheme;
    assert s[1..] == WriteTerms(a.terms) + [] && t[1..] == WriteTerms(b.terms) + [];
    TermsInverse(s[1..], a.terms, []);
    TermsInverse(s[1..], b.terms, []);
  }

  function ActAsPart(a: SignedV2): seq<byte> {
    (match a.actAs case None => [0] case Some(o) => [1] + OwnerBytes(o)) + WriteTerms(a.terms)
  }

  lemma {:induction false} CommitmentParts(a: SignedV2)
    requires a.Shaped()
    ensures |CommitmentV2(a)| > 19
    ensures CommitmentV2(a)[19..] == a.target.domain + a.target.serviceKey + a.target.selector +
      (OwnerBytes(a.controller) + ActAsPart(a))
  {
    hide WriteTerms, OwnerBytes, Validate;
  }

  lemma {:induction false} ActAsBinds(a: SignedV2, b: SignedV2)
    requires a.Shaped() && b.Shaped() && ActAsPart(a) == ActAsPart(b)
    ensures a.actAs == b.actAs && a.terms == b.terms
  {
    hide WriteTerms, ReadTerms, EncodeOwnership, Validate;
    var s, t := WriteTerms(a.terms), WriteTerms(b.terms);
    assert ActAsPart(a)[0] == if a.actAs.Some? then 1 else 0;
    assert ActAsPart(b)[0] == if b.actAs.Some? then 1 else 0;
    if a.actAs.Some? {
      assert ActAsPart(a)[1..] == OwnerBytes(a.actAs.value) + s;
      assert ActAsPart(b)[1..] == OwnerBytes(b.actAs.value) + t;
      OwnershipLayout(a.actAs.value);
      OwnershipLayout(b.actAs.value);
      OwnershipSelfDelimiting(a.actAs.value, s, b.actAs.value, t);
    } else {
      assert ActAsPart(a)[1..] == s && ActAsPart(b)[1..] == t;
    }
    assert s + [] == s;
    TermsInverse(s, a.terms, []);
    TermsInverse(s, b.terms, []);
    assert t + [] == t;
  }

  /** A version 2 commitment fixes everything but the proof and the payload, whose hash it fixes: the
      owners are not length-prefixed here, but their encodings delimit themselves. */
  lemma {:induction false} CommitmentBinds(a: SignedV2, b: SignedV2)
    requires a.Shaped() && b.Shaped() && CommitmentV2(a) == CommitmentV2(b)
    ensures a.target == b.target && a.controller == b.controller && a.actAs == b.actAs && a.terms == b.terms
  {
    hide WriteTerms, EncodeOwnership, Validate, ActAsPart, CommitmentV2;
    CommitmentParts(a);
    CommitmentParts(b);
    var p, q := OwnerBytes(a.controller) + ActAsPart(a), OwnerBytes(b.controller) + ActAsPart(b);
    var x, y := CommitmentV2(a)[19..], CommitmentV2(b)[19..];
    assert x[..32] == a.target.domain && y[..32] == b.target.domain;
    assert x[32..64] == a.target.serviceKey && y[32..64] == b.target.serviceKey;
    assert x[64..72] == a.target.selector && y[64..72] == b.target.selector;
    assert x[72..] == p && y[72..] == q;
    OwnershipLayout(a.controller);
    OwnershipLayout(b.controller);
    OwnershipSelfDelimiting(a.controller, ActAsPart(a), b.controller, ActAsPart(b));
    ActAsBinds(a, b);
  }

  /** No version 1 digest is a version 2 commitment. */
  lemma {:induction false} VersionsApart(a: SignedV1, b: SignedV2)
    ensures DigestV1(a) != CommitmentV2(b)
  {
    assert DigestV1(a)[18] == 49 && CommitmentV2(b)[18] == 50;
  }

  /** The key of an owner; `hash` is the hash of the domain-separated encoding. */
  function OwnerKey(hash: seq<byte> -> seq<byte>, o: Ownership): Option<Sender> {
    var e := EncodeOwnership(o);
    if e.Ok? then Some(hash(e.value)) else None
  }

  /** What `enqueue` reads off an action: wallet lane, owner lane, or nothing. */
  function Identify(hash: seq<byte> -> seq<byte>, action: seq<byte>, params: string, extrinsics: seq<string>): Request {
    var v1, v2 := G.DecodeV1(action), G.DecodeV2(action);
    if v1.Ok? then
      if |v1.value.publicKey| == 32 then
        Request(action, Some(v1.value.publicKey), Some(v1.value.terms.nonce), Some(v1.value.terms.validUntil),
                params, extrinsics)
      else Request(action, None, None, Some(v1.value.terms.validUntil), params, extrinsics)
    else if v2.Ok? then
      var owner := if v2.value.actAs.Some? then v2.value.actAs.value else v2.value.controller;
      Request(action, OwnerKey(hash, owner), Some(v2.value.terms.nonce), Some(v2.value.terms.validUntil),
              params, extrinsics)
    else Request(action, None, None, None, params, extrinsics)
  }

  /** No action is both versions, and none gets a nonce without a sender: the scheduler's case of an item
      that is neither signed nor unsigned never arises from `enqueue`. */
  lemma {:induction false} IdentityIsWhole(hash: seq<byte> -> seq<byte>, action: seq<byte>, params: string,
                                           extrinsics: seq<string>)
    ensures var r := Identify(hash, action, params, extrinsics); r.sender.Some? <==> r.nonce.Some?
    ensures G.DecodeV1(action).Err? || G.DecodeV2(action).Err?
  {
    hide G.DecodeV1, G.DecodeV2, EncodeV1, EncodeV2, EncodeOwnership, Validate;
    if G.DecodeV2(action).Ok? {
      var a := G.DecodeV2(action).value;
      G.DecodesV2(action, a);
      OwnershipLayout(a.controller);
      if a.actAs.Some? { OwnershipLayout(a.actAs.value); }
      FirstByteV2(a);
      if G.DecodeV1(action).Ok? {
        G.DecodesV1(action, G.DecodeV1(action).value);
        FirstByteV1(G.DecodeV1(action).value);
      }
    }
  }

  lemma {:induction false} FirstByteV1(a: SignedV1)
    ensures |EncodeV1(a)| > 0 && EncodeV1(a)[0] == a.target.version
  {
  }

  lemma {:induction false} FirstByteV2(a: SignedV2)
    ensures |EncodeV2(a)| > 0 && EncodeV2(a)[0] == a.target.version
  {
  }

  /** The two version 1 decoders give the same answer exactly on bytes that are no envelope, and on envelopes
      that are either within the guest's length limit and of a known scheme, or neither. */
  lemma {:induction false} V1DecodersAgreeIff(b: seq<byte>)
    ensures var p, g := P.DecodeV1(b), G.DecodeV1(b);
      (p.Ok? == g.Ok? && (p.Ok? ==> p.value == g.value)) <==>
      (ParseV1(b).Some? ==> |b| > 73 && (|b| <= MAX_ACTION <==> b[73] <= 2))
  {
    hide P.DecodeV1, G.DecodeV1, ParseV1, EncodeV1;
    var p, g := P.DecodeV1(b), G.DecodeV1(b);
    if p.Ok? { P.DecodesV1(b, p.value); G.DecodesV1(b, p.value); V1Inverse(b, p.value); SchemeAt(p.value); }
    if g.Ok? { P.DecodesV1(b, g.value); G.DecodesV1(b, g.value); V1Inverse(b, g.value); SchemeAt(g.value); }
    if ParseV1(b).Some? {
      var a := ParseV1(b).value;
      P.DecodesV1(b, a);
      G.DecodesV1(b, a);
      V1Inverse(b, a);
      SchemeAt(a);
    }
  }

  /** The two version 2 decoders give the same answer exactly on bytes that are no envelope, and on envelopes
      within the guest's length limit. */
  lemma {:induction false} V2DecodersAgreeIff(b: seq<byte>)
    ensures var p, g := P.DecodeV2(b), G.DecodeV2(b);
      (p.Ok? == g.Ok? && (p.Ok? ==> p.value == g.value)) <==> (ParseV2(b).Some? ==> |b| <= MAX_ACTION)
  {
    hide P.DecodeV2, G.DecodeV2, ParseV2, EncodeV2, Validate;
    var p, g := P.DecodeV2(b), G.DecodeV2(b);
    if p.Ok? { P.DecodesV2(b, p.value); G.DecodesV2(b, p.value); V2Inverse(b, p.value); }
    if g.Ok? { P.DecodesV2(b, g.value); G.DecodesV2(b, g.value); V2Inverse(b, g.value); }
    if ParseV2(b).Some? {
      P.DecodesV2(b, ParseV2(b).value);
      G.DecodesV2(b, ParseV2(b).value);
      V2Inverse(b, ParseV2(b).value);
    }
  }

  lemma {:induction false} EncodedLengths(a: SignedV1, c: SignedV2)
    requires a.target.Sized() && a.terms.Sized() && c.target.Sized() && c.terms.Sized()
    ensures |EncodeV1(a)| == 128 + |a.publicKey| + |a.signature| + |a.payload|
    ensures |EncodeV2(c)| == 132 + |OwnerBytes(c.controller)| + |c.proof| + |c.payload| +
      (if c.actAs.Some? then 2 + |OwnerBytes(c.actAs.value)| else 0)
  {
    hide OwnerBytes;
  }

  /** The two payload limits are the same number, but the guest holds it against the whole envelope: every
      action with a payload of the permitted maximum is signed by the protocol crate and refused by the guest. */
  lemma {:induction false} FullPayloadRefused(a: SignedV1, c: SignedV2)
    requires a.Shaped() && a.scheme <= 2 && c.Shaped() && |a.payload| == |c.payload| == MAX_PAYLOAD
    ensures P.DecodeV1(EncodeV1(a)) == Ok(a) && G.DecodeV1(EncodeV1(a)) == Err(G.PayloadTooLarge)
    ensures P.DecodeV2(EncodeV2(c)) == Ok(c) && G.DecodeV2(EncodeV2(c)) == Err(G.PayloadTooLarge)
  {
    hide P.DecodeV1, P.DecodeV2, EncodeV1, EncodeV2, OwnerBytes, Validate;
    EncodedLengths(a, c);
    P.DecodesV1(EncodeV1(a), a);
    P.DecodesV2(EncodeV2(c), c);
  }

  /** The other side of the disagreement: an envelope of an unknown scheme within the length limit is decoded
      by the guest and refused by the protocol crate. */
  lemma {:induction false} UnknownSchemeRefused(a: SignedV1)
    requires a.Shaped() && a.scheme > 2 && |EncodeV1(a)| <= MAX_ACTION
    ensures G.DecodeV1(EncodeV1(a)) == Ok(a)
    ensures P.DecodeV1(EncodeV1(a)) == Err(P.InvalidEnvelope("unknown signer scheme"))
  {
    hide G.DecodeV1, EncodeV1, P.ReadVersioned, WriteTarget, WriteTerms, WriteCounted, ReadTarget;
    G.DecodesV1(EncodeV1(a), a);
    P.VersionedSame(EncodeV1(a), 1);
    EncodedV1Parts(a);
    var signer := [a.scheme] + WriteCounted(a.publicKey, 1) +
      (WriteTerms(a.terms) + (WriteCounted(a.signature, 1) + WriteCounted(a.payload, 4)));
    TargetInverse(EncodeV1(a), a.target, signer);
    assert signer[0] == a.scheme;
  }

  /** Client and guest let the same envelopes through to the signature check, over the same bytes, except that
      the guest does not look at the expiry: that is left to the batch. */
  lemma {:induction false} AdmissionsAgree(hash: seq<byte> -> seq<byte>, b: seq<byte>, a: SignedV2, e: Expected,
                                           tick: u64)
    requires G.DecodeV2(b) == Ok(a)
    ensures P.DecodeV2(b) == Ok(a)
    ensures P.Admit(hash, a, e, tick).Ok? <==> G.Admit(hash, a, e).Ok? && tick <= a.terms.validUntil
    ensures P.Admit(hash, a, e, tick).Ok? ==> P.Admit(hash, a, e, tick).value == G.Admit(hash, a, e).value
  {
    hide P.DecodeV2, G.DecodeV2, EncodeV2, G.Admit, CommitmentV2, Validate;
    G.DecodesV2(b, a);
    P.DecodesV2(b, a);
    G.AdmitsIff(hash, a, e);
  }
}
