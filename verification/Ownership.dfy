/** `ownership-core`: the self-delimiting owner identity inside envelopes and ABI values. */
module Ownerships {
  import opened Wrappers
  import opened Bytes

  const MAX_OWNERSHIP_BYTES: nat := 4096

  datatype OwnershipKind =
    | Ed25519Key | Sr25519Key | Secp256k1Key | Secp256k1Keccak20 | MulticryptoAccount32

  datatype Ownership = Ownership(version: byte, kind: OwnershipKind, public: seq<byte>)

  datatype OwnershipError =
    | InvalidVersion | UnsupportedKind(kind: byte) | InvalidPublicLength
    | InvalidPublicValue | InvalidEncoding | TooLarge

  function KindByte(kind: OwnershipKind): byte {
    match kind
    case Ed25519Key => 0
    case Sr25519Key => 1
    case Secp256k1Key => 2
    case Secp256k1Keccak20 => 3
    case MulticryptoAccount32 => 4
  }

  function KindFromByte(b: byte): Result<OwnershipKind, OwnershipError> {
    if b == 0 then Ok(Ed25519Key)
    else if b == 1 then Ok(Sr25519Key)
    else if b == 2 then Ok(Secp256k1Key)
    else if b == 3 then Ok(Secp256k1Keccak20)
    else if b == 4 then Ok(MulticryptoAccount32)
    else Err(UnsupportedKind(b))
  }

  function PublicLen(kind: OwnershipKind): nat {
    match kind
    case Secp256k1Key => 33
    case Secp256k1Keccak20 => 20
    case _ => 32
  }

  function Validate(o: Ownership): Result<(), OwnershipError> {
    if o.version != 1 then Err(InvalidVersion)
    else if |o.public| != PublicLen(o.kind) then Err(InvalidPublicLength)
    else if o.kind == Secp256k1Key && !(|o.public| > 0 && (o.public[0] == 2 || o.public[0] == 3)) then
      Err(InvalidPublicValue)
    else Ok(())
  }

  function EncodeOwnership(o: Ownership): (r: Result<seq<byte>, OwnershipError>) {
    var _ :- Validate(o);
    var encoded := [o.version, KindByte(o.kind)] + LE(|o.public|, 2) + o.public;
    if |encoded| > MAX_OWNERSHIP_BYTES then Err(TooLarge) else Ok(encoded)
  }

  function DecodeOwnership(b: seq<byte>): (r: Result<Ownership, OwnershipError>) {
    if |b| > MAX_OWNERSHIP_BYTES then Err(TooLarge)
    else if |b| < 4 then Err(InvalidEncoding)
    else if b[0] != 1 then Err(InvalidVersion)
    else
      var kind :- KindFromByte(b[1]);
      var length := FromLE(b[2..4]);
      if length != PublicLen(kind) || |b| != 4 + length then Err(InvalidEncoding)
      else
        var o := Ownership(1, kind, b[4..]);
        var _ :- Validate(o);
        Ok(o)
  }

  /** An owner encodes exactly when it validates, in at most 37 bytes that carry their own length. */
  lemma {:induction false} OwnershipLayout(o: Ownership)
    ensures EncodeOwnership(o).Ok? <==> Validate(o).Ok?
    ensures EncodeOwnership(o).Ok? ==>
      var e := EncodeOwnership(o).value;
      |e| == 4 + |o.public| && 24 <= |e| <= 37 && FromLE(e[2..4]) == |o.public|
  {
    if Validate(o).Ok? {
      Pow256Values();
      FromLEOfLE(|o.public|, 2);
      var e := [o.version, KindByte(o.kind)] + LE(|o.public|, 2) + o.public;
      assert e[2..4] == LE(|o.public|, 2);
    }
  }

  /** The decoder accepts exactly the encoder's image, and inverts it. */
  lemma {:induction false} OwnershipInverse(o: Ownership, b: seq<byte>)
    ensures EncodeOwnership(o) == Ok(b) <==> DecodeOwnership(b) == Ok(o)
  {
    if EncodeOwnership(o) == Ok(b) {
      OwnershipLayout(o);
      assert b[4..] == o.public;
    }
    if DecodeOwnership(b) == Ok(o) {
      LEOfFromLE(b[2..4]);
      assert b == [b[0], b[1]] + b[2..4] + b[4..];
    }
  }

  /** No owner's encoding is a prefix of another's, so concatenations split uniquely. */
  lemma {:induction false} OwnershipSelfDelimiting(o: Ownership, s: seq<byte>, p: Ownership, t: seq<byte>)
    requires EncodeOwnership(o).Ok? && EncodeOwnership(p).Ok?
    requires EncodeOwnership(o).value + s == EncodeOwnership(p).value + t
    ensures o == p && s == t
  {
    var e, f := EncodeOwnership(o).value, EncodeOwnership(p).value;
    OwnershipLayout(o);
    OwnershipLayout(p);
    assert e[2..4] == (e + s)[2..4];
    assert f[2..4] == (f + t)[2..4];
    assert e == (e + s)[..|e|];
    assert f == (f + t)[..|f|];
    assert s == (e + s)[|e|..];
    assert t == (f + t)[|f|..];
    OwnershipInverse(o, e);
    OwnershipInverse(p, f);
  }
}
