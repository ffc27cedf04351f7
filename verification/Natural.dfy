/**
 * JAM's general natural: a prefix of `e` one bits says how many low bytes
 * follow.  One encoder (the ABI codec) and three decoders (the ABI codec, the
 * generated payload reader, the generated accumulate reader) exist.
 *
 * The source combines disjoint bit fields with `|`; the model adds them.
 */
module Natural {
  import opened Wrappers
  import opened Bytes

  /** A decoded value and the number of bytes it consumed. */
  datatype Parsed<+T> = Parsed(value: T, used: nat)

  function Pow2(n: nat): (p: nat)
    ensures p > 0
  {
    if n == 0 then 1 else 2 * Pow2(n - 1)
  }

  /** `64 - leading_zeros`. */
  function BitLen(v: nat): nat {
    if v == 0 then 0 else 1 + BitLen(v / 2)
  }

  /** The number of low bytes a value of 7 or more bits needs after the first byte. */
  function Extra(v: nat): nat
    requires v > 0
  {
    (BitLen(v) - 1) / 7
  }

  lemma {:induction false} Pow2Add(a: nat, b: nat)
    ensures Pow2(a + b) == Pow2(a) * Pow2(b)
  {
    if a > 0 {
      Pow2Add(a - 1, b);
    }
  }

  lemma {:induction false} Pow2Monotone(a: nat, b: nat)
    requires a <= b
    ensures Pow2(a) <= Pow2(b)
  {
    if a < b {
      Pow2Monotone(a, b - 1);
    }
  }

  lemma {:induction false} Pow256IsPow2(n: nat)
    ensures Pow256(n) == Pow2(8 * n)
  {
    if n > 0 {
      Pow256IsPow2(n - 1);
      Pow2Add(8, 8 * (n - 1));
      assert Pow2(8) == 256 by {
        assert Pow2(4) == 16;
      }
    }
  }

  lemma Pow2Small()
    ensures Pow2(0) == 1 && Pow2(1) == 2 && Pow2(2) == 4 && Pow2(3) == 8
    ensures Pow2(4) == 16 && Pow2(5) == 32 && Pow2(6) == 64 && Pow2(7) == 128
  {
    assert Pow2(4) == 16;
  }

  lemma Pow2Values()
    ensures Pow2(0) == 1 && Pow2(1) == 2 && Pow2(2) == 4 && Pow2(3) == 8
    ensures Pow2(4) == 16 && Pow2(5) == 32 && Pow2(6) == 64 && Pow2(7) == 128
    ensures Pow2(14) == 0x4000 && Pow2(21) == 0x20_0000 && Pow2(28) == 0x1000_0000
    ensures Pow2(35) == 0x8_0000_0000 && Pow2(42) == 0x400_0000_0000
    ensures Pow2(49) == 0x2_0000_0000_0000 && Pow2(56) == 0x100_0000_0000_0000
  {
    hide Pow2;
    Pow2Small();
    Pow2Add(7, 7);
    Pow2Add(7, 14);
    Pow2Add(7, 21);
    Pow2Add(7, 28);
    Pow2Add(7, 35);
    Pow2Add(7, 42);
    Pow2Add(7, 49);
  }

  lemma {:induction false} BitLenBounds(v: nat)
    requires v > 0
    ensures BitLen(v) > 0
    ensures Pow2(BitLen(v) - 1) <= v < Pow2(BitLen(v))
  {
    if v > 1 {
      BitLenBounds(v / 2);
    }
  }

  /** `Extra` is the unique group of seven bits the value's top bit falls in. */
  lemma {:induction false} ExtraBounds(v: nat)
    requires v > 0
    ensures Pow2(7 * Extra(v)) <= v < Pow2(7 * Extra(v) + 7)
  {
    BitLenBounds(v);
    Pow2Monotone(7 * Extra(v), BitLen(v) - 1);
    Pow2Monotone(BitLen(v), 7 * Extra(v) + 7);
  }

  lemma {:induction false} ExtraUnique(v: nat, e: nat)
    requires v > 0
    requires Pow2(7 * e) <= v < Pow2(7 * e + 7)
    ensures Extra(v) == e
  {
    ExtraBounds(v);
    if Extra(v) < e {
      Pow2Monotone(7 * Extra(v) + 7, 7 * e);
    } else if e < Extra(v) {
      Pow2Monotone(7 * e + 7, 7 * Extra(v));
    }
  }

  lemma {:induction false} ExtraMonotone(v: nat, w: nat)
    requires 0 < v <= w
    ensures Extra(v) <= Extra(w)
  {
    ExtraBounds(v);
    ExtraBounds(w);
    if Extra(w) < Extra(v) {
      Pow2Monotone(7 * Extra(w) + 7, 7 * Extra(v));
    }
  }

  /** Below 2^56 at most seven low bytes follow, and what is left of the value
      fits below the first byte's length mark. */
  lemma {:induction false} HighBitsFit(v: nat)
    requires 128 <= v < Pow2(56)
    ensures 1 <= Extra(v) <= 7
    ensures v / Pow256(Extra(v)) < Pow2(7 - Extra(v))
  {
    ExtraBounds(v);
    Pow2Values();
    var e := Extra(v);
    if e == 0 {
      assert false;
    }
    if e >= 8 {
      Pow2Monotone(56, 7 * e);
      assert false;
    }
    Pow256IsPow2(e);
    Pow2Add(7 - e, 8 * e);
    DivideBelow(v, Pow2(7 - e), Pow256(e));
  }

  lemma {:induction false} DivideBelow(v: nat, a: nat, b: nat)
    requires b > 0 && v < a * b
    ensures v / b < a
  {
    var q := v / b;
    assert q * b <= v;
    assert q >= a ==> q * b >= a * b;
  }

  /** `encode_natural_u64`. */
  function EncodeNatural(v: u64): (b: seq<byte>)
    ensures 1 <= |b| <= 9
  {
    if v < 128 then [v]
    else if v < Pow2(56) then
      HighBitsFit(v);
      Pow2Values();
      Pow2Monotone(7 - Extra(v), 8 - Extra(v));
      Pow2Monotone(8 - Extra(v), 7);
      [256 - Pow2(8 - Extra(v)) + v / Pow256(Extra(v))] + LE(v, Extra(v))
    else [255] + LE(v, 8)
  }

  /** `u8::leading_ones`. */
  function LeadingOnes(b: byte): nat {
    if b < 128 then 0 else 1 + LeadingOnes((b - 128) * 2)
  }

  /** The first bytes with exactly `e` leading ones, for `e` below eight. */
  lemma {:induction false} LeadingOnesRange(b: byte)
    ensures LeadingOnes(b) <= 8
    ensures LeadingOnes(b) == 8 <==> b == 255
    ensures LeadingOnes(b) < 8 ==>
      256 - Pow2(8 - LeadingOnes(b)) <= b < 256 - Pow2(7 - LeadingOnes(b))
  {
    Pow2Values();
    assert Pow2(8) == 256;
    if 192 <= b {
      var c := (b - 128) * 2;
      assert LeadingOnes(c) == 1 + LeadingOnes((c - 128) * 2);
      if 224 <= b {
        LeadingOnesHigh(b);
      }
    }
  }

  lemma {:induction false} LeadingOnesHigh(b: byte)
    requires 224 <= b
    ensures LeadingOnes(b) == if b < 240 then 3 else if b < 248 then 4 else if b < 252 then 5
                              else if b < 254 then 6 else if b < 255 then 7 else 8
  {
    var c3 := (((b - 128) * 2 - 128) * 2 - 128) * 2;
    assert LeadingOnes(b) == 1 + LeadingOnes((b - 128) * 2);
    assert LeadingOnes((b - 128) * 2) == 1 + LeadingOnes(((b - 128) * 2 - 128) * 2);
    assert LeadingOnes(((b - 128) * 2 - 128) * 2) == 1 + LeadingOnes(c3);
    if b >= 240 {
      var c4 := (c3 - 128) * 2;
      assert LeadingOnes(c3) == 1 + LeadingOnes(c4);
      if b >= 248 {
        var c5 := (c4 - 128) * 2;
        assert LeadingOnes(c4) == 1 + LeadingOnes(c5);
        if b >= 252 {
          var c6 := (c5 - 128) * 2;
          assert LeadingOnes(c5) == 1 + LeadingOnes(c6);
          if b >= 254 {
            assert LeadingOnes(c6) == 1 + LeadingOnes((c6 - 128) * 2);
          }
        }
      }
    }
  }

  /** `high << (8 * extra)`. */
  function ShiftBytes(high: nat, extra: nat): nat {
    high * Pow256(extra)
  }

  /** What every reader of a natural returns on the bytes ahead of it. */
  function ReadNatural(b: seq<byte>): (r: Option<Parsed<nat>>)
    ensures r.Some? ==> 1 <= r.value.used <= |b|
  {
    if b == [] then None
    else if b[0] < 128 then Some(Parsed(b[0], 1))
    else
      var e := LeadingOnes(b[0]);
      LeadingOnesRange(b[0]);
      if |b| < 1 + e then None
      else if e == 8 then Some(Parsed(FromLE(b[1..9]), 9))
      else Some(Parsed(FromLE(b[1..1 + e]) + ShiftBytes(b[0] % Pow2(7 - e), e), 1 + e))
  }

  /** A natural read with length prefix `e` stays below 2^(7e+7). */
  lemma {:induction false} ReadNaturalBound(b: seq<byte>)
    requires ReadNatural(b).Some?
    ensures ReadNatural(b).value.value <= U64_MAX
    ensures b[0] != 255 ==> ReadNatural(b).value.value < Pow2(7 * ReadNatural(b).value.used)
    ensures b[0] != 255 ==> ReadNatural(b).value.used <= 8
  {
    hide LE, FromLE, Pow2, Pow256, BitLen, LeadingOnes;
    LeadingOnesRange(b[0]);
    Pow2Values();
    Pow256Values();
    var e := LeadingOnes(b[0]);
    if e == 8 {
      FromLEBound(b[1..9]);
    } else if e > 0 {
      FromLEBound(b[1..1 + e]);
      Pow256IsPow2(e);
      Pow2Add(7 - e, 8 * e);
      assert 7 - e + 8 * e == 7 * (1 + e);
      MixedRadixBound(FromLE(b[1..1 + e]), b[0] % Pow2(7 - e), Pow256(e), Pow2(7 - e));
      Pow2Monotone(7 * (1 + e), 56);
    }
  }

  lemma {:induction false} MixedRadixBound(low: nat, high: nat, p: nat, q: nat)
    requires low < p && high < q
    ensures low + high * p < q * p
  {
    assert (high + 1) * p <= q * p;
  }

  lemma {:induction false} MiddleRoundTrip(v: u64, s: seq<byte>)
    requires 128 <= v < Pow2(56)
    ensures ReadNatural(EncodeNatural(v) + s) == Some(Parsed(v, |EncodeNatural(v)|))
  {
    hide LE, FromLE, Pow2, Pow256, BitLen, LeadingOnes;
    HighBitsFit(v);
    var e := Extra(v);
    var h := v / Pow256(e);
    FirstByteMark(e, h);
    LEPrefixValue(v, e);
    var b := EncodeNatural(v) + s;
    assert b[0] == 256 - Pow2(8 - e) + h;
    assert b[0] >= 128 by {
      Pow2Values();
      Pow2Monotone(8 - e, 7);
    }
    assert b[1..1 + e] == LE(v, e);
  }

  /** Decoding inverts encoding, whatever bytes follow. */
  lemma {:induction false} NaturalRoundTrip(v: u64, s: seq<byte>)
    ensures ReadNatural(EncodeNatural(v) + s) == Some(Parsed(v, |EncodeNatural(v)|))
  {
    hide LE, FromLE, Pow2, Pow256, BitLen, LeadingOnes;
    if 128 <= v < Pow2(56) {
      MiddleRoundTrip(v, s);
    } else if v >= 128 {
      var b := EncodeNatural(v) + s;
      LeadingOnesRange(255);
      assert b[0] == 255;
      assert b[1..9] == LE(v, 8);
      Pow256Values();
      FromLEOfLE(v, 8);
    }
  }

  lemma {:induction false} FirstByteMark(e: nat, h: nat)
    requires 1 <= e <= 7 && h < Pow2(7 - e)
    ensures 0 <= 256 - Pow2(8 - e) + h < 256
    ensures LeadingOnes(256 - Pow2(8 - e) + h) == e
    ensures (256 - Pow2(8 - e) + h) % Pow2(7 - e) == h
  {
    Pow2Values();
    assert Pow2(8 - e) == 2 * Pow2(7 - e);
    FirstByteMarkValue(e, h, Pow2(7 - e));
  }

  lemma {:induction false} FirstByteMarkValue(e: nat, h: nat, q: nat)
    requires 1 <= e <= 7 && h < q == Pow2(7 - e)
    ensures 0 <= 256 - 2 * q + h < 256
    ensures LeadingOnes(256 - 2 * q + h) == e
    ensures (256 - 2 * q + h) % q == h
  {
    hide LeadingOnes;
    Pow2Values();
    hide Pow2;
    LeadingOnesRange(256 - 2 * q + h);
    if e == 1 { assert q == 64; }
    else if e == 2 { assert q == 32; }
    else if e == 3 { assert q == 16; }
    else if e == 4 { assert q == 8; }
    else if e == 5 { assert q == 4; }
    else if e == 6 { assert q == 2; }
    else { assert q == 1; }
  }

  /** The low bytes of `v` carry `v` modulo `256^e`. */
  lemma {:induction false} LEPrefixValue(v: nat, e: nat)
    ensures FromLE(LE(v, e)) + v / Pow256(e) * Pow256(e) == v
  {
    if e > 0 {
      var p := Pow256(e - 1);
      LEPrefixValue(v / 256, e - 1);
      assert LE(v, e)[1..] == LE(v / 256, e - 1);
      DivideTwice(v, p);
      assert v / 256 / p * p * 256 == v / (256 * p) * (256 * p);
    }
  }

  lemma {:induction false} DivideTwice(v: nat, p: nat)
    requires p > 0
    ensures v / 256 / p == v / (256 * p)
  {
    var a, b := v / 256, v / 256 / p;
    assert b * p <= a < (b + 1) * p;
    assert b * (256 * p) <= v < (b + 1) * (256 * p);
    QuotientUnique(v, 256 * p, b);
  }

  lemma {:induction false} QuotientUnique(v: nat, d: nat, q: nat)
    requires d > 0 && q * d <= v < (q + 1) * d
    ensures v / d == q
  {
    var k := v / d;
    assert k * d <= v < (k + 1) * d;
    assert k < q ==> (k + 1) * d <= q * d;
    assert q < k ==> (q + 1) * d <= k * d;
  }

  /** The encoder's form is the shortest the decoder accepts for that value. */
  lemma {:induction false} NaturalShortest(b: seq<byte>)
    requires ReadNatural(b).Some?
    ensures ReadNatural(b).value.value <= U64_MAX
    ensures |EncodeNatural(ReadNatural(b).value.value)| <= ReadNatural(b).value.used
  {
    ReadNaturalBound(b);
    Pow2Values();
    var v, n := ReadNatural(b).value.value, ReadNatural(b).value.used;
    if b[0] != 255 && v >= 128 {
      Pow2Monotone(7 * n, 56);
      ExtraBounds(v);
      if Extra(v) >= n {
        Pow2Monotone(7 * n, 7 * Extra(v));
      }
    } else if b[0] == 255 && 128 <= v < Pow2(56) {
      HighBitsFit(v);
    }
  }

  /** Longer naturals never get a shorter encoding. */
  lemma {:induction false} NaturalLengthMonotone(v: u64, w: u64)
    requires v <= w
    ensures |EncodeNatural(v)| <= |EncodeNatural(w)|
  {
    Pow2Values();
    if 128 <= v && w < Pow2(56) {
      ExtraMonotone(v, w);
    } else if 128 <= v < Pow2(56) {
      HighBitsFit(v);
    }
  }

  /** The encoding is not the only accepted one: `[0x80, 0]` also reads as zero,
      so re-encoding what was decoded need not give the same bytes back. */
  lemma NonMinimalNaturalAccepted()
    ensures ReadNatural([128, 0]) == Some(Parsed(0, 2))
    ensures EncodeNatural(0) != [128, 0]
  {
    LeadingOnesRange(128);
    Pow2Values();
    Pow256Values();
    assert LeadingOnes(128) == 1;
    assert [128, 0][1..2] == [0];
    assert FromLE([0]) == 0;
  }

  /** `PayloadReader::natural` of the generated guest: an explicit byte loop. */
  method PayloadReaderNatural(input: seq<byte>, offset: nat) returns (r: Option<Parsed<nat>>)
    requires offset <= |input|
    ensures r == ReadNatural(input[offset..])
  {
    hide Pow2, Pow256;
    ghost var b := input[offset..];
    if offset == |input| {
      return None;
    }
    var first := input[offset];
    var at := offset + 1;
    if first < 0x80 {
      return Some(Parsed(first, 1));
    }
    var length := LeadingOnes(first);
    LeadingOnesRange(first);
    if length == 0 || length > 8 {
      return None;
    }
    var low := 0;
    var index := 0;
    while index < length
      invariant 0 <= index <= length
      invariant at + index <= |input|
      invariant low == FromLE(input[at..at + index])
    {
      if at + index >= |input| {
        return None;
      }
      FromLEAppend(input[at..at + index], input[at + index]);
      assert input[at..at + index + 1] == input[at..at + index] + [input[at + index]];
      low := low + input[at + index] * Pow256(index);
      index := index + 1;
    }
    assert b[1..1 + length] == input[at..at + length];
    if length == 8 {
      return Some(Parsed(low, 9));
    }
    return Some(Parsed(low + ShiftBytes(first % Pow2(7 - length), length), 1 + length));
  }

  lemma {:induction false} FromLEAppend(b: seq<byte>, x: byte)
    ensures FromLE(b + [x]) == FromLE(b) + x * Pow256(|b|)
  {
    if b == [] {
      assert [x][1..] == [];
    } else {
      FromLEAppend(b[1..], x);
      assert (b + [x])[1..] == b[1..] + [x];
      assert 256 * (x * Pow256(|b| - 1)) == x * Pow256(|b|);
    }
  }

  /** `read_fnencode` of the generated accumulate entry point: it counts the
      length mark bit by bit and refuses the nine-byte form. */
  method ReadFnEncode(input: seq<byte>, offset: nat) returns (r: Option<Parsed<nat>>)
    requires offset <= |input|
    ensures r == if offset < |input| && input[offset] == 255 then None
                 else ReadNatural(input[offset..])
  {
    hide Pow2, Pow256;
    if offset == |input| {
      return None;
    }
    var first := input[offset];
    var at := offset + 1;
    if first < 0x80 {
      return Some(Parsed(first, 1));
    }
    LeadingOnesRange(first);
    var length := 0;
    var shifted: byte := first;
    while length < 8 && shifted >= 128
      invariant 0 <= length <= 8
      invariant length + LeadingOnes(shifted) == LeadingOnes(first)
    {
      shifted := (shifted - 128) * 2;
      length := length + 1;
    }
    if length == 0 || length > 7 || |input| - at < length {
      return None;
    }
    var low := 0;
    var index := 0;
    while index < length
      invariant 0 <= index <= length
      invariant low == FromLE(input[at..at + index])
    {
      FromLEAppend(input[at..at + index], input[at + index]);
      assert input[at..at + index + 1] == input[at..at + index] + [input[at + index]];
      low := low + input[at + index] * Pow256(index);
      index := index + 1;
    }
    assert input[offset..][1..1 + length] == input[at..at + length];
    return Some(Parsed(ShiftBytes(first % Pow2(7 - length), length) + low, 1 + length));
  }

  datatype AccumulateInit = AccumulateInit(tick: nat, sid: nat, itemsCount: nat)

  /** What the accumulate entry point makes of its init input: three naturals
      below 2^56 and nothing after them. */
  function EncodeAccumulateInit(init: AccumulateInit): seq<byte>
    requires init.tick < Pow2(56) && init.sid < Pow2(56) && init.itemsCount < Pow2(56)
  {
    Pow2Values();
    EncodeNatural(init.tick) + EncodeNatural(init.sid) + EncodeNatural(init.itemsCount)
  }

  /** Below 2^56 the encoder never emits the mark that `read_fnencode` refuses. */
  lemma {:induction false} SmallNaturalFirstByte(v: u64)
    requires v < Pow2(56)
    ensures EncodeNatural(v)[0] != 255
  {
    Pow2Values();
    if v >= 128 {
      HighBitsFit(v);
      FirstByteMark(Extra(v), v / Pow256(Extra(v)));
      LeadingOnesRange(EncodeNatural(v)[0]);
    }
  }

  /** `decode_accumulate_init_input`: recovers every init the host encodes. */
  method DecodeAccumulateInit(input: seq<byte>) returns (r: Option<AccumulateInit>)
    ensures forall init: AccumulateInit |
      init.tick < Pow2(56) && init.sid < Pow2(56) && init.itemsCount < Pow2(56) &&
      input == EncodeAccumulateInit(init) :: r == Some(init)
    ensures r.Some? ==>
      exists i: nat, j: nat | 0 <= i <= j <= |input| ::
        && ReadNatural(input) == Some(Parsed(r.value.tick, i))
        && ReadNatural(input[i..]) == Some(Parsed(r.value.sid, j - i))
        && ReadNatural(input[j..]) == Some(Parsed(r.value.itemsCount, |input| - j))
  {
    hide ReadNatural, EncodeNatural, Pow2;
    forall init: AccumulateInit |
      init.tick < Pow2(56) && init.sid < Pow2(56) && init.itemsCount < Pow2(56) &&
      input == EncodeAccumulateInit(init)
      ensures InitReads(init, input)
    {
      InitReadsBack(init, input);
    }
    assert input[0..] == input;
    var tick := ReadFnEncode(input, 0);
    if tick.None? { return None; }
    var i := tick.value.used;
    var sid := ReadFnEncode(input, i);
    if sid.None? { return None; }
    var j := i + sid.value.used;
    var items := ReadFnEncode(input, j);
    if items.None? || j + items.value.used != |input| { return None; }
    r := Some(AccumulateInit(tick.value.value, sid.value.value, items.value.value));
  }

  /** The three reads that take an encoded init apart. */
  ghost predicate InitReads(init: AccumulateInit, input: seq<byte>)
    requires init.tick < Pow2(56) && init.sid < Pow2(56) && init.itemsCount < Pow2(56)
  {
    Pow2Values();
    var i, j := |EncodeNatural(init.tick)|, |EncodeNatural(init.sid)|;
    && i + j < |input| && input[0] != 255 && input[i] != 255 && input[i + j] != 255
    && ReadNatural(input) == Some(Parsed(init.tick, i))
    && ReadNatural(input[i..]) == Some(Parsed(init.sid, j))
    && ReadNatural(input[i + j..]) == Some(Parsed(init.itemsCount, |input| - i - j))
  }

  lemma {:induction false} InitReadsBack(init: AccumulateInit, input: seq<byte>)
    requires init.tick < Pow2(56) && init.sid < Pow2(56) && init.itemsCount < Pow2(56)
    requires input == EncodeAccumulateInit(init)
    ensures InitReads(init, input)
  {
    Pow2Values();
    var a, b, c := EncodeNatural(init.tick), EncodeNatural(init.sid), EncodeNatural(init.itemsCount);
    assert input == a + (b + c);
    assert input[|a|..] == b + c;
    assert input[|a| + |b|..] == c + [];
    NaturalRoundTrip(init.tick, b + c);
    NaturalRoundTrip(init.sid, c);
    NaturalRoundTrip(init.itemsCount, []);
    SmallNaturalFirstByte(init.tick);
    SmallNaturalFirstByte(init.sid);
    SmallNaturalFirstByte(init.itemsCount);
  }
}
