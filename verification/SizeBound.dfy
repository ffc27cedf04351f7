/** `TypeIr::max_encoded_len` and the parser's payload limit, against the codec. */
module SizeBound {
  import opened Wrappers
  import opened Bytes
  import opened Natural
  import opened Ownerships
  import opened Abi
  import opened Scalars
  import opened Codec

  datatype BoundError = Overflow | UnsupportedAbiType

  const MAX_ACTION_PAYLOAD_BYTES: nat := 1_000_000

  /** `usize::checked_add`. */
  function CheckedAdd(a: nat, b: nat): Result<nat, BoundError> {
    if a + b > U64_MAX then Err(Overflow) else Ok(a + b)
  }

  function Times(a: nat, n: nat): nat { a * n }

  /** `usize::checked_mul`. */
  function CheckedMul(a: nat, b: nat): Result<nat, BoundError> {
    if Times(a, b) > U64_MAX then Err(Overflow) else Ok(Times(a, b))
  }

  /** The unchecked `1 + value` of the enum and result arms: release arithmetic wraps. */
  function WrappingIncrement(a: nat): nat {
    (a + 1) % (U64_MAX + 1)
  }

  function Max(a: nat, b: nat): nat { if a >= b then a else b }

  /** `compact_len`. */
  function CompactLen(v: u128): nat
    decreases v
  {
    if v <= U64_MAX then
      if v < Pow2(56) then 1 + (if v == 0 then 0 else Extra(v)) else 9
    else CompactLen(v % (U64_MAX + 1)) + CompactLen(v / (U64_MAX + 1))
  }

  /** `compact_len` is the length of the natural the codec writes. */
  lemma {:induction false} CompactLenIsNaturalLength(v: u64)
    ensures CompactLen(v) == |EncodeNatural(v)|
  {
    Pow2Values();
    if 0 < v < 128 {
      ExtraUnique(v, 0) by {
        hide Pow2;
        Pow2Values();
        assert 7 * 0 == 0 && 7 * 0 + 7 == 7;
      }
    }
  }

  /** `max_encoded_len`. */
  function MaxEncodedLen(ty: TypeIr): (r: Result<nat, BoundError>)
    ensures r.Ok? ==> r.value <= U64_MAX
    decreases ty, 0
  {
    if Scalar(ty) then Ok(UnsignedWidth(ty) + SignedWidth(ty))
    else match ty
      case Unit => Ok(0)
      case Bool => Ok(1)
      case Address => Ok(32)
      case OwnershipType => Ok(4096)
      case FixedBytes(len) => Ok(len)
      case BoundedBytes(max) => CompactLenSmall(max); CheckedAdd(CompactLen(max), max)
      case BoundedString(max) => CompactLenSmall(max); CheckedAdd(CompactLen(max), max)
      case FixedArray(item, len) =>
        var one :- MaxEncodedLen(item);
        CheckedMul(one, len)
      case BoundedArray(item, max) =>
        var one :- MaxEncodedLen(item);
        var body :- CheckedMul(one, max);
        CheckedAdd(CompactLen(max), body)
      case OptionOf(item) =>
        var one :- MaxEncodedLen(item);
        CheckedAdd(1, one)
      case Tuple(items) => SumItems(0, items)
      case Record(fields) => SumFields(0, fields)
      case Enum(variants) => MaxVariants(1, variants)
      case ResultOf(okTy, errTy) =>
        var a :- MaxEncodedLen(okTy);
        var b :- MaxEncodedLen(errTy);
        Ok(WrappingIncrement(Max(a, b)))
      case _ => Err(UnsupportedAbiType)
  }

  lemma {:induction false} CompactLenSmall(max: u32)
    ensures 1 <= CompactLen(max) <= 9
  {
    CompactLenIsNaturalLength(max);
  }

  function SumItems(total: nat, items: seq<TypeIr>): (r: Result<nat, BoundError>)
    requires total <= U64_MAX
    ensures r.Ok? ==> r.value <= U64_MAX
    decreases items, 1
  {
    if items == [] then Ok(total)
    else
      var one :- MaxEncodedLen(items[0]);
      var next :- CheckedAdd(total, one);
      SumItems(next, items[1..])
  }

  function SumFields(total: nat, fields: seq<FieldIr>): (r: Result<nat, BoundError>)
    requires total <= U64_MAX
    ensures r.Ok? ==> r.value <= U64_MAX
    decreases fields, 1
  {
    if fields == [] then Ok(total)
    else
      var one :- MaxEncodedLen(fields[0].ty);
      var next :- CheckedAdd(total, one);
      SumFields(next, fields[1..])
  }

  function MaxVariants(best: nat, variants: seq<VariantIr>): (r: Result<nat, BoundError>)
    requires best <= U64_MAX
    ensures r.Ok? ==> r.value <= U64_MAX
    decreases variants, 1
  {
    if variants == [] then Ok(best)
    else
      var one :- MaxEncodedLen(variants[0].ty);
      MaxVariants(Max(best, WrappingIncrement(one)), variants[1..])
  }

  /** The same bound over unbounded integers; zero stands in for an unsupported part, which no
      value encodes. */
  ghost function Longest(ty: TypeIr): nat
    decreases ty, 0
  {
    if Scalar(ty) then UnsignedWidth(ty) + SignedWidth(ty)
    else match ty
      case Bool => 1
      case Address => 32
      case OwnershipType => 4096
      case FixedBytes(len) => len
      case BoundedBytes(max) => |EncodeNatural(max)| + max
      case BoundedString(max) => |EncodeNatural(max)| + max
      case FixedArray(item, len) => Times(Longest(item), len)
      case BoundedArray(item, max) => |EncodeNatural(max)| + Times(Longest(item), max)
      case OptionOf(item) => 1 + Longest(item)
      case Tuple(items) => LongestItems(items)
      case Record(fields) => LongestFields(fields)
      case Enum(variants) => Max(1, LongestVariants(variants))
      case ResultOf(okTy, errTy) => 1 + Max(Longest(okTy), Longest(errTy))
      case _ => 0
  }

  ghost function LongestItems(items: seq<TypeIr>): nat
    decreases items, 1
  {
    if items == [] then 0 else Longest(items[0]) + LongestItems(items[1..])
  }

  ghost function LongestFields(fields: seq<FieldIr>): nat
    decreases fields, 1
  {
    if fields == [] then 0 else Longest(fields[0].ty) + LongestFields(fields[1..])
  }

  /** The largest variant with its tag; zero for no variants. */
  ghost function LongestVariants(variants: seq<VariantIr>): nat
    decreases variants, 1
  {
    if variants == [] then 0
    else Max(1 + Longest(variants[0].ty), LongestVariants(variants[1..]))
  }

  lemma {:induction false} MulBound(a: nat, b: nat, n: nat)
    requires a <= b
    ensures Times(a, n) <= Times(b, n)
    ensures n > 0 ==> b <= Times(b, n)
  {
  }

  /** Below a machine word the computed bound is the unbounded one. */
  ghost predicate Exact(computed: nat, unbounded: nat) {
    computed <= unbounded && (unbounded <= U64_MAX ==> computed == unbounded)
  }

  lemma {:induction false} ScaledExact(m: nat, l: nat, n: nat)
    requires Exact(m, l)
    ensures Exact(Times(m, n), Times(l, n))
  {
    MulBound(m, l, n);
  }

  lemma {:induction false} IncrementExact(m: nat, l: nat)
    requires Exact(m, l) && m <= U64_MAX
    ensures Exact(WrappingIncrement(m), 1 + l)
  {
  }

  lemma {:induction false} ComputedBound(ty: TypeIr)
    requires MaxEncodedLen(ty).Ok?
    ensures Exact(MaxEncodedLen(ty).value, Longest(ty))
    decreases ty, 0
  {
    hide EncodeNatural, CompactLen, Times, WrappingIncrement;
    hide SumItems, SumFields, MaxVariants, LongestItems, LongestFields, LongestVariants;
    match ty {
      case BoundedBytes(max) => CompactLenIsNaturalLength(max);
      case BoundedString(max) => CompactLenIsNaturalLength(max);
      case FixedArray(item, len) =>
        ComputedBound(item);
        ScaledExact(MaxEncodedLen(item).value, Longest(item), len);
      case BoundedArray(item, max) =>
        ComputedBound(item);
        ScaledExact(MaxEncodedLen(item).value, Longest(item), max);
        CompactLenIsNaturalLength(max);
      case OptionOf(item) => ComputedBound(item);
      case Tuple(items) => ComputedItemsExact(0, items);
      case Record(fields) => ComputedFieldsExact(0, fields);
      case Enum(variants) => ComputedVariantsExact(1, variants);
      case ResultOf(okTy, errTy) =>
        ComputedBound(okTy);
        ComputedBound(errTy);
        IncrementExact(Max(MaxEncodedLen(okTy).value, MaxEncodedLen(errTy).value),
                       Max(Longest(okTy), Longest(errTy)));
      case _ =>
    }
  }

  /** The computed bound never exceeds the unbounded one, and equals it exactly when that one fits
      a machine word. */
  lemma {:induction false} ComputedBoundExact(ty: TypeIr)
    requires MaxEncodedLen(ty).Ok?
    ensures MaxEncodedLen(ty).value <= Longest(ty)
    ensures MaxEncodedLen(ty).value == Longest(ty) <==> Longest(ty) <= U64_MAX
  {
    hide MaxEncodedLen, Longest;
    ComputedBound(ty);
  }

  lemma {:induction false} ComputedItemsExact(total: nat, items: seq<TypeIr>)
    requires total <= U64_MAX && SumItems(total, items).Ok?
    ensures var m, l := SumItems(total, items).value, total + LongestItems(items);
      Exact(m, l)
    decreases items, 1
  {
    hide MaxEncodedLen, Longest;
    if items != [] {
      ComputedBound(items[0]);
      ComputedItemsExact(total + MaxEncodedLen(items[0]).value, items[1..]);
    }
  }

  lemma {:induction false} ComputedFieldsExact(total: nat, fields: seq<FieldIr>)
    requires total <= U64_MAX && SumFields(total, fields).Ok?
    ensures var m, l := SumFields(total, fields).value, total + LongestFields(fields);
      Exact(m, l)
    decreases fields, 1
  {
    hide MaxEncodedLen, Longest;
    if fields != [] {
      ComputedBound(fields[0].ty);
      ComputedFieldsExact(total + MaxEncodedLen(fields[0].ty).value, fields[1..]);
    }
  }

  lemma {:induction false} ComputedVariantsExact(best: nat, variants: seq<VariantIr>)
    requires best <= U64_MAX && MaxVariants(best, variants).Ok?
    ensures var m, l := MaxVariants(best, variants).value, Max(best, LongestVariants(variants));
      Exact(m, l)
    decreases variants, 1
  {
    hide MaxEncodedLen, Longest;
    if variants != [] {
      ComputedBound(variants[0].ty);
      var one := MaxEncodedLen(variants[0].ty).value;
      IncrementExact(one, Longest(variants[0].ty));
      ComputedVariantsExact(Max(best, WrappingIncrement(one)), variants[1..]);
    }
  }

  lemma {:induction false} VariantWithinBound(variants: seq<VariantIr>, k: nat)
    requires k < |variants|
    ensures 1 + Longest(variants[k].ty) <= LongestVariants(variants)
  {
    hide Longest;
    if k > 0 {
      VariantWithinBound(variants[1..], k - 1);
    }
  }

  /** Every encoding fits the unbounded bound. */
  lemma {:induction false} EncodingWithinLongest(ty: TypeIr, v: Value)
    requires Encode(ty, v).Ok?
    ensures |Encode(ty, v).value| <= Longest(ty)
    decreases ty, 1
  {
    hide EncodeScalar, EncodeTagged, EncodeSequence, EncodeLeaf, Longest;
    if Scalar(ty) {
      ScalarLength(ty, v);
    } else if Tagged(ty) {
      TaggedWithinLongest(ty, v);
    } else if Sequence(ty) {
      SequenceWithinLongest(ty, v);
    } else {
      LeafWithinLongest(ty, v);
    }
  }

  lemma {:induction false} ScalarLength(ty: TypeIr, v: Value)
    requires Scalar(ty) && EncodeScalar(ty, v).Ok?
    ensures |EncodeScalar(ty, v).value| == Longest(ty)
  {
    hide LE;
  }

  lemma {:induction false} LeafWithinLongest(ty: TypeIr, v: Value)
    requires !Scalar(ty) && !Tagged(ty) && !Sequence(ty) && EncodeLeaf(ty, v).Ok?
    ensures |EncodeLeaf(ty, v).value| <= Longest(ty)
    ensures |EncodeLeaf(ty, v).value| == Longest(ty) ==> !ty.OwnershipType?
  {
    hide EncodeNatural, EncodeOwnership;
    match ty {
      case OwnershipType => OwnershipLayout(v.owner);
      case BoundedBytes(max) => NaturalLengthMonotone(|v.bytes|, max);
      case BoundedString(max) => NaturalLengthMonotone(|v.text|, max);
      case _ =>
    }
  }

  lemma {:induction false} TaggedWithinLongest(ty: TypeIr, v: Value)
    requires Tagged(ty) && EncodeTagged(ty, v).Ok?
    ensures |EncodeTagged(ty, v).value| <= Longest(ty)
    decreases ty, 0
  {
    hide Encode;
    match v {
      case SomeValue(inner) => EncodingWithinLongest(ty.item, inner);
      case EnumValue(index, payload) =>
        var k := FindVariant(ty.variants, index);
        EncodingWithinLongest(ty.variants[k].ty, payload);
        VariantWithinBound(ty.variants, k);
      case OkValue(x) => EncodingWithinLongest(ty.ok, x);
      case ErrValue(x) => EncodingWithinLongest(ty.err, x);
      case _ =>
    }
  }

  lemma {:induction false} SequenceWithinLongest(ty: TypeIr, v: Value)
    requires Sequence(ty) && EncodeSequence(ty, v).Ok?
    ensures |EncodeSequence(ty, v).value| <= Longest(ty)
    decreases ty, 0
  {
    hide Encode, EncodeAll, EncodeTuple, EncodeFields, EncodeNatural;
    match ty {
      case FixedArray(item, len) => AllWithinLongest(item, v.elements);
      case BoundedArray(item, max) =>
        AllWithinLongest(item, v.elements);
        NaturalLengthMonotone(|v.elements|, max);
        MulBound(|v.elements|, max, Longest(item));
        assert Times(Longest(item), |v.elements|) == Times(|v.elements|, Longest(item));
        assert Times(Longest(item), max) == Times(max, Longest(item));
      case Tuple(items) => TupleWithinLongest(items, v.components);
      case Record(fields) => FieldsWithinLongest(fields, v.entries);
    }
  }

  lemma {:induction false} AllWithinLongest(item: TypeIr, vs: seq<Value>)
    requires EncodeAll(item, vs).Ok?
    ensures |EncodeAll(item, vs).value| <= Times(Longest(item), |vs|)
    decreases item, 2 + |vs|
  {
    hide Encode, Longest;
    if vs != [] {
      EncodingWithinLongest(item, vs[0]);
      AllWithinLongest(item, vs[1..]);
      assert Times(Longest(item), |vs|) == Longest(item) + Times(Longest(item), |vs[1..]|);
    }
  }

  lemma {:induction false} TupleWithinLongest(items: seq<TypeIr>, vs: seq<Value>)
    requires |items| == |vs| && EncodeTuple(items, vs).Ok?
    ensures |EncodeTuple(items, vs).value| <= LongestItems(items)
    decreases items, 3
  {
    hide Encode, Longest;
    if items != [] {
      EncodingWithinLongest(items[0], vs[0]);
      TupleWithinLongest(items[1..], vs[1..]);
    }
  }

  lemma {:induction false} FieldsWithinLongest(fields: seq<FieldIr>, entries: seq<Entry>)
    requires |fields| == |entries| && EncodeFields(fields, entries).Ok?
    ensures |EncodeFields(fields, entries).value| <= LongestFields(fields)
    decreases fields, 3
  {
    hide Encode, Longest;
    if fields != [] {
      EncodingWithinLongest(fields[0].ty, entries[0].value);
      FieldsWithinLongest(fields[1..], entries[1..]);
    }
  }

  /** A computed bound whose unbounded counterpart fits a machine word bounds every encoding. */
  lemma {:induction false} ComputedBoundSound(ty: TypeIr, v: Value)
    requires MaxEncodedLen(ty).Ok? && Longest(ty) <= U64_MAX
    requires Encode(ty, v).Ok?
    ensures |Encode(ty, v).value| <= MaxEncodedLen(ty).value
  {
    hide Encode, MaxEncodedLen, Longest;
    ComputedBoundExact(ty);
    EncodingWithinLongest(ty, v);
  }

  /** Whether some value of the type reaches `Longest`: owners stay far below their bound, an enum
      needs a reachable variant of the largest size. */
  ghost predicate Attains(ty: TypeIr)
    decreases ty, 0
  {
    match ty
    case OwnershipType => false
    case Unsupported(_) => false
    case FixedArray(item, len) => len == 0 || Attains(item)
    case BoundedArray(item, max) => max == 0 || Attains(item)
    case OptionOf(item) => Attains(item)
    case Tuple(items) => forall i :: 0 <= i < |items| ==> Attains(items[i])
    case Record(fields) => forall i :: 0 <= i < |fields| ==> Attains(fields[i].ty)
    case Enum(variants) =>
      exists k :: 0 <= k < |variants| && Attains(variants[k].ty) && LargestVariant(variants, k)
    case ResultOf(okTy, errTy) =>
      || (Longest(okTy) >= Longest(errTy) && Attains(okTy))
      || (Longest(errTy) >= Longest(okTy) && Attains(errTy))
    case _ => true
  }

  /** Variant `k` is the one its index selects, and no variant is longer. */
  ghost predicate LargestVariant(variants: seq<VariantIr>, k: nat)
    requires k < |variants|
  {
    && FindVariant(variants, variants[k].index) == k
    && 1 + Longest(variants[k].ty) == Max(1, LongestVariants(variants))
  }

  ghost predicate Reaches(ty: TypeIr, v: Value) {
    Encode(ty, v).Ok? && |Encode(ty, v).value| == Longest(ty)
  }

  /** No part of the type is unsupported. */
  ghost predicate Supported(ty: TypeIr) {
    match ty
    case Unsupported(_) => false
    case FixedArray(item, _) => Supported(item)
    case BoundedArray(item, _) => Supported(item)
    case OptionOf(item) => Supported(item)
    case Tuple(items) => forall i :: 0 <= i < |items| ==> Supported(items[i])
    case Record(fields) => forall i :: 0 <= i < |fields| ==> Supported(fields[i].ty)
    case Enum(variants) => forall i :: 0 <= i < |variants| ==> Supported(variants[i].ty)
    case ResultOf(okTy, errTy) => Supported(okTy) && Supported(errTy)
    case _ => true
  }

  lemma {:induction false} TimesNext(a: nat, n: nat)
    requires n > 0
    ensures Times(a, n) == a + Times(a, n - 1)
  {
  }

  /** `n` copies of a longest value make a longest array body. */
  lemma {:induction false} RepeatReaches(item: TypeIr, w: Value, n: nat)
    requires Reaches(item, w)
    ensures EncodeAll(item, seq(n, _ => w)).Ok?
    ensures |EncodeAll(item, seq(n, _ => w)).value| == Times(Longest(item), n)
  {
    hide Encode, Longest;
    if n > 0 {
      hide Times;
      TimesNext(Longest(item), n);
      RepeatReaches(item, w, n - 1);
      assert seq(n, _ => w)[1..] == seq(n - 1, _ => w);
    }
  }

  /** A longest array body starts with a longest value. */
  lemma {:induction false} HeadReaches(item: TypeIr, vs: seq<Value>)
    requires vs != [] && EncodeAll(item, vs).Ok?
    requires |EncodeAll(item, vs).value| == Times(Longest(item), |vs|)
    ensures Reaches(item, vs[0])
  {
    hide Encode, Longest, Times;
    EncodingWithinLongest(item, vs[0]);
    AllWithinLongest(item, vs[1..]);
    TimesNext(Longest(item), |vs|);
  }

  lemma {:induction false} ItemWithinSum(items: seq<TypeIr>, i: nat)
    requires i < |items|
    ensures Longest(items[i]) <= LongestItems(items)
  {
    hide Longest;
    if i > 0 { ItemWithinSum(items[1..], i - 1); }
  }

  lemma {:induction false} FieldWithinSum(fields: seq<FieldIr>, i: nat)
    requires i < |fields|
    ensures Longest(fields[i].ty) <= LongestFields(fields)
  {
    hide Longest;
    if i > 0 { FieldWithinSum(fields[1..], i - 1); }
  }

  /** A supported type bounded by zero reaches its bound. */
  lemma {:induction false} ZeroBoundAttained(ty: TypeIr)
    requires Supported(ty) && Longest(ty) == 0
    ensures Attains(ty)
  {
    hide EncodeNatural, LongestItems, LongestFields, LongestVariants;
    match ty {
      case FixedArray(item, len) =>
        if len > 0 {
          TimesNext(Longest(item), len);
          ZeroBoundAttained(item);
        }
      case Tuple(items) =>
        forall i | 0 <= i < |items| ensures Attains(items[i]) {
          ItemWithinSum(items, i);
          ZeroBoundAttained(items[i]);
        }
      case Record(fields) =>
        forall i | 0 <= i < |fields| ensures Attains(fields[i].ty) {
          FieldWithinSum(fields, i);
          ZeroBoundAttained(fields[i].ty);
        }
      case _ =>
    }
  }

  /** Only a type that `Attains` has a value of the bound's length. */
  lemma {:induction false} ReachedOnlyIfAttains(ty: TypeIr, v: Value)
    requires Supported(ty) && Reaches(ty, v)
    ensures Attains(ty)
    decreases ty, 1
  {
    if Tagged(ty) {
      TaggedReachedOnlyIf(ty, v);
    } else if Sequence(ty) {
      SequenceReachedOnlyIf(ty, v);
    } else if ty.OwnershipType? {
      LeafWithinLongest(ty, v);
    }
  }

  lemma {:induction false} TaggedReachedOnlyIf(ty: TypeIr, v: Value)
    requires Tagged(ty) && Supported(ty) && EncodeTagged(ty, v).Ok?
    requires |EncodeTagged(ty, v).value| == Longest(ty)
    ensures Attains(ty)
    decreases ty, 0
  {
    hide Encode, LongestVariants;
    match v {
      case NoneValue => ZeroBoundAttained(ty.item);
      case SomeValue(inner) => ReachedOnlyIfAttains(ty.item, inner);
      case EnumValue(index, payload) =>
        var k := FindVariant(ty.variants, index);
        EncodingWithinLongest(ty.variants[k].ty, payload);
        VariantWithinBound(ty.variants, k);
        ReachedOnlyIfAttains(ty.variants[k].ty, payload);
        assert LargestVariant(ty.variants, k);
      case OkValue(x) =>
        EncodingWithinLongest(ty.ok, x);
        ReachedOnlyIfAttains(ty.ok, x);
      case ErrValue(x) =>
        EncodingWithinLongest(ty.err, x);
        ReachedOnlyIfAttains(ty.err, x);
    }
  }

  lemma {:induction false} SequenceReachedOnlyIf(ty: TypeIr, v: Value)
    requires Sequence(ty) && Supported(ty) && EncodeSequence(ty, v).Ok?
    requires |EncodeSequence(ty, v).value| == Longest(ty)
    ensures Attains(ty)
    decreases ty, 0
  {
    hide Encode, EncodeAll, EncodeTuple, EncodeFields, EncodeNatural, Times;
    match ty {
      case FixedArray(item, len) =>
        if len > 0 {
          HeadReaches(item, v.elements);
          ReachedOnlyIfAttains(item, v.elements[0]);
        }
      case BoundedArray(item, max) =>
        if Longest(item) == 0 {
          ZeroBoundAttained(item);
        } else if max > 0 {
          FullArrayOnly(item, max, v.elements);
          HeadReaches(item, v.elements);
          ReachedOnlyIfAttains(item, v.elements[0]);
        }
      case Tuple(items) => TupleReachedOnlyIf(items, v.components);
      case Record(fields) => FieldsReachedOnlyIf(fields, v.entries);
    }
  }

  /** A bounded array of non-empty items reaches its bound only when full of longest items. */
  lemma {:induction false} FullArrayOnly(item: TypeIr, max: u32, vs: seq<Value>)
    requires |vs| <= max && EncodeAll(item, vs).Ok? && Longest(item) > 0
    requires |EncodeNatural(|vs|)| + |EncodeAll(item, vs).value|
          == |EncodeNatural(max)| + Times(Longest(item), max)
    ensures |vs| == max
    ensures |EncodeAll(item, vs).value| == Times(Longest(item), |vs|)
  {
    hide Encode, EncodeAll, EncodeNatural, Longest;
    AllWithinLongest(item, vs);
    NaturalLengthMonotone(|vs|, max);
    if |vs| < max {
      TimesStrict(Longest(item), |vs|, max);
    }
  }

  lemma {:induction false} TimesStrict(a: nat, m: nat, n: nat)
    requires a > 0 && m < n
    ensures Times(a, m) < Times(a, n)
  {
    hide Times;
    TimesNext(a, n);
    if m < n - 1 {
      TimesStrict(a, m, n - 1);
    }
  }

  lemma {:induction false} TupleReachedOnlyIf(items: seq<TypeIr>, vs: seq<Value>)
    requires |items| == |vs| && EncodeTuple(items, vs).Ok?
    requires forall i :: 0 <= i < |items| ==> Supported(items[i])
    requires |EncodeTuple(items, vs).value| == LongestItems(items)
    ensures forall i :: 0 <= i < |items| ==> Attains(items[i])
    decreases items, 3
  {
    hide Encode, Longest, Attains, Supported;
    if items != [] {
      EncodingWithinLongest(items[0], vs[0]);
      TupleWithinLongest(items[1..], vs[1..]);
      ReachedOnlyIfAttains(items[0], vs[0]);
      TupleReachedOnlyIf(items[1..], vs[1..]);
      forall i | 0 <= i < |items| ensures Attains(items[i]) {
        if i > 0 { assert items[i] == items[1..][i - 1]; }
      }
    }
  }

  lemma {:induction false} FieldsReachedOnlyIf(fields: seq<FieldIr>, entries: seq<Entry>)
    requires |fields| == |entries| && EncodeFields(fields, entries).Ok?
    requires forall i :: 0 <= i < |fields| ==> Supported(fields[i].ty)
    requires |EncodeFields(fields, entries).value| == LongestFields(fields)
    ensures forall i :: 0 <= i < |fields| ==> Attains(fields[i].ty)
    decreases fields, 3
  {
    hide Encode, Longest, Attains, Supported;
    if fields != [] {
      EncodingWithinLongest(fields[0].ty, entries[0].value);
      FieldsWithinLongest(fields[1..], entries[1..]);
      ReachedOnlyIfAttains(fields[0].ty, entries[0].value);
      FieldsReachedOnlyIf(fields[1..], entries[1..]);
      forall i | 0 <= i < |fields| ensures Attains(fields[i].ty) {
        if i > 0 { assert fields[i] == fields[1..][i - 1]; }
      }
    }
  }

  lemma {:induction false} AsciiIsUtf8(n: nat)
    ensures ValidUtf8(seq(n, _ => 0 as byte))
  {
    if n > 0 {
      AsciiIsUtf8(n - 1);
      assert seq(n, _ => 0 as byte)[1..] == seq(n - 1, _ => 0 as byte);
    }
  }

  /** Every type that `Attains` has a value of the bound's length. */
  lemma {:induction false} AttainsReached(ty: TypeIr) returns (v: Value)
    requires Attains(ty)
    ensures Reaches(ty, v)
    decreases ty, 2
  {
    hide EncodeScalar, EncodeTagged, EncodeSequence, EncodeLeaf, Longest, Attains;
    if Scalar(ty) {
      v := ScalarAttains(ty);
    } else if Tagged(ty) {
      v := TaggedAttains(ty);
    } else if Sequence(ty) {
      v := SequenceAttains(ty);
    } else {
      v := LeafAttains(ty);
    }
  }

  lemma {:induction false} ScalarAttains(ty: TypeIr) returns (v: Value)
    requires Scalar(ty)
    ensures EncodeScalar(ty, v).Ok? && |EncodeScalar(ty, v).value| == Longest(ty)
  {
    hide LE;
    v := if UnsignedWidth(ty) > 0 then Unsigned(0) else Signed(0);
  }

  lemma {:induction false} LeafAttains(ty: TypeIr) returns (v: Value)
    requires !Scalar(ty) && !Tagged(ty) && !Sequence(ty) && Attains(ty)
    ensures EncodeLeaf(ty, v).Ok? && |EncodeLeaf(ty, v).value| == Longest(ty)
  {
    hide EncodeNatural, ValidUtf8;
    match ty {
      case Unit => v := UnitValue;
      case Bool => v := BoolValue(true);
      case Address => v := BytesValue(seq(32, _ => 0));
      case FixedBytes(len) => v := BytesValue(seq(len, _ => 0));
      case BoundedBytes(max) => v := BytesValue(seq(max, _ => 0));
      case BoundedString(max) =>
        AsciiIsUtf8(max);
        v := StringValue(seq(max, _ => 0 as byte));
    }
  }

  lemma {:induction false} TaggedAttains(ty: TypeIr) returns (v: Value)
    requires Tagged(ty) && Attains(ty)
    ensures EncodeTagged(ty, v).Ok? && |EncodeTagged(ty, v).value| == Longest(ty)
    decreases ty, 1
  {
    hide Encode, LongestVariants;
    match ty {
      case OptionOf(item) =>
        var w := AttainsReached(item);
        v := SomeValue(w);
      case Enum(variants) => v := EnumAttains(variants);
      case ResultOf(okTy, errTy) =>
        v := ResultAttains(okTy, errTy);
    }
  }

  lemma {:induction false} ResultAttains(okTy: TypeIr, errTy: TypeIr) returns (v: Value)
    requires Attains(ResultOf(okTy, errTy))
    ensures EncodeTagged(ResultOf(okTy, errTy), v).Ok?
    ensures |EncodeTagged(ResultOf(okTy, errTy), v).value| == 1 + Max(Longest(okTy), Longest(errTy))
    decreases ResultOf(okTy, errTy), 0
  {
    hide Encode, Longest;
    if Longest(okTy) >= Longest(errTy) && Attains(okTy) {
      var w := AttainsReached(okTy);
      v := OkValue(w);
    } else {
      var w := AttainsReached(errTy);
      v := ErrValue(w);
    }
  }

  lemma {:induction false} EnumAttains(variants: seq<VariantIr>) returns (v: Value)
    requires exists k :: 0 <= k < |variants| && Attains(variants[k].ty) && LargestVariant(variants, k)
    ensures EncodeTagged(Enum(variants), v).Ok?
    ensures |EncodeTagged(Enum(variants), v).value| == Max(1, LongestVariants(variants))
    decreases variants, 3
  {
    hide Encode, Longest, LongestVariants, Attains;
    var k :| 0 <= k < |variants| && Attains(variants[k].ty) && LargestVariant(variants, k);
    var w := AttainsReached(variants[k].ty);
    v := EnumValue(variants[k].index, w);
  }

  lemma {:induction false} SequenceAttains(ty: TypeIr) returns (v: Value)
    requires Sequence(ty) && Attains(ty)
    ensures EncodeSequence(ty, v).Ok? && |EncodeSequence(ty, v).value| == Longest(ty)
    decreases ty, 0
  {
    hide Encode, EncodeTuple, EncodeFields, EncodeNatural;
    match ty {
      case FixedArray(item, len) => v := ArrayAttains(item, len);
      case BoundedArray(item, max) => v := ArrayAttains(item, max);
      case Tuple(items) =>
        var vs := TupleAttains(items);
        v := TupleValue(vs);
      case Record(fields) =>
        var entries := FieldsAttain(fields);
        v := RecordValue(entries);
    }
  }

  lemma {:induction false} ArrayAttains(item: TypeIr, n: nat) returns (v: Value)
    requires n == 0 || Attains(item)
    ensures v.ArrayValue? && |v.elements| == n && EncodeAll(item, v.elements).Ok?
    ensures |EncodeAll(item, v.elements).value| == Times(Longest(item), n)
    decreases item, 3
  {
    hide Encode, Longest;
    if n == 0 {
      v := ArrayValue([]);
    } else {
      var w := AttainsReached(item);
      RepeatReaches(item, w, n);
      v := ArrayValue(seq(n, _ => w));
    }
  }

  lemma {:induction false} TupleAttains(items: seq<TypeIr>) returns (vs: seq<Value>)
    requires forall i :: 0 <= i < |items| ==> Attains(items[i])
    ensures |vs| == |items| && EncodeTuple(items, vs).Ok?
    ensures |EncodeTuple(items, vs).value| == LongestItems(items)
    decreases items, 3
  {
    hide Encode, Longest, Attains;
    if items == [] {
      vs := [];
    } else {
      var head := AttainsReached(items[0]);
      var tail := TupleAttains(items[1..]);
      vs := [head] + tail;
      assert vs[1..] == tail;
    }
  }

  lemma {:induction false} FieldsAttain(fields: seq<FieldIr>) returns (entries: seq<Entry>)
    requires forall i :: 0 <= i < |fields| ==> Attains(fields[i].ty)
    ensures |entries| == |fields| && EncodeFields(fields, entries).Ok?
    ensures |EncodeFields(fields, entries).value| == LongestFields(fields)
    decreases fields, 3
  {
    hide Encode, Longest, Attains;
    if fields == [] {
      entries := [];
    } else {
      var head := AttainsReached(fields[0].ty);
      var tail := FieldsAttain(fields[1..]);
      entries := [Entry(fields[0].name, head)] + tail;
      assert entries[1..] == tail;
    }
  }

  /** The bound is attained by some value exactly for the types that `Attains` picks out. */
  lemma {:induction false} BoundAttainedIff(ty: TypeIr)
    requires Supported(ty)
    ensures (exists v :: Reaches(ty, v)) <==> Attains(ty)
  {
    hide Reaches, Attains, Supported;
    if Attains(ty) {
      var v := AttainsReached(ty);
      assert Reaches(ty, v);
    }
    if v :| Reaches(ty, v) {
      ReachedOnlyIfAttains(ty, v);
    }
  }

  /** The value's encoding, if it has one, is no longer than the computed bound. */
  ghost predicate WithinComputed(ty: TypeIr, v: Value)
    requires MaxEncodedLen(ty).Ok?
  {
    Encode(ty, v).Ok? ==> |Encode(ty, v).value| <= MaxEncodedLen(ty).value
  }

  /** For a type whose bound is attained, the computed bound covers every encoding exactly when the
      unbounded one fits a machine word: past that the enum and result arms have wrapped. */
  lemma {:induction false} ComputedBoundSoundIff(ty: TypeIr)
    requires MaxEncodedLen(ty).Ok? && Attains(ty)
    ensures (forall v :: WithinComputed(ty, v)) <==> Longest(ty) <= U64_MAX
  {
    hide Encode, MaxEncodedLen, Longest, Attains;
    ComputedBoundExact(ty);
    if Longest(ty) <= U64_MAX {
      forall v ensures WithinComputed(ty, v) {
        if Encode(ty, v).Ok? { ComputedBoundSound(ty, v); }
      }
    } else {
      var v := AttainsReached(ty);
      assert Reaches(ty, v);
      assert !WithinComputed(ty, v);
    }
  }

  /** An array type of exactly 2^64 - 1 bytes: 4294967295 * 641 * 6700417. */
  function WordSizedType(): TypeIr {
    FixedArray(FixedArray(FixedBytes(4294967295), 641), 6700417)
  }

  lemma WordSizedBound()
    ensures MaxEncodedLen(WordSizedType()) == Ok(U64_MAX)
  {
    assert MaxEncodedLen(FixedBytes(4294967295)) == Ok(4294967295);
    assert Times(4294967295, 641) == 2753074036095;
    assert MaxEncodedLen(WordSizedType().item) == Ok(2753074036095);
    assert Times(2753074036095, 6700417) == U64_MAX;
  }

  lemma {:induction false} ResultEncodingNotEmpty(okTy: TypeIr, errTy: TypeIr, v: Value)
    requires Encode(ResultOf(okTy, errTy), v).Ok?
    ensures |Encode(ResultOf(okTy, errTy), v).value| > 0
  {
    assert Encode(ResultOf(okTy, errTy), v) == EncodeTagged(ResultOf(okTy, errTy), v);
    hide Encode;
  }

  lemma {:induction false} ResultBoundZero(okTy: TypeIr, errTy: TypeIr)
    requires MaxEncodedLen(okTy) == Ok(U64_MAX) && MaxEncodedLen(errTy).Ok?
    ensures MaxEncodedLen(ResultOf(okTy, errTy)) == Ok(0)
  {
    hide CompactLen, SumItems, SumFields, MaxVariants;
  }

  /** A result type with a word-sized side is given the bound zero, which every value exceeds. */
  lemma {:induction false} ResultBoundWraps(okTy: TypeIr, errTy: TypeIr, v: Value)
    requires MaxEncodedLen(okTy) == Ok(U64_MAX) && MaxEncodedLen(errTy).Ok?
    ensures MaxEncodedLen(ResultOf(okTy, errTy)) == Ok(0)
    ensures Encode(ResultOf(okTy, errTy), v).Ok? ==> !WithinComputed(ResultOf(okTy, errTy), v)
  {
    hide Encode, MaxEncodedLen;
    ResultBoundZero(okTy, errTy);
    if Encode(ResultOf(okTy, errTy), v).Ok? {
      ResultEncodingNotEmpty(okTy, errTy, v);
    }
  }

  lemma {:induction false} UnitErrorEncodes(okTy: TypeIr)
    ensures Encode(ResultOf(okTy, Unit), ErrValue(UnitValue)) == Ok([1])
  {
    assert Encode(Unit, UnitValue) == Ok([]);
    assert EncodeTagged(ResultOf(okTy, Unit), ErrValue(UnitValue)) == Prefixed(1, Ok([]));
    var nothing: seq<byte> := [];
    assert [1] + nothing == [1];
  }

  /** The wrap-around is reachable. */
  lemma ResultBoundWrapsSomewhere()
    ensures MaxEncodedLen(ResultOf(WordSizedType(), Unit)) == Ok(0)
    ensures !WithinComputed(ResultOf(WordSizedType(), Unit), ErrValue(UnitValue))
  {
    WordSizedBound();
    assert MaxEncodedLen(Unit) == Ok(0);
    hide WordSizedType, MaxEncodedLen;
    ResultBoundWraps(WordSizedType(), Unit, ErrValue(UnitValue));
    UnitErrorEncodes(WordSizedType());
    hide Encode;
  }

  /** The parser refuses every bound outside this range. */
  predicate BoundParses(bound: u32) {
    1 <= bound <= MAX_ACTION_PAYLOAD_BYTES
  }

  /** The types `parse_type` can return: bounds in range, at most 256 variants, numbered as written. */
  predicate Parses(ty: TypeIr)
    decreases ty
  {
    match ty
    case FixedBytes(len) => BoundParses(len)
    case BoundedBytes(max) => BoundParses(max)
    case BoundedString(max) => BoundParses(max)
    case FixedArray(item, len) => Parses(item) && BoundParses(len)
    case BoundedArray(item, max) => Parses(item) && BoundParses(max)
    case OptionOf(item) => Parses(item)
    case Tuple(items) => forall i :: 0 <= i < |items| ==> Parses(items[i])
    case Record(fields) => forall i :: 0 <= i < |fields| ==> Parses(fields[i].ty)
    case Enum(variants) =>
      |variants| <= 256 &&
      forall i :: 0 <= i < |variants| ==> variants[i].index == i && Parses(variants[i].ty)
    case ResultOf(okTy, errTy) => Parses(okTy) && Parses(errTy)
    case Unsupported(_) => false
    case _ => true
  }

  /** A parsed input that passes `validate_input`: distinct field names and a bounded total. */
  predicate AcceptsInput(fields: seq<FieldIr>) {
    && (forall i :: 0 <= i < |fields| ==> Parses(fields[i].ty))
    && (forall i, j :: 0 <= i < j < |fields| ==> fields[i].name != fields[j].name)
    && SumFields(0, fields).Ok?
    && SumFields(0, fields).value <= MAX_ACTION_PAYLOAD_BYTES
  }

  /** The payload of these field values, if they encode at all, is within the limit. */
  ghost predicate PayloadFits(fields: seq<FieldIr>, entries: seq<Entry>) {
    var r := Encode(Record(fields), RecordValue(entries));
    r.Ok? ==> |r.value| <= MAX_ACTION_PAYLOAD_BYTES
  }

  lemma {:induction false} RecordEncoding(fields: seq<FieldIr>, entries: seq<Entry>)
    ensures Encode(Record(fields), RecordValue(entries))
         == if |fields| == |entries| then EncodeFields(fields, entries) else Err(TypeMismatch("value"))
  {
    hide EncodeFields;
    assert Encode(Record(fields), RecordValue(entries)) == EncodeSequence(Record(fields), RecordValue(entries));
  }

  /** An accepted input schema whose unbounded size fits a machine word never produces a payload
      over the limit. */
  lemma {:induction false} AcceptedInputFits(fields: seq<FieldIr>, entries: seq<Entry>)
    requires AcceptsInput(fields) && LongestFields(fields) <= U64_MAX
    ensures PayloadFits(fields, entries)
  {
    hide Encode, EncodeFields, LongestFields, SumFields;
    RecordEncoding(fields, entries);
    if |fields| == |entries| && EncodeFields(fields, entries).Ok? {
      ComputedFieldsExact(0, fields);
      FieldsWithinLongest(fields, entries);
    }
  }

  /** Where every field attains its bound, the limit holds for all payloads of an accepted schema
      exactly when its unbounded size fits a machine word. */
  lemma {:induction false} AcceptedInputFitsIff(fields: seq<FieldIr>)
    requires AcceptsInput(fields) && Attains(Record(fields))
    ensures (forall entries :: PayloadFits(fields, entries)) <==> LongestFields(fields) <= U64_MAX
  {
    hide Encode, EncodeFields, LongestFields, SumFields;
    if LongestFields(fields) <= U64_MAX {
      forall entries ensures PayloadFits(fields, entries) {
        AcceptedInputFits(fields, entries);
      }
    } else {
      var entries := FieldsAttain(fields);
      RecordEncoding(fields, entries);
      assert !PayloadFits(fields, entries);
    }
  }

  /** 2753074036095 = 65535 * 65537 * 641 bytes. */
  function ArrayBlock(): TypeIr {
    FixedArray(FixedArray(FixedBytes(65535), 65537), 641)
  }

  /** Exactly 2^64 - 1 bytes again, 6700416 blocks and one, with every bound small enough to parse. */
  function ParsedWordSized(): TypeIr {
    Tuple([FixedArray(FixedArray(ArrayBlock(), 837552), 8), ArrayBlock()])
  }

  /** A schema of one field whose bound has wrapped to zero. */
  function WrappedSchema(): seq<FieldIr> {
    [FieldIr("x", ResultOf(ParsedWordSized(), Unit))]
  }

  /** A type that parses, reaches its bound, and has this one. */
  ghost predicate Sized(ty: TypeIr, n: nat) {
    MaxEncodedLen(ty) == Ok(n) && Parses(ty) && Attains(ty)
  }

  lemma {:induction false} ArraySized(item: TypeIr, n: nat, len: u32)
    requires Sized(item, n) && BoundParses(len) && Times(n, len) <= U64_MAX
    ensures Sized(FixedArray(item, len), Times(n, len))
  {
    hide SumItems, SumFields, MaxVariants, CompactLen;
  }

  lemma {:induction false} TupleBound(items: seq<TypeIr>)
    ensures MaxEncodedLen(Tuple(items)) == SumItems(0, items)
  {
    hide SumItems, SumFields, MaxVariants, CompactLen;
  }

  lemma {:induction false} PairSum(a: TypeIr, m: nat, b: TypeIr, n: nat)
    requires MaxEncodedLen(a) == Ok(m) && MaxEncodedLen(b) == Ok(n) && m + n <= U64_MAX
    ensures SumItems(0, [a, b]) == Ok(m + n)
  {
    hide MaxEncodedLen;
    assert [a, b][1..] == [b] && [b][1..] == [];
    assert SumItems(m + n, []) == Ok(m + n);
    assert SumItems(m, [b]) == Ok(m + n);
  }

  lemma {:induction false} PairSized(a: TypeIr, m: nat, b: TypeIr, n: nat)
    requires Sized(a, m) && Sized(b, n) && m + n <= U64_MAX
    ensures Sized(Tuple([a, b]), m + n)
  {
    hide MaxEncodedLen, SumItems;
    TupleBound([a, b]);
    PairSum(a, m, b, n);
    var items := [a, b];
    assert forall i :: 0 <= i < |items| ==> Parses(items[i]) && Attains(items[i]);
  }

  lemma BlockSized()
    ensures Sized(ArrayBlock(), 2753074036095)
  {
    hide Sized, Times;
    TimesValues();
    BytesSized(65535);
    ArraySized(FixedBytes(65535), 65535, 65537);
    ArraySized(FixedArray(FixedBytes(65535), 65537), 4294967295, 641);
  }

  lemma {:induction false} BytesSized(len: u32)
    requires BoundParses(len)
    ensures Sized(FixedBytes(len), len)
  {
    hide SumItems, SumFields, MaxVariants, CompactLen;
  }

  lemma TimesValues()
    ensures Times(65535, 65537) == 4294967295 && Times(4294967295, 641) == 2753074036095
    ensures Times(2753074036095, 837552) == 2305842665079439440
    ensures Times(2305842665079439440, 8) == 18446741320635515520
  {
  }

  lemma ParsedWordSizedFacts()
    ensures Sized(ParsedWordSized(), U64_MAX)
  {
    hide Sized, Times, ArrayBlock;
    TimesValues();
    BlockSized();
    ArraySized(ArrayBlock(), 2753074036095, 837552);
    ArraySized(FixedArray(ArrayBlock(), 837552), 2305842665079439440, 8);
    PairSized(FixedArray(FixedArray(ArrayBlock(), 837552), 8), 18446741320635515520, ArrayBlock(), 2753074036095);
  }

  /** A result type whose one side is word-sized parses, reaches its bound, and is given the bound zero. */
  lemma {:induction false} WrappedResult(okTy: TypeIr)
    requires Sized(okTy, U64_MAX)
    ensures Sized(ResultOf(okTy, Unit), 0)
  {
    hide MaxEncodedLen, Attains, Longest;
    UnitFacts();
    ResultBoundZero(okTy, Unit);
    AttainsByOk(okTy, Unit);
    assert Parses(Unit) && Parses(ResultOf(okTy, Unit));
  }

  lemma {:induction false} AttainsByOk(okTy: TypeIr, errTy: TypeIr)
    requires Attains(okTy) && Longest(okTy) >= Longest(errTy)
    ensures Attains(ResultOf(okTy, errTy))
  {
    hide Longest;
  }

  lemma UnitFacts()
    ensures MaxEncodedLen(Unit) == Ok(0) && Longest(Unit) == 0
  {
  }

  lemma {:induction false} OneFieldAttains(f: FieldIr)
    requires Attains(f.ty)
    ensures Attains(Record([f]))
  {
  }

  lemma {:induction false} OneFieldSum(f: FieldIr)
    requires MaxEncodedLen(f.ty) == Ok(0)
    ensures SumFields(0, [f]) == Ok(0) && LongestFields([f]) == Longest(f.ty)
  {
    hide MaxEncodedLen, Longest;
    assert [f][1..] == [];
  }

  /** The parser accepts a schema that has a payload over the limit. */
  lemma AcceptedInputOverflows()
    ensures AcceptsInput(WrappedSchema())
    ensures exists entries :: !PayloadFits(WrappedSchema(), entries)
  {
    hide MaxEncodedLen, Encode, Longest, LongestFields, SumFields, Attains, PayloadFits, Parses, ParsedWordSized;
    var fields := WrappedSchema();
    ParsedWordSizedFacts();
    WrappedResult(ParsedWordSized());
    OneFieldAttains(fields[0]);
    OneFieldSum(fields[0]);
    ComputedBoundExact(fields[0].ty);
    assert Longest(fields[0].ty) > 0 by {
      UnitErrorEncodes(ParsedWordSized());
      EncodingWithinLongest(fields[0].ty, ErrValue(UnitValue));
    }
    AcceptedInputFitsIff(fields);
  }
}
