/** The wire format of what refinement hands over: written by the guest, read by the backend and, up to its
    header, by the on-chain entry. */
module RefineOutputs {
  import opened Wrappers
  import opened Bytes
  import opened Outputs

  const PROTOCOL_VERSION: byte := 1
  const MAX_RECEIPTS: nat := 1024
  const MAX_RECOVERY: nat := 1024 * 1024
  const MAX_DEPENDENCIES: nat := 64

  datatype WireError =
    | UnsupportedVersion | TooManyItems | UnexpectedEof | DuplicateServiceId | UnsortedDependencies
    | InvalidEncoding | InvalidRecovery

  /** The payload's hash, and whether it decodes as a state recovery; neither is interpreted further. */
  datatype Payloads = Payloads(hash: seq<byte> -> Root, decodes: seq<byte> -> bool)

  // ----- dependencies in canonical order -----

  /** `sort_by_key` is stable: an item goes behind those with the same key. */
  function Inserted(sorted: seq<Dependency>, d: Dependency): seq<Dependency> {
    if sorted == [] || sorted[|sorted| - 1].service <= d.service then sorted + [d]
    else Inserted(sorted[..|sorted| - 1], d) + [sorted[|sorted| - 1]]
  }

  function Sorted(ds: seq<Dependency>): seq<Dependency> {
    if ds == [] then [] else Inserted(Sorted(ds[..|ds| - 1]), ds[|ds| - 1])
  }

  /** Equal neighbours become one; neighbours that differ only in the root are an error. */
  function Collapsed(sorted: seq<Dependency>): Result<seq<Dependency>, WireError> {
    if sorted == [] then Ok([])
    else
      var before :- Collapsed(sorted[..|sorted| - 1]);
      var d := sorted[|sorted| - 1];
      if before != [] && before[|before| - 1].service == d.service then
        if before[|before| - 1].root != d.root then Err(DuplicateServiceId) else Ok(before)
      else Ok(before + [d])
  }

  function Canonical(ds: seq<Dependency>): Result<seq<Dependency>, WireError> {
    Collapsed(Sorted(ds))
  }

  method CanonicalizeDependencies(ds: seq<Dependency>) returns (r: Result<seq<Dependency>, WireError>)
    ensures r == Canonical(ds)
  {
    hide Sorted;
    var sorted := Sorted(ds);
    var canonical: seq<Dependency>, k := [], 0;
    while k < |sorted|
      invariant 0 <= k <= |sorted| && Collapsed(sorted[..k]) == Ok(canonical)
    {
      assert sorted[..k + 1][..k] == sorted[..k];
      if canonical != [] && canonical[|canonical| - 1].service == sorted[k].service {
        if canonical[|canonical| - 1].root != sorted[k].root {
          CollapseFails(sorted, k + 1);
          return Err(DuplicateServiceId);
        }
      } else {
        canonical := canonical + [sorted[k]];
      }
      k := k + 1;
    }
    assert sorted[..k] == sorted;
    return Ok(canonical);
  }

  lemma {:induction false} CollapseFails(sorted: seq<Dependency>, k: nat)
    requires k <= |sorted| && Collapsed(sorted[..k]) == Err(DuplicateServiceId)
    ensures Collapsed(sorted) == Err(DuplicateServiceId)
  {
    if k < |sorted| {
      assert sorted[..|sorted| - 1][..k] == sorted[..k];
      CollapseFails(sorted[..|sorted| - 1], k);
    } else {
      assert sorted[..k] == sorted;
    }
  }

  /** By service, each once. */
  ghost predicate Strict(ds: seq<Dependency>) {
    forall i, j :: 0 <= i < j < |ds| ==> ds[i].service < ds[j].service
  }

  ghost predicate Ordered(ds: seq<Dependency>) {
    forall i, j :: 0 <= i < j < |ds| ==> ds[i].service <= ds[j].service
  }

  /** Two dependencies on one service at two roots. */
  ghost predicate Conflict(ds: seq<Dependency>) {
    exists a, b :: a in ds && b in ds && a.service == b.service && a.root != b.root
  }

  lemma {:induction false} InsertedFacts(sorted: seq<Dependency>, d: Dependency)
    requires Ordered(sorted)
    ensures Ordered(Inserted(sorted, d))
    ensures forall x :: x in Inserted(sorted, d) <==> x in sorted || x == d
  {
    if sorted != [] && sorted[|sorted| - 1].service > d.service {
      var init, last := sorted[..|sorted| - 1], sorted[|sorted| - 1];
      InsertedFacts(init, d);
      assert sorted == init + [last];
      var r := Inserted(init, d);
      forall x | x in r ensures x.service <= last.service { }
      assert forall i :: 0 <= i < |r| ==> r[i] in r;
    }
  }

  lemma {:induction false} SortedFacts(ds: seq<Dependency>)
    ensures Ordered(Sorted(ds))
    ensures forall x :: x in Sorted(ds) <==> x in ds
  {
    if ds != [] {
      var init, last := ds[..|ds| - 1], ds[|ds| - 1];
      SortedFacts(init);
      InsertedFacts(Sorted(init), last);
      assert ds == init + [last];
    }
  }

  lemma {:induction false} StrictAppend(c: seq<Dependency>, d: Dependency)
    requires Strict(c) && (c != [] ==> c[|c| - 1].service < d.service)
    ensures Strict(c + [d])
  {
  }

  lemma {:induction false} ConflictGrows(a: seq<Dependency>, b: seq<Dependency>)
    requires Conflict(a) && forall x :: x in a ==> x in b
    ensures Conflict(b)
  {
  }

  /** What collapsing an ordered list comes to. */
  ghost predicate CollapsesTo(sorted: seq<Dependency>, r: Result<seq<Dependency>, WireError>) {
    match r
    case Ok(c) =>
      && Strict(c) && (forall x :: x in c <==> x in sorted)
      && (if sorted == [] then c == [] else c != [] && c[|c| - 1] == sorted[|sorted| - 1])
    case Err(e) => e == DuplicateServiceId && Conflict(sorted)
  }

  lemma {:induction false} CollapseStep(init: seq<Dependency>, last: Dependency, c: seq<Dependency>)
    requires Ordered(init + [last]) && CollapsesTo(init, Ok(c))
    ensures c != [] ==> c[|c| - 1].service <= last.service
    ensures c == [] || c[|c| - 1].service < last.service ==> CollapsesTo(init + [last], Ok(c + [last]))
    ensures c != [] && c[|c| - 1] == last ==> CollapsesTo(init + [last], Ok(c))
    ensures c != [] && c[|c| - 1].service == last.service && c[|c| - 1].root != last.root ==> Conflict(init + [last])
  {
    var sorted := init + [last];
    if c != [] {
      assert sorted[|init| - 1] == c[|c| - 1] && sorted[|init|] == last;
      assert c[|c| - 1] in sorted && last in sorted;
    }
    if c == [] || c[|c| - 1].service < last.service { StrictAppend(c, last); }
  }

  lemma {:induction false} OrderedPart(init: seq<Dependency>, last: Dependency)
    requires Ordered(init + [last])
    ensures Ordered(init)
  {
    var sorted := init + [last];
    assert forall i :: 0 <= i < |init| ==> sorted[i] == init[i];
  }

  lemma {:induction false} CollapsedStep(init: seq<Dependency>, last: Dependency)
    requires Ordered(init + [last]) && CollapsesTo(init, Collapsed(init))
    ensures CollapsesTo(init + [last], Collapsed(init + [last]))
  {
    hide Strict, Ordered, Conflict;
    assert (init + [last])[..|init|] == init;
    match Collapsed(init)
    case Err(_) => ConflictGrows(init, init + [last]);
    case Ok(c) =>
      CollapseStep(init, last, c);
      assert c != [] ==> (c[|c| - 1] == last <==> c[|c| - 1].service == last.service && c[|c| - 1].root == last.root);
  }

  lemma {:induction false} CollapsedFacts(sorted: seq<Dependency>)
    requires Ordered(sorted)
    ensures CollapsesTo(sorted, Collapsed(sorted))
  {
    hide Ordered;
    if sorted != [] {
      var init, last := sorted[..|sorted| - 1], sorted[|sorted| - 1];
      assert sorted == init + [last];
      hide CollapsesTo, Collapsed;
      OrderedPart(init, last);
      CollapsedFacts(init);
      CollapsedStep(init, last);
    }
  }

  lemma {:induction false} StrictHasNoConflict(ds: seq<Dependency>)
    requires Strict(ds)
    ensures !Conflict(ds)
  {
  }

  /** Canonicalization fails exactly on conflicting dependencies; otherwise it lists the same ones, each
      once, by service. */
  lemma {:induction false} CanonicalExact(ds: seq<Dependency>)
    ensures match Canonical(ds)
      case Ok(c) => Strict(c) && (forall x :: x in c <==> x in ds) && !Conflict(ds)
      case Err(e) => e == DuplicateServiceId && Conflict(ds)
  {
    hide Collapsed, Sorted;
    SortedFacts(ds);
    CollapsedFacts(Sorted(ds));
    if Canonical(ds).Ok? { StrictHasNoConflict(Canonical(ds).value); }
  }

  lemma {:induction false} HasMember(ds: seq<Dependency>)
    ensures ds != [] ==> exists x :: x in ds
  {
    if ds != [] { assert ds[0] in ds; }
  }

  /** Strict lists of the same dependencies are the same list. */
  lemma {:induction false} StrictDetermined(a: seq<Dependency>, b: seq<Dependency>)
    requires Strict(a) && Strict(b) && forall x :: x in a <==> x in b
    ensures a == b
  {
    if a == [] {
      HasMember(b);
    } else {
      assert a[|a| - 1] in b && b != [];
      assert b[|b| - 1] in a;
      var d, e := a[|a| - 1], b[|b| - 1];
      var i :| 0 <= i < |b| && b[i] == d;
      var j :| 0 <= j < |a| && a[j] == e;
      assert d == e;
      var p, q := a[..|a| - 1], b[..|b| - 1];
      forall x ensures x in p <==> x in q {
        if x in p { assert x in a && x.service < d.service; }
        if x in q { assert x in b && x.service < d.service; }
      }
      StrictDetermined(p, q);
      assert a == p + [d] && b == q + [e];
    }
  }

  /** Canonicalizing does not depend on the order or the repetition of dependencies, and leaves a
      canonical list alone. */
  lemma {:induction false} CanonicalIsSetlike(a: seq<Dependency>, b: seq<Dependency>)
    requires forall x :: x in a <==> x in b
    ensures Canonical(a) == Canonical(b)
    ensures Strict(a) ==> Canonical(a) == Ok(a)
  {
    hide Canonical, Strict;
    CanonicalExact(a);
    CanonicalExact(b);
    if Canonical(a).Ok? && Canonical(b).Ok? { StrictDetermined(Canonical(a).value, Canonical(b).value); }
    if Strict(a) {
      StrictHasNoConflict(a);
      StrictDetermined(Canonical(a).value, a);
    }
  }

  // ----- writing -----

  function WriteDependencies(ds: seq<Dependency>): seq<byte> {
    if ds == [] then []
    else LE(ds[0].service, 4) + ds[0].root + WriteDependencies(ds[1..])
  }

  function StatusByte(status: ActionStatus): byte {
    match status
    case AppliedAction => 0
    case FailedAction => 1
    case RejectedAction => 2
  }

  function WriteReceipt(r: ActionReceipt): seq<byte> {
    r.hash + [StatusByte(r.status)] + (match r.code case None => [0] case Some(code) => [1] + LE(code, 4))
  }

  function WriteReceipts(rs: seq<ActionReceipt>): seq<byte> {
    if rs == [] then [] else WriteReceipt(rs[0]) + WriteReceipts(rs[1..])
  }

  function WriteUntil(until: Option<u64>): seq<byte> {
    match until
    case None => [0]
    case Some(slot) => [1] + LE(slot, 8)
  }

  /** The bytes of an output whose dependencies are canonical. */
  function WriteOutput(o: Output): seq<byte> {
    [PROTOCOL_VERSION] + o.parentRoot + o.newRoot + LE(|o.dependencies|, 4) + WriteDependencies(o.dependencies) +
    WriteUntil(o.validUntil) + o.recoveryCommitment + LE(|o.receipts|, 4) + WriteReceipts(o.receipts) +
    LE(|o.recoveryPayload|, 4) + o.recoveryPayload
  }

  /** `RuntimeRefineOutputV1::encode`. */
  function EncodeOutput(o: Output): Result<seq<byte>, WireError> {
    if |o.receipts| > MAX_RECEIPTS || |o.recoveryPayload| > MAX_RECOVERY then Err(TooManyItems)
    else
      var ds :- Canonical(o.dependencies);
      if |ds| > MAX_DEPENDENCIES then Err(TooManyItems) else Ok(WriteOutput(o.(dependencies := ds)))
  }

  method Encode(o: Output) returns (r: Result<seq<byte>, WireError>)
    ensures r == EncodeOutput(o)
  {
    hide Canonical, LE, WriteReceipt;
    if |o.receipts| > MAX_RECEIPTS || |o.recoveryPayload| > MAX_RECOVERY { return Err(TooManyItems); }
    var head := [PROTOCOL_VERSION] + o.parentRoot + o.newRoot;
    var ds :- CanonicalizeDependencies(o.dependencies);
    if |ds| > MAX_DEPENDENCIES { return Err(TooManyItems); }
    var output := head + LE(|ds|, 4);
    assert ds[0..] == ds;
    ghost var goal := output + WriteDependencies(ds);
    var k := 0;
    while k < |ds|
      invariant 0 <= k <= |ds| && output + WriteDependencies(ds[k..]) == goal
    {
      assert ds[k..][1..] == ds[k + 1..];
      ghost var before := output;
      output := output + LE(ds[k].service, 4);
      output := output + ds[k].root;
      k := k + 1;
      assert output + WriteDependencies(ds[k..]) == before + WriteDependencies(ds[k - 1..]);
    }
    assert ds[k..] == [] && output + [] == output;
    match o.validUntil {
      case Some(slot) => output := output + [1]; output := output + LE(slot, 8);
      case None => output := output + [0];
    }
    assert output == goal + WriteUntil(o.validUntil);
    output := output + o.recoveryCommitment;
    output := output + LE(|o.receipts|, 4);
    goal := output + WriteReceipts(o.receipts);
    k := 0;
    assert o.receipts[0..] == o.receipts;
    while k < |o.receipts|
      invariant 0 <= k <= |o.receipts| && output + WriteReceipts(o.receipts[k..]) == goal
    {
      assert o.receipts[k..][1..] == o.receipts[k + 1..];
      ghost var before := output;
      output := output + WriteReceipt(o.receipts[k]);
      k := k + 1;
      assert output + WriteReceipts(o.receipts[k..]) == before + WriteReceipts(o.receipts[k - 1..]);
    }
    assert o.receipts[k..] == [] && output + [] == output;
    output := output + LE(|o.recoveryPayload|, 4);
    output := output + o.recoveryPayload;
    return Ok(output);
  }

  // ----- reading -----

  datatype Read<+T> = Read(value: T, rest: seq<byte>)

  function Take(b: seq<byte>, n: nat): Result<Read<seq<byte>>, WireError> {
    if |b| < n then Err(UnexpectedEof) else Ok(Read(b[..n], b[n..]))
  }

  function ReadU8(b: seq<byte>): Result<Read<byte>, WireError> {
    var x :- Take(b, 1);
    Ok(Read(x.value[0], x.rest))
  }

  function ReadU32(b: seq<byte>): Result<Read<u32>, WireError> {
    var x :- Take(b, 4);
    FourBytesFit(x.value);
    Ok(Read(FromLE(x.value), x.rest))
  }

  function ReadU64(b: seq<byte>): Result<Read<u64>, WireError> {
    var x :- Take(b, 8);
    EightBytesFit(x.value);
    Ok(Read(FromLE(x.value), x.rest))
  }

  lemma {:induction false} FourBytesFit(b: seq<byte>)
    requires |b| == 4
    ensures FromLE(b) <= U32_MAX
  {
    Pow256Values();
    FromLEBound(b);
  }

  lemma {:induction false} EightBytesFit(b: seq<byte>)
    requires |b| == 8
    ensures FromLE(b) <= U64_MAX
  {
    Pow256Values();
    FromLEBound(b);
  }

  /** The loop of `decode_dependencies`: `acc` is what was pushed so far. */
  function ReadDependencies(b: seq<byte>, count: nat, acc: seq<Dependency>): Result<Read<seq<Dependency>>, WireError> {
    if count == 0 then Ok(Read(acc, b))
    else
      var id :- ReadU32(b);
      if acc != [] && id.value < acc[|acc| - 1].service then Err(UnsortedDependencies)
      else
        var root :- Take(id.rest, 32);
        if acc != [] && acc[|acc| - 1].service == id.value then
          if acc[|acc| - 1].root != root.value then Err(DuplicateServiceId)
          else ReadDependencies(root.rest, count - 1, acc)
        else ReadDependencies(root.rest, count - 1, acc + [Dependency(id.value, root.value)])
  }

  function ReadUntil(b: seq<byte>): Result<Read<Option<u64>>, WireError> {
    var flag :- ReadU8(b);
    if flag.value == 0 then Ok(Read(None, flag.rest))
    else if flag.value == 1 then
      var slot :- ReadU64(flag.rest);
      Ok(Read(Some(slot.value), slot.rest))
    else Err(InvalidEncoding)
  }

  function ReadCode(b: seq<byte>): Result<Read<Option<u32>>, WireError> {
    var flag :- ReadU8(b);
    if flag.value == 0 then Ok(Read(None, flag.rest))
    else if flag.value == 1 then
      var code :- ReadU32(flag.rest);
      Ok(Read(Some(code.value), code.rest))
    else Err(InvalidEncoding)
  }

  function StatusOf(b: byte): Option<ActionStatus> {
    if b == 0 then Some(AppliedAction) else if b == 1 then Some(FailedAction)
    else if b == 2 then Some(RejectedAction) else None
  }

  function ReadReceipt(b: seq<byte>): Result<Read<ActionReceipt>, WireError> {
    var hash :- Take(b, 32);
    var status :- ReadU8(hash.rest);
    if StatusOf(status.value).None? then Err(InvalidEncoding)
    else
      var code :- ReadCode(status.rest);
      Ok(Read(ActionReceipt(hash.value, StatusOf(status.value).value, code.value), code.rest))
  }

  function ReadReceipts(b: seq<byte>, count: nat): Result<Read<seq<ActionReceipt>>, WireError> {
    if count == 0 then Ok(Read([], b))
    else
      var first :- ReadReceipt(b);
      var others :- ReadReceipts(first.rest, count - 1);
      Ok(Read([first.value] + others.value, others.rest))
  }

  function ReadPayload(b: seq<byte>): Result<Read<seq<byte>>, WireError> {
    var n :- ReadU32(b);
    if n.value > MAX_RECOVERY then Err(TooManyItems) else Take(n.rest, n.value)
  }

  datatype Head = Head(parentRoot: Root, newRoot: Root, dependencies: seq<Dependency>, validUntil: Option<u64>,
                       commitment: Root)

  /** What both decoders read first. */
  function ReadHead(b: seq<byte>): Result<Read<Head>, WireError> {
    var version :- ReadU8(b);
    if version.value != PROTOCOL_VERSION then Err(UnsupportedVersion)
    else
      var parent :- Take(version.rest, 32);
      var next :- Take(parent.rest, 32);
      var count :- ReadU32(next.rest);
      if count.value > MAX_DEPENDENCIES then Err(TooManyItems)
      else
        var ds :- ReadDependencies(count.rest, count.value, []);
        var until :- ReadUntil(ds.rest);
        var commitment :- Take(until.rest, 32);
        Ok(Read(Head(parent.value, next.value, ds.value, until.value, commitment.value), commitment.rest))
  }

  /** `RuntimeRefineOutputV1::decode`. */
  function DecodeOutput(p: Payloads, b: seq<byte>): Result<Output, WireError> {
    if |b| > MAX_RECOVERY + 128 * MAX_RECEIPTS then Err(TooManyItems)
    else
      var head :- ReadHead(b);
      var count :- ReadU32(head.rest);
      if count.value > MAX_RECEIPTS then Err(TooManyItems)
      else
        var receipts :- ReadReceipts(count.rest, count.value);
        var payload :- ReadPayload(receipts.rest);
        if payload.rest != [] then Err(InvalidEncoding)
        else if p.hash(payload.value) != head.value.commitment then Err(InvalidEncoding)
        else if !p.decodes(payload.value) then Err(InvalidRecovery)
        else
          Ok(Output(head.value.parentRoot, head.value.newRoot, head.value.dependencies, head.value.validUntil,
                    receipts.value, head.value.commitment, payload.value))
  }

  /** The receipts as the header decoder skips them. */
  function SkipReceipts(b: seq<byte>, count: nat): Result<seq<byte>, WireError> {
    if count == 0 then Ok(b)
    else
      var hash :- Take(b, 32);
      var status :- ReadU8(hash.rest);
      if status.value > 2 then Err(InvalidEncoding)
      else
        var code :- ReadCode(status.rest);
        SkipReceipts(code.rest, count - 1)
  }

  /** `decode_transition_header`, what the on-chain entry reads of a package. */
  function DecodeHeader(b: seq<byte>): Result<Head, WireError> {
    var head :- ReadHead(b);
    var count :- ReadU32(head.rest);
    if count.value > MAX_RECEIPTS then Err(TooManyItems)
    else
      var rest :- SkipReceipts(count.rest, count.value);
      var payload :- ReadPayload(rest);
      if payload.rest != [] then Err(InvalidEncoding) else Ok(head.value)
  }

  // ----- what is written reads back -----

  ghost predicate AllRoots(ds: seq<Dependency>) {
    forall i :: 0 <= i < |ds| ==> |ds[i].root| == 32
  }

  ghost predicate AllHashes(rs: seq<ActionReceipt>) {
    forall i :: 0 <= i < |rs| ==> |rs[i].hash| == 32
  }

  /** Roots and hashes are 32 bytes wide, as their type says in the source. */
  ghost predicate Sized(o: Output) {
    && |o.parentRoot| == |o.newRoot| == |o.recoveryCommitment| == 32
    && AllRoots(o.dependencies) && AllHashes(o.receipts)
  }

  /** What decoding guarantees of an output. */
  ghost predicate Ready(p: Payloads, o: Output) {
    && Sized(o) && Strict(o.dependencies) && |o.dependencies| <= MAX_DEPENDENCIES && |o.receipts| <= MAX_RECEIPTS
    && |o.recoveryPayload| <= MAX_RECOVERY && p.hash(o.recoveryPayload) == o.recoveryCommitment
    && p.decodes(o.recoveryPayload)
  }

  lemma {:induction false} TakeWritten(x: seq<byte>, rest: seq<byte>)
    ensures Take(x + rest, |x|) == Ok(Read(x, rest))
  {
    assert (x + rest)[..|x|] == x && (x + rest)[|x|..] == rest;
  }

  lemma {:induction false} U32Written(v: u32, rest: seq<byte>)
    ensures ReadU32(LE(v, 4) + rest) == Ok(Read(v, rest))
  {
    TakeWritten(LE(v, 4), rest);
    Pow256Values();
    FromLEOfLE(v, 4);
  }

  lemma {:induction false} DependenciesReadBack(acc: seq<Dependency>, ds: seq<Dependency>, rest: seq<byte>)
    requires Strict(acc + ds) && AllRoots(ds)
    ensures ReadDependencies(WriteDependencies(ds) + rest, |ds|, acc) == Ok(Read(acc + ds, rest))
    decreases |ds|
  {
    hide LE, ReadU32, Take;
    if ds == [] {
      assert WriteDependencies(ds) + rest == rest && acc + ds == acc;
    } else {
      var d, tail := ds[0], WriteDependencies(ds[1..]) + rest;
      assert WriteDependencies(ds) + rest == LE(d.service, 4) + (d.root + tail);
      U32Written(d.service, d.root + tail);
      TakeWritten(d.root, tail);
      assert acc + ds == (acc + [d]) + ds[1..];
      if acc != [] { assert (acc + ds)[|acc| - 1] == acc[|acc| - 1] && (acc + ds)[|acc|] == d; }
      DependenciesReadBack(acc + [d], ds[1..], rest);
    }
  }

  lemma {:induction false} CodeWritten(code: Option<u32>, rest: seq<byte>)
    ensures ReadCode((match code case None => [0] case Some(c) => [1] + LE(c, 4)) + rest) == Ok(Read(code, rest))
  {
    hide LE, ReadU32;
    match code
    case None =>
      assert ([0] + rest)[1..] == rest;
    case Some(c) =>
      assert [1] + LE(c, 4) + rest == [1] + (LE(c, 4) + rest);
      assert ([1] + (LE(c, 4) + rest))[1..] == LE(c, 4) + rest;
      U32Written(c, rest);
  }

  lemma {:induction false} UntilWritten(until: Option<u64>, rest: seq<byte>)
    ensures ReadUntil(WriteUntil(until) + rest) == Ok(Read(until, rest))
  {
    hide LE;
    match until
    case None =>
      assert ([0] + rest)[1..] == rest;
    case Some(slot) =>
      assert [1] + LE(slot, 8) + rest == [1] + (LE(slot, 8) + rest);
      assert ([1] + (LE(slot, 8) + rest))[1..] == LE(slot, 8) + rest;
      TakeWritten(LE(slot, 8), rest);
      Pow256Values();
      FromLEOfLE(slot, 8);
  }

  lemma {:induction false} ReceiptWritten(r: ActionReceipt, rest: seq<byte>)
    requires |r.hash| == 32
    ensures ReadReceipt(WriteReceipt(r) + rest) == Ok(Read(r, rest))
  {
    hide ReadCode, Take;
    var code: seq<byte> := match r.code case None => [0] case Some(c) => [1] + LE(c, 4);
    assert WriteReceipt(r) + rest == r.hash + ([StatusByte(r.status)] + (code + rest));
    TakeWritten(r.hash, [StatusByte(r.status)] + (code + rest));
    TakeWritten([StatusByte(r.status)], code + rest);
    CodeWritten(r.code, rest);
  }

  lemma {:induction false} ReceiptsReadBack(rs: seq<ActionReceipt>, rest: seq<byte>)
    requires AllHashes(rs)
    ensures ReadReceipts(WriteReceipts(rs) + rest, |rs|) == Ok(Read(rs, rest))
  {
    hide ReadReceipt, WriteReceipt;
    if rs == [] {
      assert WriteReceipts(rs) + rest == rest;
    } else {
      assert WriteReceipts(rs) + rest == WriteReceipt(rs[0]) + (WriteReceipts(rs[1..]) + rest);
      ReceiptWritten(rs[0], WriteReceipts(rs[1..]) + rest);
      ReceiptsReadBack(rs[1..], rest);
      assert [rs[0]] + rs[1..] == rs;
    }
  }

  /** The written bytes, part by part from the back. */
  function WriteTail(o: Output): seq<byte> {
    LE(|o.receipts|, 4) + (WriteReceipts(o.receipts) + (LE(|o.recoveryPayload|, 4) + o.recoveryPayload))
  }

  lemma {:induction false} OutputParts(o: Output)
    ensures WriteOutput(o) == [PROTOCOL_VERSION] + (o.parentRoot + (o.newRoot + (LE(|o.dependencies|, 4) +
      (WriteDependencies(o.dependencies) + (WriteUntil(o.validUntil) + (o.recoveryCommitment + WriteTail(o)))))))
  {
    hide LE, WriteDependencies, WriteReceipts, WriteUntil;
  }

  lemma {:induction false} HeadReadsBack(o: Output)
    requires Sized(o) && Strict(o.dependencies) && |o.dependencies| <= MAX_DEPENDENCIES
    ensures ReadHead(WriteOutput(o)) ==
      Ok(Read(Head(o.parentRoot, o.newRoot, o.dependencies, o.validUntil, o.recoveryCommitment), WriteTail(o)))
  {
    hide LE, WriteDependencies, WriteReceipts, WriteUntil, WriteOutput, WriteTail, Take, ReadU32, ReadUntil,
      ReadDependencies;
    OutputParts(o);
    var f := o.recoveryCommitment + WriteTail(o);
    var e := WriteUntil(o.validUntil) + f;
    var d := WriteDependencies(o.dependencies) + e;
    var c := LE(|o.dependencies|, 4) + d;
    TakeWritten([PROTOCOL_VERSION], o.parentRoot + (o.newRoot + c));
    TakeWritten(o.parentRoot, o.newRoot + c);
    TakeWritten(o.newRoot, c);
    U32Written(|o.dependencies|, d);
    assert [] + o.dependencies == o.dependencies;
    DependenciesReadBack([], o.dependencies, e);
    UntilWritten(o.validUntil, f);
    TakeWritten(o.recoveryCommitment, WriteTail(o));
  }

  lemma {:induction false} PayloadWritten(payload: seq<byte>)
    requires |payload| <= MAX_RECOVERY
    ensures ReadPayload(LE(|payload|, 4) + payload) == Ok(Read(payload, []))
  {
    hide LE, ReadU32, Take;
    U32Written(|payload|, payload);
    assert payload + [] == payload;
    TakeWritten(payload, []);
  }

  lemma {:induction false} WrittenSizes(o: Output)
    requires Sized(o)
    ensures |WriteDependencies(o.dependencies)| == 36 * |o.dependencies|
    ensures 34 * |o.receipts| <= |WriteReceipts(o.receipts)| <= 38 * |o.receipts|
    ensures |WriteOutput(o)| <= 118 + 36 * |o.dependencies| + 38 * |o.receipts| + |o.recoveryPayload|
  {
    DependenciesSize(o.dependencies);
    ReceiptsSize(o.receipts);
  }

  lemma {:induction false} DependenciesSize(ds: seq<Dependency>)
    requires AllRoots(ds)
    ensures |WriteDependencies(ds)| == 36 * |ds|
  {
    if ds != [] { DependenciesSize(ds[1..]); }
  }

  lemma {:induction false} ReceiptsSize(rs: seq<ActionReceipt>)
    requires AllHashes(rs)
    ensures 34 * |rs| <= |WriteReceipts(rs)| <= 38 * |rs|
  {
    if rs != [] { ReceiptsSize(rs[1..]); }
  }

  /** The encoder's limits on receipts, dependencies and payload bound the encoding. */
  lemma {:induction false} EncodedSize(o: Output)
    requires Sized(o) && EncodeOutput(o).Ok?
    ensures |EncodeOutput(o).value| <= 1089910
  {
    hide Canonical, WriteOutput;
    CanonicalExact(o.dependencies);
    var ds := Canonical(o.dependencies).value;
    assert AllRoots(ds) by {
      forall i | 0 <= i < |ds| ensures |ds[i].root| == 32 { assert ds[i] in o.dependencies; }
    }
    WrittenSizes(o.(dependencies := ds));
  }

  /** An output that is ready encodes, in at most 1089910 bytes, and decodes to itself. */
  lemma {:induction false} OutputReadsBack(p: Payloads, o: Output)
    requires Ready(p, o)
    ensures EncodeOutput(o) == Ok(WriteOutput(o)) && |WriteOutput(o)| <= 1089910
    ensures DecodeOutput(p, WriteOutput(o)) == Ok(o)
  {
    hide LE, WriteReceipts, WriteOutput, ReadHead, ReadReceipts, ReadPayload, ReadU32, Canonical, Strict;
    CanonicalIsSetlike(o.dependencies, o.dependencies);
    assert o.(dependencies := o.dependencies) == o;
    WrittenSizes(o);
    HeadReadsBack(o);
    var payload := LE(|o.recoveryPayload|, 4) + o.recoveryPayload;
    U32Written(|o.receipts|, WriteReceipts(o.receipts) + payload);
    ReceiptsReadBack(o.receipts, payload);
    PayloadWritten(o.recoveryPayload);
  }

  // ----- what is read is ready -----

  lemma {:induction false} DependenciesRead(b: seq<byte>, count: nat, acc: seq<Dependency>)
    requires Strict(acc) && AllRoots(acc) && ReadDependencies(b, count, acc).Ok?
    ensures var r := ReadDependencies(b, count, acc).value;
      Strict(r.value) && AllRoots(r.value) && |r.value| <= |acc| + count && |b| == 36 * count + |r.rest|
    decreases count
  {
    hide FromLE;
    if count > 0 {
      var id := ReadU32(b).value;
      var root := Take(id.rest, 32).value;
      if acc != [] && acc[|acc| - 1].service == id.value {
        DependenciesRead(root.rest, count - 1, acc);
      } else {
        StrictAppend(acc, Dependency(id.value, root.value));
        DependenciesRead(root.rest, count - 1, acc + [Dependency(id.value, root.value)]);
      }
    }
  }

  lemma {:induction false} ReceiptHash(b: seq<byte>)
    requires ReadReceipt(b).Ok?
    ensures |ReadReceipt(b).value.value.hash| == 32
  {
    hide ReadCode;
  }

  lemma {:induction false} ReceiptsRead(b: seq<byte>, count: nat)
    requires ReadReceipts(b, count).Ok?
    ensures var r := ReadReceipts(b, count).value; |r.value| == count && AllHashes(r.value)
    decreases count
  {
    hide ReadReceipt;
    if count > 0 {
      ReceiptHash(b);
      ReceiptsRead(ReadReceipt(b).value.rest, count - 1);
    }
  }

  /** Whatever decodes is ready: dependencies strictly by service, every limit kept, the payload hashed and
      decodable.  So it encodes, and decodes again to itself. */
  lemma {:induction false} DecodedIsReady(p: Payloads, b: seq<byte>, o: Output)
    requires DecodeOutput(p, b) == Ok(o)
    ensures Ready(p, o)
    ensures EncodeOutput(o).Ok? && DecodeOutput(p, EncodeOutput(o).value) == Ok(o)
  {
    hide ReadDependencies, ReadReceipts, ReadUntil, ReadU32, EncodeOutput, Strict;
    var head := ReadHead(b).value;
    HeadIsReady(b);
    ReceiptsRead(ReadU32(head.rest).value.rest, ReadU32(head.rest).value.value);
    OutputReadsBack(p, o);
  }

  lemma {:induction false} HeadIsReady(b: seq<byte>)
    requires ReadHead(b).Ok?
    ensures var h := ReadHead(b).value.value;
      && |h.parentRoot| == |h.newRoot| == |h.commitment| == 32
      && Strict(h.dependencies) && AllRoots(h.dependencies) && |h.dependencies| <= MAX_DEPENDENCIES
  {
    hide ReadDependencies, ReadUntil, ReadU32;
    var next := Take(Take(ReadU8(b).value.rest, 32).value.rest, 32).value;
    var count := ReadU32(next.rest).value;
    DependenciesRead(count.rest, count.value, []);
  }

  /** What encodes reads back as itself if and only if it is ready. */
  lemma {:induction false} ReadsBackIff(p: Payloads, o: Output)
    requires EncodeOutput(o).Ok?
    ensures DecodeOutput(p, EncodeOutput(o).value) == Ok(o) <==> Ready(p, o)
  {
    hide EncodeOutput, DecodeOutput, Ready;
    if DecodeOutput(p, EncodeOutput(o).value) == Ok(o) { DecodedIsReady(p, EncodeOutput(o).value, o); }
    if Ready(p, o) { OutputReadsBack(p, o); }
  }

  lemma {:induction false} SkipMatchesRead(b: seq<byte>, count: nat)
    ensures ReadReceipts(b, count).Ok? <==> SkipReceipts(b, count).Ok?
    ensures ReadReceipts(b, count).Ok? ==> SkipReceipts(b, count).value == ReadReceipts(b, count).value.rest
    decreases count
  {
    hide ReadCode;
    if count > 0 && Take(b, 32).Ok? && ReadU8(Take(b, 32).value.rest).Ok? {
      var status := ReadU8(Take(b, 32).value.rest).value;
      if ReadCode(status.rest).Ok? { SkipMatchesRead(ReadCode(status.rest).value.rest, count - 1); }
    }
  }

  function HeadOf(o: Output): Head {
    Head(o.parentRoot, o.newRoot, o.dependencies, o.validUntil, o.recoveryCommitment)
  }

  /** The payload a byte string ends in, if it has the shape of an output. */
  function PayloadOf(b: seq<byte>): Option<seq<byte>> {
    var head := ReadHead(b);
    if head.Err? then None
    else
      var count := ReadU32(head.value.rest);
      if count.Err? then None
      else
        var receipts := ReadReceipts(count.value.rest, count.value.value);
        if receipts.Err? then None
        else
          var payload := ReadPayload(receipts.value.rest);
          if payload.Err? then None else Some(payload.value.value)
  }

  /** The on-chain entry judges a package by the head of the very output the backend decodes; it accepts
      the shape of exactly those byte strings that are too long for the backend or whose payload the backend
      refuses besides. */
  lemma {:induction false} HeaderAgrees(p: Payloads, b: seq<byte>)
    ensures DecodeOutput(p, b).Ok? ==> DecodeHeader(b) == Ok(HeadOf(DecodeOutput(p, b).value))
    ensures DecodeOutput(p, b).Ok? <==>
      && DecodeHeader(b).Ok? && |b| <= MAX_RECOVERY + 128 * MAX_RECEIPTS && PayloadOf(b).Some?
      && p.hash(PayloadOf(b).value) == DecodeHeader(b).value.commitment && p.decodes(PayloadOf(b).value)
  {
    hide ReadHead, ReadU32, ReadReceipts, SkipReceipts, ReadPayload;
    if ReadHead(b).Ok? && ReadU32(ReadHead(b).value.rest).Ok? {
      var count := ReadU32(ReadHead(b).value.rest).value;
      SkipMatchesRead(count.rest, count.value);
    }
  }

  // ----- the decoder as written -----

  /** What a cursor step returns and leaves, against the step on the bytes still unread. */
  ghost predicate Took<T(!new)>(spec: Result<Read<T>, WireError>, r: Result<T, WireError>, left: seq<byte>) {
    match spec
    case Ok(x) => r == Ok(x.value) && left == x.rest
    case Err(e) => r == Err(e)
  }

  class Reader {
    const bytes: seq<byte>
    var offset: nat

    ghost predicate Valid() reads this { offset <= |bytes| }

    ghost function Left(): seq<byte>
      requires Valid()
      reads this
    {
      bytes[offset..]
    }

    constructor (b: seq<byte>)
      ensures Valid() && bytes == b && Left() == b
    {
      bytes, offset := b, 0;
    }

    method TakeBytes(n: nat) returns (r: Result<seq<byte>, WireError>)
      requires Valid()
      modifies this
      ensures Valid() && Took(Take(old(Left()), n), r, Left())
    {
      if offset + n > |bytes| { return Err(UnexpectedEof); }
      assert Left()[..n] == bytes[offset..offset + n] && Left()[n..] == bytes[offset + n..];
      r := Ok(bytes[offset..offset + n]);
      offset := offset + n;
    }

    method TakeU8() returns (r: Result<byte, WireError>)
      requires Valid()
      modifies this
      ensures Valid() && Took(ReadU8(old(Left())), r, Left())
    {
      var x :- TakeBytes(1);
      return Ok(x[0]);
    }

    method TakeU32() returns (r: Result<u32, WireError>)
      requires Valid()
      modifies this
      ensures Valid() && Took(ReadU32(old(Left())), r, Left())
    {
      var x :- TakeBytes(4);
      FourBytesFit(x);
      return Ok(FromLE(x));
    }

    /** `decode_dependencies` after its count. */
    method TakeDependencies(count: nat) returns (r: Result<seq<Dependency>, WireError>)
      requires Valid()
      modifies this
      ensures Valid() && Took(ReadDependencies(old(Left()), count, []), r, Left())
    {
      hide ReadU32, Take;
      var ds: seq<Dependency>, k := [], 0;
      ghost var goal := ReadDependencies(Left(), count, []);
      while k < count
        invariant 0 <= k <= count && Valid() && ReadDependencies(Left(), count - k, ds) == goal
      {
        var service :- TakeU32();
        if ds != [] && service < ds[|ds| - 1].service { return Err(UnsortedDependencies); }
        var root :- TakeBytes(32);
        if ds != [] && ds[|ds| - 1].service == service {
          if ds[|ds| - 1].root != root { return Err(DuplicateServiceId); }
        } else {
          ds := ds + [Dependency(service, root)];
        }
        k := k + 1;
      }
      return Ok(ds);
    }

    method TakeUntil() returns (r: Result<Option<u64>, WireError>)
      requires Valid()
      modifies this
      ensures Valid() && Took(ReadUntil(old(Left())), r, Left())
    {
      hide FromLE;
      var flag :- TakeU8();
      if flag == 0 { return Ok(None); }
      if flag != 1 { return Err(InvalidEncoding); }
      var x :- TakeBytes(8);
      EightBytesFit(x);
      return Ok(Some(FromLE(x)));
    }

    method TakeReceipt() returns (r: Result<ActionReceipt, WireError>)
      requires Valid()
      modifies this
      ensures Valid() && Took(ReadReceipt(old(Left())), r, Left())
    {
      hide ReadU32;
      var hash :- TakeBytes(32);
      var status :- TakeU8();
      if status > 2 { return Err(InvalidEncoding); }
      var flag :- TakeU8();
      var code: Option<u32> := None;
      if flag == 1 {
        var c :- TakeU32();
        code := Some(c);
      } else if flag != 0 {
        return Err(InvalidEncoding);
      }
      return Ok(ActionReceipt(hash, StatusOf(status).value, code));
    }

    method TakeReceipts(count: nat) returns (r: Result<seq<ActionReceipt>, WireError>)
      requires Valid()
      modifies this
      ensures Valid() && Took(ReadReceipts(old(Left()), count), r, Left())
    {
      hide ReadReceipt;
      var rs: seq<ActionReceipt>, k := [], 0;
      ghost var goal := ReadReceipts(Left(), count);
      assert goal.Ok? ==> [] + goal.value.value == goal.value.value;
      while k < count
        invariant 0 <= k <= count && Valid() && Behind(rs, ReadReceipts(Left(), count - k)) == goal
      {
        ghost var rest := ReadReceipts(Left(), count - k);
        var receipt :- TakeReceipt();
        if rest.Ok? { assert rs + rest.value.value == (rs + [receipt]) + rest.value.value[1..]; }
        rs := rs + [receipt];
        k := k + 1;
      }
      assert rs + [] == rs;
      return Ok(rs);
    }

    method TakeHead() returns (r: Result<Head, WireError>)
      requires Valid()
      modifies this
      ensures Valid() && Took(ReadHead(old(Left())), r, Left())
    {
      hide ReadU32, Take, ReadDependencies, ReadUntil;
      var version :- TakeU8();
      if version != PROTOCOL_VERSION { return Err(UnsupportedVersion); }
      var parent :- TakeBytes(32);
      var next :- TakeBytes(32);
      var count :- TakeU32();
      if count > MAX_DEPENDENCIES { return Err(TooManyItems); }
      var ds :- TakeDependencies(count);
      var until :- TakeUntil();
      var commitment :- TakeBytes(32);
      return Ok(Head(parent, next, ds, until, commitment));
    }

    method TakePayload() returns (r: Result<seq<byte>, WireError>)
      requires Valid()
      modifies this
      ensures Valid() && Took(ReadPayload(old(Left())), r, Left())
    {
      hide ReadU32;
      var n :- TakeU32();
      if n > MAX_RECOVERY { return Err(TooManyItems); }
      r := TakeBytes(n);
    }
  }

  /** Receipts read so far in front of those still to read. */
  function Behind(rs: seq<ActionReceipt>, r: Result<Read<seq<ActionReceipt>>, WireError>)
    : Result<Read<seq<ActionReceipt>>, WireError>
  {
    match r
    case Ok(x) => Ok(Read(rs + x.value, x.rest))
    case Err(e) => Err(e)
  }

  method Decode(p: Payloads, b: seq<byte>) returns (r: Result<Output, WireError>)
    ensures r == DecodeOutput(p, b)
    ensures forall o :: r == Ok(o) ==> Ready(p, o)
  {
    hide ReadHead, ReadU32, ReadReceipts, ReadPayload, Ready;
    forall o | DecodeOutput(p, b) == Ok(o) ensures Ready(p, o) { DecodedIsReady(p, b, o); }
    if |b| > MAX_RECOVERY + 128 * MAX_RECEIPTS { return Err(TooManyItems); }
    var reader := new Reader(b);
    var head :- reader.TakeHead();
    var count :- reader.TakeU32();
    if count > MAX_RECEIPTS { return Err(TooManyItems); }
    var receipts :- reader.TakeReceipts(count);
    var payload :- reader.TakePayload();
    if reader.offset != |b| { return Err(InvalidEncoding); }
    if p.hash(payload) != head.commitment { return Err(InvalidEncoding); }
    if !p.decodes(payload) { return Err(InvalidRecovery); }
    return Ok(Output(head.parentRoot, head.newRoot, head.dependencies, head.validUntil, receipts, head.commitment,
                     payload));
  }
}
