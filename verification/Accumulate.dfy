/** `minijam_accumulate`: on chain, refined transitions advance a service's state commitment by
    compare-and-swap on the parent root. */
module Accumulate {
  import opened Wrappers
  import opened Bytes
  import opened Outputs

  const PROTOCOL_VERSION: byte := 1
  const LAYOUT_VERSION: byte := 1

  /** `ManagedStateCommitmentV1::encode`. */
  function EncodeCommitment(root: Root): seq<byte> {
    [PROTOCOL_VERSION, LAYOUT_VERSION] + root
  }

  function DecodeCommitment(b: seq<byte>): Option<Root> {
    if |b| != 34 || b[0] != PROTOCOL_VERSION || b[1] != LAYOUT_VERSION then None else Some(b[2..])
  }

  /** A 34-byte string is a commitment exactly when it is the encoding of the root it decodes to. */
  lemma {:induction false} CommitmentInverse(b: seq<byte>, root: Root)
    ensures |root| == 32 ==> (DecodeCommitment(b) == Some(root) <==> b == EncodeCommitment(root))
    ensures |root| != 32 ==> DecodeCommitment(b) != Some(root)
  {
    if |b| == 34 {
      assert b == [b[0], b[1]] + b[2..];
    }
  }

  /** A host storage read: absent, the stored bytes, or a host error. */
  datatype Read = Absent | Present(bytes: seq<byte>) | HostError

  /** The decoded transition header; everything else of the output is only checked for shape. */
  datatype Header = Header(
    parentRoot: Root, newRoot: Root, dependencies: seq<Dependency>, validUntil: Option<u64>)

  /** `read_current_commitment`, with the caller's fallback. */
  function CurrentRoot(own: Read, emptyRoot: Root): Root {
    match own
    case Absent => emptyRoot
    case Present(b) => if DecodeCommitment(b).Some? then DecodeCommitment(b).value else emptyRoot
    case HostError => emptyRoot
  }

  /** `read_service_commitment`; an absent commitment is an error here. */
  function ServiceRoot(r: Read): Option<Root> {
    match r
    case Absent => None
    case Present(b) => DecodeCommitment(b)
    case HostError => None
  }

  predicate DependenciesHold(deps: seq<Dependency>, services: u32 -> Read) {
    forall k :: 0 <= k < |deps| ==> DependencyHolds(deps[k], services)
  }

  predicate DependencyHolds(d: Dependency, services: u32 -> Read) {
    ServiceRoot(services(d.service)) == Some(d.root)
  }

  predicate Accepts(h: Header, current: Root, tick: u64, services: u32 -> Read) {
    && h.parentRoot == current
    && (h.validUntil.Some? ==> tick <= h.validUntil.value)
    && DependenciesHold(h.dependencies, services)
  }

  /** A work result is `None` when it cannot be fetched or decoded. */
  type WorkResult = Option<Header>

  function AcceptsResult(r: WorkResult, current: Root, tick: u64, services: u32 -> Read): bool {
    r.Some? && Accepts(r.value, current, tick, services)
  }

  /** The headers taken, in order. */
  function Taken(results: seq<WorkResult>, start: Root, tick: u64, services: u32 -> Read): seq<Header> {
    if results == [] then []
    else
      var before, r := Taken(results[..|results| - 1], start, tick, services), results[|results| - 1];
      if AcceptsResult(r, End(before, start), tick, services) then before + [r.value] else before
  }

  /** Where a sequence of transitions ends. */
  function End(chain: seq<Header>, start: Root): Root {
    if chain == [] then start else chain[|chain| - 1].newRoot
  }

  method DependenciesValid(deps: seq<Dependency>, services: u32 -> Read) returns (valid: bool)
    ensures valid == DependenciesHold(deps, services)
  {
    var k := 0;
    while k < |deps|
      invariant 0 <= k <= |deps|
      invariant forall j :: 0 <= j < k ==> DependencyHolds(deps[j], services)
    {
      var canonical := ServiceRoot(services(deps[k].service));
      if canonical.None? || canonical.value != deps[k].root {
        assert !DependencyHolds(deps[k], services);
        return false;
      }
      k := k + 1;
    }
    return true;
  }

  /** The export: it returns what it writes to the service's own commitment key, if anything.  The tick
      is what the invocation input decodes to, `None` when it does not. */
  method MinijamAccumulate(tick: Option<u64>, own: Read, services: u32 -> Read, results: seq<WorkResult>,
                           emptyRoot: Root)
    returns (written: Option<seq<byte>>)
    ensures written == Written(tick, own, services, results, emptyRoot)
  {
    hide DependenciesHold;
    if tick.None? {
      return None;
    }
    var current := CurrentRoot(own, emptyRoot);
    ghost var start := current;
    var advanced := false;
    var k := 0;
    while k < |results|
      invariant 0 <= k <= |results|
      invariant current == End(Taken(results[..k], start, tick.value, services), start)
      invariant advanced <==> Taken(results[..k], start, tick.value, services) != []
    {
      assert results[..k + 1][..k] == results[..k];
      var r := results[k];
      k := k + 1;
      if r.None? { continue; }
      var h := r.value;
      if h.parentRoot != current { continue; }
      if h.validUntil.Some? && tick.value > h.validUntil.value { continue; }
      var valid := DependenciesValid(h.dependencies, services);
      if !valid { continue; }
      current := h.newRoot;
      advanced := true;
    }
    assert results[..k] == results;
    written := if advanced then Some(EncodeCommitment(current)) else None;
  }

  function Written(tick: Option<u64>, own: Read, services: u32 -> Read, results: seq<WorkResult>, emptyRoot: Root)
    : Option<seq<byte>>
  {
    if tick.None? then None
    else
      var start := CurrentRoot(own, emptyRoot);
      var chain := Taken(results, start, tick.value, services);
      if chain == [] then None else Some(EncodeCommitment(End(chain, start)))
  }

  /** Each transition starts where the one before ended. */
  ghost predicate IsChain(chain: seq<Header>, start: Root) {
    forall k :: 0 <= k < |chain| ==> Links(chain, k, start)
  }

  ghost predicate Links(chain: seq<Header>, k: nat, start: Root)
    requires k < |chain|
  {
    chain[k].parentRoot == if k == 0 then start else chain[k - 1].newRoot
  }

  ghost predicate Timely(h: Header, tick: u64, services: u32 -> Read) {
    (h.validUntil.Some? ==> tick <= h.validUntil.value) && DependenciesHold(h.dependencies, services)
  }

  /** What is accepted is a chain from the stored root of results that were all valid. */
  lemma {:induction false} AcceptedIsChain(results: seq<WorkResult>, start: Root, tick: u64, services: u32 -> Read)
    ensures var chain := Taken(results, start, tick, services);
      && IsChain(chain, start)
      && (forall k :: 0 <= k < |chain| ==> Some(chain[k]) in results && Timely(chain[k], tick, services))
  {
    hide DependenciesHold, Timely, Accepts;
    if results != [] {
      var init, r := results[..|results| - 1], results[|results| - 1];
      AcceptedIsChain(init, start, tick, services);
      var before := Taken(init, start, tick, services);
      assert forall x :: x in init ==> x in results;
      if AcceptsResult(r, End(before, start), tick, services) {
        AcceptedIsTimely(r.value, End(before, start), tick, services);
        ChainAppend(before, r.value, start);
      }
    }
  }

  lemma {:induction false} AcceptedIsTimely(h: Header, current: Root, tick: u64, services: u32 -> Read)
    requires Accepts(h, current, tick, services)
    ensures h.parentRoot == current && Timely(h, tick, services)
  {
  }

  lemma {:induction false} ChainAppend(chain: seq<Header>, h: Header, start: Root)
    requires IsChain(chain, start) && h.parentRoot == End(chain, start)
    ensures IsChain(chain + [h], start)
  {
    var all := chain + [h];
    forall k | 0 <= k < |all| ensures Links(all, k, start) {
      if k < |chain| {
        assert Links(chain, k, start);
      }
    }
  }

  lemma {:induction false} TakenGrows(results: seq<WorkResult>, k: nat, start: Root, tick: u64, services: u32 -> Read)
    requires k <= |results|
    ensures Taken(results[..k], start, tick, services) <= Taken(results, start, tick, services)
  {
    hide DependenciesHold;
    if k == |results| {
      assert results[..k] == results;
    } else {
      TakenGrows(results[..|results| - 1], k, start, tick, services);
      assert results[..|results| - 1][..k] == results[..k];
    }
  }

  /** Greedy: a result whose turn comes at the root it starts from, and which is valid, is in the chain
      at that place; one whose turn comes at another root never is. */
  lemma {:induction false} TurnDecides(results: seq<WorkResult>, k: nat, start: Root, tick: u64, services: u32 -> Read)
    requires k < |results| && results[k].Some?
    ensures var before, chain := Taken(results[..k], start, tick, services), Taken(results, start, tick, services);
      && before <= chain
      && (Accepts(results[k].value, End(before, start), tick, services) ==>
            |before| < |chain| && chain[|before|] == results[k].value)
      && (!Accepts(results[k].value, End(before, start), tick, services) ==>
            Taken(results[..k + 1], start, tick, services) == before)
  {
    hide DependenciesHold;
    assert results[..k + 1][..k] == results[..k];
    TakenGrows(results, k, start, tick, services);
    TakenGrows(results, k + 1, start, tick, services);
  }

  /** The compare-and-swap seen from storage: nothing accepted, nothing written; otherwise the written
      bytes are the commitment to the end of a chain that starts at the root stored before. */
  lemma {:induction false} WrittenIsEndOfChain(
      tick: u64, own: Read, services: u32 -> Read, results: seq<WorkResult>, emptyRoot: Root)
    requires forall k :: 0 <= k < |results| && results[k].Some? ==> |results[k].value.newRoot| == 32
    ensures var start := CurrentRoot(own, emptyRoot);
      var chain := Taken(results, start, tick, services);
      match Written(Some(tick), own, services, results, emptyRoot)
      case None => chain == []
      case Some(b) =>
        && chain != [] && chain[0].parentRoot == start && DecodeCommitment(b) == Some(End(chain, start))
        && CurrentRoot(Present(b), emptyRoot) == End(chain, start)
  {
    hide DependenciesHold;
    var start := CurrentRoot(own, emptyRoot);
    var chain := Taken(results, start, tick, services);
    AcceptedIsChain(results, start, tick, services);
    if chain != [] {
      assert Links(chain, 0, start);
      var last := chain[|chain| - 1];
      assert Some(last) in results;
      var k :| 0 <= k < |results| && results[k] == Some(last);
      assert |results[k].value.newRoot| == 32;
      CommitmentInverse(EncodeCommitment(End(chain, start)), End(chain, start));
    }
  }

  lemma {:induction false} EndAfter(a: seq<Header>, b: seq<Header>, start: Root)
    ensures End(a + b, start) == End(b, End(a, start))
  {
  }

  predicate Mentions(r: WorkResult, service: u32) {
    r.Some? && exists k :: 0 <= k < |r.value.dependencies| && r.value.dependencies[k].service == service
  }

  /** Host reads as the next invocation sees them: only the service's own commitment has moved. */
  ghost predicate AgreeExcept(s: u32 -> Read, t: u32 -> Read, self: u32) {
    forall service: u32 :: service != self ==> s(service) == t(service)
  }

  lemma {:induction false} SameVerdict(r: WorkResult, current: Root, tick: u64, s: u32 -> Read, t: u32 -> Read,
                                       self: u32)
    requires AgreeExcept(s, t, self) && !Mentions(r, self)
    ensures AcceptsResult(r, current, tick, s) == AcceptsResult(r, current, tick, t)
  {
    if r.Some? {
      var deps := r.value.dependencies;
      forall k | 0 <= k < |deps| ensures DependencyHolds(deps[k], s) == DependencyHolds(deps[k], t) {
        assert deps[k].service != self;
        assert s(deps[k].service) == t(deps[k].service);
      }
      assert DependenciesHold(deps, s) == DependenciesHold(deps, t) by {
        if DependenciesHold(deps, s) {
          forall k | 0 <= k < |deps| ensures DependencyHolds(deps[k], t) { assert DependencyHolds(deps[k], s); }
        }
        if DependenciesHold(deps, t) {
          forall k | 0 <= k < |deps| ensures DependencyHolds(deps[k], s) { assert DependencyHolds(deps[k], t); }
        }
      }
    }
  }

  /** Splitting the results over two invocations changes nothing, as long as no later result depends on
      the service's own commitment. */
  lemma {:induction false} SplitInvocations(a: seq<WorkResult>, b: seq<WorkResult>, start: Root, tick: u64,
                                           first: u32 -> Read, second: u32 -> Read, self: u32)
    requires AgreeExcept(first, second, self)
    requires forall k :: 0 <= k < |b| ==> !Mentions(b[k], self)
    ensures var chain := Taken(a, start, tick, first);
      Taken(a + b, start, tick, first) == chain + Taken(b, End(chain, start), tick, second)
    decreases |b|
  {
    hide AcceptsResult, Mentions;
    var chain := Taken(a, start, tick, first);
    if b == [] {
      assert a + b == a;
    } else {
      var init, last := b[..|b| - 1], b[|b| - 1];
      SplitInvocations(a, init, start, tick, first, second, self);
      assert (a + b)[..|a + b| - 1] == a + init;
      var rest := Taken(init, End(chain, start), tick, second);
      EndAfter(chain, rest, start);
      SameVerdict(last, End(rest, End(chain, start)), tick, first, second, self);
    }
  }

  /** With a dependency on its own service the split does matter, whenever the root moved: the result is
      judged against the root stored before the invocation, not the one reached during it. */
  lemma {:induction false} SelfDependencyMatters(
      start: Root, reached: Root, next: Root, tick: u64, first: u32 -> Read, second: u32 -> Read, self: u32)
    requires start != reached && |start| == 32 && |reached| == 32
    requires first(self) == Present(EncodeCommitment(start))
    requires second(self) == Present(EncodeCommitment(reached))
    ensures var move := Some(Header(start, reached, [], None));
      var after := Some(Header(reached, next, [Dependency(self, reached)], None));
      && Mentions(after, self)
      && Taken([move], start, tick, first) == [move.value]
      && Taken([after], reached, tick, second) == [after.value]
      && Taken([move, after], start, tick, first) == [move.value]
  {
    var move := Some(Header(start, reached, [], None));
    var after := Some(Header(reached, next, [Dependency(self, reached)], None));
    CommitmentInverse(EncodeCommitment(start), start);
    CommitmentInverse(EncodeCommitment(reached), reached);
    assert after.value.dependencies[0].service == self;
    assert DependencyHolds(after.value.dependencies[0], second);
    assert !DependencyHolds(after.value.dependencies[0], first);
    assert Taken([], start, tick, first) == [] && Taken([], reached, tick, second) == [];
    assert [move][..0] == [] && [after][..0] == [];
    assert AcceptsResult(move, start, tick, first);
    assert [move, after][..1] == [move];
  }

  /** Everything the guest checks except dependencies on the service itself. */
  predicate OthersHold(h: Header, current: Root, tick: u64, services: u32 -> Read, self: u32) {
    && h.parentRoot == current
    && (h.validUntil.Some? ==> tick <= h.validUntil.value)
    && (forall k :: 0 <= k < |h.dependencies| && h.dependencies[k].service != self ==>
          DependencyHolds(h.dependencies[k], services))
  }

  predicate SelfRootsAre(h: Header, root: Root, self: u32) {
    forall k :: 0 <= k < |h.dependencies| && h.dependencies[k].service == self ==> h.dependencies[k].root == root
  }

  lemma {:induction false} AcceptsByParts(
      h: Header, current: Root, stored: Root, tick: u64, services: u32 -> Read, self: u32)
    requires services(self) == Present(EncodeCommitment(stored)) && |stored| == 32
    ensures Accepts(h, current, tick, services) <==>
      OthersHold(h, current, tick, services, self) && SelfRootsAre(h, stored, self)
  {
    CommitmentInverse(EncodeCommitment(stored), stored);
    if OthersHold(h, current, tick, services, self) && SelfRootsAre(h, stored, self) {
      forall k | 0 <= k < |h.dependencies| ensures DependencyHolds(h.dependencies[k], services) {
      }
    }
    if Accepts(h, current, tick, services) {
      forall k | 0 <= k < |h.dependencies| && h.dependencies[k].service == self
        ensures h.dependencies[k].root == stored
      {
        assert DependencyHolds(h.dependencies[k], services);
      }
    }
  }

  /** Exactly when one later result does not care about the split: the root did not move, or it does
      not mention the service, or something else refuses it, or it names neither root consistently. */
  lemma {:induction false} SplitMattersIff(
      h: Header, start: Root, reached: Root, tick: u64, first: u32 -> Read, second: u32 -> Read, self: u32)
    requires AgreeExcept(first, second, self) && |start| == 32 && |reached| == 32
    requires first(self) == Present(EncodeCommitment(start))
    requires second(self) == Present(EncodeCommitment(reached))
    ensures (Accepts(h, reached, tick, first) == Accepts(h, reached, tick, second)) <==>
      || start == reached || !Mentions(Some(h), self) || !OthersHold(h, reached, tick, first, self)
      || (!SelfRootsAre(h, start, self) && !SelfRootsAre(h, reached, self))
  {
    AcceptsByParts(h, reached, start, tick, first, self);
    AcceptsByParts(h, reached, reached, tick, second, self);
    assert OthersHold(h, reached, tick, first, self) == OthersHold(h, reached, tick, second, self) by {
      OthersAgree(h, reached, tick, first, second, self);
    }
    if Mentions(Some(h), self) && start != reached {
      var k :| 0 <= k < |h.dependencies| && h.dependencies[k].service == self;
      assert !(SelfRootsAre(h, start, self) && SelfRootsAre(h, reached, self));
    }
  }

  lemma {:induction false} OthersAgree(
      h: Header, current: Root, tick: u64, first: u32 -> Read, second: u32 -> Read, self: u32)
    requires AgreeExcept(first, second, self)
    ensures OthersHold(h, current, tick, first, self) == OthersHold(h, current, tick, second, self)
  {
    forall k | 0 <= k < |h.dependencies| && h.dependencies[k].service != self
      ensures DependencyHolds(h.dependencies[k], first) == DependencyHolds(h.dependencies[k], second)
    {
      assert first(h.dependencies[k].service) == second(h.dependencies[k].service);
    }
  }
}
