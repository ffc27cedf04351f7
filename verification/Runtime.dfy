/** `InMemoryRuntime`: actions run on a write overlay that is merged only when the commit succeeds. */
module Runtime {
  import opened Wrappers
  import opened Bytes
  import opened Transactions
  import opened Scheduler

  type Key = seq<byte>
  type Value = seq<byte>
  type Store = map<Key, Value>
  type Writes = map<Key, Option<Value>>

  const APPLICATION_KEY_CLASS: byte := 1
  const RUNTIME_KEY_CLASS: byte := 0
  const WALLET_AUTH_MODULE: byte := 1
  const NONCE_MISMATCH: u32 := 10
  const NONCE_EXHAUSTED: u32 := 12
  const INVALID_OWNERSHIP: u32 := 15
  const OWNERSHIP_NONCE_MISMATCH: u32 := 17

  /** A namespace longer than this makes the key derivation panic. */
  type Namespace = s: seq<byte> | |s| <= 0xffff

  function StateKey(namespace: Namespace, key: seq<byte>): Key {
    [APPLICATION_KEY_CLASS] + LE(|namespace|, 2) + namespace + key
  }

  function WalletNonceKey(account: seq<byte>): Key {
    [RUNTIME_KEY_CLASS, WALLET_AUTH_MODULE] + account
  }

  /** Two different (namespace, key) pairs never share a state key. */
  lemma {:induction false} StateKeyInjective(n: Namespace, k: seq<byte>, m: Namespace, j: seq<byte>)
    requires StateKey(n, k) == StateKey(m, j)
    ensures n == m && k == j
  {
    var a, b := StateKey(n, k), StateKey(m, j);
    assert a[1..3] == LE(|n|, 2) && b[1..3] == LE(|m|, 2);
    Pow256Values();
    FromLEOfLE(|n|, 2);
    FromLEOfLE(|m|, 2);
    assert a[3..3 + |n|] == n && b[3..3 + |m|] == m;
    assert a[3 + |n|..] == k && b[3 + |m|..] == j;
  }

  /** No application write reaches a nonce. */
  lemma {:induction false} ApplicationKeysAvoidNonces(n: Namespace, k: seq<byte>, account: seq<byte>)
    ensures StateKey(n, k) != WalletNonceKey(account)
  {
    assert StateKey(n, k)[0] != WalletNonceKey(account)[0];
  }

  /** What a commit may do to its transaction. */
  datatype Op =
    | Get(namespace: Namespace, key: seq<byte>)
    | Set(namespace: Namespace, key: seq<byte>, value: Value)
    | Delete(namespace: Namespace, key: seq<byte>)

  type History = seq<Option<Value>>

  /** A commit closure: its next operation depends on what it has read so far (`None` ends it), and so
      does its result; `limit` bounds the operations of the terminating closure it stands for. */
  datatype Commit = Commit(limit: nat, next: History -> Option<Op>, failure: History -> Option<u32>)

  function Lookup(store: Store, key: Key): Option<Value> {
    if key in store then Some(store[key]) else None
  }

  function ReadThrough(base: Store, writes: Writes, key: Key): Option<Value> {
    if key in writes then writes[key] else Lookup(base, key)
  }

  /** The overlay a commit leaves behind, and everything it read. */
  function Overlay(commit: Commit, base: Store, writes: Writes, seen: History, left: nat): (Writes, History)
    decreases left
  {
    if left == 0 || commit.next(seen).None? then (writes, seen)
    else
      match commit.next(seen).value
      case Get(n, k) => Overlay(commit, base, writes, seen + [ReadThrough(base, writes, StateKey(n, k))], left - 1)
      case Set(n, k, v) => Overlay(commit, base, writes[StateKey(n, k) := Some(v)], seen + [None], left - 1)
      case Delete(n, k) => Overlay(commit, base, writes[StateKey(n, k) := None], seen + [None], left - 1)
  }

  /** The same commit working straight on a copy of the store. */
  function Direct(commit: Commit, store: Store, seen: History, left: nat): (Store, History)
    decreases left
  {
    if left == 0 || commit.next(seen).None? then (store, seen)
    else
      match commit.next(seen).value
      case Get(n, k) => Direct(commit, store, seen + [Lookup(store, StateKey(n, k))], left - 1)
      case Set(n, k, v) => Direct(commit, store[StateKey(n, k) := v], seen + [None], left - 1)
      case Delete(n, k) => Direct(commit, store - {StateKey(n, k)}, seen + [None], left - 1)
  }

  /** `into_writes` merged into the base. */
  function Merge(base: Store, writes: Writes): Store {
    map k | k in base.Keys + writes.Keys && ReadThrough(base, writes, k).Some? :: ReadThrough(base, writes, k).value
  }

  lemma {:induction false} MergeReads(base: Store, writes: Writes, key: Key)
    ensures Lookup(Merge(base, writes), key) == ReadThrough(base, writes, key)
  {
  }

  lemma {:induction false} MergeWrite(base: Store, writes: Writes, key: Key, value: Option<Value>)
    ensures Merge(base, writes[key := value]) ==
      if value.Some? then Merge(base, writes)[key := value.value] else Merge(base, writes) - {key}
  {
    var m := Merge(base, writes[key := value]);
    var r := if value.Some? then Merge(base, writes)[key := value.value] else Merge(base, writes) - {key};
    forall k ensures Lookup(m, k) == Lookup(r, k) {
      MergeReads(base, writes[key := value], k);
      MergeReads(base, writes, k);
    }
    SameLookups(m, r);
  }

  lemma {:induction false} SameLookups(m: Store, r: Store)
    requires forall k :: Lookup(m, k) == Lookup(r, k)
    ensures m == r
  {
    forall k ensures k in m <==> k in r {
      assert Lookup(m, k) == Lookup(r, k);
    }
    forall k | k in m ensures m[k] == r[k] {
      assert Lookup(m, k) == Lookup(r, k);
    }
  }

  /** Reads through the overlay and one merge at the end are the same as working on a copy. */
  lemma {:induction false} OverlayRefinesDirect(commit: Commit, base: Store, writes: Writes, seen: History, left: nat)
    ensures var (w, h) := Overlay(commit, base, writes, seen, left);
      Direct(commit, Merge(base, writes), seen, left) == (Merge(base, w), h)
    decreases left
  {
    hide Merge, ReadThrough, Lookup;
    if left > 0 && commit.next(seen).Some? {
      match commit.next(seen).value
      case Get(n, k) =>
        MergeReads(base, writes, StateKey(n, k));
        OverlayRefinesDirect(commit, base, writes, seen + [ReadThrough(base, writes, StateKey(n, k))], left - 1);
      case Set(n, k, v) =>
        MergeWrite(base, writes, StateKey(n, k), Some(v));
        OverlayRefinesDirect(commit, base, writes[StateKey(n, k) := Some(v)], seen + [None], left - 1);
      case Delete(n, k) =>
        MergeWrite(base, writes, StateKey(n, k), None);
        OverlayRefinesDirect(commit, base, writes[StateKey(n, k) := None], seen + [None], left - 1);
    }
  }

  /** `StateTransaction`. */
  class StateTransaction {
    const base: Store
    var writes: Writes

    constructor (base: Store)
      ensures this.base == base && writes == map[]
    {
      this.base, writes := base, map[];
    }

    function Read(namespace: Namespace, key: seq<byte>): (v: Option<Value>)
      reads this
      ensures v == Lookup(Merge(base, writes), StateKey(namespace, key))
    {
      MergeReads(base, writes, StateKey(namespace, key));
      var k := StateKey(namespace, key);
      if k in writes then writes[k] else if k in base then Some(base[k]) else None
    }

    method Put(namespace: Namespace, key: seq<byte>, value: Value)
      modifies `writes
      ensures Merge(base, writes) == old(Merge(base, writes))[StateKey(namespace, key) := value]
      ensures writes == old(writes)[StateKey(namespace, key) := Some(value)]
    {
      MergeWrite(base, writes, StateKey(namespace, key), Some(value));
      writes := writes[StateKey(namespace, key) := Some(value)];
    }

    method Remove(namespace: Namespace, key: seq<byte>)
      modifies `writes
      ensures Merge(base, writes) == old(Merge(base, writes)) - {StateKey(namespace, key)}
      ensures writes == old(writes)[StateKey(namespace, key) := None]
    {
      MergeWrite(base, writes, StateKey(namespace, key), None);
      writes := writes[StateKey(namespace, key) := None];
    }

    /** Calls the closure on this transaction. */
    method Perform(commit: Commit) returns (failure: Option<u32>)
      modifies `writes
      ensures (writes, failure) ==
        (Overlay(commit, base, old(writes), [], commit.limit).0,
         commit.failure(Overlay(commit, base, old(writes), [], commit.limit).1))
    {
      hide Merge;
      var seen: History := [];
      var left := commit.limit;
      while left > 0 && commit.next(seen).Some?
        invariant Overlay(commit, base, writes, seen, left) == Overlay(commit, base, old(writes), [], commit.limit)
        decreases left
      {
        match commit.next(seen).value {
          case Get(n, k) =>
            var v := Read(n, k);
            assert v == ReadThrough(base, writes, StateKey(n, k)) by {
              MergeReads(base, writes, StateKey(n, k));
            }
            seen := seen + [v];
          case Set(n, k, v) =>
            Put(n, k, v);
            seen := seen + [None];
          case Delete(n, k) =>
            Remove(n, k);
            seen := seen + [None];
        }
        left := left - 1;
      }
      failure := commit.failure(seen);
    }
  }

  datatype Status = Applied | Failed | Rejected

  /** The two kinds of nonce counter: a wallet's and an owner's. */
  datatype LaneId = WalletLane(key: Sender) | OwnerLane(key: Sender)

  datatype Receipt = Receipt(
    hash: Option<seq<byte>>, lane: Option<LaneId>, nonce: Option<u64>, status: Status, code: Option<u32>)
  {
    /** The nonce was used up, whether or not the commit succeeded. */
    predicate ConsumedBy(l: LaneId) { status != Rejected && lane == Some(l) }

    /** The action was refused because its nonce was not the counter's. */
    predicate RefusesNonce() {
      status == Rejected && (code == Some(NONCE_MISMATCH) || code == Some(OWNERSHIP_NONCE_MISMATCH))
    }
  }

  datatype Verified = Verified(sender: Sender, hash: seq<byte>, nonce: u64, payload: seq<byte>)

  /** `owner` is `None` for an ownership that has no key because it does not encode. */
  datatype VerifiedOwner = VerifiedOwner(owner: Option<Sender>, hash: seq<byte>, nonce: u64, payload: seq<byte>)

  function ReceiptFor(a: Verified, status: Status, code: Option<u32>): Receipt {
    Receipt(Some(a.hash), Some(WalletLane(a.sender)), Some(a.nonce), status, code)
  }

  function OwnerReceipt(a: VerifiedOwner, status: Status, code: Option<u32>): Receipt {
    Receipt(Some(a.hash), if a.owner.Some? then Some(OwnerLane(a.owner.value)) else None, Some(a.nonce), status, code)
  }

  function InvalidReceipt(code: u32): Receipt {
    Receipt(None, None, None, Rejected, Some(code))
  }

  datatype RuntimeState = RuntimeState(store: Store, nonces: Nonces, ownerNonces: Nonces)

  /** A commit on a copy of the store, kept only if it succeeds. */
  function Attempt(store: Store, commit: Commit): (Store, Option<u32>) {
    var (next, seen) := Direct(commit, store, [], commit.limit);
    var failure := commit.failure(seen);
    (if failure.None? then next else store, failure)
  }

  function Perform(rt: RuntimeState, a: Verified, commit: Commit): (RuntimeState, Receipt) {
    var expected := Expected(rt.nonces, a.sender);
    if a.nonce != expected then (rt, ReceiptFor(a, Rejected, Some(NONCE_MISMATCH)))
    else if expected == U64_MAX then (rt, ReceiptFor(a, Rejected, Some(NONCE_EXHAUSTED)))
    else
      var (store, failure) := Attempt(rt.store, commit);
      (rt.(store := store, nonces := rt.nonces[a.sender := expected + 1]),
       ReceiptFor(a, if failure.None? then Applied else Failed, failure))
  }

  function PerformAsOwner(rt: RuntimeState, a: VerifiedOwner, commit: Commit): (RuntimeState, Receipt) {
    if a.owner.None? then (rt, OwnerReceipt(a, Rejected, Some(INVALID_OWNERSHIP)))
    else
      var expected := Expected(rt.ownerNonces, a.owner.value);
      if a.nonce != expected then (rt, OwnerReceipt(a, Rejected, Some(OWNERSHIP_NONCE_MISMATCH)))
      else if expected == U64_MAX then (rt, OwnerReceipt(a, Rejected, Some(NONCE_EXHAUSTED)))
      else
        var (store, failure) := Attempt(rt.store, commit);
        (rt.(store := store, ownerNonces := rt.ownerNonces[a.owner.value := expected + 1]),
         OwnerReceipt(a, if failure.None? then Applied else Failed, failure))
  }

  /** One action of a batch: a wallet's, an owner's, or one that did not verify, with its error code. */
  datatype Entry = WalletAction(wallet: Verified) | OwnerAction(owner: VerifiedOwner) | Unverified(code: u32)

  /** The commit callbacks of the two kinds of action. */
  datatype Commits = Commits(wallet: Verified -> Commit, owner: VerifiedOwner -> Commit)

  function PerformEntry(rt: RuntimeState, e: Entry, commits: Commits): (RuntimeState, Receipt) {
    match e
    case WalletAction(a) => Perform(rt, a, commits.wallet(a))
    case OwnerAction(a) => PerformAsOwner(rt, a, commits.owner(a))
    case Unverified(code) => (rt, InvalidReceipt(code))
  }

  /** Any sequence of wallet and owner actions. */
  function RunEntries(rt: RuntimeState, entries: seq<Entry>, commits: Commits): (r: (RuntimeState, seq<Receipt>))
    ensures |r.1| == |entries|
  {
    if entries == [] then (rt, [])
    else
      var (mid, receipts) := RunEntries(rt, entries[..|entries| - 1], commits);
      var (next, receipt) := PerformEntry(mid, entries[|entries| - 1], commits);
      (next, receipts + [receipt])
  }

  /** What `apply_batch` is given: wallet actions and verification errors. */
  function EntriesOf(actions: seq<Result<Verified, u32>>): (r: seq<Entry>)
    ensures |r| == |actions|
  {
    seq(|actions|, k requires 0 <= k < |actions| =>
      match actions[k] case Ok(a) => WalletAction(a) case Err(code) => Unverified(code))
  }

  class InMemoryRuntime {
    const service: u32
    var store: Store
    var nonces: Nonces
    var ownerNonces: Nonces

    function Now(): RuntimeState
      reads this
    {
      RuntimeState(store, nonces, ownerNonces)
    }

    constructor (service: u32)
      ensures this.service == service && Now() == RuntimeState(map[], map[], map[])
    {
      this.service, store, nonces, ownerNonces := service, map[], map[], map[];
    }

    /** Merges the overlay key by key; the order does not matter. */
    method MergeWrites(writes: Writes)
      modifies `store
      ensures store == Merge(old(store), writes)
    {
      var todo := writes.Keys;
      ghost var done: Writes := map[];
      while todo != {}
        invariant todo <= writes.Keys
        invariant done == map k | k in writes && k !in todo :: writes[k]
        invariant store == Merge(old(store), done)
        decreases |todo|
      {
        var k :| k in todo;
        MergeWrite(old(store), done, k, writes[k]);
        if writes[k].Some? {
          store := store[k := writes[k].value];
        } else {
          store := store - {k};
        }
        todo := todo - {k};
        done := done[k := writes[k]];
      }
      assert done == writes;
    }

    /** Runs a commit on an overlay of the store and merges it if the commit succeeds. */
    method Try(commit: Commit) returns (failure: Option<u32>)
      modifies `store
      ensures (store, failure) == Attempt(old(store), commit)
    {
      hide Overlay, Direct, Merge;
      var tx := new StateTransaction(store);
      failure := tx.Perform(commit);
      OverlayRefinesDirect(commit, store, map[], [], commit.limit);
      assert Merge(store, map[]) == store by { MergeNothing(store); }
      if failure.None? {
        MergeWrites(tx.writes);
      }
    }

    method ApplyAction(a: Verified, commit: Commit) returns (receipt: Receipt)
      modifies `store, `nonces
      ensures (Now(), receipt) == Perform(old(Now()), a, commit)
    {
      hide Attempt;
      var expected := Expected(nonces, a.sender);
      if a.nonce != expected {
        return ReceiptFor(a, Rejected, Some(NONCE_MISMATCH));
      }
      if expected == U64_MAX {
        return ReceiptFor(a, Rejected, Some(NONCE_EXHAUSTED));
      }
      var failure := Try(commit);
      nonces := nonces[a.sender := expected + 1];
      receipt := ReceiptFor(a, if failure.None? then Applied else Failed, failure);
    }

    method ApplyOwnershipAction(a: VerifiedOwner, commit: Commit) returns (receipt: Receipt)
      modifies `store, `ownerNonces
      ensures (Now(), receipt) == PerformAsOwner(old(Now()), a, commit)
    {
      hide Attempt;
      if a.owner.None? {
        return OwnerReceipt(a, Rejected, Some(INVALID_OWNERSHIP));
      }
      var expected := Expected(ownerNonces, a.owner.value);
      if a.nonce != expected {
        return OwnerReceipt(a, Rejected, Some(OWNERSHIP_NONCE_MISMATCH));
      }
      if expected == U64_MAX {
        return OwnerReceipt(a, Rejected, Some(NONCE_EXHAUSTED));
      }
      var failure := Try(commit);
      ownerNonces := ownerNonces[a.owner.value := expected + 1];
      receipt := OwnerReceipt(a, if failure.None? then Applied else Failed, failure);
    }

    method ApplyBatch(actions: seq<Result<Verified, u32>>, commits: Commits) returns (receipts: seq<Receipt>)
      modifies `store, `nonces
      ensures (Now(), receipts) == RunEntries(old(Now()), EntriesOf(actions), commits)
    {
      hide Perform;
      receipts := [];
      ghost var entries := EntriesOf(actions);
      var k := 0;
      while k < |actions|
        invariant 0 <= k <= |actions|
        invariant (Now(), receipts) == RunEntries(old(Now()), entries[..k], commits)
      {
        assert entries[..k + 1][..k] == entries[..k];
        var receipt;
        match actions[k] {
          case Ok(a) => receipt := ApplyAction(a, commits.wallet(a));
          case Err(code) => receipt := InvalidReceipt(code);
        }
        receipts := receipts + [receipt];
        k := k + 1;
      }
      assert entries[..k] == entries;
    }
  }

  lemma {:induction false} MergeNothing(store: Store)
    ensures Merge(store, map[]) == store
  {
  }
}

/** What a run of wallet and owner actions does to nonces and state, and how it meets the scheduler. */
module RuntimeLaws {
  import opened Wrappers
  import opened Bytes
  import opened Transactions
  import opened Scheduler
  import opened SchedulerLaws
  import opened Runtime

  function Counter(rt: RuntimeState, l: LaneId): u64 {
    match l
    case WalletLane(k) => Expected(rt.nonces, k)
    case OwnerLane(k) => Expected(rt.ownerNonces, k)
  }

  /** The counter an entry is judged by, if it gets that far. */
  function LaneOf(e: Entry): Option<LaneId> {
    match e
    case WalletAction(a) => Some(WalletLane(a.sender))
    case OwnerAction(a) => if a.owner.Some? then Some(OwnerLane(a.owner.value)) else None
    case Unverified(_) => None
  }

  function NonceOf(e: Entry): u64 {
    match e
    case WalletAction(a) => a.nonce
    case OwnerAction(a) => a.nonce
    case Unverified(_) => 0
  }

  function CommitOf(e: Entry, commits: Commits): Commit {
    match e
    case WalletAction(a) => commits.wallet(a)
    case OwnerAction(a) => commits.owner(a)
    case Unverified(code) => Commit(0, _ => None, _ => Some(code))
  }

  /** Both kinds of action alike: refused, exhausted, or one nonce of one lane consumed. */
  lemma {:induction false} EntryCases(rt: RuntimeState, e: Entry, commits: Commits)
    ensures var (n, receipt) := PerformEntry(rt, e, commits);
      && receipt.lane == LaneOf(e)
      && (LaneOf(e).None? ==> n == rt && receipt.status == Rejected)
      && (LaneOf(e).Some? ==>
            && receipt.nonce == Some(NonceOf(e))
            && if NonceOf(e) != Counter(rt, LaneOf(e).value) then n == rt && receipt.RefusesNonce()
               else if NonceOf(e) == U64_MAX then
                 n == rt && receipt.status == Rejected && receipt.code == Some(NONCE_EXHAUSTED)
               else
                 && receipt.status != Rejected
                 && n.store == Attempt(rt.store, CommitOf(e, commits)).0
                 && (receipt.status.Applied? <==> Attempt(rt.store, CommitOf(e, commits)).1.None?)
                 && forall l: LaneId :: Counter(n, l) == Counter(rt, l) + if l == LaneOf(e).value then 1 else 0)
  {
    hide Attempt;
  }

  function Consumed(receipts: seq<Receipt>, l: LaneId): nat {
    if receipts == [] then 0
    else Consumed(receipts[..|receipts| - 1], l) + (if receipts[|receipts| - 1].ConsumedBy(l) then 1 else 0)
  }

  lemma {:induction false} ConsumedAppend(receipts: seq<Receipt>, r: Receipt, l: LaneId)
    ensures Consumed(receipts + [r], l) == Consumed(receipts, l) + (if r.ConsumedBy(l) then 1 else 0)
  {
    assert (receipts + [r])[..|receipts|] == receipts;
  }

  /** A counter, of a wallet or of an owner, moves by exactly the receipts that consumed a nonce of it. */
  lemma {:induction false} NonceCounts(rt: RuntimeState, entries: seq<Entry>, commits: Commits, l: LaneId)
    ensures var (n, receipts) := RunEntries(rt, entries, commits);
      Counter(n, l) == Counter(rt, l) + Consumed(receipts, l)
  {
    hide PerformEntry, Counter;
    if entries != [] {
      NonceCounts(rt, entries[..|entries| - 1], commits, l);
      var (mid, receipts) := RunEntries(rt, entries[..|entries| - 1], commits);
      var (next, receipt) := PerformEntry(mid, entries[|entries| - 1], commits);
      EntryCases(mid, entries[|entries| - 1], commits);
      ConsumedAppend(receipts, receipt, l);
    }
  }

  /** A consumed nonce is the counter's value, so it lies below the counter afterwards. */
  lemma {:induction false} ConsumedBelow(rt: RuntimeState, entries: seq<Entry>, commits: Commits, i: nat)
    requires i < |entries| && RunEntries(rt, entries, commits).1[i].status != Rejected
    ensures var (n, receipts) := RunEntries(rt, entries, commits);
      && receipts[i].lane.Some? && receipts[i].nonce.Some?
      && Counter(rt, receipts[i].lane.value) <= receipts[i].nonce.value < Counter(n, receipts[i].lane.value)
  {
    hide PerformEntry, Counter;
    var init, last := entries[..|entries| - 1], entries[|entries| - 1];
    var (mid, receipts) := RunEntries(rt, init, commits);
    EntryCases(mid, last, commits);
    if i < |init| {
      ConsumedBelow(rt, init, commits, i);
    } else {
      NonceCounts(rt, init, commits, LaneOf(last).value);
    }
  }

  /** No nonce of a lane is consumed twice; consumption is in nonce order. */
  lemma {:induction false} ConsumedOnce(rt: RuntimeState, entries: seq<Entry>, commits: Commits, i: nat, j: nat)
    requires i < j < |entries|
    requires var receipts := RunEntries(rt, entries, commits).1;
      receipts[i].status != Rejected && receipts[j].status != Rejected && receipts[i].lane == receipts[j].lane
    ensures var receipts := RunEntries(rt, entries, commits).1;
      receipts[i].nonce.Some? && receipts[j].nonce.Some? && receipts[i].nonce.value < receipts[j].nonce.value
  {
    hide PerformEntry, Counter;
    var init, last := entries[..|entries| - 1], entries[|entries| - 1];
    if j < |init| {
      ConsumedOnce(rt, init, commits, i, j);
    } else {
      ConsumedBelow(rt, init, commits, i);
      EntryCases(RunEntries(rt, init, commits).0, last, commits);
    }
  }

  /** The entries whose receipt says applied. */
  function AppliedOnly(entries: seq<Entry>, receipts: seq<Receipt>): seq<Entry>
    requires |entries| == |receipts|
  {
    if entries == [] then []
    else
      var k := |entries| - 1;
      var rest := AppliedOnly(entries[..k], receipts[..k]);
      if receipts[k].status.Applied? then rest + [entries[k]] else rest
  }

  /** Commits run one after another, each straight on the store. */
  function Serial(store: Store, entries: seq<Entry>, commits: Commits): Store {
    if entries == [] then store
    else
      var k := |entries| - 1;
      var commit := CommitOf(entries[k], commits);
      Direct(commit, Serial(store, entries[..k], commits), [], commit.limit).0
  }

  lemma {:induction false} AppliedAppend(entries: seq<Entry>, receipts: seq<Receipt>, e: Entry, r: Receipt)
    requires |entries| == |receipts|
    ensures AppliedOnly(entries + [e], receipts + [r]) ==
      AppliedOnly(entries, receipts) + (if r.status.Applied? then [e] else [])
  {
    assert (entries + [e])[..|entries|] == entries && (receipts + [r])[..|receipts|] == receipts;
  }

  lemma {:induction false} SerialAppend(store: Store, entries: seq<Entry>, e: Entry, commits: Commits)
    ensures Serial(store, entries + [e], commits) ==
      Direct(CommitOf(e, commits), Serial(store, entries, commits), [], CommitOf(e, commits).limit).0
  {
    hide CommitOf;
    assert (entries + [e])[..|entries|] == entries;
  }

  /** The final state is the applied actions run in order; failed and rejected ones leave no trace. */
  lemma {:induction false} StateIsAppliedInOrder(rt: RuntimeState, entries: seq<Entry>, commits: Commits)
    ensures var (n, receipts) := RunEntries(rt, entries, commits);
      n.store == Serial(rt.store, AppliedOnly(entries, receipts), commits)
  {
    hide Direct, AppliedOnly, Serial, PerformEntry, Counter, CommitOf;
    if entries == [] {
      NothingApplied(rt.store, commits);
    } else {
      var init, last := entries[..|entries| - 1], entries[|entries| - 1];
      StateIsAppliedInOrder(rt, init, commits);
      var (mid, receipts) := RunEntries(rt, init, commits);
      var (next, receipt) := PerformEntry(mid, last, commits);
      EntryCases(mid, last, commits);
      AppliedAppend(init, receipts, last, receipt);
      assert entries == init + [last];
      SerialAppend(rt.store, AppliedOnly(init, receipts), last, commits);
      assert AppliedOnly(init, receipts) + [] == AppliedOnly(init, receipts);
    }
  }

  lemma {:induction false} NothingApplied(store: Store, commits: Commits)
    ensures AppliedOnly([], []) == [] && Serial(store, [], commits) == store
  {
  }

  // ----- when no nonce is refused -----

  /** How many entries are judged by a lane's counter. */
  function InLane(entries: seq<Entry>, l: LaneId): nat {
    if entries == [] then 0
    else InLane(entries[..|entries| - 1], l) + (if LaneOf(entries[|entries| - 1]) == Some(l) then 1 else 0)
  }

  function Saturated(n: nat): u64 {
    if n < U64_MAX then n else U64_MAX
  }

  /** The entry's nonce is its lane's counter moved on by the lane's entries before it. */
  predicate OnTime(rt: RuntimeState, entries: seq<Entry>, k: nat)
    requires k < |entries|
  {
    LaneOf(entries[k]).Some? ==>
      NonceOf(entries[k]) == Saturated(Counter(rt, LaneOf(entries[k]).value) + InLane(entries[..k],
        LaneOf(entries[k]).value))
  }

  ghost predicate AllOnTime(rt: RuntimeState, entries: seq<Entry>) {
    forall k :: 0 <= k < |entries| ==> OnTime(rt, entries, k)
  }

  /** The entry has a counter to be judged by, and its receipt says the nonce was not it. */
  ghost predicate IsRefused(e: Entry, receipt: Receipt) {
    LaneOf(e).Some? && receipt.RefusesNonce()
  }

  ghost predicate NoneRefused(rt: RuntimeState, entries: seq<Entry>, commits: Commits) {
    forall k :: 0 <= k < |entries| ==> !IsRefused(entries[k], RunEntries(rt, entries, commits).1[k])
  }

  lemma {:induction false} AllOnTimeStep(rt: RuntimeState, entries: seq<Entry>)
    requires entries != []
    ensures AllOnTime(rt, entries) <==>
      AllOnTime(rt, entries[..|entries| - 1]) && OnTime(rt, entries, |entries| - 1)
  {
    var init := entries[..|entries| - 1];
    forall k | 0 <= k < |init| ensures OnTime(rt, init, k) <==> OnTime(rt, entries, k) {
      assert init[..k] == entries[..k];
    }
  }

  lemma {:induction false} NoneRefusedStep(rt: RuntimeState, entries: seq<Entry>, commits: Commits)
    requires entries != []
    ensures var init, last := entries[..|entries| - 1], entries[|entries| - 1];
      NoneRefused(rt, entries, commits) <==>
        && NoneRefused(rt, init, commits)
        && !IsRefused(last, PerformEntry(RunEntries(rt, init, commits).0, last, commits).1)
  {
    hide PerformEntry, IsRefused;
    var init, last := entries[..|entries| - 1], entries[|entries| - 1];
    var some, all := RunEntries(rt, init, commits).1, RunEntries(rt, entries, commits).1;
    assert forall k :: 0 <= k < |init| ==> entries[k] == init[k] && all[k] == some[k];
    assert all[|init|] == PerformEntry(RunEntries(rt, init, commits).0, last, commits).1;
    if NoneRefused(rt, entries, commits) {
      forall k | 0 <= k < |init| ensures !IsRefused(init[k], some[k]) {
        assert !IsRefused(entries[k], all[k]);
      }
      assert !IsRefused(entries[|init|], all[|init|]);
    }
  }

  lemma {:induction false} CounterWhenOnTime(rt: RuntimeState, entries: seq<Entry>, commits: Commits, l: LaneId)
    requires AllOnTime(rt, entries)
    ensures Counter(RunEntries(rt, entries, commits).0, l) == Saturated(Counter(rt, l) + InLane(entries, l))
  {
    hide PerformEntry, Counter, AllOnTime;
    if entries != [] {
      var init, last := entries[..|entries| - 1], entries[|entries| - 1];
      AllOnTimeStep(rt, entries);
      CounterWhenOnTime(rt, init, commits, l);
      EntryCases(RunEntries(rt, init, commits).0, last, commits);
      if LaneOf(last).Some? {
        CounterWhenOnTime(rt, init, commits, LaneOf(last).value);
      }
    }
  }

  /** No action of a run is refused for its nonce if and only if every action is on time in its lane:
      a condition on counters and nonces alone, whatever the commits do. */
  lemma {:induction false} NoRefusalIff(rt: RuntimeState, entries: seq<Entry>, commits: Commits)
    ensures NoneRefused(rt, entries, commits) <==> AllOnTime(rt, entries)
  {
    hide PerformEntry, Counter, AllOnTime, NoneRefused;
    if entries == [] {
      NothingRefused(rt, commits);
    } else {
      var init, last := entries[..|entries| - 1], entries[|entries| - 1];
      NoRefusalIff(rt, init, commits);
      AllOnTimeStep(rt, entries);
      NoneRefusedStep(rt, entries, commits);
      EntryCases(RunEntries(rt, init, commits).0, last, commits);
      if AllOnTime(rt, init) && LaneOf(last).Some? {
        CounterWhenOnTime(rt, init, commits, LaneOf(last).value);
      }
    }
  }

  lemma {:induction false} NothingRefused(rt: RuntimeState, commits: Commits)
    ensures NoneRefused(rt, [], commits) && AllOnTime(rt, [])
  {
  }

  // ----- what is scheduled runs -----

  /** The lane a scheduler's sender stands for: the scheduler itself knows only the key. */
  function LaneFor(s: Sender, owners: set<Sender>): LaneId {
    if s in owners then OwnerLane(s) else WalletLane(s)
  }

  /** The entries are what the scheduled items verify to: each signed one in its own lane and with its own
      nonce, each unsigned one not at all. */
  ghost predicate Verifies(items: seq<Pending>, entries: seq<Entry>, owners: set<Sender>) {
    && |items| == |entries|
    && (forall k :: 0 <= k < |items| ==> VerifiesItem(items[k], entries[k], owners))
  }

  ghost predicate VerifiesItem(item: Pending, e: Entry, owners: set<Sender>) {
    && (item.IsSigned() ==> LaneOf(e) == Some(LaneFor(item.sender.value, owners)) && NonceOf(e) == item.nonce.value)
    && (item.IsUnsigned() ==> e.Unverified?)
  }

  ghost predicate Agree(rt: RuntimeState, nonces: Nonces, senders: set<Sender>, owners: set<Sender>) {
    forall s :: s in senders ==> Counter(rt, LaneFor(s, owners)) == Expected(nonces, s)
  }

  ghost predicate SentBy(items: seq<Pending>, senders: set<Sender>) {
    forall k :: 0 <= k < |items| ==> (items[k].IsSigned() ==> items[k].sender.value in senders)
  }

  /** A signed item's receipt: its nonce was consumed, unless it is the one that cannot be. */
  ghost predicate RanAsScheduled(item: Pending, receipt: Receipt) {
    item.IsSigned() ==>
      if item.nonce.value == U64_MAX
      then receipt.status == Rejected && receipt.code == Some(NONCE_EXHAUSTED)
      else receipt.status != Rejected && receipt.nonce == item.nonce
  }

  /** What is scheduled runs, wallets and owners mixed: starting from counters that agree with the
      scheduler's for the senders concerned, no signed action of a nonce run is refused for its nonce,
      except the one that can never be used, and the counters of these senders end where the
      scheduler's do. */
  lemma {:induction false} ScheduledRunsThrough(rt: RuntimeState, expected: Nonces, items: seq<Pending>,
      entries: seq<Entry>, commits: Commits, senders: set<Sender>, owners: set<Sender>)
    requires NonceRun(expected, items) && Verifies(items, entries, owners)
    requires SentBy(items, senders) && Agree(rt, expected, senders, owners)
    ensures var (n, receipts) := RunEntries(rt, entries, commits);
      && Agree(n, AdvanceAll(expected, items), senders, owners)
      && (forall k :: 0 <= k < |items| ==> RanAsScheduled(items[k], receipts[k]))
  {
    hide PerformEntry, RanAsScheduled, Counter, VerifiesItem, LaneFor;
    if items != [] {
      var init, last := items[..|items| - 1], items[|items| - 1];
      assert Verifies(init, entries[..|init|], owners) by {
        forall k | 0 <= k < |init| ensures VerifiesItem(init[k], entries[..|init|][k], owners) {
          assert VerifiesItem(items[k], entries[k], owners);
        }
      }
      assert SentBy(init, senders);
      ScheduledRunsThrough(rt, expected, init, entries[..|init|], commits, senders, owners);
      assert VerifiesItem(items[|init|], entries[|init|], owners);
      var (mid, receipts) := RunEntries(rt, entries[..|init|], commits);
      AgreeAfter(mid, AdvanceAll(expected, init), last, entries[|init|], commits, senders, owners);
    }
  }

  lemma {:induction false} AgreeAfter(mid: RuntimeState, nonces: Nonces, item: Pending, e: Entry, commits: Commits,
                                      senders: set<Sender>, owners: set<Sender>)
    requires Agree(mid, nonces, senders, owners) && VerifiesItem(item, e, owners)
    requires item.IsSigned() || item.IsUnsigned()
    requires item.IsSigned() ==>
      item.sender.value in senders && item.nonce.value == Expected(nonces, item.sender.value)
    ensures var (n, receipt) := PerformEntry(mid, e, commits);
      Agree(n, Advance(nonces, item), senders, owners) && RanAsScheduled(item, receipt)
  {
    hide PerformEntry, Counter;
    EntryCases(mid, e, commits);
    var n := PerformEntry(mid, e, commits).0;
    if item.IsSigned() {
      assert Counter(mid, LaneFor(item.sender.value, owners)) == Expected(nonces, item.sender.value);
    }
    forall s | s in senders ensures Counter(n, LaneFor(s, owners)) == Expected(Advance(nonces, item), s) {
      assert Counter(mid, LaneFor(s, owners)) == Expected(nonces, s);
    }
  }

  /** The scheduler cannot know that an action will not verify: of two scheduled actions of a wallet whose
      first does not, the second is refused. */
  lemma {:induction false} UnverifiedBlocks(rt: RuntimeState, x: Pending, y: Pending, code: u32, b: Verified,
                                            commits: Commits)
    requires x.sender == y.sender == Some(b.sender) && x.nonce == Some(0) && y.nonce == Some(b.nonce) && b.nonce == 1
    requires Counter(rt, WalletLane(b.sender)) == 0
    ensures NonceRun(map[], [x, y])
    ensures var receipts := RunEntries(rt, [Unverified(code), WalletAction(b)], commits).1;
      receipts[0].status == Rejected && receipts[1].RefusesNonce()
  {
    hide Attempt;
    var none: Nonces := map[];
    RunOneMore(none, [], x);
    assert [] + [x] == [x];
    RunOneMore(none, [x], y);
    assert [x] + [y] == [x, y];
    var entries := [Unverified(code), WalletAction(b)];
    assert entries[..1] == [Unverified(code)] && entries[..1][..0] == [];
    EntryCases(rt, Unverified(code), commits);
    assert RunEntries(rt, [], commits) == (rt, []);
    assert RunEntries(rt, entries[..1], commits).0 == rt;
    EntryCases(rt, WalletAction(b), commits);
  }

  /** The scheduler counts by key alone: were one key both a wallet's and an owner's, it would schedule
      the owner's first action behind the wallet's, and the runtime would refuse it. */
  lemma {:induction false} SharedKeyRefused(rt: RuntimeState, x: Pending, y: Pending, a: Verified, b: VerifiedOwner,
                                            commits: Commits)
    requires x.sender == y.sender == Some(a.sender) && b.owner == Some(a.sender)
    requires x.nonce == Some(a.nonce) && y.nonce == Some(b.nonce) && a.nonce == 0 && b.nonce == 1
    requires Counter(rt, WalletLane(a.sender)) == 0 && Counter(rt, OwnerLane(a.sender)) == 0
    ensures NonceRun(map[], [x, y])
    ensures var receipts := RunEntries(rt, [WalletAction(a), OwnerAction(b)], commits).1;
      receipts[0].status != Rejected && receipts[1].status == Rejected &&
      receipts[1].code == Some(OWNERSHIP_NONCE_MISMATCH)
  {
    hide Attempt;
    var none: Nonces := map[];
    RunOneMore(none, [], x);
    assert [] + [x] == [x];
    RunOneMore(none, [x], y);
    assert [x] + [y] == [x, y];
    var entries := [WalletAction(a), OwnerAction(b)];
    assert entries[..1] == [WalletAction(a)];
    assert [WalletAction(a)][..0] == [];
    assert RunEntries(rt, [], commits) == (rt, []);
    var first := RunEntries(rt, [WalletAction(a)], commits);
    assert first.1 == [PerformEntry(rt, WalletAction(a), commits).1];
  }
}

/** From the coordinator's queue to the runtime's receipts. */
module DispatchedBatches {
  import opened Bytes
  import opened Transactions
  import opened Scheduler
  import opened SchedulerLaws
  import opened RuntimeLaws
  import Coordination
  import CoordinatorLaws
  import CoordinatorRuns
  import Runtime

  /** A batch the coordinator dispatches from the authoritative nonces, wallet and owner actions mixed,
      verified and run in order, has no receipt that refuses a nonce, whatever its commits do. */
  lemma {:induction false} DispatchedBatchRuns(
      lim: Coordination.Limits, s: Coordination.State, service: u32, expected: Nonces, slot: u64, now: nat,
      rt: Runtime.RuntimeState, entries: seq<Runtime.Entry>, commits: Runtime.Commits, owners: set<Sender>)
    requires CoordinatorLaws.Inv(lim, s) && Coordination.Taken(lim, s, service, expected, slot, now).1.Some?
    requires Agree(rt, expected, expected.Keys, owners)
    requires Verifies(Coordination.SplitQueue(lim, Coordination.Queue(s, service), expected, slot).selected, entries,
      owners)
    ensures var items := Coordination.SplitQueue(lim, Coordination.Queue(s, service), expected, slot).selected;
      var sub := Coordination.Taken(lim, s, service, expected, slot, now).1.value;
      var receipts := Runtime.RunEntries(rt, entries, commits).1;
      && |receipts| == |sub.actions| == |items| && sub.actions == Coordination.ActionsOf(items)
      && (forall k :: 0 <= k < |items| ==> RanAsScheduled(items[k], receipts[k]))
      && (forall k :: 0 <= k < |items| && items[k].IsSigned() ==> !receipts[k].RefusesNonce())
  {
    hide CoordinatorLaws.Inv, Coordination.SplitQueue, Coordination.AfterSplit, NonceRun, AdvanceAll,
      Runtime.RunEntries, VerifiesItem;
    var q := Coordination.Queue(s, service);
    var items := Coordination.SplitQueue(lim, q, expected, slot).selected;
    CoordinatorRuns.DispatchIsSound(lim, s, service, expected, slot, now);
    assert SentBy(items, expected.Keys) by {
      forall k | 0 <= k < |items| && items[k].IsSigned() ensures items[k].sender.value in expected.Keys {
        CoordinatorLaws.SelectedItemsQueued(lim, q, expected, slot, k);
      }
    }
    ScheduledRunsThrough(rt, expected, items, entries, commits, expected.Keys, owners);
  }
}
