/** `FullStateProvider`: per service, snapshots by root, the canonical head and bounded histories. */
module Provider {
  import opened Wrappers
  import opened Bytes
  import opened Outputs
  import opened StateRows

  type ServiceKey = seq<byte>

  /** The state root of a managed state. */
  type RootFn = Managed -> Root

  const MAX_ROOTS := 8

  datatype Slot = Slot(
    states: map<Root, Managed>, materialized: Option<Root>, history: seq<Root>, snapshots: seq<Root>)

  const EMPTY_SLOT := Slot(map[], None, [], [])

  function Head(root: RootFn, slot: Slot): Root {
    if slot.materialized.Some? then slot.materialized.value else root(map[])
  }

  /** `open`: the empty root is always available. */
  function Opened(root: RootFn, slot: Slot, at: Root): Option<Managed> {
    if at == root(map[]) then Some(map[])
    else if at in slot.states then Some(slot.states[at])
    else None
  }

  function WithRoot(list: seq<Root>, r: Root): seq<Root> {
    if r in list then list else list + [r]
  }

  /** Oldest roots leave the history and, unless just inserted, the states. */
  function Evict(states: map<Root, Managed>, history: seq<Root>, keep: Root): (map<Root, Managed>, seq<Root>) {
    if |history| <= MAX_ROOTS then (states, history)
    else Evict(if history[0] != keep then states - {history[0]} else states, history[1..], keep)
  }

  function Inserted(root: RootFn, slot: Slot, state: Managed): Slot {
    var r := root(state);
    var (states, history) := Evict(slot.states[r := state], WithRoot(slot.history, r), r);
    Slot(states, Some(r), history, slot.snapshots)
  }

  /** Oldest snapshots leave, but canonical and finalized roots keep their states. */
  function EvictSnapshots(slot: Slot): Slot
    decreases |slot.snapshots|
  {
    if |slot.snapshots| <= MAX_ROOTS then slot
    else
      var evicted := slot.snapshots[0];
      var kept := slot.materialized == Some(evicted) || evicted in slot.history;
      EvictSnapshots(slot.(snapshots := slot.snapshots[1..],
                           states := if kept then slot.states else slot.states - {evicted}))
  }

  function SnapshotInserted(root: RootFn, slot: Slot, state: Managed): Slot {
    var r := root(state);
    EvictSnapshots(slot.(states := slot.states[r := state], snapshots := WithRoot(slot.snapshots, r)))
  }

  function SlotOf(slots: map<ServiceKey, Slot>, key: ServiceKey): Slot {
    if key in slots then slots[key] else EMPTY_SLOT
  }

  class FullStateProvider {
    const root: RootFn
    var slots: map<ServiceKey, Slot>

    constructor (root: RootFn)
      ensures this.root == root && slots == map[]
    {
      this.root, slots := root, map[];
    }

    method Insert(key: ServiceKey, state: Managed) returns (r: Root)
      modifies this
      ensures r == root(state)
      ensures slots == old(slots)[key := Inserted(root, SlotOf(old(slots), key), state)]
    {
      r := root(state);
      var slot := SlotOf(slots, key);
      var states, history := slot.states[r := state], slot.history;
      if r !in history {
        history := history + [r];
      }
      ghost var goal := Evict(states, history, r);
      while |history| > MAX_ROOTS
        invariant Evict(states, history, r) == goal
        decreases |history|
      {
        var evicted := history[0];
        history := history[1..];
        if evicted != r {
          states := states - {evicted};
        }
      }
      slots := slots[key := Slot(states, Some(r), history, slot.snapshots)];
    }

    method InsertSnapshot(key: ServiceKey, state: Managed) returns (r: Root)
      modifies this
      ensures r == root(state)
      ensures slots == old(slots)[key := SnapshotInserted(root, SlotOf(old(slots), key), state)]
    {
      r := root(state);
      var slot := SlotOf(slots, key);
      var states, snapshots := slot.states[r := state], slot.snapshots;
      if r !in snapshots {
        snapshots := snapshots + [r];
      }
      ghost var goal := SnapshotInserted(root, slot, state);
      while |snapshots| > MAX_ROOTS
        invariant EvictSnapshots(slot.(states := states, snapshots := snapshots)) == goal
        decreases |snapshots|
      {
        var evicted := snapshots[0];
        snapshots := snapshots[1..];
        if slot.materialized != Some(evicted) && evicted !in slot.history {
          states := states - {evicted};
        }
      }
      slots := slots[key := slot.(states := states, snapshots := snapshots)];
    }
  }

  /** Content-addressed, bounded, and every finalized root of the history can be opened. */
  ghost predicate SlotOk(root: RootFn, slot: Slot) {
    && (forall r :: r in slot.states ==> root(slot.states[r]) == r)
    && |slot.history| <= MAX_ROOTS && |slot.snapshots| <= MAX_ROOTS
    && (forall i, j :: 0 <= i < j < |slot.history| ==> slot.history[i] != slot.history[j])
    && (forall r :: r in slot.history ==> r in slot.states)
    && (slot.materialized.Some? ==> slot.materialized.value in slot.history)
  }

  /** No two states share a root. */
  ghost predicate CollisionFree(root: RootFn) {
    forall s: Managed, t: Managed :: root(s) == root(t) ==> s == t
  }

  lemma {:induction false} InsertKeeps(root: RootFn, slot: Slot, state: Managed)
    requires SlotOk(root, slot)
    ensures var n := Inserted(root, slot, state);
      && SlotOk(root, n) && Head(root, n) == root(state)
      && root(state) in n.states && n.states[root(state)] == state
      && n.history == if root(state) in slot.history then slot.history
                      else if |slot.history| < MAX_ROOTS then slot.history + [root(state)]
                      else slot.history[1..] + [root(state)]
  {
    var r := root(state);
    if r !in slot.history && |slot.history| == MAX_ROOTS {
      var history := slot.history + [r];
      assert history[1..] == slot.history[1..] + [r];
      var states := slot.states[r := state];
      assert Evict(states, history, r) == Evict(states - {history[0]}, history[1..], r);
      forall x | x in history[1..] ensures x in states && x != history[0] {
      }
    }
  }

  /** The head just inserted is what `open` returns for it, unless it collides with the empty state. */
  lemma {:induction false} InsertedOpens(root: RootFn, slot: Slot, state: Managed)
    requires SlotOk(root, slot)
    ensures var n := Inserted(root, slot, state);
      Opened(root, n, Head(root, n)) == Some(state) <==> (root(state) == root(map[]) ==> state == map[])
  {
    hide Inserted;
    InsertKeeps(root, slot, state);
  }

  lemma {:induction false} EvictSnapshotsKeeps(root: RootFn, slot: Slot)
    requires SlotOk(root, slot.(snapshots := [])) && |slot.snapshots| <= MAX_ROOTS + 1
    ensures var n := EvictSnapshots(slot);
      && SlotOk(root, n) && n.materialized == slot.materialized && n.history == slot.history
      && (forall r :: r in slot.history ==> n.states[r] == slot.states[r])
    decreases |slot.snapshots|
  {
    if |slot.snapshots| > MAX_ROOTS {
      var evicted := slot.snapshots[0];
      var kept := slot.materialized == Some(evicted) || evicted in slot.history;
      var next := slot.(snapshots := slot.snapshots[1..],
                        states := if kept then slot.states else slot.states - {evicted});
      EvictSnapshotsKeeps(root, next);
    }
  }

  /** A snapshot never moves the head, and without collisions never changes a finalized state. */
  lemma {:induction false} SnapshotKeeps(root: RootFn, slot: Slot, state: Managed)
    requires SlotOk(root, slot)
    ensures var n := SnapshotInserted(root, slot, state);
      && SlotOk(root, n) && Head(root, n) == Head(root, slot) && n.history == slot.history
      && (CollisionFree(root) ==> forall r :: r in slot.history ==> Opened(root, n, r) == Opened(root, slot, r))
  {
    var r := root(state);
    var mid := slot.(states := slot.states[r := state], snapshots := WithRoot(slot.snapshots, r));
    assert SlotOk(root, mid.(snapshots := []));
    EvictSnapshotsKeeps(root, mid);
    if CollisionFree(root) {
      forall x | x in slot.history ensures mid.states[x] == slot.states[x] {
        assert root(mid.states[x]) == x == root(slot.states[x]);
      }
    }
  }

  lemma {:induction false} SnapshotKeepsHead(root: RootFn, slot: Slot, state: Managed)
    requires SlotOk(root, slot) && CollisionFree(root)
    ensures var n := SnapshotInserted(root, slot, state);
      Head(root, n) == Head(root, slot) && Opened(root, n, Head(root, n)) == Opened(root, slot, Head(root, slot))
  {
    hide SnapshotInserted, CollisionFree;
    SnapshotKeeps(root, slot, state);
  }
}
