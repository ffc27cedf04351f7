/** Memory and disk agree after every step, the journal is a window of a chain, and a restart loses nothing. */
module BackendLaws {
  import opened Wrappers
  import opened Bytes
  import opened Outputs
  import opened StateRows
  import opened Provider
  import opened Registries
  import opened Database
  import opened BackendStates

  function KeyOf(b: Backend, id: u32): ServiceKey
    requires id in b.registry.byId
  {
    b.registry.byId[id].key
  }

  function HeadRoot(c: Codec, b: Backend, id: u32): Root
    requires id in b.registry.byId
  {
    Head(c.root, SlotOf(b.slots, KeyOf(b, id)))
  }

  function HeadState(c: Codec, b: Backend, id: u32): Option<Managed>
    requires id in b.registry.byId
  {
    Opened(c.root, SlotOf(b.slots, KeyOf(b, id)), HeadRoot(c, b, id))
  }

  /** The sequence numbers a journal of length `n` still holds. */
  predicate InWindow(retention: nat, n: nat, s: nat) {
    1 <= s <= n && s + retention > n
  }

  ghost predicate EntryOk(transitions: map<Key, Envelope>, id: u32, key: ServiceKey, s: u64) {
    && TransitionKey(id, s) in transitions
    && transitions[TransitionKey(id, s)].service == id && transitions[TransitionKey(id, s)].key == key
  }

  function Entry(transitions: map<Key, Envelope>, id: u32, s: u64): Output
    requires TransitionKey(id, s) in transitions
  {
    transitions[TransitionKey(id, s)].output
  }

  ghost predicate JournalLink(transitions: map<Key, Envelope>, id: u32, s: u64, next: u64) {
    TransitionKey(id, s) in transitions && TransitionKey(id, next) in transitions &&
    Entry(transitions, id, s).newRoot == Entry(transitions, id, next).parentRoot
  }

  /** Exactly the last `retention` transitions, each starting where the one before ended, up to the head. */
  ghost predicate JournalOk(retention: nat, transitions: map<Key, Envelope>, id: u32, key: ServiceKey, n: u64,
                            head: Root) {
    && (forall s: u64 :: TransitionKey(id, s) in transitions <==> InWindow(retention, n, s))
    && (forall s: u64 :: InWindow(retention, n, s) ==> EntryOk(transitions, id, key, s))
    && (forall s: u64, t: u64 :: t == s + 1 && InWindow(retention, n, s) && InWindow(retention, n, t) ==>
          JournalLink(transitions, id, s, t))
    && (n > 0 ==> TransitionKey(id, n) in transitions && Entry(transitions, id, n).newRoot == head)
  }

  ghost predicate HeadRowOk(c: Codec, db: Db, id: u32, key: ServiceKey, n: u64, head: Root) {
    if Prefix(id) in db.heads then
      var r := ReadHead(db.heads[Prefix(id)], id, key);
      r.Ok? && r.value.0 == n && r.value.1 == head
    else n == 0 && head == c.root(map[])
  }

  /** What the database holds for a service is what memory holds. */
  ghost predicate Durable(c: Codec, retention: nat, db: Db, id: u32, key: ServiceKey, n: u64, head: Root,
                          state: Managed) {
    && View(db.rows, Prefix(id)) == state
    && HeadRowOk(c, db, id, key, n, head)
    && JournalOk(retention, db.transitions, id, key, n, head)
  }

  ghost predicate Blank(db: Db, id: u32) {
    && View(db.rows, Prefix(id)) == map[] && Prefix(id) !in db.heads
    && (forall s: u64 :: TransitionKey(id, s) !in db.transitions)
  }

  ghost predicate ServiceOk(c: Codec, retention: nat, w: World, id: u32)
    requires id in w.b.registry.byId
  {
    if id in w.b.corrupt then
      w.db.Some? ==> Loads(w.db.value, c.root, id, KeyOf(w.b, id)) == Err(StateCorrupt(id))
    else
      && HeadState(c, w.b, id).Some?
      && (w.db.Some? ==>
            Durable(c, retention, w.db.value, id, KeyOf(w.b, id), SequenceOf(w.b, id), HeadRoot(c, w.b, id),
                    HeadState(c, w.b, id).value))
  }

  ghost predicate WorldOk(c: Codec, retention: nat, w: World) {
    && RegistryOk(w.b.registry)
    && w.b.slots.Keys <= w.b.registry.byKey.Keys && w.b.sequences.Keys <= w.b.registry.byId.Keys
    && w.b.corrupt <= w.b.registry.byId.Keys
    && (forall key :: key in w.b.slots ==> SlotOk(c.root, w.b.slots[key]))
    && (w.db.Some? ==> retention > 0 && w.db.value.services == RowsOf(w.b.registry.byId))
    && (forall id :: id in w.b.registry.byId ==> ServiceOk(c, retention, w, id))
    && (forall id: u32 :: id !in w.b.registry.byId && w.db.Some? ==> Blank(w.db.value, id))
  }

  lemma {:induction false} SlotFacts(c: Codec, retention: nat, w: World, key: ServiceKey)
    requires WorldOk(c, retention, w)
    ensures SlotOk(c.root, SlotOf(w.b.slots, key))
  {
  }

  lemma {:induction false} OpenedHasRoot(root: RootFn, slot: Slot, at: Root)
    requires SlotOk(root, slot) && Opened(root, slot, at).Some?
    ensures root(Opened(root, slot, at).value) == at
  {
  }

  // ----- committing a transition -----

  lemma {:induction false} JournalStep(retention: nat, db: Db, id: u32, key: ServiceKey, n: u64, head: Root,
                                       output: Output, changes: seq<Change>, context: Option<Context>)
    requires JournalOk(retention, db.transitions, id, key, n, head) && retention > 0 && n < U64_MAX
    requires output.parentRoot == head
    ensures JournalOk(retention, Committed(db, retention, id, key, n + 1, output, changes, context).transitions,
                      id, key, n + 1, output.newRoot)
  {
    hide ApplyRows, HeadFor, TransitionKey;
    var next := Committed(db, retention, id, key, n + 1, output, changes, context).transitions;
    forall s: u64 ensures TransitionKey(id, s) in next <==> InWindow(retention, n + 1, s) {
      TransitionKeyInjective(id, s, id, n + 1);
      if n + 1 > retention { TransitionKeyInjective(id, s, id, n + 1 - retention); }
    }
    forall s: u64 | InWindow(retention, n + 1, s) ensures EntryOk(next, id, key, s) {
      TransitionKeyInjective(id, s, id, n + 1);
      if s <= n { assert InWindow(retention, n, s) && EntryOk(db.transitions, id, key, s); }
    }
    forall s: u64, t: u64 | t == s + 1 && InWindow(retention, n + 1, s) && InWindow(retention, n + 1, t)
      ensures JournalLink(next, id, s, t)
    {
      TransitionKeyInjective(id, s, id, n + 1);
      TransitionKeyInjective(id, t, id, n + 1);
      if t <= n {
        assert InWindow(retention, n, s) && InWindow(retention, n, t);
        assert JournalLink(db.transitions, id, s, t);
      }
    }
  }

  lemma {:induction false} CommitDurable(c: Codec, retention: nat, db: Db, id: u32, key: ServiceKey, n: u64, head: Root,
                                         state: Managed, output: Output, changes: seq<Change>, context: Option<Context>)
    requires Durable(c, retention, db, id, key, n, head, state) && retention > 0 && n < U64_MAX
    requires output.parentRoot == head
    ensures Durable(c, retention, Committed(db, retention, id, key, n + 1, output, changes, context), id, key, n + 1,
                    output.newRoot, ApplyDiff(state, changes))
  {
    hide JournalOk, View, ReadHead;
    RowsFollowDiff(db.rows, Prefix(id), changes);
    JournalStep(retention, db, id, key, n, head, output, changes, context);
    HeadReadsBack(id, key, n + 1, output.newRoot, context);
  }

  /** Two databases hold the same for one service. */
  ghost predicate SameFor(db: Db, n: Db, id: u32) {
    && View(n.rows, Prefix(id)) == View(db.rows, Prefix(id))
    && (Prefix(id) in n.heads <==> Prefix(id) in db.heads)
    && (Prefix(id) in db.heads ==> n.heads[Prefix(id)] == db.heads[Prefix(id)])
    && (forall s: u64 :: TransitionKey(id, s) in n.transitions <==> TransitionKey(id, s) in db.transitions)
    && (forall s: u64 :: TransitionKey(id, s) in db.transitions ==>
          n.transitions[TransitionKey(id, s)] == db.transitions[TransitionKey(id, s)])
  }

  /** A commit for `id` is invisible to every other service. */
  lemma {:induction false} CommitSpares(db: Db, retention: nat, id: u32, key: ServiceKey, sequence: u64, output: Output,
                                        changes: seq<Change>, context: Option<Context>, other: u32)
    requires other != id
    ensures SameFor(db, Committed(db, retention, id, key, sequence, output, changes, context), other)
  {
    hide View, TransitionKey;
    PrefixesDiffer(other, id);
    RowsSpareOthers(db.rows, Prefix(id), Prefix(other), changes);
    forall s: u64, t: u64 ensures TransitionKey(other, s) != TransitionKey(id, t) {
      TransitionKeyInjective(other, s, id, t);
    }
  }

  lemma {:induction false} DurableElsewhere(c: Codec, retention: nat, db: Db, n: Db, id: u32, key: ServiceKey,
                                            sequence: u64, head: Root, state: Managed)
    requires Durable(c, retention, db, id, key, sequence, head, state) && SameFor(db, n, id)
    ensures Durable(c, retention, n, id, key, sequence, head, state)
  {
    hide View, TransitionKey, ReadHead;
    forall s: u64 | InWindow(retention, sequence, s) ensures EntryOk(n.transitions, id, key, s) {
      assert EntryOk(db.transitions, id, key, s);
    }
    forall s: u64, t: u64 | t == s + 1 && InWindow(retention, sequence, s) && InWindow(retention, sequence, t)
      ensures JournalLink(n.transitions, id, s, t)
    {
      assert JournalLink(db.transitions, id, s, t);
    }
  }

  lemma {:induction false} SameLoads(c: Codec, db: Db, n: Db, id: u32, key: ServiceKey)
    requires SameFor(db, n, id)
    ensures Loads(n, c.root, id, key) == Loads(db, c.root, id, key)
    ensures Blank(db, id) ==> Blank(n, id)
  {
    hide View, ReadHead, TransitionKey;
  }

  /** What a successful commit does to its own service. */
  ghost predicate Advanced(c: Codec, w: World, n: World, id: u32, output: Output)
    requires id in w.b.registry.byId && n.b.registry == w.b.registry
  {
    && HeadRoot(c, w.b, id) == output.parentRoot && HeadRoot(c, n.b, id) == output.newRoot
    && HeadState(c, w.b, id).Some? && c.recover(output.recoveryPayload).Some?
    && HeadState(c, n.b, id) == Some(ApplyDiff(HeadState(c, w.b, id).value,
      c.recover(output.recoveryPayload).value.changes))
    && SequenceOf(n.b, id) == SequenceOf(w.b, id) + 1
  }

  ghost predicate Untouched(c: Codec, w: World, n: World, id: u32)
    requires id in w.b.registry.byId && n.b.registry == w.b.registry
  {
    && HeadRoot(c, n.b, id) == HeadRoot(c, w.b, id) && HeadState(c, n.b, id) == HeadState(c, w.b, id)
    && SequenceOf(n.b, id) == SequenceOf(w.b, id)
  }

  lemma {:induction false} CommitOwn(c: Codec, retention: nat, w: World, id: u32, output: Output, written: bool)
    requires WorldOk(c, retention, w) && CollisionFree(c.root) && id in w.b.registry.byId
    requires CommittedRecovery(c, retention, w, id, KeyOf(w.b, id), output, written).Ok?
    ensures var n := CommittedRecovery(c, retention, w, id, KeyOf(w.b, id), output, written).value;
      && n.b.registry == w.b.registry && n.b.corrupt == w.b.corrupt
      && Advanced(c, w, n, id, output) && ServiceOk(c, retention, n, id)
      && SlotOk(c.root, SlotOf(n.b.slots, KeyOf(w.b, id)))
  {
    hide Inserted, Committed, Durable, SlotOk, Loads, RowsOf, Blank;
    var key := KeyOf(w.b, id);
    var slot := SlotOf(w.b.slots, key);
    SlotFacts(c, retention, w, key);
    assert ServiceOk(c, retention, w, id);
    var next := Follow(c, slot, output).value;
    InsertKeeps(c.root, slot, next.0);
    InsertedOpens(c.root, slot, next.0);
    if w.db.Some? {
      CommitDurable(c, retention, w.db.value, id, key, SequenceOf(w.b, id), HeadRoot(c, w.b, id),
                    HeadState(c, w.b, id).value, output, next.1, ContextOf(w.b, id));
    }
  }

  lemma {:induction false} CommitOther(c: Codec, retention: nat, w: World, id: u32, output: Output, written: bool,
                                       other: u32)
    requires WorldOk(c, retention, w) && id in w.b.registry.byId && other in w.b.registry.byId && other != id
    requires CommittedRecovery(c, retention, w, id, KeyOf(w.b, id), output, written).Ok?
    ensures var n := CommittedRecovery(c, retention, w, id, KeyOf(w.b, id), output, written).value;
      && n.b.registry == w.b.registry && n.b.corrupt == w.b.corrupt
      && Untouched(c, w, n, other) && ServiceOk(c, retention, n, other)
  {
    hide Inserted, Committed, Durable, SlotOk, Loads, SameFor, Blank, RowsOf, Opened;
    KeysDistinct(w.b.registry, other, id);
    assert ServiceOk(c, retention, w, other);
    var n := CommittedRecovery(c, retention, w, id, KeyOf(w.b, id), output, written).value;
    assert Untouched(c, w, n, other);
    if w.db.Some? {
      CommitSame(c, retention, w, id, output, written, other);
      SameLoads(c, w.db.value, n.db.value, other, KeyOf(w.b, other));
      if other !in w.b.corrupt {
        DurableElsewhere(c, retention, w.db.value, n.db.value, other, KeyOf(w.b, other), SequenceOf(w.b, other),
                         HeadRoot(c, w.b, other), HeadState(c, w.b, other).value);
      }
    }
  }

  lemma {:induction false} CommitSame(c: Codec, retention: nat, w: World, id: u32, output: Output, written: bool,
                                      other: u32)
    requires w.db.Some? && id in w.b.registry.byId && other != id
    requires CommittedRecovery(c, retention, w, id, KeyOf(w.b, id), output, written).Ok?
    ensures var n := CommittedRecovery(c, retention, w, id, KeyOf(w.b, id), output, written).value;
      n.db.Some? && SameFor(w.db.value, n.db.value, other)
  {
    hide Inserted, Committed, SameFor;
    var next := Follow(c, SlotOf(w.b.slots, KeyOf(w.b, id)), output).value;
    CommitSpares(w.db.value, retention, id, KeyOf(w.b, id), SequenceOf(w.b, id) + 1, output, next.1,
                 ContextOf(w.b, id), other);
  }

  /** A commit that succeeds moves exactly one service's head, in memory and on disk alike. */
  lemma {:induction false} CommitKeeps(c: Codec, retention: nat, w: World, id: u32, output: Output, written: bool)
    requires WorldOk(c, retention, w) && CollisionFree(c.root) && id in w.b.registry.byId
    requires CommittedRecovery(c, retention, w, id, KeyOf(w.b, id), output, written).Ok?
    ensures var n := CommittedRecovery(c, retention, w, id, KeyOf(w.b, id), output, written).value;
      && WorldOk(c, retention, n) && n.b.registry == w.b.registry
      && Advanced(c, w, n, id, output)
      && (forall other :: other in w.b.registry.byId && other != id ==> Untouched(c, w, n, other))
  {
    hide Inserted, ServiceOk, SlotOk, Follow, Advanced, Untouched, Blank, SameFor, Loads, RowsOf;
    var n := CommittedRecovery(c, retention, w, id, KeyOf(w.b, id), output, written).value;
    CommitOwn(c, retention, w, id, output, written);
    forall other | other in w.b.registry.byId && other != id
      ensures Untouched(c, w, n, other) && ServiceOk(c, retention, n, other)
    {
      CommitOther(c, retention, w, id, output, written, other);
    }
    forall other: u32 | other !in w.b.registry.byId && w.db.Some? ensures Blank(n.db.value, other) {
      CommitSame(c, retention, w, id, output, written, other);
      SameLoads(c, w.db.value, n.db.value, other, []);
    }
  }

  // ----- restart -----

  lemma {:induction false} LoadsHead(c: Codec, retention: nat, w: World, id: u32)
    requires WorldOk(c, retention, w) && w.db.Some? && id in w.b.registry.byId && id !in w.b.corrupt
    ensures var l := Loads(w.db.value, c.root, id, KeyOf(w.b, id));
      && l.Ok? && l.value.sequence == SequenceOf(w.b, id) && l.value.root == HeadRoot(c, w.b, id)
      && HeadState(c, w.b, id) == Some(l.value.state) && c.root(l.value.state) == l.value.root
  {
    hide JournalOk, SlotOk, View, ReadHead, RowsOf, Blank, Opened;
    assert ServiceOk(c, retention, w, id);
    SlotFacts(c, retention, w, KeyOf(w.b, id));
    OpenedHasRoot(c.root, SlotOf(w.b.slots, KeyOf(w.b, id)), HeadRoot(c, w.b, id));
  }

  lemma {:induction false} RegistryReloads(r: Registry, ids: seq<u32>)
    requires RegistryOk(r)
    ensures var loaded := LoadedRegistry(RowsOf(r.byId), ids);
      && loaded.Ok? && loaded.value.1 == {} && RegistryOk(loaded.value.0)
      && (forall id :: id in loaded.value.0.byId <==> id in r.byId && id in ids)
      && (forall id :: id in loaded.value.0.byId ==> loaded.value.0.byId[id] == r.byId[id])
  {
    if ids != [] {
      var init, id := ids[..|ids| - 1], ids[|ids| - 1];
      RegistryReloads(r, init);
      assert ids == init + [id];
      var n := LoadedRegistry(RowsOf(r.byId), init).value.0;
      if id in r.byId {
        RegisterKeeps(n, r.byId[id]);
      }
    }
  }

  lemma {:induction false} RegistryDetermined(a: Registry, b: Registry)
    requires RegistryOk(a) && RegistryOk(b) && a.byId == b.byId
    ensures a == b
  {
    forall key ensures key in a.byKey <==> key in b.byKey {
      if key in a.byKey { assert a.byId[a.byKey[key]].key == key; }
      if key in b.byKey { assert b.byId[b.byKey[key]].key == key; }
    }
    forall key | key in a.byKey ensures a.byKey[key] == b.byKey[key] {
      assert a.byId[a.byKey[key]].key == key;
    }
  }

  /** The services already loaded again stand where they stood. */
  ghost predicate Reloaded(c: Codec, w: World, b: Backend, ids: seq<u32>) {
    && b.registry == w.b.registry
    && b.slots.Keys <= w.b.registry.byKey.Keys && b.sequences.Keys <= w.b.registry.byId.Keys
    && (forall key :: key in b.slots ==> SlotOk(c.root, b.slots[key]))
    && b.corrupt == (set id | id in w.b.corrupt && id in ids)
    && (forall id :: id in ids && id in w.b.registry.byId && id !in w.b.corrupt ==>
          Untouched(c, w, World(b, w.db), id))
  }

  lemma {:induction false} ServicesReload(c: Codec, retention: nat, w: World, start: Backend, ids: seq<u32>)
    requires WorldOk(c, retention, w) && w.db.Some? && CollisionFree(c.root)
    requires start == FRESH.(registry := w.b.registry)
    ensures var r := LoadedServices(c, w.db.value, start, ids);
      && r.Ok? && Reloaded(c, w, r.value, ids)
      && r.value.pending == map[] && r.value.predictions == map[] && r.value.finalized == {}
  {
    hide Loads, WorldOk, Reloaded, Inserted, CollisionFree;
    if ids == [] {
      ReloadedNone(c, w, start);
    } else {
      var init, id := ids[..|ids| - 1], ids[|ids| - 1];
      ServicesReload(c, retention, w, start, init);
      assert ids == init + [id];
      var b := LoadedServices(c, w.db.value, start, init).value;
      assert b.registry == w.b.registry && RegistryOk(w.b.registry) by {
        ReloadedRegistry(c, retention, w, b, init);
      }
      if id in w.b.registry.byId {
        if id in w.b.corrupt {
          CorruptStays(c, retention, w, id);
          ReloadMarksCorrupt(c, w, b, init, id);
        } else {
          LoadsHead(c, retention, w, id);
          var l := Loads(w.db.value, c.root, id, KeyOf(w.b, id)).value;
          ReloadOne(c, w, b, init, id, l);
        }
      } else {
        ReloadSkips(c, retention, w, b, init, id);
      }
    }
  }

  lemma {:induction false} ReloadedNone(c: Codec, w: World, start: Backend)
    requires start == FRESH.(registry := w.b.registry)
    ensures Reloaded(c, w, start, [])
  {
    hide SlotOk, Untouched;
  }

  lemma {:induction false} ReloadedRegistry(c: Codec, retention: nat, w: World, b: Backend, ids: seq<u32>)
    requires WorldOk(c, retention, w) && Reloaded(c, w, b, ids)
    ensures b.registry == w.b.registry && RegistryOk(w.b.registry)
  {
    hide SlotOk, Untouched, ServiceOk, Blank, RowsOf;
  }

  lemma {:induction false} CorruptStays(c: Codec, retention: nat, w: World, id: u32)
    requires WorldOk(c, retention, w) && w.db.Some? && id in w.b.registry.byId && id in w.b.corrupt
    ensures Loads(w.db.value, c.root, id, KeyOf(w.b, id)) == Err(StateCorrupt(id))
  {
    assert ServiceOk(c, retention, w, id);
  }

  lemma {:induction false} ReloadSkips(c: Codec, retention: nat, w: World, b: Backend, ids: seq<u32>, id: u32)
    requires WorldOk(c, retention, w) && Reloaded(c, w, b, ids) && id !in w.b.registry.byId
    ensures Reloaded(c, w, b, ids + [id])
  {
    hide SlotOk, Untouched, ServiceOk;
  }

  lemma {:induction false} ReloadMarksCorrupt(c: Codec, w: World, b: Backend, ids: seq<u32>, id: u32)
    requires Reloaded(c, w, b, ids) && id in w.b.corrupt
    ensures Reloaded(c, w, b.(corrupt := b.corrupt + {id}), ids + [id])
  {
    hide SlotOk;
    var n := b.(corrupt := b.corrupt + {id});
    forall x | x in ids + [id] && x in w.b.registry.byId && x !in w.b.corrupt
      ensures Untouched(c, w, World(n, w.db), x)
    {
      assert Untouched(c, w, World(b, w.db), x);
    }
  }

  lemma {:induction false} ReloadOne(c: Codec, w: World, b: Backend, ids: seq<u32>, id: u32, l: Loaded)
    requires RegistryOk(w.b.registry) && Reloaded(c, w, b, ids) && CollisionFree(c.root)
    requires id in w.b.registry.byId && id !in w.b.corrupt
    requires l.sequence == SequenceOf(w.b, id) && l.root == HeadRoot(c, w.b, id)
    requires HeadState(c, w.b, id) == Some(l.state) && c.root(l.state) == l.root
    ensures Reloaded(c, w, WithLoaded(c, b, id, KeyOf(w.b, id), l), ids + [id])
  {
    hide SlotOk, Inserted, Untouched;
    var key := KeyOf(w.b, id);
    var n := WithLoaded(c, b, id, key, l);
    assert SlotOk(c.root, SlotOf(b.slots, key)) by { EmptySlotOk(c.root); }
    InsertKeeps(c.root, SlotOf(b.slots, key), l.state);
    forall x | x in ids + [id] && x in w.b.registry.byId && x !in w.b.corrupt
      ensures Untouched(c, w, World(n, w.db), x)
    {
      if x == id {
        LoadedOwn(c, w, b, id, l);
      } else {
        LoadedOther(c, w, b, id, l, x);
      }
    }
  }

  lemma {:induction false} LoadedOwn(c: Codec, w: World, b: Backend, id: u32, l: Loaded)
    requires b.registry == w.b.registry && CollisionFree(c.root) && id in w.b.registry.byId
    requires SlotOk(c.root, SlotOf(b.slots, KeyOf(w.b, id)))
    requires l.sequence == SequenceOf(w.b, id) && l.root == HeadRoot(c, w.b, id)
    requires HeadState(c, w.b, id) == Some(l.state) && c.root(l.state) == l.root
    ensures Untouched(c, w, World(WithLoaded(c, b, id, KeyOf(w.b, id), l), w.db), id)
  {
    hide SlotOk, Inserted;
    InsertKeeps(c.root, SlotOf(b.slots, KeyOf(w.b, id)), l.state);
    InsertedOpens(c.root, SlotOf(b.slots, KeyOf(w.b, id)), l.state);
  }

  lemma {:induction false} LoadedOther(c: Codec, w: World, b: Backend, id: u32, l: Loaded, x: u32)
    requires RegistryOk(w.b.registry) && b.registry == w.b.registry
    requires id in w.b.registry.byId && x in w.b.registry.byId && x != id
    requires Untouched(c, w, World(b, w.db), x)
    ensures Untouched(c, w, World(WithLoaded(c, b, id, KeyOf(w.b, id), l), w.db), x)
  {
    hide Inserted;
    KeysDistinct(w.b.registry, x, id);
  }

  lemma {:induction false} EmptySlotOk(root: RootFn)
    ensures SlotOk(root, EMPTY_SLOT)
  {
  }

  /** A restart refines the identity.  Reading the database back gives the same registry and, for every
      service, the same corruption verdict, head root, head state and sequence; memory and disk agree
      again, and only what was merely pending is forgotten. */
  lemma {:induction false} RestartRefines(c: Codec, retention: nat, w: World, ids: seq<u32>)
    requires WorldOk(c, retention, w) && w.db.Some? && CollisionFree(c.root)
    requires forall id :: id in w.b.registry.byId ==> id in ids
    ensures var r := Restored(c, w.db.value, ids);
      && r.Ok? && r.value.registry == w.b.registry && r.value.corrupt == w.b.corrupt
      && (forall id :: id in w.b.registry.byId && id !in w.b.corrupt ==> Untouched(c, w, World(r.value, w.db), id))
      && WorldOk(c, retention, World(r.value, w.db))
      && r.value.pending == map[] && r.value.predictions == map[] && r.value.finalized == {}
  {
    hide SlotOk, Untouched, ServiceOk, Inserted, LoadedServices, LoadedRegistry, Blank;
    RegistryReloads(w.b.registry, ids);
    var (registry, bad) := LoadedRegistry(w.db.value.services, ids).value;
    assert registry.byId == w.b.registry.byId;
    RegistryDetermined(registry, w.b.registry);
    var start := FRESH.(registry := registry, corrupt := bad);
    assert start == FRESH.(registry := w.b.registry);
    ServicesReload(c, retention, w, start, ids);
    var b := LoadedServices(c, w.db.value, start, ids).value;
    assert b.corrupt == w.b.corrupt;
    forall id | id in w.b.registry.byId ensures ServiceOk(c, retention, World(b, w.db), id) {
      ReloadedIsOk(c, retention, w, b, id);
    }
  }

  lemma {:induction false} ReloadedIsOk(c: Codec, retention: nat, w: World, b: Backend, id: u32)
    requires id in w.b.registry.byId && b.registry == w.b.registry && b.corrupt == w.b.corrupt
    requires ServiceOk(c, retention, w, id)
    requires id !in w.b.corrupt ==> Untouched(c, w, World(b, w.db), id)
    ensures ServiceOk(c, retention, World(b, w.db), id)
  {
    hide Durable, Loads;
  }

  /** Helper: what the invariant says of a service's head, read back. */
  lemma {:induction false} HeadIsLastCommitted(c: Codec, retention: nat, w: World, id: u32)
    requires WorldOk(c, retention, w) && id in w.b.registry.byId && id !in w.b.corrupt
    ensures HeadState(c, w.b, id).Some? && c.root(HeadState(c, w.b, id).value) == HeadRoot(c, w.b, id)
    ensures w.db.Some? && SequenceOf(w.b, id) > 0 ==>
      && TransitionKey(id, SequenceOf(w.b, id)) in w.db.value.transitions
      && Entry(w.db.value.transitions, id, SequenceOf(w.b, id)).newRoot == HeadRoot(c, w.b, id)
    ensures w.db.Some? && SequenceOf(w.b, id) == 0 && Prefix(id) !in w.db.value.heads ==>
      HeadRoot(c, w.b, id) == c.root(map[]) && View(w.db.value.rows, Prefix(id)) == HeadState(c, w.b, id).value
  {
    hide View, ReadHead, SlotOk, TransitionKey;
    assert ServiceOk(c, retention, w, id);
    SlotFacts(c, retention, w, KeyOf(w.b, id));
    OpenedHasRoot(c.root, SlotOf(w.b.slots, KeyOf(w.b, id)), HeadRoot(c, w.b, id));
  }
}
