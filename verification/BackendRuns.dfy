/** Whole runs of the backend, restarts included. */
module BackendRuns {
  import opened Wrappers
  import opened Bytes
  import opened Outputs
  import opened StateRows
  import opened Provider
  import opened Registries
  import opened Database
  import opened BackendStates
  import opened BackendLaws

  datatype Step =
    | Register(record: Record)
    | Track(work: WorkKey, output: Output)
    | Observe(service: u32, context: Context)
    | Discard(work: WorkKey)
    | Recover(envelope: Envelope, written: bool)
    | Materialize(work: WorkKey, canonical: Root, written: bool)
    | Snapshot(service: u32, output: Output)
    | Restart(ids: seq<u32>)

  /** Registered in memory, then persisted. */
  function RegisteredIn(w: World, record: Record): World {
    match Registered(w.b.registry, record)
    case Err(_) => w
    case Ok(r) =>
      World(w.b.(registry := r),
            if w.db.Some? then Some(w.db.value.(services := w.db.value.services[record.service := Stored(record)]))
            else None)
  }

  /** A restart reads every service row, whatever else the iterator order was. */
  predicate ReadsAll(w: World, ids: seq<u32>) {
    forall id :: id in w.b.registry.byId ==> id in ids
  }

  function Apply(c: Codec, retention: nat, w: World, step: Step): World {
    match step
    case Register(record) => RegisteredIn(w, record)
    case Track(work, output) => if work.service in w.b.registry.byId then w.(b := Tracked(w.b, work, output)) else w
    case Observe(service, context) => w.(b := w.b.(contexts := w.b.contexts[service := context]))
    case Discard(work) => w.(b := w.b.(pending := w.b.pending - {work}))
    case Recover(e, written) =>
      var r := AppliedRecovery(c, retention, w, e, written);
      if r.Ok? then r.value else w
    case Materialize(work, canonical, written) =>
      var r := MaterializedIfCanonical(c, retention, w, work, canonical, written);
      if r.Ok? then r.value.0 else w
    case Snapshot(service, output) =>
      if service !in w.b.registry.byId then w
      else
        var r := SnapshotTaken(c, w.b, output, KeyOf(w.b, service));
        if r.Ok? then w.(b := r.value) else w
    case Restart(ids) =>
      if w.db.None? || !ReadsAll(w, ids) then w
      else
        var r := Restored(c, w.db.value, ids);
        if r.Ok? then w.(b := r.value) else w
  }

  function Run(c: Codec, retention: nat, w: World, steps: seq<Step>): World {
    if steps == [] then w else Apply(c, retention, Run(c, retention, w, steps[..|steps| - 1]), steps[|steps| - 1])
  }

  /** What the invariant reads: the rest may change freely. */
  lemma {:induction false} BookkeepingKeeps(c: Codec, retention: nat, w: World, b: Backend)
    requires WorldOk(c, retention, w)
    requires b.registry == w.b.registry && b.slots == w.b.slots && b.sequences == w.b.sequences
    requires b.corrupt == w.b.corrupt
    ensures WorldOk(c, retention, w.(b := b))
  {
    hide SlotOk, Blank, Durable, Loads, RegistryOk;
    forall id | id in b.registry.byId ensures ServiceOk(c, retention, w.(b := b), id) {
      assert ServiceOk(c, retention, w, id);
    }
  }

  lemma {:induction false} NewServiceOk(c: Codec, retention: nat, w: World, n: World, record: Record)
    requires WorldOk(c, retention, w) && record.service !in w.b.registry.byId
    requires Registered(w.b.registry, record).Ok? && n == RegisteredIn(w, record)
    ensures ServiceOk(c, retention, n, record.service)
  {
    hide SlotOk, ServiceOk, View, TransitionKey, RegistryOk;
    var id := record.service;
    assert SlotOf(n.b.slots, record.key) == EMPTY_SLOT;
    assert HeadState(c, n.b, id) == Some(map[]) && SequenceOf(n.b, id) == 0;
    if w.db.Some? {
      assert Blank(w.db.value, id);
      assert Durable(c, retention, n.db.value, id, record.key, 0, c.root(map[]), map[]) by {
        hide WorldOk;
      }
    }
    FreshIsOk(c, retention, n, id);
  }

  lemma {:induction false} FreshIsOk(c: Codec, retention: nat, n: World, id: u32)
    requires id in n.b.registry.byId && id !in n.b.corrupt && HeadState(c, n.b, id) == Some(map[])
    requires HeadRoot(c, n.b, id) == c.root(map[]) && SequenceOf(n.b, id) == 0
    requires n.db.Some? ==> Durable(c, retention, n.db.value, id, KeyOf(n.b, id), 0, c.root(map[]), map[])
    ensures ServiceOk(c, retention, n, id)
  {
  }

  lemma {:induction false} OldServiceOk(c: Codec, retention: nat, w: World, n: World, record: Record, id: u32)
    requires WorldOk(c, retention, w) && Registered(w.b.registry, record).Ok? && n == RegisteredIn(w, record)
    requires id in w.b.registry.byId
    ensures id in n.b.registry.byId && ServiceOk(c, retention, n, id)
  {
    hide SlotOk, Durable, Loads, Blank, SameFor, Opened, Head, RowsOf;
    assert ServiceOk(c, retention, w, id);
    RegisterKeeps(w.b.registry, record);
    if w.db.Some? {
      SameTables(w.db.value, n.db.value, id);
      SameLoads(c, w.db.value, n.db.value, id, KeyOf(w.b, id));
      if id !in w.b.corrupt {
        DurableElsewhere(c, retention, w.db.value, n.db.value, id, KeyOf(w.b, id), SequenceOf(w.b, id),
                         HeadRoot(c, w.b, id), HeadState(c, w.b, id).value);
      }
    }
  }

  lemma {:induction false} RowsOfAdd(records: map<u32, Record>, record: Record)
    ensures RowsOf(records[record.service := record]) == RowsOf(records)[record.service := Stored(record)]
  {
  }

  lemma {:induction false} SameTables(db: Db, n: Db, id: u32)
    requires n.rows == db.rows && n.heads == db.heads && n.transitions == db.transitions
    ensures SameFor(db, n, id)
  {
  }

  lemma {:induction false} RegisterKeepsWorld(c: Codec, retention: nat, w: World, record: Record)
    requires WorldOk(c, retention, w)
    ensures WorldOk(c, retention, RegisteredIn(w, record))
  {
    hide SlotOk, ServiceOk, Blank, SameFor, Loads, RowsOf;
    var n := RegisteredIn(w, record);
    RegisterKeeps(w.b.registry, record);
    RowsOfAdd(w.b.registry.byId, record);
    if Registered(w.b.registry, record).Ok? {
      forall id | id in n.b.registry.byId ensures ServiceOk(c, retention, n, id) {
        if id in w.b.registry.byId {
          OldServiceOk(c, retention, w, n, record, id);
        } else {
          NewServiceOk(c, retention, w, n, record);
        }
      }
      forall id: u32 | id !in n.b.registry.byId && n.db.Some? ensures Blank(n.db.value, id) {
        SameTables(w.db.value, n.db.value, id);
        SameLoads(c, w.db.value, n.db.value, id, record.key);
      }
    }
  }

  lemma {:induction false} RecoverKeeps(c: Codec, retention: nat, w: World, e: Envelope, written: bool)
    requires WorldOk(c, retention, w) && CollisionFree(c.root) && AppliedRecovery(c, retention, w, e, written).Ok?
    ensures WorldOk(c, retention, AppliedRecovery(c, retention, w, e, written).value)
  {
    hide WorldOk, CommittedRecovery, CollisionFree;
    CommitKeeps(c, retention, w, e.service, e.output, written);
  }

  lemma {:induction false} MaterializeKeeps(c: Codec, retention: nat, w: World, work: WorkKey, canonical: Root,
                                            written: bool)
    requires WorldOk(c, retention, w) && CollisionFree(c.root)
    requires MaterializedIfCanonical(c, retention, w, work, canonical, written).Ok?
    ensures WorldOk(c, retention, MaterializedIfCanonical(c, retention, w, work, canonical, written).value.0)
  {
    hide WorldOk, CommittedRecovery, CollisionFree;
    if work in w.b.pending && canonical == w.b.pending[work].newRoot {
      var r := CommittedRecovery(c, retention, w, work.service, KeyOf(w.b, work.service), w.b.pending[work], written);
      CommitKeeps(c, retention, w, work.service, w.b.pending[work], written);
      BookkeepingKeeps(c, retention, r.value,
        r.value.b.(pending := r.value.b.pending - {work}, finalized := r.value.b.finalized + {work}));
    }
  }

  lemma {:induction false} SnapshotSpares(c: Codec, retention: nat, w: World, id: u32, output: Output, other: u32)
    requires WorldOk(c, retention, w) && CollisionFree(c.root)
    requires id in w.b.registry.byId && other in w.b.registry.byId
    requires SnapshotTaken(c, w.b, output, KeyOf(w.b, id)).Ok?
    ensures var n := w.(b := SnapshotTaken(c, w.b, output, KeyOf(w.b, id)).value);
      n.b.registry == w.b.registry && n.b.corrupt == w.b.corrupt && Untouched(c, w, n, other)
  {
    hide SnapshotInserted, ServiceOk, Blank, CollisionFree, SlotOk, Head, Opened;
    var key := KeyOf(w.b, id);
    var slot := SlotOf(w.b.slots, key);
    SlotFacts(c, retention, w, key);
    var parent := Opened(c.root, slot, output.parentRoot);
    if Opened(c.root, slot, output.newRoot).None? {
      SnapshotKeepsHead(c.root, slot, ApplyDiff(parent.value, c.recover(output.recoveryPayload).value.changes));
      if other != id { KeysDistinct(w.b.registry, other, id); }
    }
  }

  lemma {:induction false} SnapshotSlots(c: Codec, retention: nat, w: World, id: u32, output: Output)
    requires WorldOk(c, retention, w) && id in w.b.registry.byId
    requires SnapshotTaken(c, w.b, output, KeyOf(w.b, id)).Ok?
    ensures var b := SnapshotTaken(c, w.b, output, KeyOf(w.b, id)).value;
      && b == w.b.(slots := b.slots) && b.slots.Keys <= w.b.registry.byKey.Keys
      && (forall key :: key in b.slots ==> SlotOk(c.root, b.slots[key]))
  {
    hide SnapshotInserted, ServiceOk, Blank, SlotOk;
    var key := KeyOf(w.b, id);
    var slot := SlotOf(w.b.slots, key);
    SlotFacts(c, retention, w, key);
    if Opened(c.root, slot, output.newRoot).None? {
      var recovery := c.recover(output.recoveryPayload).value;
      SnapshotKeeps(c.root, slot, ApplyDiff(Opened(c.root, slot, output.parentRoot).value, recovery.changes));
    }
  }

  /** A best-chain snapshot moves no head. */
  lemma {:induction false} SnapshotKeepsWorld(c: Codec, retention: nat, w: World, id: u32, output: Output)
    requires WorldOk(c, retention, w) && CollisionFree(c.root) && id in w.b.registry.byId
    requires SnapshotTaken(c, w.b, output, KeyOf(w.b, id)).Ok?
    ensures var n := w.(b := SnapshotTaken(c, w.b, output, KeyOf(w.b, id)).value);
      && WorldOk(c, retention, n) && n.b.registry == w.b.registry
      && (forall other :: other in w.b.registry.byId ==> Untouched(c, w, n, other))
  {
    hide SnapshotTaken, ServiceOk, Blank, SlotOk, Untouched, CollisionFree, RegistryOk;
    var n := w.(b := SnapshotTaken(c, w.b, output, KeyOf(w.b, id)).value);
    SnapshotSlots(c, retention, w, id, output);
    forall other | other in w.b.registry.byId
      ensures Untouched(c, w, n, other) && ServiceOk(c, retention, n, other)
    {
      SnapshotSpares(c, retention, w, id, output, other);
      ReloadedIsOk(c, retention, w, n.b, other);
    }
  }

  /** Every step, a restart included, keeps memory and disk in agreement. */
  lemma {:induction false} StepKeeps(c: Codec, retention: nat, w: World, step: Step)
    requires WorldOk(c, retention, w) && CollisionFree(c.root)
    ensures WorldOk(c, retention, Apply(c, retention, w, step))
  {
    hide WorldOk, CollisionFree, RegisteredIn, AppliedRecovery, MaterializedIfCanonical, SnapshotTaken, Restored;
    match step
    case Register(record) => RegisterKeepsWorld(c, retention, w, record);
    case Track(work, output) => BookkeepingKeeps(c, retention, w, Tracked(w.b, work, output));
    case Observe(service, context) =>
      BookkeepingKeeps(c, retention, w, w.b.(contexts := w.b.contexts[service := context]));
    case Discard(work) => BookkeepingKeeps(c, retention, w, w.b.(pending := w.b.pending - {work}));
    case Recover(e, written) =>
      if AppliedRecovery(c, retention, w, e, written).Ok? { RecoverKeeps(c, retention, w, e, written); }
    case Materialize(work, canonical, written) =>
      if MaterializedIfCanonical(c, retention, w, work, canonical, written).Ok? {
        MaterializeKeeps(c, retention, w, work, canonical, written);
      }
    case Snapshot(service, output) =>
      if service in w.b.registry.byId && SnapshotTaken(c, w.b, output, KeyOf(w.b, service)).Ok? {
        SnapshotKeepsWorld(c, retention, w, service, output);
      }
    case Restart(ids) =>
      if w.db.Some? && ReadsAll(w, ids) { RestartRefines(c, retention, w, ids); }
  }

  const EMPTY_DB := Db(map[], map[], map[], map[])

  lemma {:induction false} InitialOk(c: Codec, retention: nat)
    requires retention > 0
    ensures WorldOk(c, retention, World(FRESH, Some(EMPTY_DB))) && WorldOk(c, retention, World(FRESH, None))
  {
    forall id: u32 ensures Blank(EMPTY_DB, id) {
    }
  }

  lemma {:induction false} StepNeverCorrupts(c: Codec, retention: nat, w: World, step: Step)
    requires WorldOk(c, retention, w) && CollisionFree(c.root) && w.b.corrupt == {}
    ensures Apply(c, retention, w, step).b.corrupt == {}
  {
    hide WorldOk, CollisionFree, CommittedRecovery, Registered, Restored, SnapshotInserted;
    match step
    case Register(_) =>
    case Track(_, _) =>
    case Observe(_, _) =>
    case Discard(_) =>
    case Recover(e, written) =>
      CommitFrame(c, retention, w, e.service, e.key, e.output, written);
    case Materialize(work, canonical, written) =>
      if work in w.b.pending && work.service in w.b.registry.byId {
        CommitFrame(c, retention, w, work.service, KeyOf(w.b, work.service), w.b.pending[work], written);
      }
    case Snapshot(_, _) =>
    case Restart(ids) =>
      if w.db.Some? && ReadsAll(w, ids) { RestartRefines(c, retention, w, ids); }
  }

  /** Reading a database back: nothing is corrupt and no service has moved. */
  ghost predicate ReadsBack(c: Codec, w: World, ids: seq<u32>) {
    w.db.Some? &&
    var r := Restored(c, w.db.value, ids);
    && r.Ok? && r.value.corrupt == {} && r.value.registry == w.b.registry
    && (forall id :: id in w.b.registry.byId ==> Untouched(c, w, World(r.value, w.db), id))
  }

  /** Over every run from an empty database: durable and in-memory state agree, each service's journal is
      exactly the window of the last transitions up to its head, no service is ever marked corrupt, and
      one more restart finds every service where it stood. */
  lemma {:induction false} RunKeeps(c: Codec, retention: nat, steps: seq<Step>, ids: seq<u32>)
    requires retention > 0 && CollisionFree(c.root)
    ensures var w := Run(c, retention, World(FRESH, Some(EMPTY_DB)), steps);
      && WorldOk(c, retention, w) && w.b.corrupt == {} && w.db.Some?
      && (ReadsAll(w, ids) ==> ReadsBack(c, w, ids))
    ensures var w := Run(c, retention, World(FRESH, None), steps);
      WorldOk(c, retention, w) && w.b.corrupt == {}
  {
    hide WorldOk, CollisionFree, Apply, Restored, Untouched;
    if steps == [] {
      InitialOk(c, retention);
    } else {
      var init, step := steps[..|steps| - 1], steps[|steps| - 1];
      RunKeeps(c, retention, init, ids);
      var w, v := Run(c, retention, World(FRESH, Some(EMPTY_DB)), init), Run(c, retention, World(FRESH, None), init);
      StepKeeps(c, retention, w, step);
      StepKeeps(c, retention, v, step);
      StepNeverCorrupts(c, retention, w, step);
      StepNeverCorrupts(c, retention, v, step);
      StepKeepsDb(c, retention, w, step);
    }
    var w := Run(c, retention, World(FRESH, Some(EMPTY_DB)), steps);
    if ReadsAll(w, ids) {
      RestartRefines(c, retention, w, ids);
    }
  }

  lemma {:induction false} StepKeepsDb(c: Codec, retention: nat, w: World, step: Step)
    ensures Apply(c, retention, w, step).db.Some? <==> w.db.Some?
  {
    hide Follow, Registered, Restored, SnapshotTaken, Committed, Inserted;
  }
}
