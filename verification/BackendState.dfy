/** `BackendState`: the registry, the provider's heads and what is pending, over an optional database. */
module BackendStates {
  import opened Wrappers
  import opened Bytes
  import opened Outputs
  import opened StateRows
  import opened Provider
  import opened Registries
  import opened Database

  datatype WorkKey = WorkKey(service: u32, hash: Root)

  /** A decoded recovery payload and the hash of its re-encoding. */
  datatype Recovery = Recovery(changes: seq<Change>, commitment: Root)

  /** The trie root and the recovery payload decoder; neither is interpreted further. */
  datatype Codec = Codec(root: RootFn, recover: seq<byte> -> Option<Recovery>)

  datatype BackendError =
    | UnknownService | ServiceKeyMismatch | ServiceCorrupt(service: u32)
    | RecoveryNotCanonical | InvalidEnvelope | UnavailableRoot | EntryTooLarge | TruncatedLog
    | DatabaseFailed | PredictionStale | Wire

  datatype Backend = Backend(
    registry: Registry,
    slots: map<ServiceKey, Slot>,
    pending: map<WorkKey, Output>,
    predictions: map<WorkKey, Output>,
    finalized: set<WorkKey>,
    sequences: map<u32, u64>,
    contexts: map<u32, Context>,
    corrupt: set<u32>)

  datatype World = World(b: Backend, db: Option<Db>)

  const FRESH := Backend(NO_SERVICES, map[], map[], map[], {}, map[], map[], {})

  function SequenceOf(b: Backend, service: u32): u64 {
    if service in b.sequences then b.sequences[service] else 0
  }

  function ContextOf(b: Backend, service: u32): Option<Context> {
    if service in b.contexts then Some(b.contexts[service]) else None
  }

  /** The state an output leads to from a slot's head, and the changes, or why it is refused. */
  function Follow(c: Codec, slot: Slot, output: Output): Result<(Managed, seq<Change>), BackendError> {
    if Head(c.root, slot) != output.parentRoot then Err(RecoveryNotCanonical)
    else if c.recover(output.recoveryPayload).None? then Err(InvalidEnvelope)
    else
      var recovery := c.recover(output.recoveryPayload).value;
      if recovery.commitment != output.recoveryCommitment then Err(InvalidEnvelope)
      else
        var current := Opened(c.root, slot, Head(c.root, slot));
        if current.None? then Err(UnavailableRoot)
        else
          var next := ApplyDiff(current.value, recovery.changes);
          if c.root(next) != output.newRoot then Err(InvalidEnvelope) else Ok((next, recovery.changes))
  }

  /** `commit_recovery`; `written` says whether the database takes the write batch. */
  function CommittedRecovery(c: Codec, retention: nat, w: World, service: u32, key: ServiceKey, output: Output,
                             written: bool): Result<World, BackendError>
  {
    if service in w.b.corrupt then Err(ServiceCorrupt(service))
    else
      var next := Follow(c, SlotOf(w.b.slots, key), output);
      if next.Err? then Err(next.error)
      else if SequenceOf(w.b, service) == U64_MAX then Err(EntryTooLarge)
      else if w.db.Some? && !written then Err(DatabaseFailed)
      else
        var sequence := SequenceOf(w.b, service) + 1;
        Ok(World(
          w.b.(slots := w.b.slots[key := Inserted(c.root, SlotOf(w.b.slots, key), next.value.0)],
               sequences := w.b.sequences[service := sequence]),
          if w.db.Some? then
            Some(Committed(w.db.value, retention, service, key, sequence, output, next.value.1, ContextOf(w.b,
              service)))
          else None))
  }

  function AppliedRecovery(c: Codec, retention: nat, w: World, e: Envelope, written: bool): Result<World,
                           BackendError> {
    if e.service !in w.b.registry.byId then Err(UnknownService)
    else if w.b.registry.byId[e.service].key != e.key then Err(ServiceKeyMismatch)
    else CommittedRecovery(c, retention, w, e.service, e.key, e.output, written)
  }

  function Tracked(b: Backend, key: WorkKey, output: Output): Backend {
    b.(finalized := b.finalized - {key},
       pending := b.pending[key := output],
       predictions := b.predictions[key := output])
  }

  /** `materialize_if_canonical`. */
  function MaterializedIfCanonical(c: Codec, retention: nat, w: World, key: WorkKey, canonical: Root, written: bool)
    : Result<(World, bool), BackendError>
  {
    if key !in w.b.pending || canonical != w.b.pending[key].newRoot then Ok((w, false))
    else if key.service !in w.b.registry.byId then Err(UnknownService)
    else
      var r := CommittedRecovery(c, retention, w, key.service, w.b.registry.byId[key.service].key,
                                 w.b.pending[key], written);
      if r.Err? then Err(r.error)
      else
        Ok((r.value.(b := r.value.b.(pending := r.value.b.pending - {key}, finalized := r.value.b.finalized + {key})),
            true))
  }

  /** A prediction for the service that ends at `root`, if one is tracked. */
  ghost predicate Finds(b: Backend, service: u32, root: Root, found: Option<WorkKey>) {
    match found
    case Some(key) => key in b.predictions && key.service == service && b.predictions[key].newRoot == root
    case None => forall key :: key in b.predictions && key.service == service ==> b.predictions[key].newRoot != root
  }

  /** `materialize_prediction_snapshot` once the prediction is found: checked like a commit, but from the
      prediction's own parent root, and stored without moving the head. */
  function SnapshotTaken(c: Codec, b: Backend, output: Output, key: ServiceKey): Result<Backend, BackendError> {
    var slot := SlotOf(b.slots, key);
    if Opened(c.root, slot, output.newRoot).Some? then Ok(b)
    else if c.recover(output.recoveryPayload).None? then Err(InvalidEnvelope)
    else
      var recovery := c.recover(output.recoveryPayload).value;
      if recovery.commitment != output.recoveryCommitment then Err(InvalidEnvelope)
      else if Opened(c.root, slot, output.parentRoot).None? then Err(UnavailableRoot)
      else
        var next := ApplyDiff(Opened(c.root, slot, output.parentRoot).value, recovery.changes);
        if c.root(next) != output.newRoot then Err(InvalidEnvelope)
        else Ok(b.(slots := b.slots[key := SnapshotInserted(c.root, slot, next)]))
  }

  class BackendState {
    const codec: Codec
    const registry: ServiceRegistry
    const provider: FullStateProvider
    const database: BackendDatabase?
    var pending: map<WorkKey, Output>
    var predictions: map<WorkKey, Output>
    var finalized: set<WorkKey>
    var sequences: map<u32, u64>
    var contexts: map<u32, Context>
    var corrupt: set<u32>

    constructor (codec: Codec, database: BackendDatabase?)
      ensures Valid() && this.codec == codec && this.database == database
      ensures fresh(registry) && fresh(provider)
      ensures Now() == World(FRESH, if database == null then None else Some(database.Now()))
    {
      this.codec, this.database := codec, database;
      registry := new ServiceRegistry();
      provider := new FullStateProvider(codec.root);
      pending, predictions, finalized := map[], map[], {};
      sequences, contexts, corrupt := map[], map[], {};
    }

    ghost predicate Valid() { provider.root == codec.root }

    function Retention(): nat {
      if database == null then 0 else database.retention
    }

    function Now(): World
      reads this, registry, provider, database
    {
      World(Backend(registry.Now(), provider.slots, pending, predictions, finalized, sequences, contexts, corrupt),
            if database == null then None else Some(database.Now()))
    }

    method CurrentRoot(service: u32) returns (r: Result<Root, BackendError>)
      requires Valid()
      ensures r.Ok? <==> service in registry.byId && service !in corrupt
      ensures r.Ok? ==> r.value == Head(codec.root, SlotOf(provider.slots, registry.byId[service].key))
      ensures service in corrupt ==> r == Err(ServiceCorrupt(service))
    {
      if service in corrupt {
        return Err(ServiceCorrupt(service));
      }
      if service !in registry.byId {
        return Err(UnknownService);
      }
      return Ok(Head(codec.root, SlotOf(provider.slots, registry.byId[service].key)));
    }

    method TrackPrediction(key: WorkKey, output: Output) returns (error: Option<BackendError>)
      modifies this
      ensures error.None? <==> key.service in registry.byId
      ensures error.None? ==> Now() == old(Now()).(b := Tracked(old(Now()).b, key, output))
      ensures error.Some? ==> Now() == old(Now())
    {
      if key.service !in registry.byId {
        return Some(UnknownService);
      }
      finalized := finalized - {key};
      pending := pending[key := output];
      predictions := predictions[key := output];
      return None;
    }

    /** `found` is the prediction the search over the tracked ones yields. */
    method MaterializePredictionSnapshot(service: u32, root: Root, found: Option<WorkKey>)
      returns (r: Result<bool, BackendError>)
      requires Valid() && Finds(Now().b, service, root, found)
      modifies provider
      ensures found.None? ==> r == Ok(false) && Now() == old(Now())
      ensures found.Some? && service !in registry.byId ==> r == Err(UnknownService) && Now() == old(Now())
      ensures found.Some? && service in registry.byId ==>
        match SnapshotTaken(codec, old(Now()).b, predictions[found.value], registry.byId[service].key)
        case Ok(b) => r == Ok(true) && Now() == old(Now()).(b := b)
        case Err(e) => r == Err(e) && Now() == old(Now())
    {
      hide SnapshotInserted;
      if found.None? {
        return Ok(false);
      }
      var output := predictions[found.value];
      if service !in registry.byId {
        return Err(UnknownService);
      }
      var key := registry.byId[service].key;
      var slot := SlotOf(provider.slots, key);
      if Opened(codec.root, slot, root).Some? {
        return Ok(true);
      }
      var recovery := codec.recover(output.recoveryPayload);
      if recovery.None? || recovery.value.commitment != output.recoveryCommitment {
        return Err(InvalidEnvelope);
      }
      var parent := Opened(codec.root, slot, output.parentRoot);
      if parent.None? {
        return Err(UnavailableRoot);
      }
      var next := ApplyDiff(parent.value, recovery.value.changes);
      if codec.root(next) != output.newRoot {
        return Err(InvalidEnvelope);
      }
      var at := provider.InsertSnapshot(key, next);
      return Ok(true);
    }

    /** Checks first, then the durable write, then memory: an error leaves everything as it was. */
    method CommitRecovery(service: u32, key: ServiceKey, output: Output, written: bool)
      returns (error: Option<BackendError>)
      requires Valid()
      modifies this, provider, database
      ensures match CommittedRecovery(codec, Retention(), old(Now()), service, key, output, written)
        case Ok(w) => error == None && Now() == w
        case Err(e) => error == Some(e) && Now() == old(Now())
    {
      hide Inserted, Committed, ApplyDiff, Opened, Head;
      if service in corrupt {
        return Some(ServiceCorrupt(service));
      }
      var slot := SlotOf(provider.slots, key);
      var currentRoot := Head(codec.root, slot);
      if currentRoot != output.parentRoot {
        return Some(RecoveryNotCanonical);
      }
      var recovery := codec.recover(output.recoveryPayload);
      if recovery.None? || recovery.value.commitment != output.recoveryCommitment {
        return Some(InvalidEnvelope);
      }
      var current := Opened(codec.root, slot, currentRoot);
      if current.None? {
        return Some(UnavailableRoot);
      }
      var next := ApplyDiff(current.value, recovery.value.changes);
      if codec.root(next) != output.newRoot {
        return Some(InvalidEnvelope);
      }
      var sequence := if service in sequences then sequences[service] else 0;
      if sequence == U64_MAX {
        return Some(EntryTooLarge);
      }
      if database != null {
        database.CommitTransition(service, key, sequence + 1, output, recovery.value.changes,
                                  if service in contexts then Some(contexts[service]) else None, written);
        if !written {
          return Some(DatabaseFailed);
        }
      }
      var root := provider.Insert(key, next);
      sequences := sequences[service := sequence + 1];
      return None;
    }

    method ApplyRecovery(e: Envelope, written: bool) returns (error: Option<BackendError>)
      requires Valid()
      modifies this, provider, database
      ensures match AppliedRecovery(codec, Retention(), old(Now()), e, written)
        case Ok(w) => error == None && Now() == w
        case Err(x) => error == Some(x) && Now() == old(Now())
    {
      hide CommittedRecovery;
      if e.service !in registry.byId {
        return Some(UnknownService);
      }
      if registry.byId[e.service].key != e.key {
        return Some(ServiceKeyMismatch);
      }
      error := CommitRecovery(e.service, e.key, e.output, written);
    }

    method MaterializeIfCanonical(key: WorkKey, canonical: Root, written: bool)
      returns (r: Result<bool, BackendError>)
      requires Valid()
      modifies this, provider, database
      ensures match MaterializedIfCanonical(codec, Retention(), old(Now()), key, canonical, written)
        case Ok((w, done)) => r == Ok(done) && Now() == w
        case Err(e) => r == Err(e) && Now() == old(Now())
    {
      hide CommittedRecovery;
      if key !in pending {
        return Ok(false);
      }
      var output := pending[key];
      if canonical != output.newRoot {
        return Ok(false);
      }
      if key.service !in registry.byId {
        return Err(UnknownService);
      }
      var error := CommitRecovery(key.service, registry.byId[key.service].key, output, written);
      if error.Some? {
        return Err(error.value);
      }
      ghost var mid := Now();
      pending := pending - {key};
      finalized := finalized + {key};
      assert mid.b.pending == old(pending) by { CommitFrame(codec, Retention(), old(Now()), key.service,
        registry.byId[key.service].key, output, written); }
      return Ok(true);
    }
  }

  /** `load_registry`: rows that do not decode or whose record does not register are corrupt; a row of
      another schema stops everything. */
  function LoadedRegistry(services: map<u32, ServiceRow>, ids: seq<u32>): Result<(Registry, set<u32>), LoadError> {
    if ids == [] then Ok((NO_SERVICES, {}))
    else
      var init := LoadedRegistry(services, ids[..|ids| - 1]);
      var id := ids[|ids| - 1];
      if init.Err? || id !in services then init
      else
        var (r, bad) := init.value;
        match services[id]
        case OtherSchema => Err(SchemaMismatch)
        case Unreadable => Ok((r, bad + {id}))
        case Stored(record) =>
          if record.service != id || Registered(r, record).Err? then Ok((r, bad + {id}))
          else Ok((Registered(r, record).value, bad))
  }

  /** What one loaded service adds to the state. */
  function WithLoaded(c: Codec, b: Backend, id: u32, key: ServiceKey, l: Loaded): Backend {
    b.(slots := b.slots[key := Inserted(c.root, SlotOf(b.slots, key), l.state)],
       sequences := b.sequences[id := l.sequence],
       contexts := if l.context.Some? then b.contexts[id := l.context.value] else b.contexts)
  }

  /** The second pass of `from_database`: every registered service's snapshot. */
  function LoadedServices(c: Codec, db: Db, b: Backend, ids: seq<u32>): Result<Backend, LoadError> {
    if ids == [] then Ok(b)
    else
      var r := LoadedServices(c, db, b, ids[..|ids| - 1]);
      var id := ids[|ids| - 1];
      if r.Err? || id !in r.value.registry.byId then r
      else
        var key := r.value.registry.byId[id].key;
        match Loads(db, c.root, id, key)
        case Ok(l) => Ok(WithLoaded(c, r.value, id, key, l))
        case Err(StateCorrupt(s)) => Ok(r.value.(corrupt := r.value.corrupt + {s}))
        case Err(SchemaMismatch) => Err(SchemaMismatch)
  }

  function Restored(c: Codec, db: Db, ids: seq<u32>): Result<Backend, LoadError> {
    var loaded := LoadedRegistry(db.services, ids);
    if loaded.Err? then Err(loaded.error)
    else LoadedServices(c, db, FRESH.(registry := loaded.value.0, corrupt := loaded.value.1), ids)
  }

  method LoadRegistry(services: map<u32, ServiceRow>, ids: seq<u32>, registry: ServiceRegistry)
    returns (result: Result<set<u32>, LoadError>)
    requires registry.Now() == NO_SERVICES
    modifies registry
    ensures match LoadedRegistry(services, ids)
      case Ok((r, bad)) => result == Ok(bad) && registry.Now() == r
      case Err(e) => result == Err(e)
  {
    hide Registered;
    var bad := {};
    var k := 0;
    while k < |ids|
      invariant 0 <= k <= |ids|
      invariant LoadedRegistry(services, ids[..k]) == Ok((registry.Now(), bad))
    {
      assert ids[..k + 1][..k] == ids[..k];
      var id := ids[k];
      k := k + 1;
      if id !in services { continue; }
      match services[id] {
        case OtherSchema =>
          RegistryStops(services, ids, k);
          return Err(SchemaMismatch);
        case Unreadable =>
          bad := bad + {id};
        case Stored(record) =>
          if record.service != id {
            bad := bad + {id};
            continue;
          }
          var error := registry.Register(record);
          if error.Some? {
            bad := bad + {id};
          }
      }
    }
    assert ids[..k] == ids;
    return Ok(bad);
  }

  lemma {:induction false} RegistryStops(services: map<u32, ServiceRow>, ids: seq<u32>, k: nat)
    requires k <= |ids| && LoadedRegistry(services, ids[..k]) == Err(SchemaMismatch)
    ensures LoadedRegistry(services, ids) == Err(SchemaMismatch)
  {
    if k == |ids| {
      assert ids[..k] == ids;
    } else {
      assert ids[..|ids| - 1][..k] == ids[..k];
      RegistryStops(services, ids[..|ids| - 1], k);
    }
  }

  /** `from_database`; `ids` is the order of the service rows and `scans` what the iterator yields. */
  method FromDatabase(codec: Codec, database: BackendDatabase, ids: seq<u32>, scans: u32 -> seq<Key>)
    returns (r: Result<BackendState, LoadError>)
    requires forall id: u32 :: IsScan(database.rows, Prefix(id), scans(id))
    ensures match Restored(codec, database.Now(), ids)
      case Ok(b) =>
        && r.Ok? && fresh(r.value) && r.value.Valid() && r.value.database == database
        && r.value.Now() == World(b, Some(database.Now()))
      case Err(e) => r == Err(e)
  {
    hide IsScan, LoadedRegistry, Loads;
    var state := new BackendState(codec, database);
    var bad := LoadRegistry(database.services, ids, state.registry);
    if bad.Err? {
      return Err(bad.error);
    }
    state.corrupt := bad.value;
    ghost var start := state.Now().b;
    ghost var db := database.Now();
    var k := 0;
    while k < |ids|
      invariant 0 <= k <= |ids|
      invariant database.Now() == db && state.Valid() && fresh(state.provider) && fresh(state.registry)
      invariant LoadedServices(codec, db, start, ids[..k]) == Ok(state.Now().b)
    {
      assert ids[..k + 1][..k] == ids[..k];
      var id := ids[k];
      k := k + 1;
      if id !in state.registry.byId { continue; }
      var key := state.registry.byId[id].key;
      var loaded := database.LoadServiceSnapshot(codec.root, id, key, scans(id));
      match loaded {
        case Ok(l) =>
          var root := state.provider.Insert(key, l.state);
          state.sequences := state.sequences[id := l.sequence];
          if l.context.Some? {
            state.contexts := state.contexts[id := l.context.value];
          }
        case Err(StateCorrupt(s)) =>
          state.corrupt := state.corrupt + {s};
        case Err(SchemaMismatch) =>
          SchemaStops(codec, db, start, ids, k);
          return Err(SchemaMismatch);
      }
    }
    assert ids[..k] == ids;
    return Ok(state);
  }

  lemma {:induction false} SchemaStops(c: Codec, db: Db, b: Backend, ids: seq<u32>, k: nat)
    requires k <= |ids| && LoadedServices(c, db, b, ids[..k]) == Err(SchemaMismatch)
    ensures LoadedServices(c, db, b, ids) == Err(SchemaMismatch)
  {
    if k == |ids| {
      assert ids[..k] == ids;
    } else {
      assert ids[..|ids| - 1][..k] == ids[..k];
      SchemaStops(c, db, b, ids[..|ids| - 1], k);
    }
  }

  lemma {:induction false} CommitFrame(c: Codec, retention: nat, w: World, service: u32, key: ServiceKey,
                                       output: Output,
                                       written: bool)
    ensures var r := CommittedRecovery(c, retention, w, service, key, output, written);
      r.Ok? ==>
        && r.value.b == w.b.(slots := r.value.b.slots, sequences := r.value.b.sequences)
        && (r.value.db.Some? <==> w.db.Some?)
        && (w.db.Some? ==> r.value.db.value.services == w.db.value.services)
  {
  }
}
