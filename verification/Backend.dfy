/** Which chain service a key belongs to. */
module Registries {
  import opened Wrappers
  import opened Bytes
  import opened Outputs
  import opened Provider

  datatype Record = Record(service: u32, key: ServiceKey, codeHash: Root, artifact: seq<byte>)

  datatype RegistryError = ServiceIdAlreadyBound | ServiceKeyAlreadyBound | ServiceIdKeyMismatch

  datatype Registry = Registry(byId: map<u32, Record>, byKey: map<ServiceKey, u32>)

  const NO_SERVICES := Registry(map[], map[])

  function Registered(r: Registry, record: Record): Result<Registry, RegistryError> {
    if record.service in r.byId then
      if r.byId[record.service].key != record.key then Err(ServiceIdAlreadyBound)
      else Ok(r.(byId := r.byId[record.service := record]))
    else if record.key in r.byKey then
      Err(if r.byKey[record.key] != record.service then ServiceKeyAlreadyBound else ServiceIdKeyMismatch)
    else Ok(Registry(r.byId[record.service := record], r.byKey[record.key := record.service]))
  }

  class ServiceRegistry {
    var byId: map<u32, Record>
    var byKey: map<ServiceKey, u32>

    function Now(): Registry
      reads this
    {
      Registry(byId, byKey)
    }

    constructor ()
      ensures Now() == NO_SERVICES
    {
      byId, byKey := map[], map[];
    }

    method Register(record: Record) returns (error: Option<RegistryError>)
      modifies this
      ensures match Registered(old(Now()), record)
        case Ok(n) => error == None && Now() == n
        case Err(e) => error == Some(e) && Now() == old(Now())
    {
      if record.service in byId {
        if byId[record.service].key != record.key {
          return Some(ServiceIdAlreadyBound);
        }
        byId := byId[record.service := record];
        return None;
      }
      if record.key in byKey {
        if byKey[record.key] != record.service {
          return Some(ServiceKeyAlreadyBound);
        }
        return Some(ServiceIdKeyMismatch);
      }
      byKey := byKey[record.key := record.service];
      byId := byId[record.service := record];
      return None;
    }
  }

  /** Ids and keys are in bijection. */
  ghost predicate RegistryOk(r: Registry) {
    && (forall id :: id in r.byId ==>
          r.byId[id].service == id && r.byId[id].key in r.byKey && r.byKey[r.byId[id].key] == id)
    && (forall key :: key in r.byKey ==> r.byKey[key] in r.byId && r.byId[r.byKey[key]].key == key)
  }

  /** Registration keeps the bijection, never rebinds an id or a key, and fails exactly when it would. */
  lemma {:induction false} RegisterKeeps(r: Registry, record: Record)
    requires RegistryOk(r)
    ensures match Registered(r, record)
      case Ok(n) =>
        && RegistryOk(n) && n.byId == r.byId[record.service := record]
        && (forall id :: id in r.byId ==> n.byId[id].key == r.byId[id].key)
        && (forall key :: key in r.byKey ==> key in n.byKey && n.byKey[key] == r.byKey[key])
      case Err(e) =>
        && e != ServiceIdKeyMismatch
        && (e == ServiceIdAlreadyBound <==> record.service in r.byId && r.byId[record.service].key != record.key)
        && (e == ServiceKeyAlreadyBound <==>
              record.service !in r.byId && record.key in r.byKey && r.byKey[record.key] != record.service)
  {
  }

  /** Two services never share a key. */
  lemma {:induction false} KeysDistinct(r: Registry, a: u32, b: u32)
    requires RegistryOk(r) && a in r.byId && b in r.byId && a != b
    ensures r.byId[a].key != r.byId[b].key
  {
  }
}

/** `BackendDatabase`: registry, heads, state rows and the transition journal in one store. */
module Database {
  import opened Wrappers
  import opened Bytes
  import opened Outputs
  import opened StateRows
  import opened Provider
  import opened Registries

  const SCHEMA_VERSION := 1

  datatype Context = Context(blockHash: Root, blockNumber: u32, stateRoot: Root, slot: u32)

  /** The stored head; an inner `None` is a field that does not parse. */
  datatype HeadRow = Garbage | HeadRow(
    version: nat, service: u32, key: Option<ServiceKey>, sequence: u64, root: Option<Root>,
    blockHash: Option<Option<Root>>, blockNumber: Option<u32>, slot: Option<u32>)

  datatype Envelope = Envelope(service: u32, key: ServiceKey, output: Output)

  /** A stored service record: not decodable, of another schema version, or a record. */
  datatype ServiceRow = Unreadable | OtherSchema | Stored(record: Record)

  /** The rows of a registry that was persisted record by record. */
  function RowsOf(records: map<u32, Record>): map<u32, ServiceRow> {
    map id | id in records :: Stored(records[id])
  }

  datatype Db = Db(
    services: map<u32, ServiceRow>, heads: map<Key, HeadRow>, rows: Managed, transitions: map<Key, Envelope>)

  datatype LoadError = SchemaMismatch | StateCorrupt(service: u32)

  datatype Loaded = Loaded(sequence: u64, root: Root, state: Managed, context: Option<Context>)

  /** Thirty-two zero bytes. */
  const ZERO_ROOT: Root := LE(0, 32)

  function TransitionKey(service: u32, sequence: u64): Key {
    BE(service, 4) + BE(sequence, 8)
  }

  lemma {:induction false} TransitionKeyInjective(a: u32, m: u64, b: u32, n: u64)
    ensures TransitionKey(a, m) == TransitionKey(b, n) <==> a == b && m == n
  {
    if TransitionKey(a, m) == TransitionKey(b, n) {
      assert TransitionKey(a, m)[..4] == BE(a, 4) && TransitionKey(b, n)[..4] == BE(b, 4);
      assert TransitionKey(a, m)[4..] == BE(m, 8) && TransitionKey(b, n)[4..] == BE(n, 8);
      Pow256Values();
      BEInjective(a, b, 4);
      BEInjective(m, n, 8);
    }
  }

  function HeadFor(service: u32, key: ServiceKey, sequence: u64, root: Root, context: Option<Context>): HeadRow {
    HeadRow(SCHEMA_VERSION, service, Some(key), sequence, Some(root),
            if context.Some? then Some(Some(context.value.blockHash)) else None,
            if context.Some? then Some(context.value.blockNumber) else None,
            if context.Some? then Some(context.value.slot) else None)
  }

  /** The write batch of one finalized transition. */
  function Committed(db: Db, retention: nat, service: u32, key: ServiceKey, sequence: u64, output: Output,
                     changes: seq<Change>, context: Option<Context>): Db
  {
    var put := db.transitions[TransitionKey(service, sequence) := Envelope(service, key, output)];
    db.(rows := ApplyRows(db.rows, Prefix(service), changes),
        heads := db.heads[Prefix(service) := HeadFor(service, key, sequence, output.newRoot, context)],
        transitions := if sequence > retention then put - {TransitionKey(service, sequence - retention)} else put)
  }

  /** The head row as read back, with its context; the block's state root is not stored. */
  function ReadHead(row: HeadRow, service: u32, key: ServiceKey): Result<(u64, Root, Option<Context>), LoadError> {
    if row.Garbage? then Err(StateCorrupt(service))
    else if row.version != SCHEMA_VERSION then Err(SchemaMismatch)
    else if row.key != Some(key) || row.service != service then Err(StateCorrupt(service))
    else
      var context: Result<Option<Context>, LoadError> :=
        match (row.blockHash, row.blockNumber, row.slot)
        case (Some(Some(hash)), Some(number), Some(slot)) => Ok(Some(Context(hash, number, ZERO_ROOT, slot)))
        case (None, None, None) => Ok(None)
        case _ => Err(StateCorrupt(service));
      if context.Err? then Err(context.error)
      else if row.root.None? then Err(StateCorrupt(service))
      else Ok((row.sequence, row.root.value, context.value))
  }

  function Loads(db: Db, root: RootFn, service: u32, key: ServiceKey): Result<Loaded, LoadError> {
    var head := if Prefix(service) in db.heads then ReadHead(db.heads[Prefix(service)], service, key)
                else Ok((0, root(map[]), None));
    if head.Err? then Err(head.error)
    else
      var state := View(db.rows, Prefix(service));
      if root(state) != head.value.1 then Err(StateCorrupt(service))
      else Ok(Loaded(head.value.0, head.value.1, state, head.value.2))
  }

  class BackendDatabase {
    const retention: nat
    var services: map<u32, ServiceRow>
    var heads: map<Key, HeadRow>
    var rows: Managed
    var transitions: map<Key, Envelope>

    function Now(): Db
      reads this
    {
      Db(services, heads, rows, transitions)
    }

    /** A missing or zero retention setting means 4096. */
    constructor (setting: nat)
      ensures retention > 0 && (setting > 0 ==> retention == setting)
      ensures Now() == Db(map[], map[], map[], map[])
    {
      retention := if setting > 0 then setting else 4096;
      services, heads, rows, transitions := map[], map[], map[], map[];
    }

    method PersistService(record: Record)
      modifies `services
      ensures Now() == old(Now()).(services := old(services)[record.service := Stored(record)])
    {
      services := services[record.service := Stored(record)];
    }

    method LoadServiceSnapshot(root: RootFn, service: u32, key: ServiceKey, scan: seq<Key>)
      returns (r: Result<Loaded, LoadError>)
      requires IsScan(rows, Prefix(service), scan)
      ensures r == Loads(Now(), root, service, key)
    {
      hide View, IsScan;
      var sequence, at, context: Option<Context> := 0, root(map[]), None;
      if Prefix(service) in heads {
        var head := ReadHead(heads[Prefix(service)], service, key);
        if head.Err? {
          return Err(head.error);
        }
        sequence, at, context := head.value.0, head.value.1, head.value.2;
      }
      var state := ScanPrefix(rows, Prefix(service), scan);
      if root(state) != at {
        return Err(StateCorrupt(service));
      }
      return Ok(Loaded(sequence, at, state, context));
    }

    /** One synced write batch: `written` says whether the store took it; if not, nothing changed. */
    method CommitTransition(service: u32, key: ServiceKey, sequence: u64, output: Output, changes: seq<Change>,
                            context: Option<Context>, written: bool)
      modifies `heads, `rows, `transitions
      ensures written ==>
        Now() == Committed(old(Now()), retention, service, key, sequence, output, changes, context)
      ensures !written ==> Now() == old(Now())
    {
      var put := rows;
      var k := 0;
      while k < |changes|
        invariant 0 <= k <= |changes|
        invariant put == ApplyRows(rows, Prefix(service), changes[..k])
      {
        assert changes[..k + 1][..k] == changes[..k];
        var at := Prefix(service) + changes[k].key;
        if changes[k].value.Some? {
          put := put[at := changes[k].value.value];
        } else {
          put := put - {at};
        }
        k := k + 1;
      }
      assert changes[..k] == changes;
      if written {
        rows := put;
        heads := heads[Prefix(service) := HeadFor(service, key, sequence, output.newRoot, context)];
        transitions := transitions[TransitionKey(service, sequence) := Envelope(service, key, output)];
        if sequence > retention {
          transitions := transitions - {TransitionKey(service, sequence - retention)};
        }
      }
    }
  }

  /** A written head reads back as it was, except for the block's state root. */
  lemma {:induction false} HeadReadsBack(service: u32, key: ServiceKey, sequence: u64, root: Root,
                                         context: Option<Context>)
    ensures ReadHead(HeadFor(service, key, sequence, root, context), service, key) ==
      Ok((sequence, root, if context.Some? then Some(context.value.(stateRoot := ZERO_ROOT)) else None))
  {
  }
}
