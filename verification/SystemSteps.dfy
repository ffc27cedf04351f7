/** Steps of the chain and of the backend, registration and restart. */
module SystemSteps {
  import opened Wrappers
  import opened Bytes
  import opened Outputs
  import opened Provider
  import opened Registries
  import opened Database
  import opened BackendStates
  import opened BackendLaws
  import opened Systems
  import opened SystemLaws
  import Coordination
  import CoordinatorLaws
  import CoordinatorRuns
  import BackendRuns
  import Accumulate

  // ----- the chain moves -----

  /** `n` is `s` with one package's fate changed and its service's commitment possibly moved. */
  ghost predicate Moves(s: Sys, n: Sys, hash: Root) {
    && hash in s.net.works && hash in n.net.works
    && n == s.(net := n.net)
    && n.net.works == s.net.works[hash := n.net.works[hash]]
    && n.net.works[hash] ==
         s.net.works[hash].(accumulated := n.net.works[hash].accumulated, failed := n.net.works[hash].failed)
    && !(n.net.works[hash].accumulated && n.net.works[hash].failed)
    && (s.net.works[hash].failed ==> n.net.works[hash].failed)
    && !Live(n, hash)
  }

  lemma {:induction false} MoveBooks(s: Sys, n: Sys, hash: Root)
    requires Books(s) && Moves(s, n, hash)
    ensures Books(n)
  {
    hide Awaited, Live;
    assert forall h: Root, b: u64 :: Of(n, h, b) <==> Of(s, h, b);
    forall h | h in n.net.works ensures WorkOk(n, h) { assert WorkOk(s, h); }
    forall b | b in n.submitting ensures SubmittingOk(n, b) { assert SubmittingOk(s, b); }
    forall b | b in n.coord.batches ensures PackagedOk(n, b) { assert PackagedOk(s, b); }
    forall key | key in n.world.b.pending ensures PendingOk(n, key) { assert PendingOk(s, key); }
    forall key | key in n.world.b.predictions ensures PredictedOk(n, key) { assert PredictedOk(s, key); }
  }

  lemma {:induction false} MoveFrame(s: Sys, n: Sys, hash: Root)
    requires Moves(s, n, hash)
    ensures n.world == s.world && n.coord == s.coord
    ensures forall h: Root, b: u64 :: Of(n, h, b) <==> Of(s, h, b)
    ensures forall h :: Live(n, h) ==> Live(s, h)
    ensures forall h :: h in s.net.works <==> h in n.net.works
    ensures forall h :: h in s.net.works ==> n.net.works[h].service == s.net.works[h].service && Fin(n, h) == Fin(s, h)
    ensures forall h :: h in s.net.works && h != hash ==> n.net.works[h] == s.net.works[h]
    ensures hash in s.net.works
  {
  }

  /** The commitment of a service may move only with the package of its lane. */
  lemma {:induction false} MoveLink(s: Sys, n: Sys, hash: Root, service: u32, head: Root, chain: Root, next: Root)
    requires Moves(s, n, hash) && LinkOk(s, service, head, chain) && OneWorkEach(s)
    requires Lane(s, service).Some? && Of(s, hash, Lane(s, service).value) ==>
      hash in n.net.works && Placed(n.net.works[hash], Fin(n, hash), head, next)
    requires !(Lane(s, service).Some? && Of(s, hash, Lane(s, service).value)) ==> next == chain
    ensures LinkOk(n, service, head, next)
  {
    hide Moves, Placed, Live, Of, Fin;
    MoveFrame(s, n, hash);
    LiveIsWork(n);
    LiveIsWork(s);
    OfIsWork(n);
    OfIsWork(s);
  }

  /** What the invariant says about a package's service, without the invariant. */
  lemma {:induction false} WorkFacts(env: Env, s: Sys, hash: Root, other: u32)
    requires SysOk(env, s) && hash in s.net.works && other in s.world.b.registry.byId
    ensures WorkOk(s, hash) && OneWorkEach(s)
    ensures LinkOk(s, other, HeadRoot(env.codec, s.world.b, other), ChainRoot(env, s, other))
    ensures Lane(s, other).Some? && Of(s, hash, Lane(s, other).value) ==> other == s.net.works[hash].service
  {
    hide CoordinatorLaws.Inv, WorldOk, HeadRoot, PackagedOk, SubmittingOk, PendingOk, LinkOk;
    assert WorkOk(s, hash);
    assert Link(env, s, other);
    if Lane(s, other).Some? && Of(s, hash, Lane(s, other).value) {
      LaneIsOwn(env, s, Lane(s, other).value, other);
    }
  }

  /** Outside the lane a package of the service cannot move the chain. */
  lemma {:induction false} NotLive(s: Sys, hash: Root, service: u32, head: Root, chain: Root)
    requires LinkOk(s, service, head, chain) && hash in s.net.works && s.net.works[hash].service == service
    requires Lane(s, service).Some? ==> !Of(s, hash, Lane(s, service).value)
    ensures !Live(s, hash)
  {
    hide Placed;
  }

  lemma {:induction false} LaneWork(s: Sys, hash: Root, service: u32, head: Root, chain: Root)
    requires LinkOk(s, service, head, chain) && Lane(s, service).Some? && Of(s, hash, Lane(s, service).value)
    ensures Placed(s.net.works[hash], Fin(s, hash), head, chain)
  {
  }

  lemma {:induction false} AccumulateLink(env: Env, s: Sys, n: Sys, hash: Root, other: u32)
    requires SysOk(env, s) && Moves(s, n, hash) && other in s.world.b.registry.byId
    requires var w := s.net.works[hash];
      && !w.failed && !w.accumulated && w.output.parentRoot == ChainRoot(env, s, w.service)
      && n.net.works[hash] == w.(accumulated := true) && n.net.roots == s.net.roots[w.service := w.output.newRoot]
    ensures n.world == s.world && Link(env, n, other)
  {
    hide SysOk, HeadRoot, LinkOk, Moves, OneWorkEach, Fin;
    MoveFrame(s, n, hash);
    WorkFacts(env, s, hash, other);
    var w := s.net.works[hash];
    var head, chain := HeadRoot(env.codec, s.world.b, other), ChainRoot(env, s, other);
    if Lane(s, other).Some? && Of(s, hash, Lane(s, other).value) {
      LaneWork(s, hash, other, head, chain);
    } else if other == w.service {
      NotLive(s, hash, other, head, chain);
    }
    MoveLink(s, n, hash, other, head, chain, ChainRoot(env, n, other));
  }

  lemma {:induction false} AccumulateKeeps(env: Env, s: Sys, hash: Root, tick: u64, services: u32 -> Accumulate.Read)
    requires SysOk(env, s)
    ensures SysOk(env, Accumulated(env, s, hash, tick, services))
  {
    hide CoordinatorLaws.Inv, WorldOk, Link, HeadRoot, Books;
    var n := Accumulated(env, s, hash, tick, services);
    if n != s {
      assert Moves(s, n, hash);
      MoveBooks(s, n, hash);
      forall other | other in n.world.b.registry.byId ensures Link(env, n, other) {
        AccumulateLink(env, s, n, hash, other);
      }
    }
  }

  lemma {:induction false} FailedLink(env: Env, s: Sys, n: Sys, hash: Root, other: u32)
    requires SysOk(env, s) && Moves(s, n, hash) && n.net.roots == s.net.roots && other in s.world.b.registry.byId
    requires n.net.works[hash] == s.net.works[hash].(failed := true)
    ensures n.world == s.world && Link(env, n, other)
  {
    hide SysOk, HeadRoot, LinkOk, Moves, OneWorkEach, Fin;
    MoveFrame(s, n, hash);
    WorkFacts(env, s, hash, other);
    var head, chain := HeadRoot(env.codec, s.world.b, other), ChainRoot(env, s, other);
    if Lane(s, other).Some? && Of(s, hash, Lane(s, other).value) {
      LaneWork(s, hash, other, head, chain);
    }
    MoveLink(s, n, hash, other, head, chain, chain);
  }

  lemma {:induction false} ReportKeeps(env: Env, s: Sys, hash: Root)
    requires SysOk(env, s)
    ensures SysOk(env, Apply(env, s, ReportFailed(hash)))
  {
    hide CoordinatorLaws.Inv, WorldOk, Link, HeadRoot, Books;
    var n := Apply(env, s, ReportFailed(hash));
    if hash in s.net.works && !s.net.works[hash].accumulated {
      assert Moves(s, n, hash);
      MoveBooks(s, n, hash);
      forall other | other in n.world.b.registry.byId ensures Link(env, n, other) {
        FailedLink(env, s, n, hash, other);
      }
    }
  }

  // ----- the backend moves -----

  /** Only parts of the backend changed that neither heads nor bookkeeping depend on; some predictions may
      have stopped pending. */
  ghost predicate Drops(s: Sys, n: Sys, dropped: set<WorkKey>) {
    && n == s.(world := n.world)
    && n.world.b.registry == s.world.b.registry && n.world.b.corrupt == s.world.b.corrupt
    && n.world.b.predictions == s.world.b.predictions && n.world.b.finalized == s.world.b.finalized
    && n.world.b.pending == s.world.b.pending - dropped
    && (forall h: Root, b: u64 :: Of(s, h, b) && Lane(s, s.net.works[h].service) == Some(b) ==>
          WorkKey(s.net.works[h].service, h) !in dropped)
  }

  lemma {:induction false} DropBooks(s: Sys, n: Sys, dropped: set<WorkKey>)
    requires Books(s) && Drops(s, n, dropped)
    ensures Books(n)
  {
    assert forall h: Root, b: u64 :: Of(n, h, b) <==> Of(s, h, b);
    forall h | h in n.net.works ensures WorkOk(n, h) { assert WorkOk(s, h); }
    forall b | b in n.submitting ensures SubmittingOk(n, b) {
      assert SubmittingOk(s, b);
      if s.submitting[b].Answered? { assert WorkOk(s, s.submitting[b].hash); }
    }
    forall b | b in n.coord.batches ensures PackagedOk(n, b) {
      assert PackagedOk(s, b);
      if s.coord.batches[b].packageHash.Some? { assert WorkOk(s, s.coord.batches[b].packageHash.value); }
    }
    forall key | key in n.world.b.pending ensures PendingOk(n, key) { assert PendingOk(s, key); }
    forall key | key in n.world.b.predictions ensures PredictedOk(n, key) { assert PredictedOk(s, key); }
  }

  lemma {:induction false} DropKeeps(env: Env, s: Sys, n: Sys, dropped: set<WorkKey>)
    requires SysOk(env, s) && Drops(s, n, dropped) && WorldOk(env.codec, env.retention, n.world)
    requires forall id :: id in s.world.b.registry.byId ==>
      HeadRoot(env.codec, n.world.b, id) == HeadRoot(env.codec, s.world.b, id)
    ensures SysOk(env, n)
  {
    hide CoordinatorLaws.Inv, WorldOk, LinkOk, HeadRoot, Books;
    DropBooks(s, n, dropped);
    forall service | service in n.world.b.registry.byId ensures Link(env, n, service) {
      assert Link(env, s, service);
      LinkFrame(s, n, service, HeadRoot(env.codec, s.world.b, service), ChainRoot(env, s, service));
    }
  }

  lemma {:induction false} NoteKeeps(env: Env, s: Sys, service: u32, context: Context)
    requires SysOk(env, s)
    ensures SysOk(env, Noted(s, service, context))
  {
    hide SysOk, Books, CoordinatorLaws.Inv, WorldOk, HeadRoot;
    PartsOk(env, s);
    var n := Noted(s, service, context);
    BackendRuns.BookkeepingKeeps(env.codec, env.retention, s.world, n.world.b);
    forall id | id in s.world.b.registry.byId
      ensures HeadRoot(env.codec, n.world.b, id) == HeadRoot(env.codec, s.world.b, id)
    {
      SameHead(env.codec, s.world.b, n.world.b, id);
    }
    DropKeeps(env, s, n, {});
  }

  lemma {:induction false} BestSnapshotKeeps(env: Env, s: Sys, service: u32, output: Output)
    requires SysOk(env, s) && CollisionFree(env.codec.root)
    ensures SysOk(env, Apply(env, s, Snapshot(service, output)))
  {
    hide SysOk, Books, CoordinatorLaws.Inv, WorldOk, HeadRoot, CollisionFree, SnapshotInserted, HeadState;
    PartsOk(env, s);
    var n := Apply(env, s, Snapshot(service, output));
    if service in s.world.b.registry.byId && SnapshotTaken(env.codec, s.world.b, output, KeyOf(s.world.b,
      service)).Ok? {
      BackendRuns.SnapshotKeepsWorld(env.codec, env.retention, s.world, service, output);
      BackendRuns.SnapshotSlots(env.codec, env.retention, s.world, service, output);
      DropKeeps(env, s, n, {});
    }
  }

  /** A status check never calls the prediction of a lane's package stale: the canonical root is one of its
      two roots, and when it is the new one and the package is not yet materialized, the head is at the old
      one. */
  lemma {:induction false} NeverStale(env: Env, s: Sys, hash: Root, batch: u64)
    requires SysOk(env, s) && Of(s, hash, batch) && Lane(s, s.net.works[hash].service) == Some(batch)
    requires s.net.works[hash].service in s.net.roots
    ensures var w := s.net.works[hash];
      && Verdict(s, WorkKey(w.service, hash)) == Ok(s.net.roots[w.service])
      && (s.net.roots[w.service] == w.output.newRoot && !Fin(s, hash) ==>
            InHead(env, s, w.service, w.output.parentRoot))
  {
    hide CoordinatorLaws.Inv, WorldOk, HeadRoot, SubmittingOk, PackagedOk, PendingOk, OneWorkEach;
    var service := s.net.works[hash].service;
    assert WorkOk(s, hash);
    assert Link(env, s, service);
    assert WorkKey(service, hash) in s.world.b.predictions ==> PredictedOk(s, WorkKey(service, hash));
    LaneWork(s, hash, service, HeadRoot(env.codec, s.world.b, service), ChainRoot(env, s, service));
  }

  ghost predicate InHead(env: Env, s: Sys, service: u32, root: Root) {
    service in s.world.b.registry.byId && HeadRoot(env.codec, s.world.b, service) == root
  }

  lemma {:induction false} StaleKeeps(env: Env, s: Sys, key: WorkKey)
    requires SysOk(env, s) && key.service in s.net.roots && Verdict(s, key).Err?
    ensures SysOk(env, s.(world := s.world.(b := s.world.b.(pending := s.world.b.pending - {key}))))
  {
    hide SysOk, Books, CoordinatorLaws.Inv, WorldOk, HeadRoot, Verdict;
    PartsOk(env, s);
    var n := s.(world := s.world.(b := s.world.b.(pending := s.world.b.pending - {key})));
    BackendRuns.BookkeepingKeeps(env.codec, env.retention, s.world, n.world.b);
    forall id | id in s.world.b.registry.byId
      ensures HeadRoot(env.codec, n.world.b, id) == HeadRoot(env.codec, s.world.b, id)
    {
      SameHead(env.codec, s.world.b, n.world.b, id);
    }
    forall h: Root, b: u64 | Of(s, h, b) && Lane(s, s.net.works[h].service) == Some(b)
      ensures WorkKey(s.net.works[h].service, h) != key
    {
      if s.net.works[h].service in s.net.roots { NeverStale(env, s, h, b); }
    }
    DropKeeps(env, s, n, {key});
  }

  /** `n` is `s` after the backend materialized `key`: its service's head went from one end of the
      prediction to the other, which is where the chain is. */
  ghost predicate Advances(env: Env, s: Sys, n: Sys, key: WorkKey) {
    && n == s.(world := n.world)
    && n.world.b.registry == s.world.b.registry && n.world.b.corrupt == s.world.b.corrupt
    && n.world.b.predictions == s.world.b.predictions
    && key in s.world.b.pending && key.service in s.world.b.registry.byId
    && n.world.b.pending == s.world.b.pending - {key} && n.world.b.finalized == s.world.b.finalized + {key}
    && key.hash in s.net.works && !s.net.works[key.hash].failed
    && ChainRoot(env, s, key.service) == s.world.b.pending[key].newRoot
    && HeadRoot(env.codec, s.world.b, key.service) == s.world.b.pending[key].parentRoot
    && HeadRoot(env.codec, n.world.b, key.service) == s.world.b.pending[key].newRoot
    && (forall other :: other in s.world.b.registry.byId && other != key.service ==>
          HeadRoot(env.codec, n.world.b, other) == HeadRoot(env.codec, s.world.b, other))
  }

  lemma {:induction false} AdvanceBooks(env: Env, s: Sys, n: Sys, key: WorkKey)
    requires Books(s) && Advances(env, s, n, key)
    ensures Books(n)
  {
    hide HeadRoot;
    assert forall h: Root, b: u64 :: Of(n, h, b) <==> Of(s, h, b);
    forall h | h in n.net.works ensures WorkOk(n, h) { assert WorkOk(s, h); }
    forall b | b in n.submitting ensures SubmittingOk(n, b) { assert SubmittingOk(s, b); }
    forall b | b in n.coord.batches ensures PackagedOk(n, b) { assert PackagedOk(s, b); }
    forall k | k in n.world.b.pending ensures PendingOk(n, k) { assert PendingOk(s, k); }
    forall k | k in n.world.b.predictions ensures PredictedOk(n, k) { assert PredictedOk(s, k); }
  }

  lemma {:induction false} AdvancePlaced(env: Env, s: Sys, n: Sys, key: WorkKey, other: u32, h: Root)
    requires SysOk(env, s) && Advances(env, s, n, key) && other in s.world.b.registry.byId
    requires Lane(s, other).Some? && Of(s, h, Lane(s, other).value)
    ensures Placed(n.net.works[h], Fin(n, h), HeadRoot(env.codec, n.world.b, other), ChainRoot(env, n, other))
  {
    hide SysOk, HeadRoot;
    WorkFacts(env, s, h, other);
    assert PendingOk(s, key) by { PendingIs(env, s, key); }
    LaneWork(s, h, other, HeadRoot(env.codec, s.world.b, other), ChainRoot(env, s, other));
    if other == key.service && h != key.hash {
      assert !Of(s, key.hash, Lane(s, other).value);
    }
  }

  lemma {:induction false} PendingIs(env: Env, s: Sys, key: WorkKey)
    requires SysOk(env, s) && key in s.world.b.pending
    ensures PendingOk(s, key)
  {
    hide CoordinatorLaws.Inv, WorldOk, Link, PendingOk, PackagedOk, SubmittingOk, WorkOk;
  }

  lemma {:induction false} AdvanceLink(env: Env, s: Sys, n: Sys, key: WorkKey, other: u32)
    requires SysOk(env, s) && Advances(env, s, n, key) && other in s.world.b.registry.byId && Link(env, s, other)
    ensures Link(env, n, other)
  {
    hide SysOk, HeadRoot, Placed;
    PendingIs(env, s, key);
    assert forall h :: Live(n, h) <==> Live(s, h);
    assert forall h: Root, b: u64 :: Of(n, h, b) <==> Of(s, h, b);
    if Lane(s, other).Some? {
      forall h | Of(s, h, Lane(s, other).value)
        ensures Placed(n.net.works[h], Fin(n, h), HeadRoot(env.codec, n.world.b, other), ChainRoot(env, n, other))
      {
        AdvancePlaced(env, s, n, key, other, h);
      }
    }
  }

  lemma {:induction false} AdvanceKeeps(env: Env, s: Sys, n: Sys, key: WorkKey)
    requires SysOk(env, s) && Advances(env, s, n, key) && WorldOk(env.codec, env.retention, n.world)
    ensures SysOk(env, n)
  {
    hide CoordinatorLaws.Inv, WorldOk, Link, Books, HeadRoot;
    AdvanceBooks(env, s, n, key);
    forall other | other in n.world.b.registry.byId ensures Link(env, n, other) {
      AdvanceLink(env, s, n, key, other);
    }
  }

  lemma {:induction false} MaterializeAdvances(env: Env, s: Sys, key: WorkKey, written: bool)
    requires WorldOk(env.codec, env.retention, s.world) && CollisionFree(env.codec.root)
    requires key.hash in s.net.works && !s.net.works[key.hash].failed && key.service in s.net.roots
    requires var r := MaterializedIfCanonical(env.codec, env.retention, s.world, key, s.net.roots[key.service],
      written);
      r.Ok? && r.value.1
    ensures var r := MaterializedIfCanonical(env.codec, env.retention, s.world, key, s.net.roots[key.service], written);
      && Advances(env, s, s.(world := r.value.0), key)
      && WorldOk(env.codec, env.retention, r.value.0)
  {
    hide WorldOk, HeadRoot, HeadState, CommittedRecovery, CollisionFree;
    var output := s.world.b.pending[key];
    CommitKeeps(env.codec, env.retention, s.world, key.service, output, written);
    CommitFrame(env.codec, env.retention, s.world, key.service, KeyOf(s.world.b, key.service), output, written);
    BackendRuns.MaterializeKeeps(env.codec, env.retention, s.world, key, s.net.roots[key.service], written);
    var w := CommittedRecovery(env.codec, env.retention, s.world, key.service, KeyOf(s.world.b, key.service),
                               output, written).value;
    var r := MaterializedIfCanonical(env.codec, env.retention, s.world, key, s.net.roots[key.service], written);
    forall other | other in s.world.b.registry.byId
      ensures HeadRoot(env.codec, r.value.0.b, other) == HeadRoot(env.codec, w.b, other)
    {
      SameHead(env.codec, w.b, r.value.0.b, other);
    }
  }

  lemma {:induction false} NothingMaterialized(env: Env, w: World, key: WorkKey, canonical: Root, written: bool)
    requires var r := MaterializedIfCanonical(env.codec, env.retention, w, key, canonical, written); r.Ok? && !r.value.1
    ensures MaterializedIfCanonical(env.codec, env.retention, w, key, canonical, written).value.0 == w
  {
  }

  /** A status check, whoever asks and for whichever package, keeps the simulation. */
  lemma {:induction false} ObserveKeeps(env: Env, s: Sys, key: WorkKey, context: Context, written: bool)
    requires SysOk(env, s) && CollisionFree(env.codec.root)
    ensures SysOk(env, Observed(env, s, key, context, written))
  {
    hide SysOk, CoordinatorLaws.Inv, WorldOk, Books, CollisionFree, MaterializedIfCanonical, Verdict, Advances;
    if key.hash in s.net.works && !s.net.works[key.hash].failed && key.service in s.net.roots {
      if Verdict(s, key).Err? {
        StaleKeeps(env, s, key);
      } else {
        var seen := Noted(s, key.service, context);
        NoteKeeps(env, s, key.service, context);
        var r := MaterializedIfCanonical(env.codec, env.retention, seen.world, key, s.net.roots[key.service], written);
        if r.Ok? {
          if r.value.1 {
            PartsOk(env, seen);
            MaterializeAdvances(env, seen, key, written);
            AdvanceKeeps(env, seen, seen.(world := r.value.0), key);
          } else {
            NothingMaterialized(env, seen.world, key, s.net.roots[key.service], written);
          }
        }
      }
    }
  }

  // ----- registration -----

  lemma {:induction false} EmptyHead(env: Env, s: Sys, record: Record)
    requires WorldOk(env.codec, env.retention, s.world) && Registered(s.world.b.registry, record).Ok?
    ensures var n := BackendRuns.RegisteredIn(s.world, record);
      && n.b == s.world.b.(registry := n.b.registry) && record.service in n.b.registry.byId
      && n.b.registry.byId.Keys == s.world.b.registry.byId.Keys + {record.service}
      && (forall id :: id in s.world.b.registry.byId ==>
            HeadRoot(env.codec, n.b, id) == HeadRoot(env.codec, s.world.b, id))
      && (record.service !in s.world.b.registry.byId ==>
            HeadRoot(env.codec, n.b, record.service) == env.codec.root(map[]))
  {
    hide SlotOk, ServiceOk, Blank, RowsOf, Opened;
    RegisterKeeps(s.world.b.registry, record);
    var n := BackendRuns.RegisteredIn(s.world, record);
    if record.service !in s.world.b.registry.byId {
      assert SlotOf(n.b.slots, record.key) == EMPTY_SLOT;
    }
  }

  lemma {:induction false} RegisterBooks(s: Sys, n: Sys)
    requires Books(s) && n == s.(world := n.world) && n.world.b == s.world.b.(registry := n.world.b.registry)
    requires s.world.b.registry.byId.Keys <= n.world.b.registry.byId.Keys
    ensures Books(n)
  {
    assert forall h: Root, b: u64 :: Of(n, h, b) <==> Of(s, h, b);
    forall h | h in n.net.works ensures WorkOk(n, h) { assert WorkOk(s, h); }
    forall b | b in n.submitting ensures SubmittingOk(n, b) { assert SubmittingOk(s, b); }
    forall b | b in n.coord.batches ensures PackagedOk(n, b) { assert PackagedOk(s, b); }
    forall key | key in n.world.b.pending ensures PendingOk(n, key) { assert PendingOk(s, key); }
    forall key | key in n.world.b.predictions ensures PredictedOk(n, key) { assert PredictedOk(s, key); }
  }

  /** An unknown service has no lane and no package. */
  lemma {:induction false} UnknownService(s: Sys, n: Sys, service: u32, head: Root, chain: Root)
    requires Books(s) && service !in s.world.b.registry.byId && n == s.(world := n.world)
    ensures Lane(n, service) == None
    ensures LinkOk(n, service, head, chain) <==> head == chain
  {
    hide SubmittingOk, PackagedOk, PendingOk, PredictedOk, OneWorkEach;
    forall h | h in n.net.works ensures n.net.works[h].service != service { assert WorkOk(s, h); }
  }

  /** Registering a service the backend does not know keeps the simulation if and only if the chain has no
      commitment for it or the empty root: its head starts empty whatever the chain holds. */
  lemma {:induction false} RegisterKeepsIff(env: Env, s: Sys, record: Record)
    requires SysOk(env, s) && Registered(s.world.b.registry, record).Ok?
    ensures var n := Apply(env, s, Register(record));
      && (SysOk(env, n) <==>
            record.service in s.world.b.registry.byId || ChainRoot(env, s, record.service) == env.codec.root(map[]))
      && (record.service !in s.world.b.registry.byId ==>
            Lane(n, record.service) == None && (InStep(env, n, record.service) <==> SysOk(env, n)))
  {
    hide CoordinatorLaws.Inv, WorldOk, Books, LinkOk, HeadRoot, BackendRuns.RegisteredIn;
    var n, id := Apply(env, s, Register(record)), record.service;
    EmptyHead(env, s, record);
    BackendRuns.RegisterKeepsWorld(env.codec, env.retention, s.world, record);
    RegisterBooks(s, n);
    if id !in s.world.b.registry.byId {
      UnknownService(s, n, id, HeadRoot(env.codec, n.world.b, id), ChainRoot(env, n, id));
      assert Link(env, n, id) <==> HeadRoot(env.codec, n.world.b, id) == ChainRoot(env, n, id);
      PartsOk(env, s);
    }
    forall other | other in s.world.b.registry.byId ensures Link(env, n, other) {
      assert Link(env, s, other);
      LinkFrame(s, n, other, HeadRoot(env.codec, s.world.b, other), ChainRoot(env, s, other));
    }
  }

  // ----- restart -----

  /** No package of any run can still move the chain, and every head is where the chain is. */
  ghost predicate AtRest(env: Env, s: Sys) {
    && (forall h :: !Live(s, h))
    && (forall id :: id in s.world.b.registry.byId ==> InHead(env, s, id, ChainRoot(env, s, id)))
  }

  lemma {:induction false} RestartBooks(s: Sys, n: Sys)
    requires Books(s) && n.coord == Coordination.INITIAL && n.submitting == map[] && n.net == s.net
    requires n.epoch == s.epoch + 1 && forall h :: h in s.net.works ==> s.net.works[h].run <= s.epoch
    requires n.world.b.registry == s.world.b.registry && n.world.b.corrupt == {}
    requires n.world.b.pending == map[] && n.world.b.predictions == map[] && n.world.b.finalized == {}
    ensures Books(n)
  {
    hide SubmittingOk, PackagedOk, PendingOk, PredictedOk;
    forall h | h in n.net.works ensures WorkOk(n, h) { assert WorkOk(s, h); }
  }

  lemma {:induction false} RunsBounded(s: Sys)
    requires Books(s)
    ensures forall h :: h in s.net.works ==> s.net.works[h].run <= s.epoch
    ensures forall h :: h in s.net.works ==> s.net.works[h].service in s.world.b.registry.byId
  {
    hide SubmittingOk, PackagedOk, PendingOk, PredictedOk, OneWorkEach;
    forall h | h in s.net.works
      ensures s.net.works[h].run <= s.epoch && s.net.works[h].service in s.world.b.registry.byId
    {
      assert WorkOk(s, h);
    }
  }

  lemma {:induction false} RestartLink(n: Sys, service: u32, head: Root, chain: Root)
    requires n.coord == Coordination.INITIAL
    ensures LinkOk(n, service, head, chain) <==>
      head == chain && forall h :: Live(n, h) ==> n.net.works[h].service != service
  {
    hide Live;
  }

  /** What a restart brings back, and what is gone. */
  lemma {:induction false} RestartFacts(env: Env, s: Sys, ids: seq<u32>)
    requires SysOk(env, s) && CollisionFree(env.codec.root)
    requires s.world.db.Some? && BackendRuns.ReadsAll(s.world, ids)
    ensures var n := Restarted(env, s, ids);
      && n.coord == Coordination.INITIAL && n.submitting == map[] && n.net == s.net && n.epoch == s.epoch + 1
      && n.world.b.registry == s.world.b.registry && n.world.b.corrupt == {}
      && n.world.b.pending == map[] && n.world.b.predictions == map[] && n.world.b.finalized == {}
      && WorldOk(env.codec, env.retention, n.world)
      && (forall id :: id in s.world.b.registry.byId ==>
            HeadRoot(env.codec, n.world.b, id) == HeadRoot(env.codec, s.world.b, id))
  {
    hide SysOk, CoordinatorLaws.Inv, WorldOk, Books, HeadRoot, HeadState, Restored, CollisionFree;
    PartsOk(env, s);
    RestartRefines(env.codec, env.retention, s.world, ids);
    var r := Restored(env.codec, s.world.db.value, ids).value;
    forall id | id in s.world.b.registry.byId
      ensures HeadRoot(env.codec, r, id) == HeadRoot(env.codec, s.world.b, id)
    {
      assert Untouched(env.codec, s.world, World(r, s.world.db), id);
    }
  }

  /** A restart keeps the simulation if and only if every head is the chain's commitment and no package can
      still move the chain: nothing that was in flight is known afterwards. */
  lemma {:induction false} RestartKeepsIff(env: Env, s: Sys, ids: seq<u32>)
    requires SysOk(env, s) && CollisionFree(env.codec.root)
    requires s.world.db.Some? && BackendRuns.ReadsAll(s.world, ids)
    ensures SysOk(env, Restarted(env, s, ids)) <==> AtRest(env, s)
  {
    hide CoordinatorLaws.Inv, WorldOk, Books, LinkOk, HeadRoot, Restarted, Live, CollisionFree;
    var n := Restarted(env, s, ids);
    RestartFacts(env, s, ids);
    RunsBounded(s);
    RestartBooks(s, n);
    CoordinatorRuns.InitialOk(env.lim) by { LimitsValid(env, s); }
    SameLives(s, n);
    LiveIsWork(s);
    forall id | id in s.world.b.registry.byId
      ensures Link(env, n, id) <==>
        InHead(env, s, id, ChainRoot(env, s, id)) && forall h :: Live(s, h) ==> s.net.works[h].service != id
    {
      RestartLink(n, id, HeadRoot(env.codec, n.world.b, id), ChainRoot(env, n, id));
    }
  }

  lemma {:induction false} LimitsValid(env: Env, s: Sys)
    requires SysOk(env, s)
    ensures env.lim.Valid()
  {
  }

  lemma {:induction false} SameLives(s: Sys, n: Sys)
    requires n.net == s.net
    ensures forall h :: Live(n, h) <==> Live(s, h)
  {
  }
}
