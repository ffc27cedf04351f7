/** What the three parts of the system keep about each other, step by step. */
module SystemLaws {
  import opened Wrappers
  import opened Bytes
  import opened Outputs
  import opened Scheduler
  import opened BackendStates
  import opened BackendLaws
  import opened Systems
  import CoordinatorRuns
  import Coordination
  import CoordinatorLaws
  import BackendRuns

  function Lane(s: Sys, service: u32): Option<u64> {
    if service in s.coord.inFlight then Some(s.coord.inFlight[service]) else None
  }

  /** A package of a batch of this run. */
  predicate Of(s: Sys, hash: Root, batch: u64) {
    hash in s.net.works && s.net.works[hash].run == s.epoch && s.net.works[hash].batch == Some(batch)
  }

  predicate NoChange(o: Output) {
    o.parentRoot == o.newRoot
  }

  /** The package can still move the chain. */
  ghost predicate Live(s: Sys, hash: Root) {
    hash in s.net.works &&
    var w := s.net.works[hash]; !w.failed && !w.accumulated && !NoChange(w.output)
  }

  /** The backend has materialized the package. */
  predicate Fin(s: Sys, hash: Root)
    requires hash in s.net.works
  {
    WorkKey(s.net.works[hash].service, hash) in s.world.b.finalized
  }

  /** Where head and chain stand relative to a package of the lane's batch: at its start, at its two ends,
      or, once it is materialized, both at its end, even while the coordinator has not heard of it. */
  ghost predicate Placed(w: Work, fin: bool, head: Root, chain: Root) {
    && (fin ==> head == chain == w.output.newRoot && (!w.accumulated ==> NoChange(w.output)))
    && (!fin && !w.accumulated ==> head == chain == w.output.parentRoot)
    && (!fin && w.accumulated ==> head == w.output.parentRoot && chain == w.output.newRoot)
  }

  /** Without a lane, head and chain agree and nothing can move the chain.  With one, only a package of
      its batch can, and head and chain are where that package puts them. */
  ghost predicate LinkOk(s: Sys, service: u32, head: Root, chain: Root) {
    match Lane(s, service)
    case None =>
      head == chain && forall h :: Live(s, h) ==> s.net.works[h].service != service
    case Some(b) =>
      && (forall h :: Of(s, h, b) ==> Placed(s.net.works[h], Fin(s, h), head, chain))
      && ((forall h :: !Of(s, h, b)) ==> head == chain)
      && (forall h :: Live(s, h) && s.net.works[h].service == service ==> Of(s, h, b))
  }

  ghost predicate Link(env: Env, s: Sys, service: u32)
    requires service in s.world.b.registry.byId
  {
    LinkOk(s, service, HeadRoot(env.codec, s.world.b, service), ChainRoot(env, s, service))
  }

  ghost predicate WorkOk(s: Sys, hash: Root)
    requires hash in s.net.works
  {
    var w := s.net.works[hash];
    && w.service in s.world.b.registry.byId && !(w.failed && w.accumulated) && w.run <= s.epoch
    && (w.run == s.epoch && w.batch.Some? ==>
          && w.batch.value in s.coord.batches && s.coord.batches[w.batch.value].service == w.service
          && !Undecided(s, w.batch.value))
  }

  ghost predicate OneWorkEach(s: Sys) {
    forall g, h, b :: Of(s, g, b) && Of(s, h, b) ==> g == h
  }

  /** A package whose answer the backend saw is predicted, and pending or finalized. */
  ghost predicate Awaited(b: Backend, key: WorkKey, output: Output) {
    && key in b.predictions && b.predictions[key] == output
    && (key in b.finalized || (key in b.pending && b.pending[key] == output))
  }

  ghost predicate AwaitedWork(s: Sys, hash: Root)
    requires hash in s.net.works
  {
    Awaited(s.world.b, WorkKey(s.net.works[hash].service, hash), s.net.works[hash].output)
  }

  /** A batch in the dispatcher's hands holds its lane and has no package for the coordinator yet. */
  ghost predicate SubmittingOk(s: Sys, b: u64)
    requires b in s.submitting
  {
    && b in s.coord.batches && CoordinatorLaws.HoldsLane(s.coord, b) && s.coord.batches[b].packageHash.None?
    && (s.submitting[b].Answered? ==>
          var h := s.submitting[b].hash;
          Of(s, h, b) && s.net.works[h].output == s.submitting[b].output && AwaitedWork(s, h))
  }

  /** A packaged batch points at its package; while it holds the lane the package is awaited. */
  ghost predicate PackagedOk(s: Sys, b: u64)
    requires b in s.coord.batches
  {
    s.coord.batches[b].packageHash.Some? ==>
      var h := s.coord.batches[b].packageHash.value;
      Of(s, h, b) && (CoordinatorLaws.HoldsLane(s.coord, b) ==> AwaitedWork(s, h))
  }

  /** What is pending failed, changes nothing, or is of the batch that holds the lane. */
  ghost predicate PendingOk(s: Sys, key: WorkKey)
    requires key in s.world.b.pending
  {
    && key !in s.world.b.finalized
    && key.hash in s.net.works
    && var w := s.net.works[key.hash];
       && w.service == key.service && w.output == s.world.b.pending[key]
       && (w.failed || NoChange(w.output) || (w.run == s.epoch && w.batch.Some? && Lane(s, key.service) == w.batch))
  }

  /** A prediction is that of its package. */
  ghost predicate PredictedOk(s: Sys, key: WorkKey)
    requires key in s.world.b.predictions
  {
    && key.hash in s.net.works && s.net.works[key.hash].service == key.service
    && s.net.works[key.hash].output == s.world.b.predictions[key]
  }

  /** Bookkeeping between the three parts. */
  ghost predicate Books(s: Sys) {
    && s.world.b.corrupt == {}
    && s.coord.inFlight.Keys <= s.world.b.registry.byId.Keys
    && (forall h :: h in s.net.works ==> WorkOk(s, h))
    && OneWorkEach(s)
    && (forall b :: b in s.submitting ==> SubmittingOk(s, b))
    && (forall b :: b in s.coord.batches ==> PackagedOk(s, b))
    && (forall key :: key in s.world.b.pending ==> PendingOk(s, key))
    && (forall key :: key in s.world.b.finalized ==> key.hash in s.net.works)
    && (forall key :: key in s.world.b.predictions ==> PredictedOk(s, key))
  }

  ghost predicate SysOk(env: Env, s: Sys) {
    && CoordinatorLaws.Inv(env.lim, s.coord) && WorldOk(env.codec, env.retention, s.world)
    && Books(s)
    && (forall service :: service in s.world.b.registry.byId ==> Link(env, s, service))
  }

  lemma {:induction false} PartsOk(env: Env, s: Sys)
    requires SysOk(env, s)
    ensures CoordinatorLaws.Inv(env.lim, s.coord) && WorldOk(env.codec, env.retention, s.world) && Books(s)
    ensures s.world.b.corrupt == {}
  {
  }

  // ----- frames -----

  lemma {:induction false} LinkFrame(s: Sys, n: Sys, service: u32, head: Root, chain: Root)
    requires LinkOk(s, service, head, chain) && Lane(n, service) == Lane(s, service)
    requires n.net.works == s.net.works && n.epoch == s.epoch && n.world.b.finalized == s.world.b.finalized
    ensures LinkOk(n, service, head, chain)
  {
    hide Placed;
    assert forall h :: Live(n, h) <==> Live(s, h);
    assert forall h: Root, b: u64 :: Of(n, h, b) <==> Of(s, h, b);
  }

  /** The same batches of the same services with the same packages. */
  ghost predicate SameBatches(c: Coordination.State, d: Coordination.State) {
    && d.batches.Keys == c.batches.Keys
    && (forall b :: b in c.batches ==>
          d.batches[b].service == c.batches[b].service && d.batches[b].packageHash == c.batches[b].packageHash)
  }

  /** Only the coordinator moved, no lane and no package with it, and the dispatcher is done with some batches. */
  ghost predicate Coordinates(s: Sys, n: Sys) {
    && n == s.(coord := n.coord, submitting := n.submitting)
    && n.coord.inFlight == s.coord.inFlight && SameBatches(s.coord, n.coord)
    && n.submitting.Keys <= s.submitting.Keys && (forall b :: b in n.submitting ==> n.submitting[b] == s.submitting[b])
  }

  lemma {:induction false} CoordBooks(s: Sys, n: Sys)
    requires Books(s) && Coordinates(s, n)
    ensures Books(n)
  {
    hide Awaited;
    assert forall h: Root, b: u64 :: Of(n, h, b) <==> Of(s, h, b);
    forall h | h in n.net.works ensures WorkOk(n, h) { assert WorkOk(s, h); }
    forall b | b in n.submitting ensures SubmittingOk(n, b) { assert SubmittingOk(s, b); }
    forall b | b in n.coord.batches ensures PackagedOk(n, b) { assert PackagedOk(s, b); }
    forall key | key in n.world.b.pending ensures PendingOk(n, key) { assert PendingOk(s, key); }
    forall key | key in n.world.b.predictions ensures PredictedOk(n, key) { assert PredictedOk(s, key); }
  }

  lemma {:induction false} CoordOnly(env: Env, s: Sys, n: Sys)
    requires SysOk(env, s) && CoordinatorLaws.Inv(env.lim, n.coord) && Coordinates(s, n)
    ensures SysOk(env, n)
  {
    hide LinkOk, CoordinatorLaws.Inv, WorldOk, HeadRoot, Books, SameBatches;
    CoordBooks(s, n);
    forall service | service in n.world.b.registry.byId ensures Link(env, n, service) {
      assert Link(env, s, service);
      LinkFrame(s, n, service, HeadRoot(env.codec, s.world.b, service), ChainRoot(env, s, service));
    }
  }

  /** The lane's batch, seen from its service. */
  lemma {:induction false} LaneFacts(env: Env, s: Sys, batch: u64)
    requires SysOk(env, s) && batch in s.coord.batches && CoordinatorLaws.HoldsLane(s.coord, batch)
    ensures var service := s.coord.batches[batch].service;
      && service in s.world.b.registry.byId && Lane(s, service) == Some(batch)
      && !s.coord.batches[batch].materialized
      && Link(env, s, service) && PackagedOk(s, batch)
  {
    hide WorldOk, Link, PackagedOk, CoordinatorLaws.QueueOk, CoordinatorLaws.TxOk, CoordinatorLaws.BatchOk;
    assert CoordinatorLaws.LaneOk(s.coord, s.coord.batches[batch].service);
  }

  lemma {:induction false} LaneIsOwn(env: Env, s: Sys, batch: u64, other: u32)
    requires SysOk(env, s) && batch in s.coord.batches && Lane(s, other) == Some(batch)
    ensures other == s.coord.batches[batch].service
  {
    hide WorldOk, Link, Books, CoordinatorLaws.QueueOk, CoordinatorLaws.TxOk, CoordinatorLaws.BatchOk;
    assert CoordinatorLaws.LaneOk(s.coord, other);
  }

  /** An undecided batch holds its lane and the network has no package of it. */
  lemma {:induction false} UndecidedFacts(env: Env, s: Sys, batch: u64)
    requires Books(s) && Undecided(s, batch)
    ensures CoordinatorLaws.HoldsLane(s.coord, batch) && s.coord.batches[batch].packageHash.None?
    ensures s.coord.batches[batch].service in s.world.b.registry.byId
    ensures forall h :: !Of(s, h, batch)
  {
    hide Awaited, PackagedOk, PendingOk;
    assert SubmittingOk(s, batch);
    forall h | h in s.net.works ensures !Of(s, h, batch) { assert WorkOk(s, h); }
  }

  // ----- dispatch -----

  lemma {:induction false} TakenLanes(lim: Coordination.Limits, s: Coordination.State, service: u32, expected: Nonces,
                                     slot: u64, now: nat)
    ensures var (n, sub) := Coordination.Taken(lim, s, service, expected, slot, now);
      if sub.None? then n.inFlight == s.inFlight && n.batches == s.batches
      else
        && sub.value.batch == s.nextBatch && service !in s.inFlight
        && n.inFlight == s.inFlight[service := s.nextBatch]
        && n.batches.Keys == s.batches.Keys + {s.nextBatch}
        && n.batches[s.nextBatch].service == service && n.batches[s.nextBatch].packageHash.None?
        && (forall b :: b in s.batches && b != s.nextBatch ==> n.batches[b] == s.batches[b])
  {
    hide Coordination.SplitQueue, Coordination.AfterSplit;
    CoordinatorLaws.SplitLanes(lim, s, service,
      Coordination.SplitQueue(lim, Coordination.Queue(s, service), expected, slot), now);
  }

  /** `n` is `s` with a new batch in the free lane of `service`. */
  ghost predicate Opens(s: Sys, n: Sys, service: u32) {
    var batch := s.coord.nextBatch;
    && service in s.world.b.registry.byId && service !in s.coord.inFlight && batch !in s.coord.batches
    && n == s.(coord := n.coord, submitting := s.submitting[batch := Deciding])
    && n.coord.inFlight == s.coord.inFlight[service := batch]
    && n.coord.batches.Keys == s.coord.batches.Keys + {batch}
    && n.coord.batches[batch].service == service && n.coord.batches[batch].packageHash.None?
    && (forall b :: b in s.coord.batches ==> n.coord.batches[b] == s.coord.batches[b])
  }

  lemma {:induction false} NoWorkYet(s: Sys, batch: u64)
    requires Books(s) && batch !in s.coord.batches
    ensures forall h :: !Of(s, h, batch)
  {
    hide SubmittingOk, PackagedOk, PendingOk;
    forall h | h in s.net.works ensures !Of(s, h, batch) { assert WorkOk(s, h); }
  }

  lemma {:induction false} DispatchBooks(s: Sys, n: Sys, service: u32)
    requires Books(s) && Opens(s, n, service)
    ensures Books(n)
  {
    hide Awaited;
    var batch := s.coord.nextBatch;
    NoWorkYet(s, batch);
    assert forall h: Root, b: u64 :: Of(n, h, b) <==> Of(s, h, b);
    forall h | h in n.net.works ensures WorkOk(n, h) {
      assert WorkOk(s, h);
      var w := s.net.works[h];
      if w.run == s.epoch && w.batch.Some? { assert Of(s, h, w.batch.value); }
    }
    forall b | b in n.submitting ensures SubmittingOk(n, b) {
      if b != batch { assert SubmittingOk(s, b); }
    }
    forall b | b in n.coord.batches ensures PackagedOk(n, b) {
      if b != batch { assert PackagedOk(s, b); }
    }
    forall key | key in n.world.b.pending ensures PendingOk(n, key) { assert PendingOk(s, key); }
    forall key | key in n.world.b.predictions ensures PredictedOk(n, key) { assert PredictedOk(s, key); }
  }

  lemma {:induction false} DispatchLink(s: Sys, n: Sys, service: u32, other: u32, head: Root, chain: Root)
    requires Books(s) && Opens(s, n, service) && LinkOk(s, other, head, chain)
    ensures LinkOk(n, other, head, chain)
  {
    hide Books, Placed;
    if other == service {
      NoWorkYet(s, s.coord.nextBatch);
      assert forall h :: Live(n, h) <==> Live(s, h);
      assert forall h: Root, b: u64 :: Of(n, h, b) <==> Of(s, h, b);
    } else {
      LinkFrame(s, n, other, head, chain);
    }
  }

  lemma {:induction false} DispatchKeeps(env: Env, s: Sys, service: u32, expected: Nonces, slot: u64, now: nat)
    requires SysOk(env, s)
    ensures SysOk(env, Dispatched(env, s, service, expected, slot, now))
  {
    hide CoordinatorLaws.Inv, WorldOk, Books, LinkOk, HeadRoot, Coordination.Taken;
    var n := Dispatched(env, s, service, expected, slot, now);
    if InStep(env, s, service) && s.coord.nextBatch < U64_MAX {
      CoordinatorRuns.TakeStepKeeps(env.lim, s.coord, service, expected, slot, now);
      TakenLanes(env.lim, s.coord, service, expected, slot, now);
      if Coordination.Taken(env.lim, s.coord, service, expected, slot, now).1.None? {
        CoordOnly(env, s, n);
      } else {
        CoordinatorLaws.NextBatchIsNew(env.lim, s.coord);
        DispatchBooks(s, n, service);
        forall other | other in n.world.b.registry.byId ensures Link(env, n, other) {
          assert Link(env, s, other);
          DispatchLink(s, n, service, other, HeadRoot(env.codec, s.world.b, other), ChainRoot(env, s, other));
        }
      }
    }
  }

  // ----- a lane is released -----

  /** `n` is `s` with the lane of `batch` free, and nothing of it still to come. */
  ghost predicate Releases(s: Sys, n: Sys, batch: u64) {
    && batch in s.coord.batches && CoordinatorLaws.HoldsLane(s.coord, batch)
    && n == s.(coord := n.coord, submitting := s.submitting - {batch})
    && n.coord.inFlight == s.coord.inFlight - {s.coord.batches[batch].service}
    && SameBatches(s.coord, n.coord)
    && (forall h :: Of(s, h, batch) ==> !Live(s, h))
    && (forall key :: key in s.world.b.pending && Of(s, key.hash, batch) ==> s.net.works[key.hash].failed)
  }

  lemma {:induction false} LanesAfterRelease(s: Sys, n: Sys, batch: u64, b: u64)
    requires Releases(s, n, batch) && b in s.coord.batches
    ensures CoordinatorLaws.HoldsLane(n.coord, b) <==> CoordinatorLaws.HoldsLane(s.coord, b) && b != batch
  {
    hide Live;
  }

  lemma {:induction false} ReleaseBooks(s: Sys, n: Sys, batch: u64)
    requires Books(s) && Releases(s, n, batch)
    ensures Books(n)
  {
    hide Awaited, Live;
    assert forall h: Root, b: u64 :: Of(n, h, b) <==> Of(s, h, b);
    forall h | h in n.net.works ensures WorkOk(n, h) { assert WorkOk(s, h); }
    forall b | b in n.submitting ensures SubmittingOk(n, b) {
      assert SubmittingOk(s, b);
      LanesAfterRelease(s, n, batch, b);
    }
    forall b | b in n.coord.batches ensures PackagedOk(n, b) {
      assert PackagedOk(s, b);
      LanesAfterRelease(s, n, batch, b);
    }
    forall key | key in n.world.b.pending ensures PendingOk(n, key) {
      assert PendingOk(s, key);
      assert !Of(s, key.hash, batch) || s.net.works[key.hash].failed;
    }
    forall key | key in n.world.b.predictions ensures PredictedOk(n, key) { assert PredictedOk(s, key); }
  }

  lemma {:induction false} ReleaseLink(s: Sys, n: Sys, batch: u64, other: u32, head: Root, chain: Root)
    requires Releases(s, n, batch) && LinkOk(s, other, head, chain)
    requires other == s.coord.batches[batch].service ==> head == chain
    ensures LinkOk(n, other, head, chain)
  {
    hide Placed;
    if other == s.coord.batches[batch].service {
      assert Lane(s, other) == Some(batch) && Lane(n, other) == None;
      assert forall h :: Live(n, h) <==> Live(s, h);
    } else {
      LinkFrame(s, n, other, head, chain);
    }
  }

  lemma {:induction false} ReleaseKeeps(env: Env, s: Sys, n: Sys, batch: u64)
    requires SysOk(env, s) && Releases(s, n, batch) && CoordinatorLaws.Inv(env.lim, n.coord)
    requires InStep(env, s, s.coord.batches[batch].service)
    ensures SysOk(env, n)
  {
    hide CoordinatorLaws.Inv, WorldOk, Books, LinkOk, HeadRoot, SameBatches, Live;
    ReleaseBooks(s, n, batch);
    forall other | other in n.world.b.registry.byId ensures Link(env, n, other) {
      assert Link(env, s, other);
      ReleaseLink(s, n, batch, other, HeadRoot(env.codec, s.world.b, other), ChainRoot(env, s, other));
    }
  }

  lemma {:induction false} RejectKeeps(env: Env, s: Sys, batch: u64, error: string)
    requires SysOk(env, s) && Undecided(s, batch)
    ensures SysOk(env, s.(coord := Coordination.Failed(s.coord, batch, error), submitting := s.submitting - {batch}))
  {
    hide CoordinatorLaws.Inv, WorldOk, HeadRoot, Books, Coordination.WithFailure, Placed, PackagedOk;
    PartsOk(env, s);
    UndecidedFacts(env, s, batch);
    LaneFacts(env, s, batch);
    CoordinatorLaws.FailKeeps(env.lim, s.coord, batch, error);
    var n := s.(coord := Coordination.Failed(s.coord, batch, error), submitting := s.submitting - {batch});
    assert Releases(s, n, batch);
    ReleaseKeeps(env, s, n, batch);
  }

  /** The package of a lane's batch is its only one; head and chain are where it puts them. */
  lemma {:induction false} LanePackage(env: Env, s: Sys, batch: u64)
    requires SysOk(env, s) && PackageKey(s, batch).Some? && CoordinatorLaws.HoldsLane(s.coord, batch)
    ensures var key := PackageKey(s, batch).value;
      && Of(s, key.hash, batch) && s.net.works[key.hash].service == key.service
      && key.service in s.world.b.registry.byId && Lane(s, key.service) == Some(batch)
      && !(s.net.works[key.hash].failed && s.net.works[key.hash].accumulated)
      && Awaited(s.world.b, key, s.net.works[key.hash].output)
      && Placed(s.net.works[key.hash], key in s.world.b.finalized,
                HeadRoot(env.codec, s.world.b, key.service), ChainRoot(env, s, key.service))
      && (forall h :: Of(s, h, batch) ==> h == key.hash)
      && batch !in s.submitting && !s.coord.batches[batch].materialized
  {
    hide CoordinatorLaws.Inv, WorldOk, HeadRoot, Placed, Awaited, PendingOk;
    LaneFacts(env, s, batch);
    var key := PackageKey(s, batch).value;
    assert WorkOk(s, key.hash);
    assert batch in s.submitting ==> SubmittingOk(s, batch);
    assert Fin(s, key.hash) <==> key in s.world.b.finalized;
  }

  lemma {:induction false} LanePending(env: Env, s: Sys, batch: u64, key: WorkKey)
    requires SysOk(env, s) && PackageKey(s, batch).Some? && CoordinatorLaws.HoldsLane(s.coord, batch)
    requires key in s.world.b.pending
    ensures Of(s, key.hash, batch) ==> key == PackageKey(s, batch).value && key !in s.world.b.finalized
  {
    hide CoordinatorLaws.Inv, WorldOk, HeadRoot, LinkOk, Awaited, Placed;
    LanePackage(env, s, batch);
    assert PendingOk(s, key);
  }

  lemma {:induction false} SettleReleases(env: Env, s: Sys, batch: u64)
    requires SysOk(env, s) && PackageKey(s, batch).Some? && PackageKey(s, batch).value in s.world.b.finalized
    requires CoordinatorLaws.HoldsLane(s.coord, batch)
    ensures Releases(s, Settled(s, batch), batch)
    ensures InStep(env, s, s.coord.batches[batch].service)
  {
    hide SysOk, CoordinatorLaws.Inv, WorldOk, Books, HeadRoot, Awaited;
    PartsOk(env, s);
    LanePackage(env, s, batch);
    assert s.submitting - {batch} == s.submitting;
    forall k | k in s.world.b.pending ensures !Of(s, k.hash, batch) { LanePending(env, s, batch, k); }
  }

  lemma {:induction false} SettleKeeps(env: Env, s: Sys, batch: u64)
    requires SysOk(env, s)
    ensures SysOk(env, Settled(s, batch))
  {
    hide SysOk, CoordinatorLaws.Inv, WorldOk, Books, InStep, Releases;
    var n, key := Settled(s, batch), PackageKey(s, batch);
    if key.Some? && key.value in s.world.b.finalized {
      PartsOk(env, s);
      CoordinatorLaws.MaterializeKeeps(env.lim, s.coord, batch);
      if CoordinatorLaws.HoldsLane(s.coord, batch) {
        SettleReleases(env, s, batch);
        ReleaseKeeps(env, s, n, batch);
      } else {
        CoordOnly(env, s, n);
      }
    }
  }

  lemma {:induction false} GiveUpReleases(env: Env, s: Sys, batch: u64, error: string)
    requires SysOk(env, s) && PackageKey(s, batch).Some? && CoordinatorLaws.HoldsLane(s.coord, batch)
    requires var hash := PackageKey(s, batch).value.hash; hash in s.net.works && s.net.works[hash].failed
    ensures Releases(s, GivenUp(s, batch, error), batch)
    ensures InStep(env, s, s.coord.batches[batch].service)
  {
    hide SysOk, CoordinatorLaws.Inv, WorldOk, Books, HeadRoot, Awaited, Coordination.WithFailure;
    PartsOk(env, s);
    LanePackage(env, s, batch);
    assert s.submitting - {batch} == s.submitting;
  }

  lemma {:induction false} GiveUpKeeps(env: Env, s: Sys, batch: u64, error: string)
    requires SysOk(env, s)
    ensures SysOk(env, GivenUp(s, batch, error))
  {
    hide SysOk, CoordinatorLaws.Inv, WorldOk, Books, InStep, Releases, Coordination.WithFailure;
    var n, key := GivenUp(s, batch, error), PackageKey(s, batch);
    if key.Some? && key.value.hash in s.net.works && s.net.works[key.value.hash].failed {
      PartsOk(env, s);
      CoordinatorLaws.FailKeeps(env.lim, s.coord, batch, error);
      if CoordinatorLaws.HoldsLane(s.coord, batch) {
        GiveUpReleases(env, s, batch, error);
        ReleaseKeeps(env, s, n, batch);
      } else {
        CoordOnly(env, s, n);
      }
    }
  }

  // ----- the coordinator hears of a submission -----

  lemma {:induction false} FinishBooks(s: Sys, batch: u64, hash: Root, output: Output)
    requires Books(s) && batch in s.submitting && s.submitting[batch] == Answered(hash, output)
    ensures Books(s.(coord := Coordination.Finished(s.coord, batch, hash, output),
      submitting := s.submitting - {batch}))
  {
    hide Awaited, Coordination.WithPackage;
    var n := s.(coord := Coordination.Finished(s.coord, batch, hash, output), submitting := s.submitting - {batch});
    assert SubmittingOk(s, batch);
    assert forall h: Root, b: u64 :: Of(n, h, b) <==> Of(s, h, b);
    forall h | h in n.net.works ensures WorkOk(n, h) { assert WorkOk(s, h); }
    forall b | b in n.submitting ensures SubmittingOk(n, b) { assert SubmittingOk(s, b); }
    forall b | b in n.coord.batches ensures PackagedOk(n, b) { assert PackagedOk(s, b); }
    forall key | key in n.world.b.pending ensures PendingOk(n, key) { assert PendingOk(s, key); }
    forall key | key in n.world.b.predictions ensures PredictedOk(n, key) { assert PredictedOk(s, key); }
  }

  lemma {:induction false} ConcludeKeeps(env: Env, s: Sys, batch: u64, error: string)
    requires SysOk(env, s)
    ensures SysOk(env, Concluded(s, batch, error))
  {
    hide CoordinatorLaws.Inv, WorldOk, HeadRoot, Books, LinkOk, Coordination.WithPackage, Coordination.WithUnknown;
    PartsOk(env, s);
    var n := Concluded(s, batch, error);
    if batch in s.submitting {
      match s.submitting[batch]
      case Deciding =>
      case Unanswered =>
        CoordinatorLaws.UnknownKeeps(env.lim, s.coord, batch, error);
        CoordOnly(env, s, n);
      case Answered(hash, output) =>
        CoordinatorLaws.FinishKeeps(env.lim, s.coord, batch, hash, output);
        FinishBooks(s, batch, hash, output);
        forall service | service in n.world.b.registry.byId ensures Link(env, n, service) {
          assert Link(env, s, service);
          LinkFrame(s, n, service, HeadRoot(env.codec, s.world.b, service), ChainRoot(env, s, service));
        }
    }
  }

  // ----- the network takes a package -----

  /** `n` is `s` after the network took `hash`: for an undecided batch, or around the coordinator. */
  ghost predicate Sends(s: Sys, n: Sys, service: u32, hash: Root, output: Output, batch: Option<u64>, answered: bool) {
    && hash !in s.net.works && service in s.world.b.registry.byId
    && n == Sent(s, service, hash, output, batch, answered).(submitting := n.submitting)
    && match batch
       case None => n.submitting == s.submitting && NoChange(output)
       case Some(b) =>
         && Undecided(s, b) && s.coord.batches[b].service == service
         && n.submitting == s.submitting[b := if answered then Answered(hash, output) else Unanswered]
  }

  lemma {:induction false} SendOf(s: Sys, n: Sys, service: u32, hash: Root, output: Output, batch: Option<u64>,
                                  answered: bool)
    requires Sends(s, n, service, hash, output, batch, answered)
    ensures forall h: Root, b: u64 :: Of(n, h, b) <==> Of(s, h, b) || (h == hash && batch == Some(b))
    ensures forall h :: h != hash ==> (Live(n, h) <==> Live(s, h))
    ensures forall h :: h in s.net.works ==>
      h in n.net.works && n.net.works[h] == s.net.works[h] && Fin(n, h) == Fin(s, h)
    ensures !Of(s, hash, 0) && !Live(s, hash)
    ensures NoChange(output) ==> !Live(n, hash)
  {
  }

  lemma {:induction false} SendWorks(env: Env, s: Sys, n: Sys, service: u32, hash: Root, output: Output,
                                     batch: Option<u64>, answered: bool)
    requires Books(s) && Sends(s, n, service, hash, output, batch, answered)
    ensures forall h :: h in n.net.works ==> WorkOk(n, h)
    ensures OneWorkEach(n)
    ensures forall key :: key in n.world.b.finalized ==> key.hash in n.net.works && key.hash != hash
    ensures forall key :: key in n.world.b.predictions ==> PredictedOk(n, key)
  {
    hide Awaited, SubmittingOk, PackagedOk, PendingOk;
    SendOf(s, n, service, hash, output, batch, answered);
    forall h | h in n.net.works ensures WorkOk(n, h) {
      if h != hash { assert WorkOk(s, h); }
    }
    forall key | key in n.world.b.predictions ensures PredictedOk(n, key) {
      if key.hash != hash || key.service != service { assert PredictedOk(s, key); }
    }
    assert OneWorkEach(n) by {
      if batch.Some? {
        hide Books;
        UndecidedFacts(env, s, batch.value);
      }
    }
  }

  lemma {:induction false} SendBatches(env: Env, s: Sys, n: Sys, service: u32, hash: Root, output: Output,
                                       batch: Option<u64>, answered: bool)
    requires Books(s) && Sends(s, n, service, hash, output, batch, answered)
    ensures forall b :: b in n.submitting ==> SubmittingOk(n, b)
    ensures forall b :: b in n.coord.batches ==> PackagedOk(n, b)
  {
    hide WorkOk, OneWorkEach, PendingOk, PredictedOk;
    forall b | b in n.submitting ensures SubmittingOk(n, b) { assert SubmittingOk(s, b); }
    forall b | b in n.coord.batches ensures PackagedOk(n, b) { assert PackagedOk(s, b); }
  }

  lemma {:induction false} SendPending(env: Env, s: Sys, n: Sys, service: u32, hash: Root, output: Output,
                                       batch: Option<u64>, answered: bool, key: WorkKey)
    requires Books(s) && Sends(s, n, service, hash, output, batch, answered) && key in n.world.b.pending
    ensures PendingOk(n, key)
  {
    hide WorkOk, OneWorkEach, SubmittingOk, PackagedOk, PredictedOk;
    if batch.Some? { UndecidedFacts(env, s, batch.value); }
    assert key in s.world.b.pending ==> PendingOk(s, key);
  }

  lemma {:induction false} SendBooks(env: Env, s: Sys, n: Sys, service: u32, hash: Root, output: Output,
                                     batch: Option<u64>, answered: bool)
    requires Books(s) && Sends(s, n, service, hash, output, batch, answered)
    ensures Books(n)
  {
    hide WorkOk, OneWorkEach, SubmittingOk, PackagedOk, PendingOk, PredictedOk;
    SendWorks(env, s, n, service, hash, output, batch, answered);
    SendBatches(env, s, n, service, hash, output, batch, answered);
    forall key | key in n.world.b.pending ensures PendingOk(n, key) {
      SendPending(env, s, n, service, hash, output, batch, answered, key);
    }
  }

  lemma {:induction false} SendLink(env: Env, s: Sys, n: Sys, service: u32, hash: Root, output: Output,
                                    batch: Option<u64>, answered: bool, other: u32, head: Root, chain: Root)
    requires Books(s) && Sends(s, n, service, hash, output, batch, answered) && LinkOk(s, other, head, chain)
    requires batch.Some? ==> (Lane(s, other) == batch <==> other == service)
    requires other == service ==> head == chain == output.parentRoot
    ensures LinkOk(n, other, head, chain)
  {
    hide Books, Sends, Placed, Live, Of, Undecided;
    SendOf(s, n, service, hash, output, batch, answered);
    SendFacts(s, n, service, hash, output, batch, answered);
    LiveIsWork(n);
    LiveIsWork(s);
    OfIsWork(n);
    OfIsWork(s);
    SendPlaced(env, s, n, service, hash, output, batch, answered);
    if batch.Some? && Lane(s, other) == batch { SendFirst(env, s, n, service, hash, output, batch, answered); }
  }

  lemma {:induction false} LiveIsWork(s: Sys)
    ensures forall h :: Live(s, h) ==> h in s.net.works
  {
  }

  lemma {:induction false} OfIsWork(s: Sys)
    ensures forall h: Root, b: u64 :: Of(s, h, b) ==> h in s.net.works
  {
  }

  lemma {:induction false} SendFacts(s: Sys, n: Sys, service: u32, hash: Root, output: Output, batch: Option<u64>,
                                     answered: bool)
    requires Sends(s, n, service, hash, output, batch, answered)
    ensures n.world.b.registry == s.world.b.registry && n.world.b.slots == s.world.b.slots && n.coord == s.coord
    ensures n.net.roots == s.net.roots && hash in n.net.works && hash !in s.net.works
    ensures n.net.works[hash] == Work(s.epoch, service, output, batch, false, false)
    ensures batch.None? ==> NoChange(output)
  {
  }

  /** A new package is not materialized: it starts where head and chain are. */
  lemma {:induction false} SendPlaced(env: Env, s: Sys, n: Sys, service: u32, hash: Root, output: Output,
                                      batch: Option<u64>, answered: bool)
    requires Books(s) && Sends(s, n, service, hash, output, batch, answered)
    ensures hash in n.net.works
    ensures forall root :: root == output.parentRoot ==> Placed(n.net.works[hash], Fin(n, hash), root, root)
  {
    hide WorkOk, OneWorkEach, SubmittingOk, PackagedOk, PendingOk, PredictedOk;
    SendWorks(env, s, n, service, hash, output, batch, answered);
    assert !Fin(n, hash);
  }

  lemma {:induction false} SendFirst(env: Env, s: Sys, n: Sys, service: u32, hash: Root, output: Output,
                                     batch: Option<u64>, answered: bool)
    requires Books(s) && Sends(s, n, service, hash, output, batch, answered) && batch.Some?
    ensures forall h :: !Of(s, h, batch.value)
  {
    hide Books;
    UndecidedFacts(env, s, batch.value);
  }

  lemma {:induction false} SameHead(c: Codec, b: Backend, n: Backend, id: u32)
    requires n.registry == b.registry && n.slots == b.slots && id in b.registry.byId
    ensures HeadRoot(c, n, id) == HeadRoot(c, b, id)
  {
  }

  lemma {:induction false} SendKeeps(env: Env, s: Sys, n: Sys, service: u32, hash: Root, output: Output,
                                     batch: Option<u64>, answered: bool)
    requires SysOk(env, s) && Sends(s, n, service, hash, output, batch, answered)
    requires Sendable(env, s, service, hash, output)
    ensures SysOk(env, n)
  {
    hide CoordinatorLaws.Inv, WorldOk, Books, LinkOk, HeadRoot, Sends;
    SendFacts(s, n, service, hash, output, batch, answered);
    SendBooks(env, s, n, service, hash, output, batch, answered);
    assert WorldOk(env.codec, env.retention, n.world) by {
      SendWorld(env, s, n, service, hash, output, batch, answered);
    }
    forall other | other in n.world.b.registry.byId ensures Link(env, n, other) {
      assert Link(env, s, other);
      SameHead(env.codec, s.world.b, n.world.b, other);
      if batch.Some? { SendLane(env, s, n, service, hash, output, batch, answered, other); }
      SendLink(env, s, n, service, hash, output, batch, answered, other,
               HeadRoot(env.codec, s.world.b, other), ChainRoot(env, s, other));
    }
  }

  lemma {:induction false} SendWorld(env: Env, s: Sys, n: Sys, service: u32, hash: Root, output: Output,
                                     batch: Option<u64>, answered: bool)
    requires WorldOk(env.codec, env.retention, s.world) && Sends(s, n, service, hash, output, batch, answered)
    ensures WorldOk(env.codec, env.retention, n.world)
  {
    hide WorldOk;
    BackendRuns.BookkeepingKeeps(env.codec, env.retention, s.world, Tracked(s.world.b, WorkKey(service, hash), output));
  }

  lemma {:induction false} SendLane(env: Env, s: Sys, n: Sys, service: u32, hash: Root, output: Output,
                                    batch: Option<u64>, answered: bool, other: u32)
    requires SysOk(env, s) && Sends(s, n, service, hash, output, batch, answered) && batch.Some?
    ensures Lane(s, other) == batch <==> other == service
  {
    hide SysOk;
    PartsOk(env, s);
    hide Books;
    UndecidedFacts(env, s, batch.value);
    if Lane(s, other) == batch { LaneIsOwn(env, s, batch.value, other); }
  }

  lemma {:induction false} AcceptKeeps(env: Env, s: Sys, batch: u64, hash: Root, output: Output)
    requires SysOk(env, s)
    ensures SysOk(env, Accepted(env, s, batch, hash, output))
  {
    hide SysOk, HeadRoot, Tracked;
    if Undecided(s, batch) && Sendable(env, s, s.coord.batches[batch].service, hash, output) {
      SendKeeps(env, s, Accepted(env, s, batch, hash, output), s.coord.batches[batch].service, hash, output,
                Some(batch), true);
    }
  }

  lemma {:induction false} LoseKeeps(env: Env, s: Sys, batch: u64, taken: Option<Root>, output: Output)
    requires SysOk(env, s)
    ensures SysOk(env, Lost(env, s, batch, taken, output))
  {
    hide SysOk, HeadRoot, Tracked;
    if Undecided(s, batch) {
      if taken.None? {
        NoAnswerKeeps(env, s, batch);
      } else if Sendable(env, s, s.coord.batches[batch].service, taken.value, output) {
        SendKeeps(env, s, Lost(env, s, batch, taken, output), s.coord.batches[batch].service, taken.value, output,
                  Some(batch), false);
      }
    }
  }

  lemma {:induction false} NoAnswerBooks(s: Sys, batch: u64)
    requires Books(s) && Undecided(s, batch)
    ensures Books(s.(submitting := s.submitting[batch := Unanswered]))
  {
    hide Awaited;
    var n := s.(submitting := s.submitting[batch := Unanswered]);
    assert forall h: Root, b: u64 :: Of(n, h, b) <==> Of(s, h, b);
    forall h | h in n.net.works ensures WorkOk(n, h) { assert WorkOk(s, h); }
    forall b | b in n.submitting ensures SubmittingOk(n, b) { assert SubmittingOk(s, b); }
    forall b | b in n.coord.batches ensures PackagedOk(n, b) { assert PackagedOk(s, b); }
    forall key | key in n.world.b.pending ensures PendingOk(n, key) { assert PendingOk(s, key); }
    forall key | key in n.world.b.predictions ensures PredictedOk(n, key) { assert PredictedOk(s, key); }
  }

  lemma {:induction false} NoAnswerKeeps(env: Env, s: Sys, batch: u64)
    requires SysOk(env, s) && Undecided(s, batch)
    ensures SysOk(env, s.(submitting := s.submitting[batch := Unanswered]))
  {
    hide CoordinatorLaws.Inv, WorldOk, Books, LinkOk, HeadRoot;
    var n := s.(submitting := s.submitting[batch := Unanswered]);
    NoAnswerBooks(s, batch);
    forall service | service in n.world.b.registry.byId ensures Link(env, n, service) {
      assert Link(env, s, service);
      LinkFrame(s, n, service, HeadRoot(env.codec, s.world.b, service), ChainRoot(env, s, service));
    }
  }

  /** A package sent around the coordinator keeps the simulation if and only if it changes nothing:
      otherwise something outside the lanes can move the chain. */
  lemma {:induction false} SubmitWorkKeepsIff(env: Env, s: Sys, service: u32, hash: Root, output: Output,
                                              answered: bool)
    requires SysOk(env, s) && Sendable(env, s, service, hash, output)
    ensures SysOk(env, Sent(s, service, hash, output, None, answered)) <==> NoChange(output)
  {
    hide CoordinatorLaws.Inv, WorldOk, Books, HeadRoot, Placed;
    var n := Sent(s, service, hash, output, None, answered);
    if NoChange(output) {
      hide SysOk;
      SendKeeps(env, s, n, service, hash, output, None, answered);
    } else {
      assert Live(n, hash) && n.net.works[hash].service == service && forall b :: !Of(n, hash, b);
      assert service in n.world.b.registry.byId;
      assert !Link(env, n, service);
    }
  }
}
