/** Whole runs of the system: exactly when the head simulates the chain, and what follows. */
module SystemRuns {
  import opened Wrappers
  import opened Bytes
  import opened Outputs
  import opened Provider
  import opened Registries
  import opened Database
  import opened BackendStates
  import opened BackendLaws
  import opened Systems
  import opened SystemLaws
  import opened SystemSteps
  import Coordination
  import CoordinatorLaws
  import CoordinatorRuns
  import BackendRuns
  import Accumulate

  // ----- every step -----

  /** What keeps the simulation: all steps do, except a registration, a restart or a package sent around the
      coordinator at the wrong moment. */
  ghost predicate Safe(env: Env, s: Sys, step: Step) {
    match step
    case Register(record) =>
      Registered(s.world.b.registry, record).Ok? ==>
        record.service in s.world.b.registry.byId || ChainRoot(env, s, record.service) == env.codec.root(map[])
    case SubmitWork(service, hash, output, _) => Sendable(env, s, service, hash, output) ==> NoChange(output)
    case Restart(ids) => s.world.db.Some? && BackendRuns.ReadsAll(s.world, ids) ==> AtRest(env, s)
    case _ => true
  }

  lemma {:induction false} CoordinatorStep(env: Env, s: Sys, step: Step)
    requires SysOk(env, s) && (step.Enqueue? || step.MarkBest? || step.Dispatch?)
    ensures SysOk(env, Apply(env, s, step))
  {
    hide SysOk, CoordinatorLaws.Inv, WorldOk, Books, Dispatched, CoordinatorLaws.SameShape, Coordination.PendingFor,
      Coordination.NextId;
    PartsOk(env, s);
    var n := Apply(env, s, step);
    match step
    case Enqueue(service, r, now) =>
      if Coordination.HasRoom(env.lim, s.coord, service, r.sender) && CoordinatorLaws.CountersLeft(s.coord, service) {
        CoordinatorLaws.EnqueueKeeps(env.lim, s.coord, service, r, now);
        CoordOnly(env, s, n);
      }
    case MarkBest(id) =>
      CoordinatorLaws.BestKeeps(env.lim, s.coord, id);
      CoordOnly(env, s, n);
    case Dispatch(service, expected, slot, now) => DispatchKeeps(env, s, service, expected, slot, now);
  }

  /** A step keeps the simulation if and only if it is safe. */
  lemma {:induction false} StepKeepsIff(env: Env, s: Sys, step: Step)
    requires SysOk(env, s) && CollisionFree(env.codec.root)
    ensures SysOk(env, Apply(env, s, step)) <==> Safe(env, s, step)
  {
    hide SysOk, CollisionFree, Accepted, Lost, Sent, Concluded, Accumulated, Observed, Settled, GivenUp, Sendable,
      Coordination.Failed, Registered, Restored, AtRest, NoChange;
    match step
    case Register(record) =>
      if Registered(s.world.b.registry, record).Ok? { RegisterKeepsIff(env, s, record); }
    case Enqueue(_, _, _) => CoordinatorStep(env, s, step);
    case MarkBest(_) => CoordinatorStep(env, s, step);
    case Dispatch(_, _, _, _) => CoordinatorStep(env, s, step);
    case Reject(batch, error) =>
      if Undecided(s, batch) { RejectKeeps(env, s, batch, error); }
    case Accept(batch, hash, output) => AcceptKeeps(env, s, batch, hash, output);
    case Lose(batch, taken, output) => LoseKeeps(env, s, batch, taken, output);
    case Conclude(batch, error) => ConcludeKeeps(env, s, batch, error);
    case SubmitWork(service, hash, output, answered) =>
      if Sendable(env, s, service, hash, output) { SubmitWorkKeepsIff(env, s, service, hash, output, answered); }
    case AccumulateWork(hash, tick, services) => AccumulateKeeps(env, s, hash, tick, services);
    case ReportFailed(hash) => ReportKeeps(env, s, hash);
    case Status(key, context, written) => ObserveKeeps(env, s, key, context, written);
    case Settle(batch) => SettleKeeps(env, s, batch);
    case GiveUp(batch, error) => GiveUpKeeps(env, s, batch, error);
    case Snapshot(service, output) => BestSnapshotKeeps(env, s, service, output);
    case Restart(ids) =>
      if s.world.db.Some? && BackendRuns.ReadsAll(s.world, ids) { RestartKeepsIff(env, s, ids); }
  }

  // ----- runs -----

  /** Nothing has been registered; the chain may hold any commitments. */
  function Initial(durable: bool, roots: map<u32, Root>): Sys {
    Sys(Coordination.INITIAL, World(FRESH, if durable then Some(BackendRuns.EMPTY_DB) else None), Net(roots, map[]),
        map[], 0)
  }

  lemma {:induction false} InitialOk(env: Env, durable: bool, roots: map<u32, Root>)
    requires env.lim.Valid() && env.retention > 0
    ensures SysOk(env, Initial(durable, roots))
  {
    hide WorldOk, CoordinatorLaws.Inv;
    CoordinatorRuns.InitialOk(env.lim);
    BackendRuns.InitialOk(env.codec, env.retention);
  }

  ghost predicate SafeRun(env: Env, s: Sys, steps: seq<Step>) {
    steps == [] ||
    var init := steps[..|steps| - 1];
    SafeRun(env, s, init) && Safe(env, Run(env, s, init), steps[|steps| - 1])
  }

  /** The simulation holds in every state of the run. */
  ghost predicate Simulates(env: Env, s: Sys, steps: seq<Step>) {
    SysOk(env, Run(env, s, steps)) && (steps == [] || Simulates(env, s, steps[..|steps| - 1]))
  }

  /** The head simulates the chain throughout a run if and only if every step of the run is safe: any
      interleaving of requests, dispatches, lost and received answers, chain progress, failure reports,
      status checks by anyone about any package, reconciliations, registrations and restarts. */
  lemma {:induction false} RunKeepsIff(env: Env, durable: bool, roots: map<u32, Root>, steps: seq<Step>)
    requires env.lim.Valid() && env.retention > 0 && CollisionFree(env.codec.root)
    ensures Simulates(env, Initial(durable, roots), steps) <==> SafeRun(env, Initial(durable, roots), steps)
  {
    hide SysOk, Apply, CollisionFree, Safe, Initial;
    if steps == [] {
      InitialOk(env, durable, roots);
    } else {
      var init := steps[..|steps| - 1];
      RunKeepsIff(env, durable, roots, init);
      if SafeRun(env, Initial(durable, roots), init) {
        StepKeepsIff(env, Run(env, Initial(durable, roots), init), steps[|steps| - 1]);
      }
    }
  }

  /** Where head and chain differ, the chain is exactly one transition ahead, by the one package of the
      batch that holds the service's lane; where the lane is free they agree. */
  lemma {:induction false} HeadTrailsByOne(env: Env, durable: bool, roots: map<u32, Root>, steps: seq<Step>,
                                           service: u32)
    requires env.lim.Valid() && env.retention > 0 && CollisionFree(env.codec.root)
    requires SafeRun(env, Initial(durable, roots), steps)
    requires service in Run(env, Initial(durable, roots), steps).world.b.registry.byId
    ensures var s := Run(env, Initial(durable, roots), steps);
      && (Lane(s, service) == None ==> InStep(env, s, service))
      && (InStep(env, s, service) || exists h :: Ahead(env, s, service, h))
  {
    hide Run, CollisionFree, SysOk, Safe, Initial, InStep;
    RunKeepsIff(env, durable, roots, steps);
    TrailsByOne(env, Run(env, Initial(durable, roots), steps), service);
  }

  /** The lane's package has moved the chain and not yet the head. */
  ghost predicate Ahead(env: Env, s: Sys, service: u32, h: Root) {
    && Lane(s, service).Some? && Of(s, h, Lane(s, service).value) && s.net.works[h].accumulated && !Fin(s, h)
    && InHead(env, s, service, s.net.works[h].output.parentRoot)
    && ChainRoot(env, s, service) == s.net.works[h].output.newRoot
  }

  lemma {:induction false} TrailsByOne(env: Env, s: Sys, service: u32)
    requires SysOk(env, s) && service in s.world.b.registry.byId
    ensures Lane(s, service) == None ==> InStep(env, s, service)
    ensures InStep(env, s, service) || exists h :: Ahead(env, s, service, h)
  {
    hide HeadRoot, CoordinatorLaws.Inv, WorldOk, Books;
    PartsOk(env, s);
    assert Link(env, s, service);
    if !InStep(env, s, service) {
      var b := Lane(s, service).value;
      var h :| Of(s, h, b);
      assert Placed(s.net.works[h], Fin(s, h), HeadRoot(env.codec, s.world.b, service), ChainRoot(env, s, service));
      assert Ahead(env, s, service, h);
    }
  }

  // ----- catching up -----

  lemma {:induction false} Materializes(env: Env, s: Sys, key: WorkKey)
    requires key in s.world.b.pending && key.service in s.world.b.registry.byId && key.service in s.net.roots
    requires s.net.roots[key.service] == s.world.b.pending[key].newRoot && s.world.b.corrupt == {}
    requires Follow(env.codec, SlotOf(s.world.b.slots, KeyOf(s.world.b, key.service)), s.world.b.pending[key]).Ok?
    requires SequenceOf(s.world.b, key.service) < U64_MAX
    ensures var r := MaterializedIfCanonical(env.codec, env.retention, s.world, key, s.net.roots[key.service], true);
      r.Ok? && key in r.value.0.b.finalized
  {
    hide Follow, Inserted, Committed;
  }

  lemma {:induction false} PolledIsFinal(env: Env, s: Sys, batch: u64, context: Context)
    requires SysOk(env, s) && PackageKey(s, batch).Some? && CoordinatorLaws.HoldsLane(s.coord, batch)
    requires var key := PackageKey(s, batch).value;
      && key.service in s.net.roots && key.hash in s.net.works && s.net.works[key.hash].accumulated
      && key.service in s.world.b.registry.byId
      && (key !in s.world.b.finalized ==>
            && SequenceOf(s.world.b, key.service) < U64_MAX
            && Follow(env.codec, SlotOf(s.world.b.slots, KeyOf(s.world.b, key.service)),
                  s.net.works[key.hash].output).Ok?)
    ensures var key, n := PackageKey(s, batch).value, Observed(env, s, PackageKey(s, batch).value, context, true);
      key in n.world.b.finalized && n == s.(world := n.world)
  {
    hide SysOk, HeadRoot, Follow, CommittedRecovery, CoordinatorLaws.Inv, WorldOk, Books;
    PartsOk(env, s);
    LanePackage(env, s, batch);
    var key := PackageKey(s, batch).value;
    NeverStale(env, s, key.hash, batch);
    var seen := Noted(s, key.service, context);
    if key !in s.world.b.finalized {
      Materializes(env, seen, key);
    } else {
      Unpending(env, s, key);
    }
  }

  lemma {:induction false} Unpending(env: Env, s: Sys, key: WorkKey)
    requires SysOk(env, s) && key in s.world.b.finalized
    ensures key !in s.world.b.pending
  {
    hide CoordinatorLaws.Inv, WorldOk, Link, PackagedOk, SubmittingOk, WorkOk;
    assert key in s.world.b.pending ==> PendingOk(s, key);
  }

  /** Once the chain has taken a lane's package and its payload leads where it says, one status check whose
      write succeeds and one look of the coordinator bring the head to the chain and free the lane. */
  lemma {:induction false} ReconcileCatchesUp(env: Env, s: Sys, batch: u64, context: Context)
    requires SysOk(env, s) && CollisionFree(env.codec.root)
    requires PackageKey(s, batch).Some? && CoordinatorLaws.HoldsLane(s.coord, batch)
    requires var key := PackageKey(s, batch).value;
      && key.service in s.net.roots && key.hash in s.net.works && s.net.works[key.hash].accumulated
      && key.service in s.world.b.registry.byId
      && (key !in s.world.b.finalized ==>
            && SequenceOf(s.world.b, key.service) < U64_MAX
            && Follow(env.codec, SlotOf(s.world.b.slots, KeyOf(s.world.b, key.service)),
                  s.net.works[key.hash].output).Ok?)
    ensures var key := PackageKey(s, batch).value;
      var n := Run(env, s, [Status(key, context, true), Settle(batch)]);
      && Lane(n, key.service) == None && InStep(env, n, key.service)
      && ChainRoot(env, n, key.service) == ChainRoot(env, s, key.service)
  {
    hide SysOk, CollisionFree, Observed, Follow, HeadRoot, InStep, LinkOk, Run;
    var key := PackageKey(s, batch).value;
    var m := Observed(env, s, key, context, true);
    PolledIsFinal(env, s, batch, context);
    ObserveKeeps(env, s, key, context, true);
    assert PackageKey(m, batch) == Some(key) && CoordinatorLaws.HoldsLane(m.coord, batch);
    SettleReleases(env, m, batch);
    SettleKeeps(env, m, batch);
    var n := Settled(m, batch);
    RunTwo(env, s, Status(key, context, true), Settle(batch));
    assert Lane(n, key.service) == None;
    LaneRegistered(env, m, batch);
    TrailsByOne(env, n, key.service);
  }

  lemma {:induction false} LaneRegistered(env: Env, s: Sys, batch: u64)
    requires SysOk(env, s) && batch in s.coord.batches && CoordinatorLaws.HoldsLane(s.coord, batch)
    ensures s.coord.batches[batch].service in s.world.b.registry.byId
  {
    hide SysOk, Link, PackagedOk;
    LaneFacts(env, s, batch);
  }

  lemma {:induction false} RunTwo(env: Env, s: Sys, first: Step, second: Step)
    ensures Run(env, s, [first, second]) == Apply(env, Apply(env, s, first), second)
  {
    hide Apply;
    assert [first, second][..1] == [first] && [first][..0] == [];
    assert Run(env, s, []) == s && Run(env, s, [first]) == Apply(env, s, first);
  }

  // ----- stale predictions -----

  /** A status check that calls a prediction stale is not about a lane's package, and all it does is to stop
      that prediction pending; for a package that was materialized it does nothing. */
  lemma {:induction false} StaleIsHarmless(env: Env, s: Sys, key: WorkKey, context: Context, written: bool)
    requires SysOk(env, s) && key.service in s.net.roots && key.hash in s.net.works && !s.net.works[key.hash].failed
    requires Verdict(s, key).Err?
    ensures Lane(s, key.service).Some? ==> !Of(s, key.hash, Lane(s, key.service).value)
    ensures var n := Observed(env, s, key, context, written);
      && n == s.(world := s.world.(b := s.world.b.(pending := s.world.b.pending - {key})))
      && (key in s.world.b.finalized ==> n == s)
  {
    hide SysOk, MaterializedIfCanonical;
    if Lane(s, key.service).Some? && Of(s, key.hash, Lane(s, key.service).value) {
      PredictedService(env, s, key);
      NeverStale(env, s, key.hash, Lane(s, key.service).value);
    }
    if key in s.world.b.finalized {
      Unpending(env, s, key);
      assert s.world.b.pending - {key} == s.world.b.pending;
    }
  }

  lemma {:induction false} PredictedService(env: Env, s: Sys, key: WorkKey)
    requires SysOk(env, s) && key in s.world.b.predictions
    ensures key.hash in s.net.works && s.net.works[key.hash].service == key.service
  {
    hide CoordinatorLaws.Inv, WorldOk, Link, PackagedOk, SubmittingOk, WorkOk, PendingOk;
    assert PredictedOk(s, key);
  }

  /** Helper: predictions of settled packages are kept, and the next transition to a third root makes them
      stale. */
  lemma {:induction false} SettledGoesStale(env: Env, s: Sys, key: WorkKey, next: Root, tick: u64,
                                            services: u32 -> Accumulate.Read)
    requires key in s.world.b.predictions && next in s.net.works && s.net.works[next].service == key.service
    requires Accumulated(env, s, next, tick, services) != s
    ensures var n := Accumulated(env, s, next, tick, services);
      && key.service in n.net.roots
      && (Verdict(n, key) == Err(PredictionStale) <==>
            s.net.works[next].output.newRoot != s.world.b.predictions[key].parentRoot &&
            s.net.works[next].output.newRoot != s.world.b.predictions[key].newRoot)
  {
    hide Accumulate.Accepts;
  }

  // ----- what goes wrong without the condition -----

  /** After a restart with a package that can still move the chain, its service looks idle: the lane is free,
      the head is what it was, and nothing remembers the package. */
  lemma {:induction false} RestartForgets(env: Env, s: Sys, ids: seq<u32>, hash: Root)
    requires SysOk(env, s) && CollisionFree(env.codec.root) && Live(s, hash)
    requires s.world.db.Some? && BackendRuns.ReadsAll(s.world, ids)
    ensures var n, service := Restarted(env, s, ids), s.net.works[hash].service;
      && !SysOk(env, n) && Live(n, hash) && Lane(n, service) == None
      && (InStep(env, n, service) <==> InStep(env, s, service))
      && WorkKey(service, hash) !in n.world.b.pending
  {
    hide SysOk, HeadRoot, Restarted, CollisionFree, CoordinatorLaws.Inv, WorldOk, Books, Live;
    PartsOk(env, s);
    LiveIsWork(s);
    RunsBounded(s);
    RestartFacts(env, s, ids);
    RestartKeepsIff(env, s, ids);
    SameLives(s, Restarted(env, s, ids));
  }

  /** With a package outside the lane that can move the chain, the next batch is submitted at the same root.
      When the chain then takes the first package, the batch's prediction is stale, the head is left behind and
      nothing can be submitted any more. */
  lemma {:induction false} SecondPackageStrands(env: Env, s: Sys, first: Root, batch: u64, hash: Root, output: Output,
                                                tick: u64, services: u32 -> Accumulate.Read)
    requires Undecided(s, batch) && Live(s, first) && s.net.works[first].service == s.coord.batches[batch].service
    requires Sendable(env, s, s.coord.batches[batch].service, hash, output)
    requires Accumulate.Accepts(HeaderOf(s.net.works[first].output), output.parentRoot, tick, services)
    requires s.net.works[first].output.newRoot != output.newRoot
    ensures var service := s.coord.batches[batch].service;
      var n := Run(env, s, [Accept(batch, hash, output), AccumulateWork(first, tick, services)]);
      && service in n.net.roots && Verdict(n, WorkKey(service, hash)) == Err(PredictionStale)
      && !InStep(env, n, service)
  {
    hide Accumulate.DependenciesHold, HeadRoot;
    var service := s.coord.batches[batch].service;
    RunTwo(env, s, Accept(batch, hash, output), AccumulateWork(first, tick, services));
    var m := Accepted(env, s, batch, hash, output);
    SameHead(env.codec, s.world.b, m.world.b, service);
  }
}
