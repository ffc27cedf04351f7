/** Coordinator, backend and chain together: the backend's head simulates the chain's commitment. */
module Systems {
  import opened Wrappers
  import opened Bytes
  import opened Outputs
  import opened Transactions
  import opened Scheduler
  import opened Registries
  import opened Database
  import opened BackendStates
  import opened BackendLaws
  import Coordination
  import CoordinatorLaws
  import BackendRuns
  import Accumulate

  /** A work package the network took over, and what became of it: in which run of the process it was
      submitted, and for which batch; packages sent around the coordinator have none. */
  datatype Work = Work(run: nat, service: u32, output: Output, batch: Option<u64>, accumulated: bool, failed: bool)

  /** The chain as the backend sees it: one commitment per service, and the packages in the network. */
  datatype Net = Net(roots: map<u32, Root>, works: map<Root, Work>)

  /** How far the dispatcher is with a batch it has taken: the network has not answered, or has, or its
      answer was lost.  The coordinator hears of it in a later step. */
  datatype Stage = Deciding | Answered(hash: Root, output: Output) | Unanswered

  /** `epoch` counts restarts. */
  datatype Sys = Sys(coord: Coordination.State, world: World, net: Net, submitting: map<u64, Stage>, epoch: nat)

  datatype Env = Env(codec: Codec, retention: nat, lim: Coordination.Limits)

  function ChainRoot(env: Env, s: Sys, service: u32): Root {
    if service in s.net.roots then s.net.roots[service] else env.codec.root(map[])
  }

  datatype Step =
    | Register(record: Record)
    | Enqueue(service: u32, request: Coordination.Request, now: nat)
    | MarkBest(id: TxId)
    | Dispatch(service: u32, expected: Nonces, slot: u64, now: nat)
    | Reject(batch: u64, error: string)
    | Accept(batch: u64, hash: Root, output: Output)
    | Lose(batch: u64, taken: Option<Root>, output: Output)
    | Conclude(batch: u64, error: string)
    | SubmitWork(service: u32, hash: Root, output: Output, answered: bool)
    | AccumulateWork(hash: Root, tick: u64, services: u32 -> Accumulate.Read)
    | ReportFailed(hash: Root)
    | Status(key: WorkKey, context: Context, written: bool)
    | Settle(batch: u64)
    | GiveUp(batch: u64, error: string)
    | Snapshot(service: u32, output: Output)
    | Restart(ids: seq<u32>)

  /** The service is registered and its head is the chain's commitment: checked before expected nonces
      are read and again before anything is submitted. */
  predicate InStep(env: Env, s: Sys, service: u32) {
    service in s.world.b.registry.byId && service !in s.world.b.corrupt &&
    HeadRoot(env.codec, s.world.b, service) == ChainRoot(env, s, service)
  }

  function HeaderOf(o: Output): Accumulate.Header {
    Accumulate.Header(o.parentRoot, o.newRoot, o.dependencies, o.validUntil)
  }

  function Dispatched(env: Env, s: Sys, service: u32, expected: Nonces, slot: u64, now: nat): Sys {
    if !InStep(env, s, service) || s.coord.nextBatch == U64_MAX then s
    else
      var (coord, sub) := Coordination.Taken(env.lim, s.coord, service, expected, slot, now);
      s.(coord := coord,
         submitting := if sub.Some? then s.submitting[sub.value.batch := Deciding] else s.submitting)
  }

  /** `submit_actions` reaches the network only when the head was found to be the chain's commitment and
      the prediction starts there. */
  predicate Sendable(env: Env, s: Sys, service: u32, hash: Root, output: Output) {
    InStep(env, s, service) && output.parentRoot == ChainRoot(env, s, service) && hash !in s.net.works
  }

  predicate Undecided(s: Sys, batch: u64) {
    batch in s.submitting && s.submitting[batch] == Deciding && batch in s.coord.batches
  }

  /** The network has a package more; the backend tracks it when it saw the answer. */
  function Sent(s: Sys, service: u32, hash: Root, output: Output, batch: Option<u64>, answered: bool): Sys {
    s.(net := s.net.(works := s.net.works[hash := Work(s.epoch, service, output, batch, false, false)]),
       world := if answered then s.world.(b := Tracked(s.world.b, WorkKey(service, hash), output)) else s.world)
  }

  function Accepted(env: Env, s: Sys, batch: u64, hash: Root, output: Output): Sys {
    if !Undecided(s, batch) || !Sendable(env, s, s.coord.batches[batch].service, hash, output) then s
    else
      Sent(s, s.coord.batches[batch].service, hash, output, Some(batch), true)
        .(submitting := s.submitting[batch := Answered(hash, output)])
  }

  /** The answer was lost; the network may or may not have the package. */
  function Lost(env: Env, s: Sys, batch: u64, taken: Option<Root>, output: Output): Sys {
    if !Undecided(s, batch) then s
    else if taken.None? then s.(submitting := s.submitting[batch := Unanswered])
    else if !Sendable(env, s, s.coord.batches[batch].service, taken.value, output) then s
    else
      Sent(s, s.coord.batches[batch].service, taken.value, output, Some(batch), false)
        .(submitting := s.submitting[batch := Unanswered])
  }

  /** The dispatcher tells the coordinator what came of the submission. */
  function Concluded(s: Sys, batch: u64, error: string): Sys {
    if batch !in s.submitting then s
    else
      match s.submitting[batch]
      case Deciding => s
      case Answered(hash, output) =>
        s.(coord := Coordination.Finished(s.coord, batch, hash, output), submitting := s.submitting - {batch})
      case Unanswered =>
        s.(coord := Coordination.OutcomeUnknown(s.coord, batch, error), submitting := s.submitting - {batch})
  }

  function Accumulated(env: Env, s: Sys, hash: Root, tick: u64, services: u32 -> Accumulate.Read): Sys {
    if hash !in s.net.works then s
    else
      var w := s.net.works[hash];
      if w.failed || w.accumulated ||
         !Accumulate.Accepts(HeaderOf(w.output), ChainRoot(env, s, w.service), tick, services) then s
      else s.(net := Net(s.net.roots[w.service := w.output.newRoot],
                         s.net.works[hash := w.(accumulated := true)]))
  }

  /** What `status` finds for an imported package, before it tries to materialize. */
  function Verdict(s: Sys, key: WorkKey): Result<Root, BackendError>
    requires key.service in s.net.roots
  {
    var root := s.net.roots[key.service];
    if key in s.world.b.predictions && root != s.world.b.predictions[key].parentRoot &&
       root != s.world.b.predictions[key].newRoot
    then Err(PredictionStale) else Ok(root)
  }

  /** `status` for whatever package a client, the transaction status or the reconciler asks about; only the
      backend's part of the state is touched.  A failed package is never reported as imported. */
  function Observed(env: Env, s: Sys, key: WorkKey, context: Context, written: bool): Sys {
    if key.hash !in s.net.works || s.net.works[key.hash].failed || key.service !in s.net.roots then s
    else if Verdict(s, key).Err? then s.(world := s.world.(b := s.world.b.(pending := s.world.b.pending - {key})))
    else
      var seen := Noted(s, key.service, context);
      var r := MaterializedIfCanonical(env.codec, env.retention, seen.world, key, s.net.roots[key.service], written);
      if r.Err? then seen else seen.(world := r.value.0)
  }

  function Noted(s: Sys, service: u32, context: Context): Sys {
    s.(world := s.world.(b := s.world.b.(contexts := s.world.b.contexts[service := context])))
  }

  /** The package a batch was finished with. */
  function PackageKey(s: Sys, batch: u64): Option<WorkKey> {
    if batch in s.coord.batches && s.coord.batches[batch].packageHash.Some?
    then Some(WorkKey(s.coord.batches[batch].service, s.coord.batches[batch].packageHash.value))
    else None
  }

  /** Reconciler or transaction status found the batch's package finalized, under another lock than the one
      `status` ran under. */
  function Settled(s: Sys, batch: u64): Sys {
    var key := PackageKey(s, batch);
    if key.Some? && key.value in s.world.b.finalized then s.(coord := Coordination.Materialized(s.coord, batch)) else s
  }

  /** The reconciler was told that the batch's package failed. */
  function GivenUp(s: Sys, batch: u64, error: string): Sys {
    var key := PackageKey(s, batch);
    if key.Some? && key.value.hash in s.net.works && s.net.works[key.value.hash].failed
    then s.(coord := Coordination.Failed(s.coord, batch, error)) else s
  }

  /** The coordinator, the predictions and the dispatcher's progress are lost; the database is read back. */
  function Restarted(env: Env, s: Sys, ids: seq<u32>): Sys {
    if s.world.db.None? || !BackendRuns.ReadsAll(s.world, ids) then s
    else
      var r := Restored(env.codec, s.world.db.value, ids);
      if r.Err? then s
      else Sys(Coordination.INITIAL, s.world.(b := r.value), s.net, map[], s.epoch + 1)
  }

  function Apply(env: Env, s: Sys, step: Step): Sys {
    match step
    case Register(record) => s.(world := BackendRuns.RegisteredIn(s.world, record))
    case Enqueue(service, r, now) =>
      if Coordination.HasRoom(env.lim, s.coord, service, r.sender) && CoordinatorLaws.CountersLeft(s.coord, service)
      then s.(coord := Coordination.Enqueued(env.lim, s.coord, service, r, now)) else s
    case MarkBest(id) => s.(coord := Coordination.BestIncluded(s.coord, id))
    case Dispatch(service, expected, slot, now) => Dispatched(env, s, service, expected, slot, now)
    case Reject(batch, error) =>
      if Undecided(s, batch)
      then s.(coord := Coordination.Failed(s.coord, batch, error), submitting := s.submitting - {batch}) else s
    case Accept(batch, hash, output) => Accepted(env, s, batch, hash, output)
    case Lose(batch, taken, output) => Lost(env, s, batch, taken, output)
    case Conclude(batch, error) => Concluded(s, batch, error)
    case SubmitWork(service, hash, output, answered) =>
      if Sendable(env, s, service, hash, output) then Sent(s, service, hash, output, None, answered) else s
    case AccumulateWork(hash, tick, services) => Accumulated(env, s, hash, tick, services)
    case ReportFailed(hash) =>
      if hash in s.net.works && !s.net.works[hash].accumulated
      then s.(net := s.net.(works := s.net.works[hash := s.net.works[hash].(failed := true)])) else s
    case Status(key, context, written) => Observed(env, s, key, context, written)
    case Settle(batch) => Settled(s, batch)
    case GiveUp(batch, error) => GivenUp(s, batch, error)
    case Snapshot(service, output) =>
      s.(world := BackendRuns.Apply(env.codec, env.retention, s.world, BackendRuns.Snapshot(service, output)))
    case Restart(ids) => Restarted(env, s, ids)
  }

  function Run(env: Env, s: Sys, steps: seq<Step>): Sys {
    if steps == [] then s else Apply(env, Run(env, s, steps[..|steps| - 1]), steps[|steps| - 1])
  }
}
