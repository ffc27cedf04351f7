/** Runs from the initial state that break the simulation, one for each unsafe step. */
module SystemFailures {
  import opened Wrappers
  import opened Bytes
  import opened Outputs
  import opened Transactions
  import opened Scheduler
  import opened Provider
  import opened Registries
  import opened BackendStates
  import opened BackendLaws
  import opened Systems
  import opened SystemLaws
  import opened SystemSteps
  import opened SystemRuns
  import SchedulerLaws
  import Coordination
  import CoordinatorLaws
  import BackendRuns
  import Accumulate

  lemma {:induction false} RunConcat(env: Env, s: Sys, a: seq<Step>, b: seq<Step>)
    ensures Run(env, s, a + b) == Run(env, Run(env, s, a), b)
    decreases |b|
  {
    hide Apply;
    if b == [] {
      assert a + b == a;
    } else {
      assert (a + b)[..|a + b| - 1] == a + b[..|b| - 1];
      RunConcat(env, s, a, b[..|b| - 1]);
    }
  }

  lemma {:induction false} RunOne(env: Env, s: Sys, step: Step)
    ensures Run(env, s, [step]) == Apply(env, s, step)
  {
    hide Apply;
    assert [step][..0] == [];
    assert Run(env, s, []) == s;
  }

  // ----- an idle service takes a batch -----

  function Unsigned(action: seq<byte>): Coordination.Request {
    Coordination.Request(action, None, None, None, "", [])
  }

  /** One unsigned request, and its dispatch when the flush delay is over. */
  function Opening(env: Env, id: u32, action: seq<byte>): seq<Step> {
    [Enqueue(id, Unsigned(action), 0), Dispatch(id, map[], 0, env.lim.flushDelay)]
  }

  lemma {:induction false} UnsignedSelected(item: Pending, cap: nat)
    requires item.IsUnsigned() && cap > 0
    ensures Select([item], map[], cap).selected != []
  {
    hide Select;
    SchedulerLaws.SelectionMaximal([item], map[], 0);
    SchedulerLaws.CappedIsPrefix([item], map[], cap);
  }

  lemma {:induction false} UnsignedTaken(lim: Coordination.Limits, id: u32, action: seq<byte>)
    requires lim.Valid()
    ensures var m := Coordination.Enqueued(lim, Coordination.INITIAL, id, Unsigned(action), 0);
      m.nextBatch == 0 && m.batches == map[] && Coordination.Taken(lim, m, id, map[], 0, lim.flushDelay).1.Some?
  {
    hide Select, Coordination.AfterSplit;
    var m := Coordination.Enqueued(lim, Coordination.INITIAL, id, Unsigned(action), 0);
    var item := Coordination.PendingFor(Coordination.INITIAL, id, Unsigned(action));
    var q := Coordination.Queue(m, id);
    assert q == [item] && q[..0] == [];
    assert Coordination.Viable([], 0) == [];
    assert Coordination.Viable(q, 0) == [item];
    UnsignedSelected(item, lim.maxActions);
  }

  /** A service with nothing under way, in step with the chain, takes its first batch. */
  lemma {:induction false} OpensLane(env: Env, s: Sys, id: u32, action: seq<byte>)
    requires env.lim.Valid() && s.coord == Coordination.INITIAL && InStep(env, s, id)
    ensures var n := Run(env, s, Opening(env, id, action));
      && n == s.(coord := n.coord, submitting := s.submitting[0 := Deciding])
      && Undecided(n, 0) && n.coord.batches[0].service == id
  {
    hide Coordination.Taken, HeadRoot;
    var now := env.lim.flushDelay;
    RunTwo(env, s, Enqueue(id, Unsigned(action), 0), Dispatch(id, map[], 0, now));
    var m := Apply(env, s, Enqueue(id, Unsigned(action), 0));
    assert Coordination.HasRoom(env.lim, s.coord, id, None);
    UnsignedTaken(env.lim, id, action);
    TakenLanes(env.lim, m.coord, id, map[], 0, now);
  }

  /** With a package in the network that can move the chain, an idle service takes a batch, submits it at the
      same root, and is stranded once the chain takes the first package. */
  lemma {:induction false} IdleServiceStrands(env: Env, s: Sys, id: u32, action: seq<byte>, first: Root, hash: Root,
                                              output: Output, tick: u64, services: u32 -> Accumulate.Read)
    requires env.lim.Valid() && s.coord == Coordination.INITIAL && Sendable(env, s, id, hash, output)
    requires Live(s, first) && s.net.works[first].service == id
    requires Accumulate.Accepts(HeaderOf(s.net.works[first].output), output.parentRoot, tick, services)
    requires s.net.works[first].output.newRoot != output.newRoot
    ensures Stranded(env,
      Run(env, s, Opening(env, id, action) + [Accept(0, hash, output), AccumulateWork(first, tick, services)]), id,
        hash)
  {
    hide Accumulate.Accepts, HeadRoot, Opening, Apply;
    var n := Run(env, s, Opening(env, id, action));
    OpensLane(env, s, id, action);
    RunConcat(env, s, Opening(env, id, action), [Accept(0, hash, output), AccumulateWork(first, tick, services)]);
    SecondPackageStrands(env, n, first, 0, hash, output, tick, services);
  }

  /** The package's prediction is stale, and the service can submit nothing more. */
  ghost predicate Stranded(env: Env, s: Sys, id: u32, hash: Root) {
    id in s.net.roots && Verdict(s, WorkKey(id, hash)) == Err(PredictionStale) && !InStep(env, s, id)
  }

  // ----- the three runs -----

  /** A transition from the empty state that depends on nothing and never expires. */
  predicate Bare(env: Env, o: Output) {
    o.parentRoot == env.codec.root(map[]) && o.dependencies == [] && o.validUntil == None
  }

  lemma {:induction false} BareAccepted(env: Env, o: Output, tick: u64, services: u32 -> Accumulate.Read)
    requires Bare(env, o)
    ensures Accumulate.Accepts(HeaderOf(o), env.codec.root(map[]), tick, services)
  {
  }

  /** The state after the first registration. */
  lemma {:induction false} FirstRegistration(env: Env, durable: bool, roots: map<u32, Root>, record: Record)
    requires env.lim.Valid() && env.retention > 0
    ensures var s, n := Initial(durable, roots), Run(env, Initial(durable, roots), [Register(record)]);
      && n == s.(world := n.world) && (n.world.db.Some? <==> durable)
      && n.world.b.registry.byId.Keys == {record.service}
      && Lane(n, record.service) == None
      && (SysOk(env, n) <==> ChainRoot(env, s, record.service) == env.codec.root(map[]))
      && (InStep(env, n, record.service) <==> SysOk(env, n))
  {
    hide SysOk, InStep, HeadRoot;
    var s := Initial(durable, roots);
    RunOne(env, s, Register(record));
    InitialOk(env, durable, roots);
    PartsOk(env, s);
    RegisterKeepsIff(env, s, record);
    EmptyHead(env, s, record);
  }

  /** Registering a service whose commitment the chain already holds: its lane is free, its head is behind,
      and it can submit nothing. */
  lemma {:induction false} HeldCommitmentRun(env: Env, durable: bool, record: Record, root: Root)
    requires env.lim.Valid() && env.retention > 0 && root != env.codec.root(map[])
    ensures var n := Run(env, Initial(durable, map[record.service := root]), [Register(record)]);
      && !SysOk(env, n) && record.service in n.world.b.registry.byId
      && Lane(n, record.service) == None && !InStep(env, n, record.service)
  {
    hide SysOk, InStep, Run;
    FirstRegistration(env, durable, map[record.service := root], record);
  }

  /** A package sent around the coordinator, and then a batch. */
  lemma {:induction false} UncoordinatedRun(env: Env, durable: bool, record: Record, answered: bool, action: seq<byte>,
                                            first: Root, hash: Root, sent: Output, output: Output, tick: u64,
                                            services: u32 -> Accumulate.Read)
    requires env.lim.Valid() && env.retention > 0 && first != hash
    requires Bare(env, sent) && Bare(env, output) && sent.newRoot != sent.parentRoot && sent.newRoot != output.newRoot
    ensures var start := Run(env, Initial(durable, map[]), [Register(record), SubmitWork(record.service, first, sent,
      answered)]);
      var n := Run(env, start, Opening(env, record.service, action) +
                               [Accept(0, hash, output), AccumulateWork(first, tick, services)]);
      !SysOk(env, start) && Stranded(env, n, record.service, hash)
  {
    hide SysOk, HeadRoot, Accumulate.Accepts, Opening, Stranded;
    var id := record.service;
    FirstRegistration(env, durable, map[], record);
    var s := Run(env, Initial(durable, map[]), [Register(record)]);
    RunOne(env, Initial(durable, map[]), Register(record));
    RunTwo(env, Initial(durable, map[]), Register(record), SubmitWork(id, first, sent, answered));
    var start := Sent(s, id, first, sent, None, answered);
    SubmitWorkKeepsIff(env, s, id, first, sent, answered);
    SameHead(env.codec, s.world.b, start.world.b, id);
    BareAccepted(env, sent, tick, services);
    IdleServiceStrands(env, start, id, action, first, hash, output, tick, services);
  }

  lemma {:induction false} OpeningKeeps(env: Env, s: Sys, id: u32, action: seq<byte>)
    requires SysOk(env, s)
    ensures SysOk(env, Run(env, s, Opening(env, id, action)))
  {
    hide SysOk, Apply;
    var a, b := Enqueue(id, Unsigned(action), 0), Dispatch(id, map[], 0, env.lim.flushDelay);
    RunTwo(env, s, a, b);
    CoordinatorStep(env, s, a);
    CoordinatorStep(env, Apply(env, s, a), b);
  }

  /** The network takes the undecided batch's package. */
  lemma {:induction false} FirstAccepted(env: Env, s: Sys, id: u32, first: Root, sent: Output)
    requires SysOk(env, s) && Undecided(s, 0) && s.coord.batches[0].service == id && InStep(env, s, id)
    requires s.net == Net(map[], map[]) && s.epoch == 0 && Bare(env, sent) && sent.newRoot != sent.parentRoot
    ensures var n := Run(env, s, [Accept(0, first, sent)]);
      && SysOk(env, n) && InStep(env, n, id) && n.world.db == s.world.db
      && n.world.b.registry == s.world.b.registry
      && n.net == Net(map[], map[first := Work(0, id, sent, Some(0), false, false)]) && Live(n, first)
  {
    hide SysOk, HeadRoot;
    RunOne(env, s, Accept(0, first, sent));
    AcceptKeeps(env, s, 0, first, sent);
    SameHead(env.codec, s.world.b, Accepted(env, s, 0, first, sent).world.b, id);
  }

  /** Registered, requested, dispatched, accepted: a package of the first batch is in the network. */
  lemma {:induction false} InFlight(env: Env, record: Record, action: seq<byte>, first: Root, sent: Output)
    requires env.lim.Valid() && env.retention > 0 && Bare(env, sent) && sent.newRoot != sent.parentRoot
    ensures var id := record.service;
      var n := Run(env, Initial(true, map[]), [Register(record)] + Opening(env, id, action) + [Accept(0, first, sent)]);
      && SysOk(env, n) && InStep(env, n, id) && n.world.db.Some? && BackendRuns.ReadsAll(n.world, [id])
      && n.net == Net(map[], map[first := Work(0, id, sent, Some(0), false, false)])
      && Live(n, first)
  {
    hide SysOk, HeadRoot, Run, Opening, Apply, Live;
    var id, init := record.service, Initial(true, map[]);
    FirstRegistration(env, true, map[], record);
    var s := Run(env, init, [Register(record)]);
    OpensLane(env, s, id, action);
    OpeningKeeps(env, s, id, action);
    var m := Run(env, s, Opening(env, id, action));
    RunConcat(env, init, [Register(record)], Opening(env, id, action));
    RunConcat(env, init, [Register(record)] + Opening(env, id, action), [Accept(0, first, sent)]);
    FirstAccepted(env, m, id, first, sent);
  }

  /** A restart while a package is in the network, and then a batch. */
  lemma {:induction false} RestartRun(env: Env, record: Record, earlier: seq<byte>, action: seq<byte>, first: Root,
                                      hash: Root, sent: Output, output: Output, tick: u64,
                                      services: u32 -> Accumulate.Read)
    requires env.lim.Valid() && env.retention > 0 && CollisionFree(env.codec.root) && first != hash
    requires Bare(env, sent) && Bare(env, output) && sent.newRoot != sent.parentRoot && sent.newRoot != output.newRoot
    ensures var id := record.service;
      var before := Run(env, Initial(true, map[]),
                        [Register(record)] + Opening(env, id, earlier) + [Accept(0, first, sent)]);
      var restarted := Run(env, before, [Restart([id])]);
      var n := Run(env, restarted, Opening(env, id, action) +
                                   [Accept(0, hash, output), AccumulateWork(first, tick, services)]);
      SysOk(env, before) && !SysOk(env, restarted) && Stranded(env, n, id, hash)
  {
    hide SysOk, HeadRoot, Accumulate.Accepts, Opening, Stranded, CollisionFree, Restarted, Run, CoordinatorLaws.Inv,
      WorldOk;
    var id := record.service;
    var before := Run(env, Initial(true, map[]), [Register(record)] + Opening(env, id, earlier) + [Accept(0, first,
      sent)]);
    InFlight(env, record, earlier, first, sent);
    RunOne(env, before, Restart([id]));
    var restarted := Restarted(env, before, [id]);
    RestartForgets(env, before, [id], first);
    RestartFacts(env, before, [id]);
    BareAccepted(env, sent, tick, services);
    IdleServiceStrands(env, restarted, id, action, first, hash, output, tick, services);
  }
}
