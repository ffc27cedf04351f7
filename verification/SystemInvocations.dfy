/** One invocation of the accumulate entry, seen from the system. */
module SystemInvocations {
  import opened Wrappers
  import opened Bytes
  import opened Outputs
  import opened Systems
  import Accumulate

  /** The steps of one invocation over a list of packages. */
  function Invocation(hashes: seq<Root>, tick: u64, services: u32 -> Accumulate.Read): seq<Step> {
    if hashes == [] then []
    else
      Invocation(hashes[..|hashes| - 1], tick, services) + [AccumulateWork(hashes[|hashes| - 1], tick, services)]
  }

  /** A package of the service that the chain has not dealt with. */
  ghost predicate Fresh(s: Sys, service: u32, hash: Root) {
    hash in s.net.works && s.net.works[hash].service == service &&
    !s.net.works[hash].failed && !s.net.works[hash].accumulated
  }

  ghost predicate AllFresh(s: Sys, service: u32, hashes: seq<Root>) {
    && (forall k :: 0 <= k < |hashes| ==> Fresh(s, service, hashes[k]))
    && (forall j, k :: 0 <= j < k < |hashes| ==> hashes[j] != hashes[k])
  }

  function ResultOf(s: Sys, hash: Root): Accumulate.WorkResult {
    if hash in s.net.works then Some(HeaderOf(s.net.works[hash].output)) else None
  }

  function Results(s: Sys, hashes: seq<Root>): seq<Accumulate.WorkResult> {
    if hashes == [] then [] else Results(s, hashes[..|hashes| - 1]) + [ResultOf(s, hashes[|hashes| - 1])]
  }

  /** Where the entry stands after a list of packages. */
  function Reached(env: Env, s: Sys, service: u32, hashes: seq<Root>, tick: u64,
                   services: u32 -> Accumulate.Read): Root {
    Accumulate.End(Accumulate.Taken(Results(s, hashes), ChainRoot(env, s, service), tick, services),
                   ChainRoot(env, s, service))
  }

  /** What a run over a list of packages of one service leaves alone. */
  ghost predicate OnlyThese(s: Sys, n: Sys, service: u32, hashes: seq<Root>) {
    && n == s.(net := n.net) && n.net.works.Keys == s.net.works.Keys
    && (forall h :: h in s.net.works && h !in hashes ==> n.net.works[h] == s.net.works[h])
    && (forall h :: h in s.net.works ==>
          n.net.works[h] == s.net.works[h].(accumulated := n.net.works[h].accumulated))
    && n.net.roots - {service} == s.net.roots - {service}
  }

  lemma {:induction false} RunAppend(env: Env, s: Sys, steps: seq<Step>, step: Step)
    ensures Run(env, s, steps + [step]) == Apply(env, Run(env, s, steps), step)
  {
    hide Apply;
    assert (steps + [step])[..|steps|] == steps;
  }

  lemma {:induction false} ReachedAppend(env: Env, s: Sys, service: u32, hashes: seq<Root>, hash: Root, tick: u64,
                                         services: u32 -> Accumulate.Read)
    requires hash in s.net.works
    ensures var at := Reached(env, s, service, hashes, tick, services);
      Reached(env, s, service, hashes + [hash], tick, services) ==
      if Accumulate.Accepts(HeaderOf(s.net.works[hash].output), at, tick, services)
      then s.net.works[hash].output.newRoot else at
  {
    hide Accumulate.Accepts;
    assert (hashes + [hash])[..|hashes|] == hashes;
    var results := Results(s, hashes + [hash]);
    assert results[..|results| - 1] == Results(s, hashes);
  }

  /** One package more. */
  lemma {:induction false} OneMore(env: Env, s: Sys, m: Sys, service: u32, hashes: seq<Root>, hash: Root, tick: u64,
                                   services: u32 -> Accumulate.Read)
    requires OnlyThese(s, m, service, hashes) && Fresh(s, service, hash) && hash !in hashes
    ensures var n := Accumulated(env, m, hash, tick, services);
      var taken := Accumulate.Accepts(HeaderOf(s.net.works[hash].output), ChainRoot(env, m, service), tick, services);
      && OnlyThese(s, n, service, hashes + [hash])
      && ChainRoot(env, n, service) == (if taken then s.net.works[hash].output.newRoot else ChainRoot(env, m, service))
      && (n.net.works[hash].accumulated <==> taken)
      && (forall h :: h in hashes && h in s.net.works ==> n.net.works[h] == m.net.works[h])
  {
    hide Accumulate.Accepts;
    var n := Accumulated(env, m, hash, tick, services);
    assert m.net.works[hash] == s.net.works[hash];
    assert n.net.roots - {service} == m.net.roots - {service};
  }

  /** The package at `k` was taken exactly when the entry would take it at its turn. */
  ghost predicate AtTurn(env: Env, s: Sys, n: Sys, service: u32, hashes: seq<Root>, k: nat, tick: u64,
                         services: u32 -> Accumulate.Read)
    requires k < |hashes|
  {
    hashes[k] in s.net.works && hashes[k] in n.net.works &&
    (n.net.works[hashes[k]].accumulated <==>
       Accumulate.Accepts(HeaderOf(s.net.works[hashes[k]].output),
                          Reached(env, s, service, hashes[..k], tick, services), tick, services))
  }

  lemma {:induction false} InvocationAppend(env: Env, s: Sys, hashes: seq<Root>, hash: Root, tick: u64,
                                            services: u32 -> Accumulate.Read)
    ensures Run(env, s, Invocation(hashes + [hash], tick, services)) ==
      Accumulated(env, Run(env, s, Invocation(hashes, tick, services)), hash, tick, services)
  {
    hide Accumulated;
    assert (hashes + [hash])[..|hashes|] == hashes;
    RunAppend(env, s, Invocation(hashes, tick, services), AccumulateWork(hash, tick, services));
  }

  lemma {:induction false} TurnsKept(env: Env, s: Sys, m: Sys, n: Sys, service: u32, hashes: seq<Root>, hash: Root,
                                     k: nat, tick: u64, services: u32 -> Accumulate.Read)
    requires k < |hashes| && AtTurn(env, s, m, service, hashes, k, tick, services)
    requires hashes[k] in n.net.works && n.net.works[hashes[k]] == m.net.works[hashes[k]]
    ensures AtTurn(env, s, n, service, hashes + [hash], k, tick, services)
  {
    hide Accumulate.Accepts, Reached;
    assert (hashes + [hash])[..k] == hashes[..k];
  }

  lemma {:induction false} LastTurn(env: Env, s: Sys, n: Sys, service: u32, hashes: seq<Root>, hash: Root, tick: u64,
                                    services: u32 -> Accumulate.Read)
    requires hash in s.net.works && hash in n.net.works
    requires n.net.works[hash].accumulated <==>
      Accumulate.Accepts(HeaderOf(s.net.works[hash].output), Reached(env, s, service, hashes, tick, services), tick,
        services)
    ensures AtTurn(env, s, n, service, hashes + [hash], |hashes|, tick, services)
  {
    hide Accumulate.Accepts, Reached;
    assert (hashes + [hash])[..|hashes|] == hashes;
  }

  /** One invocation of the accumulate entry is a run of the system's accumulation steps: it ends at the end
      of the chain of results the entry accepts, marks exactly those, and touches no other service and no
      other package. */
  lemma {:induction false} InvocationIsRun(env: Env, s: Sys, service: u32, hashes: seq<Root>, tick: u64,
                                           services: u32 -> Accumulate.Read)
    requires AllFresh(s, service, hashes)
    ensures var n := Run(env, s, Invocation(hashes, tick, services));
      && ChainRoot(env, n, service) == Reached(env, s, service, hashes, tick, services)
      && OnlyThese(s, n, service, hashes)
      && (forall k :: 0 <= k < |hashes| ==> AtTurn(env, s, n, service, hashes, k, tick, services))
  {
    hide Accumulate.Accepts, Reached, OnlyThese, Accumulated, ChainRoot, Apply, AtTurn;
    if hashes == [] {
      NoPackages(env, s, service, tick, services);
    } else {
      var init, last := hashes[..|hashes| - 1], hashes[|hashes| - 1];
      assert init + [last] == hashes;
      InvocationIsRun(env, s, service, init, tick, services);
      assert Fresh(s, service, last) && last !in init;
      hide Run, Invocation;
      var m := Run(env, s, Invocation(init, tick, services));
      var n := Run(env, s, Invocation(hashes, tick, services));
      InvocationAppend(env, s, init, last, tick, services);
      ReachedAppend(env, s, service, init, last, tick, services);
      OneMore(env, s, m, service, init, last, tick, services);
      SameKeys(s, n, service, hashes);
      forall k | 0 <= k < |hashes| ensures AtTurn(env, s, n, service, hashes, k, tick, services) {
        assert Fresh(s, service, hashes[k]);
        if k < |init| {
          assert hashes[k] == init[k] && init[k] in init;
          TurnsKept(env, s, m, n, service, init, last, k, tick, services);
        } else {
          LastTurn(env, s, n, service, init, last, tick, services);
        }
      }
    }
  }

  lemma {:induction false} NoPackages(env: Env, s: Sys, service: u32, tick: u64, services: u32 -> Accumulate.Read)
    ensures Reached(env, s, service, [], tick, services) == ChainRoot(env, s, service) && OnlyThese(s, s, service, [])
  {
  }

  lemma {:induction false} SameKeys(s: Sys, n: Sys, service: u32, hashes: seq<Root>)
    requires OnlyThese(s, n, service, hashes)
    ensures n.net.works.Keys == s.net.works.Keys
  {
  }

  /** The service's own entry after the invocation. */
  function EntryAfter(own: Accumulate.Read, written: Option<seq<byte>>): Accumulate.Read {
    if written.Some? then Accumulate.Present(written.value) else own
  }

  /** What the entry writes is what the system's chain holds. */
  lemma {:induction false} EntryMatchesChain(env: Env, s: Sys, service: u32, hashes: seq<Root>, tick: u64,
                                             services: u32 -> Accumulate.Read, own: Accumulate.Read)
    requires AllFresh(s, service, hashes)
    requires Accumulate.CurrentRoot(own, env.codec.root(map[])) == ChainRoot(env, s, service)
    requires forall h :: h in s.net.works ==> |s.net.works[h].output.newRoot| == 32
    ensures var n := Run(env, s, Invocation(hashes, tick, services));
      var written := Accumulate.Written(Some(tick), own, services, Results(s, hashes), env.codec.root(map[]));
      Accumulate.CurrentRoot(EntryAfter(own, written), env.codec.root(map[])) == ChainRoot(env, n, service)
  {
    hide Accumulate.Taken, Run, Invocation, AllFresh;
    InvocationIsRun(env, s, service, hashes, tick, services);
    var results, empty := Results(s, hashes), env.codec.root(map[]);
    forall k | 0 <= k < |results| && results[k].Some? ensures |results[k].value.newRoot| == 32 {
      ResultsSized(s, hashes, k);
    }
    Accumulate.WrittenIsEndOfChain(tick, own, services, results, empty);
  }

  lemma {:induction false} ResultsSized(s: Sys, hashes: seq<Root>, k: nat)
    requires forall h :: h in s.net.works ==> |s.net.works[h].output.newRoot| == 32
    requires k < |Results(s, hashes)| && Results(s, hashes)[k].Some?
    ensures |Results(s, hashes)[k].value.newRoot| == 32
  {
    if hashes != [] && k < |Results(s, hashes[..|hashes| - 1])| {
      ResultsSized(s, hashes[..|hashes| - 1], k);
    }
  }
}
