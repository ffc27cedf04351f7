/** Whole runs of the coordinator: the invariant, conservation, one lane per service. */
module CoordinatorRuns {
  import opened Wrappers
  import opened Bytes
  import opened Outputs
  import opened Transactions
  import opened Scheduler
  import opened SchedulerLaws
  import opened Coordination
  import opened CoordinatorLaws

  /** The counters this step may advance are not at their limit. */
  predicate Advanceable(s: State, step: Step) {
    match step
    case Enqueue(service, _, _) => CountersLeft(s, service)
    case Take(_, _, _, _) => s.nextBatch < U64_MAX
    case MarkBest(_) => true
    case Finish(_, _, _) => true
    case Fail(_, _) => true
    case MarkUnknown(_, _) => true
    case Materialize(_) => true
  }

  lemma {:induction false} PostponedKeeps(lim: Limits, s: State, service: u32, at: nat)
    requires Inv(lim, s) && Queue(s, service) != []
    ensures Inv(lim, s.(deadlines := s.deadlines[service := at]))
  {
    hide TxOk, BatchOk, AllReported;
    var n := s.(deadlines := s.deadlines[service := at]);
    assert QueueOk(lim, s, service);
    assert SameShape(s, n);
    forall b | b in n.batches ensures PackageOk(n, b) && Settled(n, b) {
      BatchFacts(lim, s, b);
      if AllReported(s, b) { ReportsStay(s, n, b); }
    }
    forall other | other in n.inFlight ensures LaneOk(n, other) {
      assert LaneOk(s, other);
    }
    ShapeKeeps(lim, s, n);
  }

  lemma {:induction false} TakeStepKeeps(lim: Limits, s: State, service: u32, expected: Nonces, slot: u64, now: nat)
    requires Inv(lim, s) && s.nextBatch < U64_MAX
    ensures Inv(lim, Taken(lim, s, service, expected, slot, now).0)
  {
    hide Inv, SplitQueue, AfterSplit, TakeEffect;
    if Free(s, service) && Due(lim, s, service, now) {
      if SendersKnown(Queue(s, service), expected) {
        SplitIsOk(lim, s, service, expected, slot);
        TakenHasEffect(lim, s, service, expected, slot, now);
        TakeKeeps(lim, s, Taken(lim, s, service, expected, slot, now).0, service,
                  SplitQueue(lim, Queue(s, service), expected, slot));
      } else {
        PostponedKeeps(lim, s, service, now + RECHECK_DELAY);
      }
    }
  }

  /** Every step keeps the invariant. */
  lemma {:induction false} StepKeeps(lim: Limits, s: State, step: Step)
    requires Inv(lim, s) && Advanceable(s, step)
    ensures Inv(lim, Apply(lim, s, step))
  {
    hide Inv, Enqueued, Taken, BestIncluded, Finished, Failed, OutcomeUnknown, Materialized, HasRoom;
    match step
    case Enqueue(service, r, now) =>
      if HasRoom(lim, s, service, r.sender) { EnqueueKeeps(lim, s, service, r, now); }
    case Take(service, expected, slot, now) => TakeStepKeeps(lim, s, service, expected, slot, now);
    case MarkBest(id) => BestKeeps(lim, s, id);
    case Finish(batch, hash, prediction) => FinishKeeps(lim, s, batch, hash, prediction);
    case Fail(batch, error) => FailKeeps(lim, s, batch, error);
    case MarkUnknown(batch, error) => UnknownKeeps(lim, s, batch, error);
    case Materialize(batch) => MaterializeKeeps(lim, s, batch);
  }

  /** Counters only grow, and a service's sequence never overtakes the arrival counter. */
  ghost predicate CountersGrow(s: State, n: State) {
    && s.nextArrival <= n.nextArrival && s.nextBatch <= n.nextBatch
    && (SequencesBehind(s) ==> SequencesBehind(n))
  }

  ghost predicate SequencesBehind(s: State) {
    forall service: u32 :: Sequence(s, service) <= s.nextArrival
  }

  lemma {:induction false} EnqueueCounters(lim: Limits, s: State, service: u32, r: Request, now: nat)
    ensures CountersGrow(s, Enqueued(lim, s, service, r, now))
  {
    var n := Enqueued(lim, s, service, r, now);
    if SequencesBehind(s) {
      forall other: u32 ensures Sequence(n, other) <= n.nextArrival {
        assert Sequence(s, other) <= s.nextArrival;
      }
    }
  }

  lemma {:induction false} TakeCounters(lim: Limits, s: State, service: u32, expected: Nonces, slot: u64, now: nat)
    ensures CountersGrow(s, Taken(lim, s, service, expected, slot, now).0)
  {
    hide SplitQueue, AfterSplit;
    var split := SplitQueue(lim, Queue(s, service), expected, slot);
    SplitLanes(lim, s, service, split, now);
    SequencesSame(s, Taken(lim, s, service, expected, slot, now).0);
  }

  lemma {:induction false} SequencesSame(s: State, n: State)
    requires n.nextSequences == s.nextSequences && n.nextArrival == s.nextArrival
    ensures SequencesBehind(s) ==> SequencesBehind(n)
  {
    assert forall service: u32 :: Sequence(n, service) == Sequence(s, service);
  }

  lemma {:induction false} StepCounters(lim: Limits, s: State, step: Step)
    ensures CountersGrow(s, Apply(lim, s, step))
  {
    hide Enqueued, Taken, HasRoom, SequencesBehind, WithPackage, WithFailure, WithUnknown;
    match step
    case Enqueue(service, r, now) => EnqueueCounters(lim, s, service, r, now);
    case Take(service, expected, slot, now) => TakeCounters(lim, s, service, expected, slot, now);
    case MarkBest(_) => SequencesSame(s, Apply(lim, s, step));
    case Finish(_, _, _) => SequencesSame(s, Apply(lim, s, step));
    case Fail(_, _) => SequencesSame(s, Apply(lim, s, step));
    case MarkUnknown(_, _) => SequencesSame(s, Apply(lim, s, step));
    case Materialize(_) => SequencesSame(s, Apply(lim, s, step));
  }

  lemma {:induction false} InitialOk(lim: Limits)
    requires lim.Valid()
    ensures Inv(lim, INITIAL) && SequencesBehind(INITIAL)
  {
  }

  /** Safety over whole runs: while neither counter has saturated, the invariant holds. */
  lemma {:induction false} RunKeeps(lim: Limits, steps: seq<Step>)
    requires lim.Valid()
    requires var n := Run(lim, INITIAL, steps); n.nextArrival < U64_MAX && n.nextBatch < U64_MAX
    ensures Inv(lim, Run(lim, INITIAL, steps)) && SequencesBehind(Run(lim, INITIAL, steps))
  {
    hide Inv, Apply, SequencesBehind;
    if steps == [] {
      InitialOk(lim);
    } else {
      var before, step := Run(lim, INITIAL, steps[..|steps| - 1]), steps[|steps| - 1];
      StepCounters(lim, before, step);
      RunKeeps(lim, steps[..|steps| - 1]);
      CanAdvance(before, step);
      StepKeeps(lim, before, step);
    }
  }

  lemma {:induction false} CanAdvance(s: State, step: Step)
    requires SequencesBehind(s) && s.nextArrival < U64_MAX && s.nextBatch < U64_MAX
    ensures Advanceable(s, step)
  {
  }

  /** What is never undone: a transaction stays known, its place and any error stay; batches stay. */
  ghost predicate Follows(s: State, n: State) {
    && (forall id :: id in s.transactions ==> id in n.transactions && TxFollows(s.transactions[id], n.transactions[id]))
    && (forall b :: b in s.batches ==> b in n.batches && BatchFollows(s.batches[b], n.batches[b]))
  }

  ghost predicate TxFollows(before: Transaction, after: Transaction) {
    && after.service == before.service
    && (before.batch.Some? ==> after.batch == before.batch && after.index == before.index)
    && (before.error.Some? ==> after.error.Some?)
    && (before.batch.None? && before.error.Some? ==> after.batch.None? && after.error == before.error)
    && (before.unknown ==> after.unknown) && (before.bestIncluded ==> after.bestIncluded)
    && (before.packageHash.Some? ==> after.packageHash.Some?)
  }

  ghost predicate BatchFollows(before: Batch, after: Batch) {
    && after.service == before.service && after.ids == before.ids
    && (before.materialized ==> after.materialized)
    && (before.packageHash.Some? ==> after.packageHash.Some?)
  }

  lemma {:induction false} EnqueueFollows(lim: Limits, s: State, service: u32, r: Request, now: nat)
    requires Inv(lim, s)
    ensures Follows(s, Enqueued(lim, s, service, r, now))
  {
    hide QueueOk, BatchOk, LaneOk;
    var newId := NextId(s, service, r.action);
    assert newId !in s.transactions by {
      if newId in s.transactions { TxSequence(s, newId); }
    }
  }

  lemma {:induction false} TakeFollows(lim: Limits, s: State, service: u32, expected: Nonces, slot: u64, now: nat)
    requires Inv(lim, s)
    ensures Follows(s, Taken(lim, s, service, expected, slot, now).0)
  {
    hide Inv, SplitQueue, AfterSplit, TxAfterTake, SplitsId;
    var n := Taken(lim, s, service, expected, slot, now).0;
    if Free(s, service) && Due(lim, s, service, now) && SendersKnown(Queue(s, service), expected) {
      var split := SplitQueue(lim, Queue(s, service), expected, slot);
      SplitIsOk(lim, s, service, expected, slot);
      TakenHasEffect(lim, s, service, expected, slot, now);
      NextBatchIsNew(lim, s);
      forall id | id in s.transactions ensures TxFollows(s.transactions[id], n.transactions[id]) {
        TakeTxFollows(lim, s, n, service, split, id);
      }
    }
  }

  lemma {:induction false} TakeTxFollows(lim: Limits, s: State, n: State, service: u32, split: Split, id: TxId)
    requires Inv(lim, s) && TakeEffect(s, n, service, split) && SplitOk(lim, s, service, split)
    requires id in s.transactions
    ensures TxFollows(s.transactions[id], n.transactions[id])
  {
    hide QueueOk, BatchOk, LaneOk, Lined, WithinLimits, DistinctIds;
    assert TxOk(s, id);
    assert SplitsId(Queue(s, service), split, id);
    assert TxAfterTake(split, s.nextBatch, id, s.transactions[id], n.transactions[id]);
    if id.service != service {
      NotInOtherQueue(lim, s, service, id);
    }
  }

  lemma {:induction false} BatchIdsOf(lim: Limits, s: State, batch: u64, id: TxId)
    requires Inv(lim, s) && batch in s.batches && id in s.batches[batch].ids
    ensures id in s.transactions && s.transactions[id].batch == Some(batch)
  {
    hide Inv;
    BatchFacts(lim, s, batch);
  }

  lemma {:induction false} UnknownFollows(lim: Limits, s: State, batch: u64, error: string)
    requires Inv(lim, s)
    ensures Follows(s, OutcomeUnknown(s, batch, error))
  {
    hide Inv;
    var n := OutcomeUnknown(s, batch, error);
    forall id | id in s.transactions ensures TxFollows(s.transactions[id], n.transactions[id]) {
      if batch in s.batches && id in s.batches[batch].ids { BatchIdsOf(lim, s, batch, id); }
    }
  }

  lemma {:induction false} FinishFollows(s: State, batch: u64, hash: Root, prediction: Output)
    ensures Follows(s, Finished(s, batch, hash, prediction))
  {
  }

  lemma {:induction false} FailFollows(s: State, batch: u64, error: string)
    ensures Follows(s, Failed(s, batch, error))
  {
  }

  lemma {:induction false} MaterializeFollows(s: State, batch: u64)
    ensures Follows(s, Materialized(s, batch))
  {
  }

  lemma {:induction false} BestFollows(s: State, id: TxId)
    ensures Follows(s, BestIncluded(s, id))
  {
  }

  /** No step takes anything back. */
  lemma {:induction false} StepFollows(lim: Limits, s: State, step: Step)
    requires Inv(lim, s)
    ensures Follows(s, Apply(lim, s, step))
  {
    hide Inv, Follows, Enqueued, Taken, HasRoom, BestIncluded, Finished, Failed, OutcomeUnknown, Materialized;
    FollowsSelf(s);
    match step
    case Enqueue(service, r, now) => EnqueueFollows(lim, s, service, r, now);
    case Take(service, expected, slot, now) => TakeFollows(lim, s, service, expected, slot, now);
    case MarkBest(id) => BestFollows(s, id);
    case Finish(batch, hash, prediction) => FinishFollows(s, batch, hash, prediction);
    case Fail(batch, error) => FailFollows(s, batch, error);
    case MarkUnknown(batch, error) => UnknownFollows(lim, s, batch, error);
    case Materialize(batch) => MaterializeFollows(s, batch);
  }

  lemma {:induction false} FollowsSelf(s: State)
    ensures Follows(s, s)
  {
  }

  lemma {:induction false} FollowsChain(a: State, b: State, c: State)
    requires Follows(a, b) && Follows(b, c)
    ensures Follows(a, c)
  {
  }

  /** From any point of a run on, nothing known at that point is lost or moved. */
  lemma {:induction false} RunFollows(lim: Limits, before: seq<Step>, after: seq<Step>)
    requires lim.Valid()
    requires var n := Run(lim, INITIAL, before + after); n.nextArrival < U64_MAX && n.nextBatch < U64_MAX
    ensures Follows(Run(lim, INITIAL, before), Run(lim, INITIAL, before + after))
    decreases |after|
  {
    hide Inv, Apply, Follows;
    if after == [] {
      assert before + after == before;
      FollowsSelf(Run(lim, INITIAL, before));
    } else {
      var init := before + after[..|after| - 1];
      assert (before + after)[..|before + after| - 1] == init;
      var mid, step := Run(lim, INITIAL, init), after[|after| - 1];
      StepCounters(lim, mid, step);
      RunKeeps(lim, init);
      StepFollows(lim, mid, step);
      RunFollows(lim, before, after[..|after| - 1]);
      FollowsChain(Run(lim, INITIAL, before), mid, Run(lim, INITIAL, before + after));
    }
  }

  /** Where a transaction is: waiting, failed before dispatch, or at one place of one batch. */
  datatype Fate = Waiting | Refused | InBatch(batch: u64, index: nat)

  ghost predicate HasFate(s: State, id: TxId, fate: Fate) {
    id in s.transactions && match fate
    case Waiting => IsQueued(s, id)
    case Refused => !IsQueued(s, id) && s.transactions[id].batch.None? && s.transactions[id].error.Some?
    case InBatch(b, k) => b in s.batches && k < |s.batches[b].ids| && s.batches[b].ids[k] == id
  }

  ghost function FateOf(s: State, id: TxId): Fate
    requires id in s.transactions
  {
    var tx := s.transactions[id];
    if tx.batch.Some? && tx.index.Some? then InBatch(tx.batch.value, tx.index.value)
    else if tx.error.None? then Waiting else Refused
  }

  /** Exactly one fate. */
  lemma {:induction false} OneFate(lim: Limits, s: State, id: TxId, fate: Fate)
    requires Inv(lim, s) && id in s.transactions
    ensures HasFate(s, id, fate) <==> fate == FateOf(s, id)
  {
    hide QueueOk, LaneOk, IsQueued;
    assert TxOk(s, id);
    if fate.InBatch? && HasFate(s, id, fate) {
      assert BatchOk(lim, s, fate.batch);
      assert MemberOk(s, fate.batch, fate.index);
    }
  }

  /** Conservation.  A request accepted anywhere in a run has exactly one fate at its end; once it
      stands in a batch or was refused, that is its fate for good. */
  lemma {:induction false} AcceptedIsConserved(lim: Limits, before: seq<Step>, after: seq<Step>, id: TxId, fate: Fate)
    requires lim.Valid()
    requires var n := Run(lim, INITIAL, before + after); n.nextArrival < U64_MAX && n.nextBatch < U64_MAX
    requires id in Run(lim, INITIAL, before).transactions
    ensures var s, n := Run(lim, INITIAL, before), Run(lim, INITIAL, before + after);
      && id in n.transactions
      && (HasFate(n, id, fate) <==> fate == FateOf(n, id))
      && (HasFate(s, id, fate) && !fate.Waiting? ==> HasFate(n, id, fate))
  {
    hide Inv, Run, HasFate;
    RunFollows(lim, before, after);
    RunKeeps(lim, before + after);
    var s, n := Run(lim, INITIAL, before), Run(lim, INITIAL, before + after);
    CountersAlong(lim, before, after);
    RunKeeps(lim, before);
    assert TxFollows(s.transactions[id], n.transactions[id]);
    OneFate(lim, n, id, fate);
    OneFate(lim, s, id, fate);
    PlacedTogether(lim, s, id);
    PlacedTogether(lim, n, id);
  }

  lemma {:induction false} PlacedTogether(lim: Limits, s: State, id: TxId)
    requires Inv(lim, s) && id in s.transactions
    ensures s.transactions[id].batch.Some? <==> s.transactions[id].index.Some?
  {
    hide QueueOk, BatchOk, LaneOk, IsQueued;
    assert TxOk(s, id);
  }

  lemma {:induction false} CountersAlong(lim: Limits, before: seq<Step>, after: seq<Step>)
    ensures var s, n := Run(lim, INITIAL, before), Run(lim, INITIAL, before + after);
      s.nextArrival <= n.nextArrival && s.nextBatch <= n.nextBatch
    decreases |after|
  {
    hide Apply;
    if after == [] {
      assert before + after == before;
    } else {
      var init := before + after[..|after| - 1];
      assert (before + after)[..|before + after| - 1] == init;
      StepCounters(lim, Run(lim, INITIAL, init), after[|after| - 1]);
      CountersAlong(lim, before, after[..|after| - 1]);
    }
  }

  /** The step that ends a batch's hold on its lane. */
  predicate Settles(step: Step, batch: u64) {
    (step.Fail? || step.Materialize?) && step.batch == batch
  }

  predicate Dispatches(lim: Limits, s: State, step: Step, service: u32) {
    step.Take? && step.service == service &&
    Taken(lim, s, step.service, step.expected, step.slot, step.now).1.Some?
  }

  lemma {:induction false} StepHoldsLane(lim: Limits, s: State, step: Step, service: u32)
    requires service in s.inFlight && !Settles(step, s.inFlight[service])
    ensures !Dispatches(lim, s, step, service)
    ensures var n := Apply(lim, s, step); service in n.inFlight && n.inFlight[service] == s.inFlight[service]
  {
    hide SplitQueue, AfterSplit, WithPackage, WithFailure, WithUnknown;
    if step.Take? {
      SplitLanes(lim, s, step.service, SplitQueue(lim, Queue(s, step.service), step.expected, step.slot), step.now);
    }
  }

  /** One lane.  From the dispatch of a batch until its failure or materialization, whatever else
      happens (an unknown outcome included), the lane stays with it and the service dispatches nothing. */
  lemma {:induction false} LaneHeld(lim: Limits, s: State, steps: seq<Step>, service: u32)
    requires service in s.inFlight
    requires forall k :: 0 <= k < |steps| ==> !Settles(steps[k], s.inFlight[service])
    ensures var n := Run(lim, s, steps); service in n.inFlight && n.inFlight[service] == s.inFlight[service]
    ensures forall k :: 0 <= k < |steps| ==> !Dispatches(lim, Run(lim, s, steps[..k]), steps[k], service)
  {
    hide Apply, Dispatches;
    if steps != [] {
      var init := steps[..|steps| - 1];
      LaneHeld(lim, s, init, service);
      StepHoldsLane(lim, Run(lim, s, init), steps[|steps| - 1], service);
      forall k | 0 <= k < |steps| ensures !Dispatches(lim, Run(lim, s, steps[..k]), steps[k], service) {
        if k < |init| {
          assert init[..k] == steps[..k] && init[k] == steps[k];
        }
      }
    }
  }

  /** What is dispatched: the lane was free; the batch is new; its actions are those of distinct queued,
      unexpired transactions, at most `maxActions`, nonce-valid in order. */
  lemma {:induction false} DispatchIsSound(lim: Limits, s: State, service: u32, expected: Nonces, slot: u64, now: nat)
    requires Inv(lim, s) && Taken(lim, s, service, expected, slot, now).1.Some?
    ensures var (n, sub) := Taken(lim, s, service, expected, slot, now);
      var items := SplitQueue(lim, Queue(s, service), expected, slot).selected;
      && Free(s, service) && service in n.inFlight && n.inFlight[service] == sub.value.batch
      && sub.value.batch !in s.batches && sub.value.batch in n.batches
      && n.batches[sub.value.batch].ids == IdsOf(items)
      && sub.value.actions == ActionsOf(items) && 0 < |items| <= lim.maxActions
      && DistinctIds(items) && NonceRun(expected, items)
      && (forall k :: 0 <= k < |items| ==> IsQueued(s, items[k].id) && !IsExpired(items[k], slot))
  {
    hide Inv, SplitQueue, AfterSplit, NonceRun, SplitsId;
    var q := Queue(s, service);
    var split := SplitQueue(lim, q, expected, slot);
    QueueShape(lim, s, service);
    assert lim.Valid() by { LimitsOk(lim, s); }
    SelectedPart(lim, q, expected, slot);
    SplitLanes(lim, s, service, split, now);
    NextBatchIsNew(lim, s);
    forall k | 0 <= k < |split.selected|
      ensures IsQueued(s, split.selected[k].id) && !IsExpired(split.selected[k], slot)
    {
      SelectedItemsQueued(lim, q, expected, slot, k);
      assert IdsOf(split.selected)[k] == split.selected[k].id;
      SplitComesFromQueue(lim, q, expected, slot, split.selected[k].id);
      SelectedWasQueued(lim, s, service, split.selected[k].id);
    }
  }

  lemma {:induction false} LimitsOk(lim: Limits, s: State)
    requires Inv(lim, s)
    ensures lim.Valid()
  {
  }

  /** A dispatch keeps the invariant if and only if the batch counter can advance: at its limit the new
      batch is not below the counter. */
  lemma {:induction false} DispatchKeepsIff(lim: Limits, s: State, service: u32, expected: Nonces, slot: u64, now: nat)
    requires Inv(lim, s) && Taken(lim, s, service, expected, slot, now).1.Some?
    ensures Inv(lim, Taken(lim, s, service, expected, slot, now).0) <==> s.nextBatch < U64_MAX
  {
    hide SplitQueue, AfterSplit, QueueOk, TxOk, LaneOk;
    SplitLanes(lim, s, service, SplitQueue(lim, Queue(s, service), expected, slot), now);
    var n := Taken(lim, s, service, expected, slot, now).0;
    if s.nextBatch < U64_MAX {
      TakeStepKeeps(lim, s, service, expected, slot, now);
    } else {
      assert n.nextBatch == s.nextBatch && s.nextBatch in n.batches;
      assert !BatchOk(lim, n, s.nextBatch);
    }
  }

  /** At the limit two dispatches share one batch id: the second replaces the first one's record. */
  lemma {:induction false} SaturatedBatchReplaced(lim: Limits, s: State, t: State, a: u32, b: u32, expected: Nonces,
                                                 slot: u64, now: nat)
    requires s.nextBatch == U64_MAX && a != b && t == Taken(lim, s, a, expected, slot, now).0
    requires Taken(lim, s, a, expected, slot, now).1.Some? && Taken(lim, t, b, expected, slot, now).1.Some?
    ensures var n := Taken(lim, t, b, expected, slot, now).0;
      && Taken(lim, s, a, expected, slot, now).1.value.batch == Taken(lim, t, b, expected, slot, now).1.value.batch
      && a in n.inFlight && n.inFlight[a] == U64_MAX && U64_MAX in n.batches && n.batches[U64_MAX].service == b
  {
    hide SplitQueue, AfterSplit;
    SplitLanes(lim, s, a, SplitQueue(lim, Queue(s, a), expected, slot), now);
    SplitLanes(lim, t, b, SplitQueue(lim, Queue(t, b), expected, slot), now);
  }
}
