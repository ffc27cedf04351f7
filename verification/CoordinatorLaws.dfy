/** What every coordinator step keeps, and what that means for whole runs. */
module CoordinatorLaws {
  import opened Wrappers
  import opened Bytes
  import opened Outputs
  import opened Transactions
  import opened Scheduler
  import opened SchedulerLaws
  import opened Coordination

  datatype Step =
    | Enqueue(service: u32, request: Request, now: nat)
    | Take(service: u32, expected: Nonces, slot: u64, now: nat)
    | MarkBest(id: TxId)
    | Finish(batch: u64, hash: Root, prediction: Output)
    | Fail(batch: u64, error: string)
    | MarkUnknown(batch: u64, error: string)
    | Materialize(batch: u64)

  function Apply(lim: Limits, s: State, step: Step): State {
    match step
    case Enqueue(service, r, now) =>
      if HasRoom(lim, s, service, r.sender) then Enqueued(lim, s, service, r, now) else s
    case Take(service, expected, slot, now) => Taken(lim, s, service, expected, slot, now).0
    case MarkBest(id) => BestIncluded(s, id)
    case Finish(batch, hash, prediction) => Finished(s, batch, hash, prediction)
    case Fail(batch, error) => Failed(s, batch, error)
    case MarkUnknown(batch, error) => OutcomeUnknown(s, batch, error)
    case Materialize(batch) => Materialized(s, batch)
  }

  function Run(lim: Limits, s: State, steps: seq<Step>): State {
    if steps == [] then s else Apply(lim, Run(lim, s, steps[..|steps| - 1]), steps[|steps| - 1])
  }

  /** A queue in admission order: arrivals and sequence numbers both ascend. */
  ghost predicate Lined(q: seq<Pending>) {
    forall i, j :: 0 <= i < j < |q| ==> q[i].arrival < q[j].arrival && q[i].id.sequence < q[j].id.sequence
  }

  ghost predicate IsQueued(s: State, id: TxId) {
    id in IdsOf(Queue(s, id.service))
  }

  ghost predicate ItemOk(s: State, service: u32, item: Pending) {
    item.id.service == service && item.arrival < s.nextArrival && item.id in s.transactions
  }

  ghost predicate WithinLimits(lim: Limits, q: seq<Pending>) {
    |q| <= lim.perService && forall x: Sender :: CountFor(q, x) <= lim.perSender
  }

  ghost predicate QueueOk(lim: Limits, s: State, service: u32)
    requires service in s.queued
  {
    var q := s.queued[service];
    && q != [] && WithinLimits(lim, q) && Lined(q)
    && service in s.deadlines
    && (forall k :: 0 <= k < |q| ==> ItemOk(s, service, q[k]))
  }

  /** A transaction waits in its queue, failed before dispatch, or stands in exactly one batch. */
  ghost predicate TxOk(s: State, id: TxId)
    requires id in s.transactions
  {
    var tx := s.transactions[id];
    && tx.service == id.service && id.sequence < Sequence(s, id.service)
    && match tx.batch
       case None =>
         && (tx.error.None? <==> IsQueued(s, id))
         && tx.index.None? && tx.packageHash.None? && !tx.unknown
       case Some(b) =>
         && !IsQueued(s, id)
         && b in s.batches && tx.index.Some? && tx.index.value < |s.batches[b].ids|
         && s.batches[b].ids[tx.index.value] == id
  }

  ghost predicate MemberOk(s: State, b: u64, k: nat)
    requires b in s.batches && k < |s.batches[b].ids|
  {
    var batch, id := s.batches[b], s.batches[b].ids[k];
    && id in s.transactions
    && var tx := s.transactions[id];
       && tx.service == batch.service && tx.batch == Some(b) && tx.index == Some(k)
       && tx.packageHash == batch.packageHash
  }

  predicate HoldsLane(s: State, b: u64)
    requires b in s.batches
  {
    s.batches[b].service in s.inFlight && s.inFlight[s.batches[b].service] == b
  }

  ghost predicate AllReported(s: State, b: u64)
    requires b in s.batches
  {
    forall k :: 0 <= k < |s.batches[b].ids| ==> IsReported(s, s.batches[b].ids[k])
  }

  ghost predicate IsReported(s: State, id: TxId) {
    id in s.transactions && s.transactions[id].error.Some?
  }

  /** A batch holds its service's lane, or is materialized, or each of its transactions has an error. */
  ghost predicate BatchOk(lim: Limits, s: State, b: u64)
    requires b in s.batches
  {
    var batch := s.batches[b];
    && b < s.nextBatch && 0 < |batch.ids| <= lim.maxActions
    && (batch.packageHash.Some? <==> batch.prediction.Some?)
    && (forall k :: 0 <= k < |batch.ids| ==> MemberOk(s, b, k))
    && (HoldsLane(s, b) || batch.materialized || AllReported(s, b))
  }

  ghost predicate LaneOk(s: State, service: u32)
    requires service in s.inFlight
  {
    var b := s.inFlight[service];
    b in s.batches && s.batches[b].service == service && !s.batches[b].materialized
  }

  ghost predicate Inv(lim: Limits, s: State) {
    && lim.Valid()
    && (forall service :: service in s.queued ==> QueueOk(lim, s, service))
    && s.deadlines.Keys <= s.queued.Keys
    && (forall id :: id in s.transactions ==> TxOk(s, id))
    && (forall b :: b in s.batches ==> BatchOk(lim, s, b))
    && (forall service :: service in s.inFlight ==> LaneOk(s, service))
    && s.flushing <= s.inFlight.Keys
  }

  // ----- accepted requests -----

  /** The counters an accepted request advances are not at their limit. */
  predicate CountersLeft(s: State, service: u32) {
    s.nextArrival < U64_MAX && Sequence(s, service) < U64_MAX
  }

  lemma {:induction false} CountAppend(q: seq<Pending>, item: Pending, x: Sender)
    ensures CountFor(q + [item], x) == CountFor(q, x) + (if item.sender == Some(x) then 1 else 0)
  {
    assert (q + [item])[..|q|] == q;
  }

  lemma {:induction false} IdsAppend(q: seq<Pending>, item: Pending)
    ensures IdsOf(q + [item]) == IdsOf(q) + [item.id]
  {
  }

  lemma {:induction false} EnqueuedQueue(lim: Limits, s: State, service: u32, r: Request, now: nat, other: u32)
    requires Inv(lim, s) && HasRoom(lim, s, service, r.sender) && CountersLeft(s, service)
    requires other == service || other in s.queued
    ensures other in Enqueued(lim, s, service, r, now).queued
    ensures QueueOk(lim, Enqueued(lim, s, service, r, now), other)
  {
    hide CountFor, TxOk, BatchOk, LaneOk;
    var n := Enqueued(lim, s, service, r, now);
    var q, item := Queue(s, service), PendingFor(s, service, r);
    assert other in s.queued ==> QueueOk(lim, s, other);
    if other == service {
      assert service in s.queued ==> QueueOk(lim, s, service);
      forall x: Sender ensures CountFor(q + [item], x) <= lim.perSender {
        CountAppend(q, item, x);
        assert CountFor([], x) == 0 by { EmptyCount(x); }
      }
      forall i | 0 <= i < |q| ensures q[i].arrival < item.arrival && q[i].id.sequence < item.id.sequence {
        assert ItemOk(s, service, q[i]);
        TxSequence(s, q[i].id);
      }
    }
    forall k | 0 <= k < |n.queued[other]| ensures ItemOk(n, other, n.queued[other][k]) {
      if other in s.queued && k < |s.queued[other]| {
        assert ItemOk(s, other, s.queued[other][k]);
      }
    }
  }

  lemma {:induction false} EmptyCount(x: Sender)
    ensures CountFor([], x) == 0
  {
  }

  lemma {:induction false} TxSequence(s: State, id: TxId)
    requires id in s.transactions && TxOk(s, id)
    ensures id.sequence < Sequence(s, id.service)
  {
  }

  lemma {:induction false} EnqueuedTx(lim: Limits, s: State, service: u32, r: Request, now: nat, id: TxId)
    requires Inv(lim, s) && CountersLeft(s, service)
    requires id in Enqueued(lim, s, service, r, now).transactions
    ensures TxOk(Enqueued(lim, s, service, r, now), id)
  {
    hide CountFor, QueueOk, BatchOk, LaneOk;
    var n := Enqueued(lim, s, service, r, now);
    var newId := NextId(s, service, r.action);
    assert newId !in s.transactions by {
      if newId in s.transactions { TxSequence(s, newId); }
    }
    IdsAppend(Queue(s, service), PendingFor(s, service, r));
    if id != newId {
      assert TxOk(s, id);
    }
  }

  lemma {:induction false} EnqueuedBatch(lim: Limits, s: State, service: u32, r: Request, now: nat, b: u64)
    requires Inv(lim, s) && CountersLeft(s, service) && b in s.batches
    ensures BatchOk(lim, Enqueued(lim, s, service, r, now), b)
  {
    hide CountFor, QueueOk, LaneOk;
    var n := Enqueued(lim, s, service, r, now);
    var newId := NextId(s, service, r.action);
    assert newId !in s.transactions by {
      if newId in s.transactions { TxSequence(s, newId); }
    }
    assert BatchOk(lim, s, b);
    forall k | 0 <= k < |s.batches[b].ids| ensures MemberOk(n, b, k) {
      assert MemberOk(s, b, k);
    }
    if AllReported(s, b) {
      forall k | 0 <= k < |s.batches[b].ids| ensures IsReported(n, s.batches[b].ids[k]) {
        assert IsReported(s, s.batches[b].ids[k]);
      }
    }
  }

  lemma {:induction false} EnqueueKeeps(lim: Limits, s: State, service: u32, r: Request, now: nat)
    requires Inv(lim, s) && HasRoom(lim, s, service, r.sender) && CountersLeft(s, service)
    ensures Inv(lim, Enqueued(lim, s, service, r, now))
  {
    hide QueueOk, TxOk, BatchOk;
    var n := Enqueued(lim, s, service, r, now);
    forall other | other in n.queued ensures QueueOk(lim, n, other) {
      EnqueuedQueue(lim, s, service, r, now, other);
    }
    forall id | id in n.transactions ensures TxOk(n, id) {
      EnqueuedTx(lim, s, service, r, now, id);
    }
    forall b | b in n.batches ensures BatchOk(lim, n, b) {
      EnqueuedBatch(lim, s, service, r, now, b);
    }
    forall other | other in n.inFlight ensures LaneOk(n, other) {
      assert LaneOk(s, other);
    }
  }

  /** At a saturated counter the invariant is lost: the new item is not below the counter. */
  lemma {:induction false} EnqueueKeepsIff(lim: Limits, s: State, service: u32, r: Request, now: nat)
    requires Inv(lim, s) && HasRoom(lim, s, service, r.sender)
    ensures Inv(lim, Enqueued(lim, s, service, r, now)) <==> CountersLeft(s, service)
  {
    var n := Enqueued(lim, s, service, r, now);
    if CountersLeft(s, service) {
      EnqueueKeeps(lim, s, service, r, now);
    } else if Inv(lim, n) {
      SaturatedItem(lim, s, service, r, now);
    }
  }

  lemma {:induction false} SaturatedItem(lim: Limits, s: State, service: u32, r: Request, now: nat)
    requires !CountersLeft(s, service)
    ensures !Inv(lim, Enqueued(lim, s, service, r, now))
  {
    hide CountFor, BatchOk, LaneOk;
    var n := Enqueued(lim, s, service, r, now);
    var q, item := Queue(s, service), PendingFor(s, service, r);
    assert n.queued[service][|q|] == item;
    assert Inv(lim, n) ==> QueueOk(lim, n, service) && TxOk(n, item.id);
    assert QueueOk(lim, n, service) ==> ItemOk(n, service, item);
    assert !(ItemOk(n, service, item) && TxOk(n, item.id));
  }

  /** Two acceptances of one action get two ids exactly while the service's sequence can advance. */
  lemma {:induction false} RepeatedActionGetsNewId(lim: Limits, s: State, service: u32, r: Request, now: nat)
    ensures NextId(Enqueued(lim, s, service, r, now), service, r.action) != NextId(s, service, r.action) <==>
      Sequence(s, service) < U64_MAX
  {
    var n := Enqueued(lim, s, service, r, now);
    assert Sequence(n, service) == SaturatingNext(Sequence(s, service));
  }

  // ----- taking a batch -----

  lemma {:induction false} ViableFacts(q: seq<Pending>, slot: u64, x: Sender)
    ensures |Viable(q, slot)| <= |q| && CountFor(Viable(q, slot), x) <= CountFor(q, x)
    ensures forall item :: item in Viable(q, slot) <==> item in q && !IsExpired(item, slot)
    ensures Lined(q) ==> Lined(Viable(q, slot))
  {
    hide Lined;
    if q != [] {
      var init, last := q[..|q| - 1], q[|q| - 1];
      ViableFacts(init, slot, x);
      assert q == init + [last];
      var rest := Viable(init, slot);
      CountAppend(rest, last, x);
      LinedPrefix(init, last);
      if Lined(q) {
        LinedSubset(init, rest, last);
      }
    }
  }

  lemma {:induction false} LinedPrefix(q: seq<Pending>, last: Pending)
    ensures Lined(q + [last]) ==> Lined(q)
  {
    assert forall i :: 0 <= i < |q| ==> (q + [last])[i] == q[i];
  }

  lemma {:induction false} LinedSubset(q: seq<Pending>, rest: seq<Pending>, last: Pending)
    requires Lined(q + [last]) && Lined(rest)
    requires forall item :: item in rest ==> item in q
    ensures Lined(rest + [last])
  {
    forall k | 0 <= k < |rest|
      ensures rest[k].arrival < last.arrival && rest[k].id.sequence < last.id.sequence
    {
      assert rest[k] in rest;
      var j :| 0 <= j < |q| && q[j] == rest[k];
      assert (q + [last])[j] == rest[k] && (q + [last])[|q|] == last;
    }
  }

  lemma {:induction false} ExpiredFacts(q: seq<Pending>, slot: u64)
    ensures forall item :: item in Expired(q, slot) <==> item in q && IsExpired(item, slot)
  {
    if q != [] {
      var init, last := q[..|q| - 1], q[|q| - 1];
      ExpiredFacts(init, slot);
      assert q == init + [last];
    }
  }

  lemma {:induction false} LeftMembers(q: seq<Pending>, removed: set<nat>, n: nat)
    requires n <= |q|
    ensures forall item :: item in Left(q, removed, n) <==> exists i :: 0 <= i < n && i !in removed && q[i] == item
  {
    if n > 0 {
      LeftMembers(q, removed, n - 1);
    }
  }

  lemma {:induction false} LeftFacts(q: seq<Pending>, removed: set<nat>, n: nat, x: Sender)
    requires n <= |q|
    ensures var left := Left(q, removed, n);
      && |left| <= n && CountFor(left, x) <= CountFor(q[..n], x)
      && (forall item :: item in left ==> item in q[..n])
      && (Lined(q[..n]) ==> Lined(left))
  {
    hide Lined;
    if n > 0 {
      LeftFacts(q, removed, n - 1, x);
      var rest := Left(q, removed, n - 1);
      assert q[..n] == q[..n - 1] + [q[n - 1]];
      CountAppend(q[..n - 1], q[n - 1], x);
      CountAppend(rest, q[n - 1], x);
      LinedPrefix(q[..n - 1], q[n - 1]);
      if Lined(q[..n]) {
        LinedSubset(q[..n - 1], rest, q[n - 1]);
      }
    }
  }

  /** `id` stands in exactly one part of the split when it stands in the queue, and in none otherwise. */
  ghost predicate SplitsId(q: seq<Pending>, split: Split, id: TxId) {
    var e, t, c, l := id in IdsOf(split.expired), id in IdsOf(split.stale),
                      id in IdsOf(split.selected), id in IdsOf(split.left);
    && (id in IdsOf(q) <==> e || t || c || l)
    && !(e && t) && !(e && c) && !(e && l) && !(t && c) && !(t && l) && !(c && l)
  }

  ghost predicate DistinctIds(items: seq<Pending>) {
    forall a, b :: 0 <= a < b < |items| ==> items[a].id != items[b].id
  }

  /** The part of the split an index of the viable queue belongs to. */
  lemma {:induction false} PartOfIndex(lim: Limits, q: seq<Pending>, expected: Nonces, slot: u64, i: nat)
    requires Lined(q) && i < |Viable(q, slot)|
    ensures var v, split := Viable(q, slot), SplitQueue(lim, q, expected, slot);
      var picks := Select(v, expected, lim.maxActions);
      && (v[i].id in IdsOf(split.selected) <==> i in picks.selected)
      && (v[i].id in IdsOf(split.stale) <==> i in picks.stale)
      && (v[i].id in IdsOf(split.left) <==> i in picks.remaining)
  {
    hide Select, Viable, Expired, Left, NonceRun, AdvanceAll;
    var v := Viable(q, slot);
    var picks := Select(v, expected, lim.maxActions);
    ViableFacts(q, slot, []);
    SelectionSound(v, expected, lim.maxActions);
    PickedIds(v, picks.selected, i);
    PickedIds(v, picks.stale, i);
    LeftIds(v, Members(picks.selected) + Members(picks.stale), i);
  }

  lemma {:induction false} LeftIds(v: seq<Pending>, removed: set<nat>, i: nat)
    requires Lined(v) && i < |v|
    ensures v[i].id in IdsOf(Left(v, removed, |v|)) <==> i !in removed
  {
    hide Left;
    LeftMembers(v, removed, |v|);
    var left := Left(v, removed, |v|);
    if i !in removed {
      assert v[i] in left;
      var k :| 0 <= k < |left| && left[k] == v[i];
      assert IdsOf(left)[k] == v[i].id;
    }
    if v[i].id in IdsOf(left) {
      var k :| 0 <= k < |left| && IdsOf(left)[k] == v[i].id;
      assert left[k] in left;
      var j :| 0 <= j < |v| && j !in removed && v[j] == left[k];
      assert i == j;
    }
  }

  lemma {:induction false} PickedIds(v: seq<Pending>, picks: seq<nat>, i: nat)
    requires Lined(v) && Indices(picks, |v|) && i < |v|
    ensures v[i].id in IdsOf(Items(v, picks)) <==> i in picks
  {
    var ids := IdsOf(Items(v, picks));
    if i in picks {
      var k :| 0 <= k < |picks| && picks[k] == i;
      assert ids[k] == v[i].id;
    }
    if v[i].id in ids {
      var k :| 0 <= k < |ids| && ids[k] == v[i].id;
      assert picks[k] == i;
    }
  }

  lemma {:induction false} SplitIds(lim: Limits, q: seq<Pending>, expected: Nonces, slot: u64, id: TxId)
    requires Lined(q)
    ensures SplitsId(q, SplitQueue(lim, q, expected, slot), id)
  {
    hide Select, Viable, Expired, Left;
    var v, split := Viable(q, slot), SplitQueue(lim, q, expected, slot);
    SplitComesFromQueue(lim, q, expected, slot, id);
    if id in IdsOf(q) {
      var k :| 0 <= k < |q| && IdsOf(q)[k] == id;
      ViableFacts(q, slot, []);
      ExpiredFacts(q, slot);
      assert q[k] in q;
      if IsExpired(q[k], slot) {
        ExpiredIsNotViable(lim, q, expected, slot, k);
      } else {
        assert q[k] in v;
        var i :| 0 <= i < |v| && v[i] == q[k];
        PartOfIndex(lim, q, expected, slot, i);
        ViableIsNotExpired(q, slot, i);
        PicksPartition(lim, q, expected, slot, i);
      }
    }
  }

  lemma {:induction false} PicksPartition(lim: Limits, q: seq<Pending>, expected: Nonces, slot: u64, i: nat)
    requires i < |Viable(q, slot)|
    ensures var p := Select(Viable(q, slot), expected, lim.maxActions);
      && (i in p.selected || i in p.stale || i in p.remaining)
      && !(i in p.selected && i in p.stale) && !(i in p.selected && i in p.remaining)
      && !(i in p.stale && i in p.remaining)
  {
    hide Select, Viable, NonceRun, AdvanceAll;
    SelectionSound(Viable(q, slot), expected, lim.maxActions);
  }

  lemma {:induction false} ViableIsNotExpired(q: seq<Pending>, slot: u64, i: nat)
    requires Lined(q) && i < |Viable(q, slot)|
    ensures Viable(q, slot)[i].id !in IdsOf(Expired(q, slot))
  {
    hide Viable, Expired;
    var v, e := Viable(q, slot), Expired(q, slot);
    ViableFacts(q, slot, []);
    ExpiredFacts(q, slot);
    assert v[i] in v;
    if v[i].id in IdsOf(e) {
      var k :| 0 <= k < |e| && IdsOf(e)[k] == v[i].id;
      assert e[k] in e;
      SameIdSameItem(q, e[k], v[i]);
    }
  }

  lemma {:induction false} SameIdSameItem(q: seq<Pending>, a: Pending, b: Pending)
    requires Lined(q) && a in q && b in q && a.id == b.id
    ensures a == b
  {
  }

  lemma {:induction false} ExpiredIsNotViable(lim: Limits, q: seq<Pending>, expected: Nonces, slot: u64, k: nat)
    requires Lined(q) && k < |q| && IsExpired(q[k], slot)
    ensures var split := SplitQueue(lim, q, expected, slot);
      && q[k].id in IdsOf(split.expired) && q[k].id !in IdsOf(split.stale)
      && q[k].id !in IdsOf(split.selected) && q[k].id !in IdsOf(split.left)
  {
    hide Select, Viable, Expired, Left;
    ExpiredFacts(q, slot);
    var e, split := Expired(q, slot), SplitQueue(lim, q, expected, slot);
    assert q[k] in q && q[k] in e;
    var j :| 0 <= j < |e| && e[j] == q[k];
    assert IdsOf(e)[j] == q[k].id;
    SplitComesFromViable(lim, q, expected, slot, q[k].id);
    if q[k].id in IdsOf(Viable(q, slot)) {
      var i :| 0 <= i < |Viable(q, slot)| && IdsOf(Viable(q, slot))[i] == q[k].id;
      ViableIsNotExpired(q, slot, i);
    }
  }

  lemma {:induction false} SplitComesFromViable(lim: Limits, q: seq<Pending>, expected: Nonces, slot: u64, id: TxId)
    ensures var split := SplitQueue(lim, q, expected, slot);
      id in IdsOf(split.stale) || id in IdsOf(split.selected) || id in IdsOf(split.left) ==>
        id in IdsOf(Viable(q, slot))
  {
    hide Select, Viable, Expired, Left, IdsOf, Items;
    var v := Viable(q, slot);
    SelectionIndices(v, expected, lim.maxActions);
    var picks := Select(v, expected, lim.maxActions);
    PicksComeFrom(v, picks.stale, id);
    PicksComeFrom(v, picks.selected, id);
    LeftComesFrom(v, Members(picks.selected) + Members(picks.stale), id);
  }

  lemma {:induction false} PicksComeFrom(v: seq<Pending>, picks: seq<nat>, id: TxId)
    requires Indices(picks, |v|)
    ensures id in IdsOf(Items(v, picks)) ==> id in IdsOf(v)
  {
    if id in IdsOf(Items(v, picks)) {
      var k :| 0 <= k < |picks| && IdsOf(Items(v, picks))[k] == id;
      assert IdsOf(v)[picks[k]] == id;
    }
  }

  lemma {:induction false} LeftComesFrom(v: seq<Pending>, removed: set<nat>, id: TxId)
    ensures id in IdsOf(Left(v, removed, |v|)) ==> id in IdsOf(v)
  {
    hide Left;
    LeftMembers(v, removed, |v|);
    var left := Left(v, removed, |v|);
    if id in IdsOf(left) {
      var k :| 0 <= k < |left| && IdsOf(left)[k] == id;
      assert left[k] in left;
      var i :| 0 <= i < |v| && v[i] == left[k];
      assert IdsOf(v)[i] == id;
    }
  }

  lemma {:induction false} SplitComesFromQueue(lim: Limits, q: seq<Pending>, expected: Nonces, slot: u64, id: TxId)
    ensures var split := SplitQueue(lim, q, expected, slot);
      (id in IdsOf(split.expired) || id in IdsOf(split.stale) || id in IdsOf(split.selected) ||
       id in IdsOf(split.left)) ==> id in IdsOf(q)
  {
    hide Select, Viable, Expired, Left, SplitQueue;
    var v, e := Viable(q, slot), Expired(q, slot);
    ViableFacts(q, slot, []);
    ExpiredFacts(q, slot);
    SplitComesFromViable(lim, q, expected, slot, id);
    assert SplitQueue(lim, q, expected, slot).expired == e by { SplitExpired(lim, q, expected, slot); }
    if id in IdsOf(e) {
      var k :| 0 <= k < |e| && IdsOf(e)[k] == id;
      assert e[k] in e;
      var j :| 0 <= j < |q| && q[j] == e[k];
      assert IdsOf(q)[j] == id;
    }
    if id in IdsOf(v) {
      var k :| 0 <= k < |v| && IdsOf(v)[k] == id;
      assert v[k] in v;
      var j :| 0 <= j < |q| && q[j] == v[k];
      assert IdsOf(q)[j] == id;
    }
  }

  lemma {:induction false} SplitExpired(lim: Limits, q: seq<Pending>, expected: Nonces, slot: u64)
    ensures SplitQueue(lim, q, expected, slot).expired == Expired(q, slot)
  {
  }

  /** The selected part: distinct, at most the cap, and nonce-valid from the expected counters on. */
  lemma {:induction false} SelectedPart(lim: Limits, q: seq<Pending>, expected: Nonces, slot: u64)
    requires Lined(q) && lim.Valid()
    ensures var selected := SplitQueue(lim, q, expected, slot).selected;
      DistinctIds(selected) && |selected| <= lim.maxActions && NonceRun(expected, selected)
  {
    hide Select, Viable, Expired, Left, NonceRun, AdvanceAll;
    var v := Viable(q, slot);
    ViableFacts(q, slot, []);
    SelectionSound(v, expected, lim.maxActions);
    CappedIsPrefix(v, expected, lim.maxActions);
    var picks := Select(v, expected, lim.maxActions);
    var selected := SplitQueue(lim, q, expected, slot).selected;
    forall a, b | 0 <= a < b < |selected| ensures selected[a].id != selected[b].id {
      assert picks.selected[a] != picks.selected[b];
    }
  }

  lemma {:induction false} SelectedItemsQueued(lim: Limits, q: seq<Pending>, expected: Nonces, slot: u64, k: nat)
    requires k < |SplitQueue(lim, q, expected, slot).selected|
    ensures SplitQueue(lim, q, expected, slot).selected[k] in q
    ensures !IsExpired(SplitQueue(lim, q, expected, slot).selected[k], slot)
  {
    hide Select, Viable, Expired, Left;
    var v := Viable(q, slot);
    SelectionIndices(v, expected, lim.maxActions);
    ViableFacts(q, slot, []);
    var picks := Select(v, expected, lim.maxActions);
    assert v[picks.selected[k]] in v;
  }

  /** The part left over is a queue within the limits again. */
  lemma {:induction false} LeftPart(lim: Limits, q: seq<Pending>, expected: Nonces, slot: u64)
    requires Lined(q) && WithinLimits(lim, q)
    ensures var left := SplitQueue(lim, q, expected, slot).left;
      Lined(left) && WithinLimits(lim, left) && (forall item :: item in left ==> item in q)
  {
    hide Select, Viable, Expired, Left, CountFor;
    var v := Viable(q, slot);
    SelectionIndices(v, expected, lim.maxActions);
    var picks := Select(v, expected, lim.maxActions);
    var removed := Members(picks.selected) + Members(picks.stale);
    ViableFacts(q, slot, []);
    LeftFacts(v, removed, |v|, []);
    assert v[..|v|] == v;
    forall x: Sender ensures CountFor(Left(v, removed, |v|), x) <= lim.perSender {
      ViableFacts(q, slot, x);
      LeftFacts(v, removed, |v|, x);
    }
  }

  /** What `take_ready_batch` did to one transaction. */
  ghost predicate TxAfterTake(split: Split, batch: u64, id: TxId, before: Transaction, after: Transaction) {
    if id in IdsOf(split.expired) then after == before.(error := Some(EXPIRED))
    else if id in IdsOf(split.stale) then after == before.(error := Some(STALE))
    else if id in IdsOf(split.selected) then
      && after == before.(batch := Some(batch), index := after.index)
      && after.index.Some? && after.index.value < |split.selected|
      && split.selected[after.index.value].id == id
    else after == before
  }

  /** A take that got as far as splitting the queue. */
  ghost predicate TakeEffect(s: State, n: State, service: u32, split: Split) {
    && n.nextSequences == s.nextSequences && n.nextArrival == s.nextArrival
    && n.transactions.Keys == s.transactions.Keys
    && (forall id :: id in s.transactions ==>
          TxAfterTake(split, s.nextBatch, id, s.transactions[id], n.transactions[id]))
    && Queue(n, service) == split.left
    && (service in n.queued <==> split.left != []) && (service in n.deadlines <==> split.left != [])
    && n.queued - {service} == s.queued - {service}
    && n.deadlines - {service} == s.deadlines - {service}
    && (if split.selected == [] then
          n.nextBatch == s.nextBatch && n.flushing == s.flushing && n.inFlight == s.inFlight && n.batches == s.batches
        else
          && n.nextBatch == SaturatingNext(s.nextBatch)
          && n.flushing == s.flushing + {service}
          && n.inFlight == s.inFlight[service := s.nextBatch]
          && n.batches == s.batches[s.nextBatch := Batch(service, IdsOf(split.selected), None, None, false)])
  }

  lemma {:induction false} ReportedTx(s: State, split: Split, id: TxId)
    requires id in s.transactions
    ensures id in Reported(s, split).transactions
    ensures Reported(s, split).transactions[id] ==
      if id in IdsOf(split.stale) then s.transactions[id].(error := Some(STALE))
      else if id in IdsOf(split.expired) then s.transactions[id].(error := Some(EXPIRED))
      else s.transactions[id]
  {
  }

  lemma {:induction false} SplitTx(lim: Limits, s: State, service: u32, split: Split, now: nat, id: TxId)
    requires id in s.transactions && SplitsId(Queue(s, service), split, id)
    ensures id in AfterSplit(lim, s, service, split, now).transactions
    ensures TxAfterTake(split, s.nextBatch, id, s.transactions[id],
                        AfterSplit(lim, s, service, split, now).transactions[id])
  {
    hide Reported, Placed;
    var mid := Reported(s, split);
    ReportedTx(s, split, id);
    PlacedTx(mid.transactions, IdsOf(split.selected), s.nextBatch, id);
    assert IdsOf([]) == [];
    assert mid.nextBatch == s.nextBatch by { ReportedFrame(s, split); }
  }

  lemma {:induction false} ReportedFrame(s: State, split: Split)
    ensures Reported(s, split) == s.(transactions := Reported(s, split).transactions)
    ensures Reported(s, split).transactions.Keys == s.transactions.Keys
  {
  }

  lemma {:induction false} PlacedTx(txs: Ledger, ids: seq<TxId>, batch: u64, id: TxId)
    requires id in txs
    ensures id in Placed(txs, ids, batch)
    ensures Placed(txs, ids, batch)[id] ==
      if id in ids then txs[id].(batch := Some(batch), index := Some(LastIndex(ids, id))) else txs[id]
  {
  }

  lemma {:induction false} RequeuedFrame(lim: Limits, s: State, service: u32, split: Split, now: nat)
    ensures var n := Requeued(lim, s, service, split, now);
      && n == s.(queued := n.queued, deadlines := n.deadlines)
      && Queue(n, service) == split.left
      && (service in n.queued <==> split.left != []) && (service in n.deadlines <==> split.left != [])
      && n.queued - {service} == s.queued - {service}
      && n.deadlines - {service} == s.deadlines - {service}
  {
    var n := Requeued(lim, s, service, split, now);
    MapWithout(s.queued, service, split.left);
    MapWithout(s.deadlines, service, now + if split.selected == [] then RECHECK_DELAY else lim.flushDelay);
  }

  lemma {:induction false} MapWithout<V>(m: map<u32, V>, k: u32, v: V)
    ensures m[k := v] - {k} == m - {k} == (m - {k}) - {k}
    ensures k !in m - {k}
  {
  }

  lemma {:induction false} DispatchedFrame(s: State, service: u32, selected: seq<Pending>)
    ensures var n := Dispatched(s, service, selected);
      && n == State(s.nextSequences, s.nextArrival, SaturatingNext(s.nextBatch), s.queued, s.deadlines,
                    s.flushing + {service}, s.inFlight[service := s.nextBatch], n.transactions,
                    s.batches[s.nextBatch := Batch(service, IdsOf(selected), None, None, false)])
      && n.transactions.Keys == s.transactions.Keys
  {
    hide IdsOf, LastIndex;
  }

  lemma {:induction false} SplitLanes(lim: Limits, s: State, service: u32, split: Split, now: nat)
    ensures var n := AfterSplit(lim, s, service, split, now);
      && n.nextSequences == s.nextSequences && n.nextArrival == s.nextArrival
      && n.transactions.Keys == s.transactions.Keys
      && Queue(n, service) == split.left
      && (service in n.queued <==> split.left != []) && (service in n.deadlines <==> split.left != [])
      && n.queued - {service} == s.queued - {service}
      && n.deadlines - {service} == s.deadlines - {service}
      && (if split.selected == [] then
            n.nextBatch == s.nextBatch && n.flushing == s.flushing && n.inFlight == s.inFlight && n.batches == s.batches
          else
            && n.nextBatch == SaturatingNext(s.nextBatch)
            && n.flushing == s.flushing + {service}
            && n.inFlight == s.inFlight[service := s.nextBatch]
            && n.batches == s.batches[s.nextBatch := Batch(service, IdsOf(split.selected), None, None, false)])
  {
    hide Reported, Requeued, Dispatched, IdsOf;
    ReportedFrame(s, split);
    RequeuedFrame(lim, Reported(s, split), service, split, now);
    DispatchedFrame(Requeued(lim, Reported(s, split), service, split, now), service, split.selected);
  }

  lemma {:induction false} SplitHasEffect(lim: Limits, s: State, service: u32, split: Split, now: nat)
    requires forall id :: id in s.transactions ==> SplitsId(Queue(s, service), split, id)
    ensures TakeEffect(s, AfterSplit(lim, s, service, split, now), service, split)
  {
    hide SplitsId, TxAfterTake, AfterSplit, IdsOf;
    var n := AfterSplit(lim, s, service, split, now);
    SplitLanes(lim, s, service, split, now);
    forall id | id in s.transactions
      ensures id in n.transactions && TxAfterTake(split, s.nextBatch, id, s.transactions[id], n.transactions[id])
    {
      SplitTx(lim, s, service, split, now, id);
    }
  }

  lemma {:induction false} QueueShape(lim: Limits, s: State, service: u32)
    requires Inv(lim, s)
    ensures Lined(Queue(s, service)) && WithinLimits(lim, Queue(s, service))
    ensures forall k :: 0 <= k < |Queue(s, service)| ==> ItemOk(s, service, Queue(s, service)[k])
  {
    hide TxOk, BatchOk, LaneOk;
    assert service in s.queued ==> QueueOk(lim, s, service);
    forall x: Sender ensures CountFor(Queue(s, service), x) <= lim.perSender {
      EmptyCount(x);
    }
  }

  lemma {:induction false} TakenHasEffect(lim: Limits, s: State, service: u32, expected: Nonces, slot: u64, now: nat)
    requires Inv(lim, s) && Free(s, service) && Due(lim, s, service, now)
    requires SendersKnown(Queue(s, service), expected)
    ensures TakeEffect(s, Taken(lim, s, service, expected, slot, now).0, service,
                       SplitQueue(lim, Queue(s, service), expected, slot))
  {
    hide SplitQueue, Inv, AfterSplit, TakeEffect, SplitsId;
    var split := SplitQueue(lim, Queue(s, service), expected, slot);
    QueueShape(lim, s, service);
    forall id ensures SplitsId(Queue(s, service), split, id) {
      SplitIds(lim, Queue(s, service), expected, slot, id);
    }
    SplitHasEffect(lim, s, service, split, now);
  }

  /** What the preservation proofs need to know about a split of the service's queue. */
  ghost predicate SplitOk(lim: Limits, s: State, service: u32, split: Split) {
    && (forall id :: SplitsId(Queue(s, service), split, id))
    && DistinctIds(split.selected) && |split.selected| <= lim.maxActions
    && Lined(split.left) && WithinLimits(lim, split.left)
    && (forall item :: item in split.left ==> item in Queue(s, service))
  }

  lemma {:induction false} SplitIsOk(lim: Limits, s: State, service: u32, expected: Nonces, slot: u64)
    requires Inv(lim, s)
    ensures SplitOk(lim, s, service, SplitQueue(lim, Queue(s, service), expected, slot))
  {
    hide SplitQueue, QueueOk, TxOk, BatchOk, LaneOk, SplitsId, WithinLimits, Lined;
    QueueShape(lim, s, service);
    forall id ensures SplitsId(Queue(s, service), SplitQueue(lim, Queue(s, service), expected, slot), id) {
      SplitIds(lim, Queue(s, service), expected, slot, id);
    }
    SelectedPart(lim, Queue(s, service), expected, slot);
    LeftPart(lim, Queue(s, service), expected, slot);
  }

  lemma {:induction false} TakenQueue(lim: Limits, s: State, n: State, service: u32, split: Split, other: u32)
    requires Inv(lim, s) && SplitOk(lim, s, service, split) && TakeEffect(s, n, service, split)
    requires other in n.queued
    ensures QueueOk(lim, n, other)
  {
    hide TxOk, BatchOk, LaneOk, SplitsId, TxAfterTake, CountFor, IdsOf, DistinctIds;
    if other == service {
      QueueShape(lim, s, service);
      var q := Queue(s, service);
      forall k | 0 <= k < |split.left| ensures ItemOk(n, service, split.left[k]) {
        assert split.left[k] in split.left;
        var j :| 0 <= j < |q| && q[j] == split.left[k];
        assert ItemOk(s, service, q[j]);
      }
    } else {
      OtherQueue(s, n, service, other);
      assert QueueOk(lim, s, other);
      forall k | 0 <= k < |s.queued[other]| ensures ItemOk(n, other, s.queued[other][k]) {
        assert ItemOk(s, other, s.queued[other][k]);
      }
    }
  }

  lemma {:induction false} OtherQueue(s: State, n: State, service: u32, other: u32)
    requires n.queued - {service} == s.queued - {service} && n.deadlines - {service} == s.deadlines - {service}
    requires other != service
    ensures other in n.queued <==> other in s.queued
    ensures other in s.queued ==> n.queued[other] == s.queued[other]
    ensures other in n.deadlines <==> other in s.deadlines
  {
    assert other in n.queued <==> other in n.queued - {service};
    assert other in s.queued <==> other in s.queued - {service};
    assert other in n.deadlines <==> other in n.deadlines - {service};
    assert other in s.deadlines <==> other in s.deadlines - {service};
    if other in s.queued {
      assert (n.queued - {service})[other] == (s.queued - {service})[other];
    }
  }

  lemma {:induction false} TakenTx(lim: Limits, s: State, n: State, service: u32, split: Split, id: TxId)
    requires Inv(lim, s) && SplitOk(lim, s, service, split) && TakeEffect(s, n, service, split)
    requires s.nextBatch < U64_MAX || split.selected == []
    requires id in s.transactions
    ensures TxOk(n, id)
  {
    hide QueueOk, BatchOk, LaneOk, Lined, WithinLimits, DistinctIds;
    assert TxOk(s, id);
    assert SplitsId(Queue(s, service), split, id);
    assert TxAfterTake(split, s.nextBatch, id, s.transactions[id], n.transactions[id]);
    QueuedAfterTake(lim, s, n, service, split, id);
    NextBatchIsNew(lim, s);
    hide Inv, SplitOk, IsQueued;
    assert id.service == service ==> (IsQueued(s, id) <==> id in IdsOf(Queue(s, service))) by {
      QueuedMeans(s, id);
    }
    TxAfter(s, n, service, split, id);
  }

  lemma {:induction false} QueuedMeans(s: State, id: TxId)
    ensures IsQueued(s, id) <==> id in IdsOf(Queue(s, id.service))
  {
  }

  lemma {:induction false} QueuedAfterTake(lim: Limits, s: State, n: State, service: u32, split: Split, id: TxId)
    requires Inv(lim, s) && TakeEffect(s, n, service, split)
    ensures id.service == service ==> (IsQueued(n, id) <==> id in IdsOf(split.left))
    ensures id.service != service ==> (IsQueued(n, id) <==> IsQueued(s, id)) && id !in IdsOf(Queue(s, service))
  {
    hide Inv, TxAfterTake;
    if id.service != service {
      OtherQueue(s, n, service, id.service);
      NotInOtherQueue(lim, s, service, id);
    }
  }

  lemma {:induction false} TxAfter(s: State, n: State, service: u32, split: Split, id: TxId)
    requires id in s.transactions && id in n.transactions && TxOk(s, id)
    requires TxAfterTake(split, s.nextBatch, id, s.transactions[id], n.transactions[id])
    requires SplitsId(Queue(s, service), split, id)
    requires id.service == service ==> (IsQueued(s, id) <==> id in IdsOf(Queue(s, service)))
    requires id.service == service ==> (IsQueued(n, id) <==> id in IdsOf(split.left))
    requires id.service != service ==> (IsQueued(n, id) <==> IsQueued(s, id)) && id !in IdsOf(Queue(s, service))
    requires n.nextSequences == s.nextSequences && s.nextBatch !in s.batches
    requires n.batches == if split.selected == [] then s.batches
      else s.batches[s.nextBatch := Batch(service, IdsOf(split.selected), None, None, false)]
    ensures TxOk(n, id)
  {
    hide IsQueued;
    assert IdsOf([]) == [];
  }

  lemma {:induction false} NotInOtherQueue(lim: Limits, s: State, service: u32, id: TxId)
    requires Inv(lim, s) && id.service != service
    ensures id !in IdsOf(Queue(s, service))
  {
    hide Inv;
    QueueShape(lim, s, service);
  }

  lemma {:induction false} TakenBatch(lim: Limits, s: State, n: State, service: u32, split: Split, b: u64)
    requires Inv(lim, s) && SplitOk(lim, s, service, split) && TakeEffect(s, n, service, split)
    requires s.nextBatch < U64_MAX || split.selected == []
    requires Free(s, service) && b in s.batches
    ensures b in n.batches && BatchOk(lim, n, b)
  {
    hide QueueOk, LaneOk, TxOk, SplitOk, TxAfterTake;
    assert BatchOk(lim, s, b);
    NextBatchIsNew(lim, s);
    assert n.batches[b] == s.batches[b];
    forall k | 0 <= k < |s.batches[b].ids|
      ensures MemberOk(n, b, k) && n.transactions[s.batches[b].ids[k]] == s.transactions[s.batches[b].ids[k]]
    {
      assert MemberOk(s, b, k);
      BatchedUntouched(lim, s, n, service, split, s.batches[b].ids[k]);
    }
    assert AllReported(s, b) ==> AllReported(n, b) by {
      if AllReported(s, b) {
        forall k | 0 <= k < |s.batches[b].ids| ensures IsReported(n, s.batches[b].ids[k]) {
          assert IsReported(s, s.batches[b].ids[k]);
        }
      }
    }
  }

  lemma {:induction false} BatchedUntouched(lim: Limits, s: State, n: State, service: u32, split: Split, id: TxId)
    requires Inv(lim, s) && SplitOk(lim, s, service, split) && TakeEffect(s, n, service, split)
    requires id in s.transactions && s.transactions[id].batch.Some?
    ensures n.transactions[id] == s.transactions[id]
  {
    hide QueueOk, BatchOk, LaneOk, CountFor, Lined, WithinLimits, DistinctIds;
    assert TxOk(s, id);
    assert SplitsId(Queue(s, service), split, id);
    assert TxAfterTake(split, s.nextBatch, id, s.transactions[id], n.transactions[id]);
    if id.service != service {
      NotInOtherQueue(lim, s, service, id);
    }
  }

  lemma {:induction false} TakenNewBatch(lim: Limits, s: State, n: State, service: u32, split: Split)
    requires Inv(lim, s) && SplitOk(lim, s, service, split) && TakeEffect(s, n, service, split)
    requires s.nextBatch < U64_MAX && split.selected != []
    ensures s.nextBatch in n.batches && BatchOk(lim, n, s.nextBatch)
  {
    hide QueueOk, BatchOk, LaneOk, CountFor, Lined, WithinLimits;
    var b, ids := s.nextBatch, IdsOf(split.selected);
    forall k | 0 <= k < |ids| ensures MemberOk(n, b, k) {
      NewMember(lim, s, n, service, split, k);
    }
    BatchShape(lim, n, b);
  }

  lemma {:induction false} NewMember(lim: Limits, s: State, n: State, service: u32, split: Split, k: nat)
    requires Inv(lim, s) && SplitOk(lim, s, service, split) && TakeEffect(s, n, service, split)
    requires k < |split.selected|
    ensures MemberOk(n, s.nextBatch, k)
  {
    hide Inv, Lined, WithinLimits;
    var id := split.selected[k].id;
    assert IdsOf(split.selected)[k] == id;
    assert SplitsId(Queue(s, service), split, id);
    SelectedWasQueued(lim, s, service, id);
    assert TxAfterTake(split, s.nextBatch, id, s.transactions[id], n.transactions[id]);
  }

  lemma {:induction false} BatchShape(lim: Limits, n: State, b: u64)
    requires b in n.batches && b < n.nextBatch && 0 < |n.batches[b].ids| <= lim.maxActions
    requires n.batches[b].packageHash.Some? <==> n.batches[b].prediction.Some?
    requires forall k :: 0 <= k < |n.batches[b].ids| ==> MemberOk(n, b, k)
    requires HoldsLane(n, b)
    ensures BatchOk(lim, n, b)
  {
  }

  lemma {:induction false} SelectedWasQueued(lim: Limits, s: State, service: u32, id: TxId)
    requires Inv(lim, s) && id in IdsOf(Queue(s, service))
    ensures id in s.transactions && id.service == service
    ensures s.transactions[id] == Transaction(service, None, None, None, None, false, s.transactions[id].bestIncluded)
  {
    hide QueueOk, BatchOk, LaneOk;
    QueueShape(lim, s, service);
    var q := Queue(s, service);
    var k :| 0 <= k < |q| && IdsOf(q)[k] == id;
    assert ItemOk(s, service, q[k]);
    assert TxOk(s, id);
  }

  lemma {:induction false} TakeKeeps(lim: Limits, s: State, n: State, service: u32, split: Split)
    requires Inv(lim, s) && SplitOk(lim, s, service, split) && TakeEffect(s, n, service, split)
    requires s.nextBatch < U64_MAX || split.selected == []
    requires Free(s, service)
    ensures Inv(lim, n)
  {
    hide QueueOk, TxOk, BatchOk, SplitOk, TxAfterTake, IdsOf;
    forall other | other in n.queued ensures QueueOk(lim, n, other) {
      TakenQueue(lim, s, n, service, split, other);
    }
    forall id | id in n.transactions ensures TxOk(n, id) {
      TakenTx(lim, s, n, service, split, id);
    }
    forall b | b in n.batches ensures BatchOk(lim, n, b) {
      if b in s.batches {
        TakenBatch(lim, s, n, service, split, b);
      } else {
        TakenNewBatch(lim, s, n, service, split);
      }
    }
    forall other | other in n.inFlight ensures LaneOk(n, other) {
      assert other in s.inFlight ==> LaneOk(s, other);
      NextBatchIsNew(lim, s);
    }
    forall other | other in n.deadlines ensures other in n.queued {
      if other != service { OtherQueue(s, n, service, other); }
    }
  }

  lemma {:induction false} NextBatchIsNew(lim: Limits, s: State)
    requires Inv(lim, s)
    ensures s.nextBatch !in s.batches
  {
    hide QueueOk, TxOk, LaneOk;
    forall b | b in s.batches ensures b < s.nextBatch {
      assert BatchOk(lim, s, b);
    }
  }

  // ----- settling a batch -----

  /** A transaction keeps its place; an error, once set, stays set; undispatched ones are left alone. */
  ghost predicate Touch(before: Transaction, after: Transaction) {
    && after.service == before.service && after.batch == before.batch && after.index == before.index
    && (before.error.Some? ==> after.error.Some?)
    && (before.batch.None? ==> after == before.(bestIncluded := after.bestIncluded))
  }

  /** Queues, counters and the membership of batches are as before. */
  ghost predicate SameShape(s: State, n: State) {
    && n.queued == s.queued && n.deadlines.Keys == s.deadlines.Keys && n.nextSequences == s.nextSequences
    && n.nextArrival == s.nextArrival && n.nextBatch == s.nextBatch
    && n.transactions.Keys == s.transactions.Keys && n.batches.Keys == s.batches.Keys
    && (forall id :: id in s.transactions ==> Touch(s.transactions[id], n.transactions[id]))
    && (forall b :: b in s.batches ==>
          n.batches[b].ids == s.batches[b].ids && n.batches[b].service == s.batches[b].service)
  }

  ghost predicate PackageOk(n: State, b: u64)
    requires b in n.batches
  {
    var batch := n.batches[b];
    && (batch.packageHash.Some? <==> batch.prediction.Some?)
    && (forall k :: 0 <= k < |batch.ids| && batch.ids[k] in n.transactions ==>
          n.transactions[batch.ids[k]].packageHash == batch.packageHash)
  }

  ghost predicate Settled(n: State, b: u64)
    requires b in n.batches
  {
    HoldsLane(n, b) || n.batches[b].materialized || AllReported(n, b)
  }

  lemma {:induction false} ShapeKeepsTx(s: State, n: State, id: TxId)
    requires SameShape(s, n) && id in s.transactions && TxOk(s, id)
    ensures TxOk(n, id)
  {
    assert Touch(s.transactions[id], n.transactions[id]);
  }

  lemma {:induction false} ShapeKeepsQueue(lim: Limits, s: State, n: State, service: u32)
    requires SameShape(s, n) && service in s.queued && QueueOk(lim, s, service)
    ensures QueueOk(lim, n, service)
  {
    hide Touch, Lined, WithinLimits;
    forall k | 0 <= k < |s.queued[service]| ensures ItemOk(n, service, s.queued[service][k]) {
      assert ItemOk(s, service, s.queued[service][k]);
    }
  }

  lemma {:induction false} ShapeKeepsBatch(lim: Limits, s: State, n: State, b: u64)
    requires SameShape(s, n) && b in s.batches && BatchOk(lim, s, b)
    requires PackageOk(n, b) && Settled(n, b)
    ensures BatchOk(lim, n, b)
  {
    forall k | 0 <= k < |s.batches[b].ids| ensures MemberOk(n, b, k) {
      assert MemberOk(s, b, k);
      assert Touch(s.transactions[s.batches[b].ids[k]], n.transactions[s.batches[b].ids[k]]);
    }
  }

  lemma {:induction false} ShapeKeeps(lim: Limits, s: State, n: State)
    requires Inv(lim, s) && SameShape(s, n)
    requires forall b :: b in n.batches ==> PackageOk(n, b) && Settled(n, b)
    requires forall service :: service in n.inFlight ==> LaneOk(n, service)
    requires n.flushing <= n.inFlight.Keys
    ensures Inv(lim, n)
  {
    hide Touch, QueueOk, TxOk, BatchOk, LaneOk, PackageOk, Settled;
    forall service | service in n.queued ensures QueueOk(lim, n, service) {
      ShapeKeepsQueue(lim, s, n, service);
    }
    forall id | id in n.transactions ensures TxOk(n, id) {
      ShapeKeepsTx(s, n, id);
    }
    forall b | b in n.batches ensures BatchOk(lim, n, b) {
      ShapeKeepsBatch(lim, s, n, b);
    }
  }

  /** Two batches share no transaction. */
  lemma {:induction false} BatchesDisjoint(lim: Limits, s: State, a: u64, b: u64, k: nat)
    requires Inv(lim, s) && a in s.batches && b in s.batches && a != b && k < |s.batches[b].ids|
    ensures s.batches[b].ids[k] !in s.batches[a].ids
  {
    hide QueueOk, TxOk, LaneOk;
    assert BatchOk(lim, s, a) && BatchOk(lim, s, b);
    assert MemberOk(s, b, k);
    forall j | 0 <= j < |s.batches[a].ids| ensures s.batches[a].ids[j] != s.batches[b].ids[k] {
      assert MemberOk(s, a, j);
    }
  }

  /** What a batch says about itself in a valid state, without the rest of the invariant. */
  lemma {:induction false} BatchFacts(lim: Limits, s: State, b: u64)
    requires Inv(lim, s) && b in s.batches
    ensures PackageOk(s, b) && Settled(s, b)
    ensures forall k :: 0 <= k < |s.batches[b].ids| ==> s.batches[b].ids[k] in s.transactions
    ensures forall id :: id in s.batches[b].ids ==> id in s.transactions && s.transactions[id].batch == Some(b)
  {
    hide QueueOk, TxOk, LaneOk;
    assert BatchOk(lim, s, b);
    forall k | 0 <= k < |s.batches[b].ids|
      ensures
        && s.batches[b].ids[k] in s.transactions && s.transactions[s.batches[b].ids[k]].batch == Some(b)
        && s.transactions[s.batches[b].ids[k]].packageHash == s.batches[b].packageHash
    {
      assert MemberOk(s, b, k);
    }
  }

  lemma {:induction false} ReportsStay(s: State, n: State, b: u64)
    requires SameShape(s, n) && b in s.batches && AllReported(s, b)
    ensures AllReported(n, b)
  {
    forall k | 0 <= k < |s.batches[b].ids| ensures IsReported(n, s.batches[b].ids[k]) {
      assert IsReported(s, s.batches[b].ids[k]);
      assert Touch(s.transactions[s.batches[b].ids[k]], n.transactions[s.batches[b].ids[k]]);
    }
  }

  lemma {:induction false} BestKeeps(lim: Limits, s: State, id: TxId)
    requires Inv(lim, s)
    ensures Inv(lim, BestIncluded(s, id)) && SameShape(s, BestIncluded(s, id))
  {
    hide QueueOk, TxOk, BatchOk, AllReported;
    var n := BestIncluded(s, id);
    assert SameShape(s, n);
    forall b | b in n.batches ensures PackageOk(n, b) && Settled(n, b) {
      BatchFacts(lim, s, b);
      if AllReported(s, b) { ReportsStay(s, n, b); }
    }
    forall service | service in n.inFlight ensures LaneOk(n, service) {
      assert LaneOk(s, service);
    }
    ShapeKeeps(lim, s, n);
  }

  lemma {:induction false} UnknownKeeps(lim: Limits, s: State, batch: u64, error: string)
    requires Inv(lim, s)
    ensures Inv(lim, OutcomeUnknown(s, batch, error)) && SameShape(s, OutcomeUnknown(s, batch, error))
  {
    hide QueueOk, TxOk, BatchOk, AllReported;
    var n := OutcomeUnknown(s, batch, error);
    if batch in s.batches { BatchFacts(lim, s, batch); }
    assert SameShape(s, n);
    forall b | b in n.batches ensures PackageOk(n, b) && Settled(n, b) {
      BatchFacts(lim, s, b);
      if AllReported(s, b) { ReportsStay(s, n, b); }
    }
    forall service | service in n.inFlight ensures LaneOk(n, service) {
      assert LaneOk(s, service);
    }
    ShapeKeeps(lim, s, n);
  }

  lemma {:induction false} FinishedPackage(lim: Limits, s: State, batch: u64, hash: Root, prediction: Output, b: u64)
    requires Inv(lim, s) && batch in s.batches && b in s.batches
    ensures PackageOk(Finished(s, batch, hash, prediction), b)
  {
    hide Inv;
    var n := Finished(s, batch, hash, prediction);
    BatchFacts(lim, s, b);
    forall k | 0 <= k < |n.batches[b].ids| && n.batches[b].ids[k] in n.transactions
      ensures n.transactions[n.batches[b].ids[k]].packageHash == n.batches[b].packageHash
    {
      if b != batch { BatchesDisjoint(lim, s, batch, b, k); }
    }
  }

  lemma {:induction false} FinishKeeps(lim: Limits, s: State, batch: u64, hash: Root, prediction: Output)
    requires Inv(lim, s)
    ensures var n := Finished(s, batch, hash, prediction); Inv(lim, n) && SameShape(s, n)
  {
    hide QueueOk, TxOk, BatchOk, AllReported, PackageOk;
    var n := Finished(s, batch, hash, prediction);
    if batch in s.batches { BatchFacts(lim, s, batch); }
    assert SameShape(s, n);
    forall b | b in n.batches ensures PackageOk(n, b) && Settled(n, b) {
      BatchFacts(lim, s, b);
      if AllReported(s, b) { ReportsStay(s, n, b); }
      if batch in s.batches {
        FinishedPackage(lim, s, batch, hash, prediction, b);
      } else {
        PackageSame(s, n, b);
      }
    }
    forall service | service in n.inFlight ensures LaneOk(n, service) {
      assert LaneOk(s, service);
    }
    ShapeKeeps(lim, s, n);
  }

  lemma {:induction false} PackageSame(s: State, n: State, b: u64)
    requires b in s.batches && PackageOk(s, b) && n.batches == s.batches && n.transactions == s.transactions
    ensures PackageOk(n, b)
  {
  }

  lemma {:induction false} FailedBatch(lim: Limits, s: State, batch: u64, error: string, b: u64)
    requires Inv(lim, s) && batch in s.batches && !s.batches[batch].materialized && b in s.batches
    requires SameShape(s, Failed(s, batch, error))
    ensures PackageOk(Failed(s, batch, error), b) && Settled(Failed(s, batch, error), b)
  {
    hide Inv, AllReported, SameShape;
    var n := Failed(s, batch, error);
    BatchFacts(lim, s, b);
    if b == batch {
      FailReports(lim, s, batch, error);
    } else if AllReported(s, b) {
      ReportsStay(s, n, b);
    }
  }

  lemma {:induction false} FailReports(lim: Limits, s: State, batch: u64, error: string)
    requires Inv(lim, s) && batch in s.batches && !s.batches[batch].materialized
    ensures AllReported(Failed(s, batch, error), batch)
  {
    hide Inv;
    BatchFacts(lim, s, batch);
  }

  /** After a failure each of the batch's transactions has an error, and the rest is as before. */
  lemma {:induction false} FailKeeps(lim: Limits, s: State, batch: u64, error: string)
    requires Inv(lim, s)
    ensures Inv(lim, Failed(s, batch, error)) && SameShape(s, Failed(s, batch, error))
  {
    hide QueueOk, TxOk, BatchOk, AllReported, PackageOk, Settled;
    var n := Failed(s, batch, error);
    if batch in s.batches && !s.batches[batch].materialized {
      BatchFacts(lim, s, batch);
      assert SameShape(s, n);
      forall b | b in n.batches ensures PackageOk(n, b) && Settled(n, b) {
        FailedBatch(lim, s, batch, error, b);
      }
      forall service | service in n.inFlight ensures LaneOk(n, service) {
        assert LaneOk(s, service);
      }
      ShapeKeeps(lim, s, n);
    }
  }

  lemma {:induction false} MaterializedBatch(lim: Limits, s: State, batch: u64, b: u64)
    requires Inv(lim, s) && batch in s.batches && !s.batches[batch].materialized && b in s.batches
    requires SameShape(s, Materialized(s, batch))
    ensures PackageOk(Materialized(s, batch), b) && Settled(Materialized(s, batch), b)
  {
    hide Inv, AllReported, SameShape;
    var n := Materialized(s, batch);
    BatchFacts(lim, s, b);
    if b != batch && AllReported(s, b) {
      ReportsStay(s, n, b);
    }
  }

  lemma {:induction false} MaterializedLane(lim: Limits, s: State, batch: u64, service: u32)
    requires Inv(lim, s) && batch in s.batches && !s.batches[batch].materialized
    requires service in Materialized(s, batch).inFlight
    ensures LaneOk(Materialized(s, batch), service)
  {
    hide QueueOk, TxOk, BatchOk;
    assert LaneOk(s, service);
  }

  lemma {:induction false} MaterializeKeeps(lim: Limits, s: State, batch: u64)
    requires Inv(lim, s)
    ensures Inv(lim, Materialized(s, batch)) && SameShape(s, Materialized(s, batch))
  {
    hide QueueOk, TxOk, BatchOk, AllReported, PackageOk, Settled;
    var n := Materialized(s, batch);
    if batch in s.batches && !s.batches[batch].materialized {
      assert SameShape(s, n);
      forall b | b in n.batches ensures PackageOk(n, b) && Settled(n, b) {
        MaterializedBatch(lim, s, batch, b);
      }
      forall service | service in n.inFlight ensures LaneOk(n, service) {
        MaterializedLane(lim, s, batch, service);
      }
      assert forall service :: service in s.inFlight ==> LaneOk(s, service);
      ShapeKeeps(lim, s, n);
    }
  }
}
