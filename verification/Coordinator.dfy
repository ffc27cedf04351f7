/** What refinement hands to the backend and the chain. */
module Outputs {
  import opened Wrappers
  import opened Bytes

  /** A 32-byte state root, package hash or commitment. */
  type Root = seq<byte>

  datatype Dependency = Dependency(service: u32, root: Root)

  datatype ActionStatus = AppliedAction | FailedAction | RejectedAction

  datatype ActionReceipt = ActionReceipt(hash: Root, status: ActionStatus, code: Option<u32>)

  datatype Output = Output(
    parentRoot: Root,
    newRoot: Root,
    dependencies: seq<Dependency>,
    validUntil: Option<u64>,
    receipts: seq<ActionReceipt>,
    recoveryCommitment: Root,
    recoveryPayload: seq<byte>)
}

/** `TransactionCoordinator`: per-service queues, one in-flight lane per service, batch records. */
module Coordination {
  import opened Wrappers
  import opened Bytes
  import opened Outputs
  import opened Transactions
  import opened Scheduler
  import opened SchedulerLaws

  const RECHECK_DELAY: nat := 1000
  const EXPIRED := "EXPIRED_BEFORE_DISPATCH: signed action validity slot has expired"
  const STALE := "STALE_NONCE: signed action nonce is lower than the canonical expected nonce"

  datatype Limits = Limits(maxActions: nat, flushDelay: nat, perService: nat, perSender: nat)
  {
    /** The constructor raises each of these to at least one. */
    predicate Valid() { maxActions > 0 && perService > 0 && perSender > 0 }
  }

  datatype Transaction = Transaction(
    service: u32,
    batch: Option<u64>,
    packageHash: Option<Root>,
    index: Option<nat>,
    error: Option<string>,
    unknown: bool,
    bestIncluded: bool)

  datatype Batch = Batch(
    service: u32,
    ids: seq<TxId>,
    packageHash: Option<Root>,
    prediction: Option<Output>,
    materialized: bool)

  datatype BatchToSubmit = BatchToSubmit(
    batch: u64, actions: seq<seq<byte>>, params: string, extrinsics: seq<string>)

  datatype QueueFull = QueueFull(retryAfter: nat)

  /** What a submitted action says about itself, and the request it came with. */
  datatype Request = Request(
    action: seq<byte>,
    sender: Option<Sender>,
    nonce: Option<u64>,
    validUntil: Option<u64>,
    params: string,
    extrinsics: seq<string>)

  datatype State = State(
    nextSequences: map<u32, u64>,
    nextArrival: u64,
    nextBatch: u64,
    queued: map<u32, seq<Pending>>,
    deadlines: map<u32, nat>,
    flushing: set<u32>,
    inFlight: map<u32, u64>,
    transactions: map<TxId, Transaction>,
    batches: map<u64, Batch>)

  const INITIAL := State(map[], 0, 0, map[], map[], {}, map[], map[], map[])

  function Queue(s: State, service: u32): seq<Pending> {
    if service in s.queued then s.queued[service] else []
  }

  function Sequence(s: State, service: u32): u64 {
    if service in s.nextSequences then s.nextSequences[service] else 0
  }

  /** How many queued items belong to `sender`. */
  function CountFor(q: seq<Pending>, sender: Sender): (n: nat)
    ensures n <= |q|
  {
    if q == [] then 0
    else CountFor(q[..|q| - 1], sender) + (if q[|q| - 1].sender == Some(sender) then 1 else 0)
  }

  predicate HasRoom(lim: Limits, s: State, service: u32, sender: Option<Sender>) {
    && |Queue(s, service)| < lim.perService
    && (if sender.Some? then CountFor(Queue(s, service), sender.value) else 0) < lim.perSender
  }

  function NextId(s: State, service: u32, action: seq<byte>): TxId {
    TxId(service, Sequence(s, service), action)
  }

  function PendingFor(s: State, service: u32, r: Request): Pending {
    Pending(NextId(s, service, r.action), r.sender, r.nonce, r.validUntil, s.nextArrival, r.params, r.extrinsics)
  }

  /** The state after an accepted `enqueue`. */
  function Enqueued(lim: Limits, s: State, service: u32, r: Request, now: nat): State {
    s.(nextSequences := s.nextSequences[service := SaturatingNext(Sequence(s, service))],
       nextArrival := SaturatingNext(s.nextArrival),
       transactions := s.transactions[NextId(s, service, r.action) :=
         Transaction(service, None, None, None, None, false, false)],
       queued := s.queued[service := Queue(s, service) + [PendingFor(s, service, r)]],
       deadlines := if service in s.deadlines then s.deadlines
                    else s.deadlines[service := now + lim.flushDelay])
  }

  predicate Free(s: State, service: u32) {
    service !in s.inFlight && service !in s.flushing
  }

  predicate Due(lim: Limits, s: State, service: u32, now: nat) {
    var n := |Queue(s, service)|;
    n != 0 && (n >= lim.maxActions || (service in s.deadlines && now >= s.deadlines[service]))
  }

  predicate SendersKnown(q: seq<Pending>, expected: Nonces) {
    forall k :: 0 <= k < |q| ==> (q[k].sender.Some? ==> q[k].sender.value in expected)
  }

  predicate IsExpired(item: Pending, slot: u64) {
    item.validUntil.Some? && slot > item.validUntil.value
  }

  function Viable(q: seq<Pending>, slot: u64): seq<Pending> {
    if q == [] then []
    else
      var rest, last := Viable(q[..|q| - 1], slot), q[|q| - 1];
      if IsExpired(last, slot) then rest else rest + [last]
  }

  function Expired(q: seq<Pending>, slot: u64): seq<Pending> {
    if q == [] then []
    else
      var rest, last := Expired(q[..|q| - 1], slot), q[|q| - 1];
      if IsExpired(last, slot) then rest + [last] else rest
  }

  /** The items whose index was neither selected nor stale, in queue order. */
  function Left(q: seq<Pending>, removed: set<nat>, n: nat): seq<Pending>
    requires n <= |q|
  {
    if n == 0 then []
    else
      var rest := Left(q, removed, n - 1);
      if n - 1 in removed then rest else rest + [q[n - 1]]
  }

  function IdsOf(items: seq<Pending>): (ids: seq<TxId>)
    ensures |ids| == |items| && forall k :: 0 <= k < |ids| ==> ids[k] == items[k].id
  {
    seq(|items|, k requires 0 <= k < |items| => items[k].id)
  }

  function ActionsOf(items: seq<Pending>): (r: seq<seq<byte>>)
    ensures |r| == |items| && forall k :: 0 <= k < |r| ==> r[k] == items[k].id.action
  {
    seq(|items|, k requires 0 <= k < |items| => items[k].id.action)
  }

  function ExtrinsicsOf(items: seq<Pending>): seq<string> {
    if items == [] then []
    else ExtrinsicsOf(items[..|items| - 1]) + items[|items| - 1].extrinsics
  }

  /** Where `id` last stands in `ids`. */
  function LastIndex(ids: seq<TxId>, id: TxId): (k: nat)
    requires id in ids
    ensures k < |ids| && ids[k] == id
    ensures forall j :: k < j < |ids| ==> ids[j] != id
  {
    if ids[|ids| - 1] == id then |ids| - 1 else LastIndex(ids[..|ids| - 1], id)
  }

  type Ledger = map<TxId, Transaction>

  function WithError(txs: Ledger, ids: seq<TxId>, error: string): Ledger {
    map id | id in txs :: if id in ids then txs[id].(error := Some(error)) else txs[id]
  }

  function WithFailure(txs: Ledger, ids: seq<TxId>, error: string): Ledger {
    map id | id in txs ::
      if id in ids && txs[id].error.None? then txs[id].(error := Some(error)) else txs[id]
  }

  function WithUnknown(txs: Ledger, ids: seq<TxId>, error: string): Ledger {
    map id | id in txs ::
      if id in ids then txs[id].(unknown := true, error := Some(error)) else txs[id]
  }

  function WithPackage(txs: Ledger, ids: seq<TxId>, hash: Root): Ledger {
    map id | id in txs :: if id in ids then txs[id].(packageHash := Some(hash)) else txs[id]
  }

  function Placed(txs: Ledger, ids: seq<TxId>, batch: u64): Ledger {
    map id | id in txs ::
      if id in ids then txs[id].(batch := Some(batch), index := Some(LastIndex(ids, id))) else txs[id]
  }

  /** What a due, free service's queue is split into. */
  datatype Split = Split(expired: seq<Pending>, stale: seq<Pending>, selected: seq<Pending>, left: seq<Pending>)

  function SplitQueue(lim: Limits, q: seq<Pending>, expected: Nonces, slot: u64): Split {
    var viable := Viable(q, slot);
    SelectionIndices(viable, expected, lim.maxActions);
    var picks := Select(viable, expected, lim.maxActions);
    Split(Expired(q, slot), Items(viable, picks.stale), Items(viable, picks.selected),
          Left(viable, Members(picks.selected) + Members(picks.stale), |viable|))
  }

  function Members(picks: seq<nat>): set<nat> {
    set i | i in picks
  }

  lemma {:induction false} SelectionIndices(q: seq<Pending>, expected: Nonces, cap: nat)
    ensures var p := Select(q, expected, cap); Indices(p.selected, |q|) && Indices(p.stale, |q|)
  {
    hide Select, NonceRun, AdvanceAll;
    SelectionSound(q, expected, cap);
  }

  /** Queue and deadline after the split: what is left waits again. */
  function Requeued(lim: Limits, s: State, service: u32, split: Split, now: nat): State {
    if split.left == [] then s.(queued := s.queued - {service}, deadlines := s.deadlines - {service})
    else
      var delay := if split.selected == [] then RECHECK_DELAY else lim.flushDelay;
      s.(queued := s.queued[service := split.left], deadlines := s.deadlines[service := now + delay])
  }

  function Reported(s: State, split: Split): State {
    s.(transactions :=
         WithError(WithError(s.transactions, IdsOf(split.expired), EXPIRED), IdsOf(split.stale), STALE))
  }

  function Dispatched(s: State, service: u32, selected: seq<Pending>): State {
    var ids := IdsOf(selected);
    s.(nextBatch := SaturatingNext(s.nextBatch),
       transactions := Placed(s.transactions, ids, s.nextBatch),
       flushing := s.flushing + {service},
       inFlight := s.inFlight[service := s.nextBatch],
       batches := s.batches[s.nextBatch := Batch(service, ids, None, None, false)])
  }

  function Submission(batch: u64, selected: seq<Pending>): BatchToSubmit
    requires selected != []
  {
    BatchToSubmit(batch, ActionsOf(selected), selected[0].params, ExtrinsicsOf(selected))
  }

  /** `take_ready_batch` on the whole state. */
  function Taken(lim: Limits, s: State, service: u32, expected: Nonces, slot: u64, now: nat)
    : (State, Option<BatchToSubmit>)
  {
    if !Free(s, service) || !Due(lim, s, service, now) then (s, None)
    else if !SendersKnown(Queue(s, service), expected) then
      (s.(deadlines := s.deadlines[service := now + RECHECK_DELAY]), None)
    else
      var split := SplitQueue(lim, Queue(s, service), expected, slot);
      (AfterSplit(lim, s, service, split, now),
       if split.selected == [] then None else Some(Submission(s.nextBatch, split.selected)))
  }

  function AfterSplit(lim: Limits, s: State, service: u32, split: Split, now: nat): State {
    var next := Requeued(lim, Reported(s, split), service, split, now);
    if split.selected == [] then next else Dispatched(next, service, split.selected)
  }

  function BestIncluded(s: State, id: TxId): State {
    if id in s.transactions then
      s.(transactions := s.transactions[id := s.transactions[id].(bestIncluded := true)])
    else s
  }

  /** `finish_batch`; for an unknown batch it still clears service 0 from the flushing set. */
  function Finished(s: State, batch: u64, hash: Root, prediction: Output): State {
    if batch in s.batches then
      var b := s.batches[batch];
      s.(batches := s.batches[batch := b.(prediction := Some(prediction), packageHash := Some(hash))],
         transactions := WithPackage(s.transactions, b.ids, hash),
         flushing := s.flushing - {b.service})
    else s.(flushing := s.flushing - {0})
  }

  function Unlocked(s: State, batch: u64): State
    requires batch in s.batches
  {
    var service := s.batches[batch].service;
    s.(inFlight := if service in s.inFlight && s.inFlight[service] == batch then s.inFlight - {service}
                   else s.inFlight,
       flushing := s.flushing - {service})
  }

  function Failed(s: State, batch: u64, error: string): State {
    if batch !in s.batches || s.batches[batch].materialized then s
    else Unlocked(s.(transactions := WithFailure(s.transactions, s.batches[batch].ids, error)), batch)
  }

  function OutcomeUnknown(s: State, batch: u64, error: string): State {
    if batch !in s.batches then s
    else s.(transactions := WithUnknown(s.transactions, s.batches[batch].ids, error))
  }

  function Materialized(s: State, batch: u64): State {
    if batch !in s.batches || s.batches[batch].materialized then s
    else Unlocked(s.(batches := s.batches[batch := s.batches[batch].(materialized := true)]), batch)
  }

  /** The coordinator object.  `Mutex` makes every method one atomic step; the clock is an argument. */
  class TransactionCoordinator {
    const lim: Limits
    var nextSequences: map<u32, u64>
    var nextArrival: u64
    var nextBatch: u64
    var queued: map<u32, seq<Pending>>
    var deadlines: map<u32, nat>
    var flushing: set<u32>
    var inFlight: map<u32, u64>
    var transactions: map<TxId, Transaction>
    var batches: map<u64, Batch>

    function Now(): State
      reads this
    {
      State(nextSequences, nextArrival, nextBatch, queued, deadlines, flushing, inFlight, transactions, batches)
    }

    constructor (maxActions: nat, flushDelay: nat, perService: nat, perSender: nat)
      ensures lim.Valid() && Now() == INITIAL
    {
      lim := Limits(if maxActions == 0 then 1 else maxActions, flushDelay,
                    if perService == 0 then 1 else perService, if perSender == 0 then 1 else perSender);
      nextSequences, nextArrival, nextBatch := map[], 0, 0;
      queued, deadlines, flushing, inFlight := map[], map[], {}, map[];
      transactions, batches := map[], map[];
    }

    method Enqueue(service: u32, r: Request, now: nat) returns (result: Result<TxId, QueueFull>)
      modifies this
      ensures result.Ok? == HasRoom(lim, old(Now()), service, r.sender)
      ensures result.Ok? ==>
        result.value == NextId(old(Now()), service, r.action) && Now() == Enqueued(lim, old(Now()), service, r, now)
      ensures result.Err? ==>
        Now() == old(Now()) && result.error.retryAfter == if lim.flushDelay < 100 then 100
          else if lim.flushDelay < U64_MAX then lim.flushDelay else U64_MAX
    {
      hide CountFor;
      var queue := if service in queued then queued[service] else [];
      var forSender := if r.sender.Some? then CountFor(queue, r.sender.value) else 0;
      if |queue| >= lim.perService || forSender >= lim.perSender {
        var delay := if lim.flushDelay < 100 then 100 else lim.flushDelay;
        return Err(QueueFull(if delay < U64_MAX then delay else U64_MAX));
      }
      var current := if service in nextSequences then nextSequences[service] else 0;
      nextSequences := nextSequences[service := SaturatingNext(current)];
      var id := TxId(service, current, r.action);
      var arrival := nextArrival;
      nextArrival := SaturatingNext(nextArrival);
      transactions := transactions[id := Transaction(service, None, None, None, None, false, false)];
      queued := queued[service := queue +
        [Pending(id, r.sender, r.nonce, r.validUntil, arrival, r.params, r.extrinsics)]];
      if service !in deadlines {
        deadlines := deadlines[service := now + lim.flushDelay];
      }
      return Ok(id);
    }

    method IsBatchReady(service: u32, now: nat) returns (ready: bool)
      ensures ready == (Free(Now(), service) && Due(lim, Now(), service, now))
    {
      if service in inFlight || service in flushing {
        return false;
      }
      var queue := if service in queued then |queued[service]| else 0;
      var reached := service in deadlines && now >= deadlines[service];
      return queue != 0 && (queue >= lim.maxActions || reached);
    }

    /** The loop that sorts out expired items. */
    method DropExpired(pending: seq<Pending>, slot: u64) returns (viable: seq<Pending>)
      modifies `transactions
      ensures viable == Viable(pending, slot)
      ensures transactions == WithError(old(transactions), IdsOf(Expired(pending, slot)), EXPIRED)
    {
      viable := [];
      var k := 0;
      while k < |pending|
        invariant 0 <= k <= |pending|
        invariant viable == Viable(pending[..k], slot)
        invariant transactions == WithError(old(transactions), IdsOf(Expired(pending[..k], slot)), EXPIRED)
      {
        var item := pending[k];
        assert pending[..k + 1][..k] == pending[..k];
        if IsExpired(item, slot) {
          ghost var ids := IdsOf(Expired(pending[..k], slot));
          assert IdsOf(Expired(pending[..k + 1], slot)) == ids + [item.id];
          if item.id in transactions {
            transactions := transactions[item.id := transactions[item.id].(error := Some(EXPIRED))];
          }
        } else {
          viable := viable + [item];
        }
        k := k + 1;
      }
      assert pending[..k] == pending;
    }

    method ReportStale(viable: seq<Pending>, stale: seq<nat>)
      requires Indices(stale, |viable|)
      modifies `transactions
      ensures transactions == WithError(old(transactions), IdsOf(Items(viable, stale)), STALE)
    {
      var k := 0;
      ghost var ids := IdsOf(Items(viable, stale));
      while k < |stale|
        invariant 0 <= k <= |stale|
        invariant transactions == WithError(old(transactions), ids[..k], STALE)
      {
        var item := viable[stale[k]];
        assert ids[..k + 1] == ids[..k] + [item.id];
        if item.id in transactions {
          transactions := transactions[item.id := transactions[item.id].(error := Some(STALE))];
        }
        k := k + 1;
      }
      assert ids[..k] == ids;
    }

    method Place(selected: seq<Pending>, batch: u64)
      modifies `transactions
      ensures transactions == Placed(old(transactions), IdsOf(selected), batch)
    {
      var k := 0;
      ghost var ids := IdsOf(selected);
      assert transactions == Placed(old(transactions), [], batch);
      while k < |selected|
        invariant 0 <= k <= |selected|
        invariant transactions == Placed(old(transactions), ids[..k], batch)
      {
        var id := selected[k].id;
        PlacedOneMore(old(transactions), ids[..k], id, batch);
        assert ids[..k + 1] == ids[..k] + [id];
        if id in transactions {
          transactions := transactions[id := transactions[id].(batch := Some(batch), index := Some(k))];
        }
        k := k + 1;
      }
      assert ids[..k] == ids;
    }

    /** Puts back what was not taken, or forgets the service's queue and deadline. */
    method Requeue(service: u32, ghost split: Split, left: seq<Pending>, selectedNone: bool, now: nat)
      requires left == split.left && selectedNone == (split.selected == [])
      modifies `queued, `deadlines
      ensures Now() == Requeued(lim, old(Now()), service, split, now)
    {
      if left == [] {
        queued := queued - {service};
        deadlines := deadlines - {service};
      } else {
        queued := queued[service := left];
        deadlines := deadlines[service := now + if selectedNone then RECHECK_DELAY else lim.flushDelay];
      }
    }

    /** Opens the service's lane for a new batch of the selected items. */
    method Dispatch(service: u32, selected: seq<Pending>) returns (batch: u64)
      modifies this
      ensures batch == old(nextBatch)
      ensures Now() == Dispatched(old(Now()), service, selected)
    {
      hide Placed;
      batch := nextBatch;
      nextBatch := SaturatingNext(nextBatch);
      Place(selected, batch);
      flushing := flushing + {service};
      inFlight := inFlight[service := batch];
      batches := batches[batch := Batch(service, IdsOf(selected), None, None, false)];
    }

    method TakeReadyBatch(service: u32, expected: Nonces, slot: u64, now: nat)
      returns (result: Option<BatchToSubmit>)
      modifies this
      ensures (Now(), result) == Taken(lim, old(Now()), service, expected, slot, now)
    {
      hide Select, Viable, Expired, Left, WithError, Placed, SplitQueue, Requeued, Reported, Dispatched,
        SendersKnown, ActionsOf, ExtrinsicsOf, Items;
      var ready := IsBatchReady(service, now);
      if !ready {
        return None;
      }
      var pending := queued[service];
      if !SendersKnown(pending, expected) {
        deadlines := deadlines[service := now + RECHECK_DELAY];
        return None;
      }
      ghost var split := SplitQueue(lim, pending, expected, slot);
      var selected, left := SplitAndReport(pending, expected, slot);
      Requeue(service, split, left, selected == [], now);
      if selected == [] {
        return None;
      }
      var batch := Dispatch(service, selected);
      return Some(BatchToSubmit(batch, ActionsOf(selected), selected[0].params, ExtrinsicsOf(selected)));
    }

    /** Expires, selects and reports stale items; what is neither is left over. */
    method SplitAndReport(pending: seq<Pending>, expected: Nonces, slot: u64)
      returns (selected: seq<Pending>, left: seq<Pending>)
      modifies `transactions
      ensures var split := SplitQueue(lim, pending, expected, slot);
        && selected == split.selected && left == split.left
        && Now() == Reported(old(Now()), split)
    {
      hide Select, Viable, Expired, Left, WithError;
      var viable := DropExpired(pending, slot);
      SelectionIndices(viable, expected, lim.maxActions);
      var picks, stale := SelectCanonicalIndices(viable, expected, lim.maxActions);
      ReportStale(viable, stale);
      selected := Items(viable, picks);
      left := Left(viable, Members(picks) + Members(stale), |viable|);
    }

    method MarkBestIncluded(id: TxId)
      modifies `transactions
      ensures Now() == BestIncluded(old(Now()), id)
    {
      if id in transactions {
        transactions := transactions[id := transactions[id].(bestIncluded := true)];
      }
    }

    method RecordPackage(ids: seq<TxId>, hash: Root)
      modifies `transactions
      ensures transactions == WithPackage(old(transactions), ids, hash)
    {
      var k := 0;
      while k < |ids|
        invariant 0 <= k <= |ids|
        invariant transactions == WithPackage(old(transactions), ids[..k], hash)
      {
        assert ids[..k + 1] == ids[..k] + [ids[k]];
        if ids[k] in transactions {
          transactions := transactions[ids[k] := transactions[ids[k]].(packageHash := Some(hash))];
        }
        k := k + 1;
      }
      assert ids[..k] == ids;
    }

    method FinishBatch(batch: u64, hash: Root, prediction: Output)
      modifies `batches, `transactions, `flushing
      ensures Now() == Finished(old(Now()), batch, hash, prediction)
    {
      var service, ids: seq<TxId> := 0, [];
      if batch in batches {
        batches := batches[batch := batches[batch].(prediction := Some(prediction), packageHash := Some(hash))];
        service, ids := batches[batch].service, batches[batch].ids;
      }
      RecordPackage(ids, hash);
      assert WithPackage(old(transactions), [], hash) == old(transactions);
      flushing := flushing - {service};
    }

    method RecordFailure(ids: seq<TxId>, error: string)
      modifies `transactions
      ensures transactions == WithFailure(old(transactions), ids, error)
    {
      var k := 0;
      while k < |ids|
        invariant 0 <= k <= |ids|
        invariant transactions == WithFailure(old(transactions), ids[..k], error)
      {
        assert ids[..k + 1] == ids[..k] + [ids[k]];
        if ids[k] in transactions && transactions[ids[k]].error.None? {
          transactions := transactions[ids[k] := transactions[ids[k]].(error := Some(error))];
        }
        k := k + 1;
      }
      assert ids[..k] == ids;
    }

    method FailBatch(batch: u64, error: string)
      modifies `transactions, `inFlight, `flushing
      ensures Now() == Failed(old(Now()), batch, error)
    {
      hide WithFailure;
      if batch !in batches || batches[batch].materialized {
        return;
      }
      var service := batches[batch].service;
      RecordFailure(batches[batch].ids, error);
      if service in inFlight && inFlight[service] == batch {
        inFlight := inFlight - {service};
      }
      flushing := flushing - {service};
    }

    method MarkSubmissionUnknown(batch: u64, error: string)
      modifies `transactions
      ensures Now() == OutcomeUnknown(old(Now()), batch, error)
    {
      if batch !in batches {
        return;
      }
      var ids := batches[batch].ids;
      var k := 0;
      while k < |ids|
        invariant 0 <= k <= |ids|
        invariant transactions == WithUnknown(old(transactions), ids[..k], error)
      {
        assert ids[..k + 1] == ids[..k] + [ids[k]];
        if ids[k] in transactions {
          transactions := transactions[ids[k] := transactions[ids[k]].(unknown := true, error := Some(error))];
        }
        k := k + 1;
      }
      assert ids[..k] == ids;
    }

    method MarkMaterialized(batch: u64)
      modifies `batches, `inFlight, `flushing
      ensures Now() == Materialized(old(Now()), batch)
    {
      if batch !in batches || batches[batch].materialized {
        return;
      }
      batches := batches[batch := batches[batch].(materialized := true)];
      var service := batches[batch].service;
      if service in inFlight && inFlight[service] == batch {
        inFlight := inFlight - {service};
      }
      flushing := flushing - {service};
    }
  }

  lemma {:induction false} PlacedOneMore(txs: Ledger, ids: seq<TxId>, id: TxId, batch: u64)
    ensures Placed(txs, ids + [id], batch) ==
      if id in txs then Placed(txs, ids, batch)[id := txs[id].(batch := Some(batch), index := Some(|ids|))]
      else Placed(txs, ids, batch)
  {
    forall x | x in txs && x in ids && x != id
      ensures LastIndex(ids + [id], x) == LastIndex(ids, x)
    {
      assert (ids + [id])[..|ids|] == ids;
    }
  }
}
