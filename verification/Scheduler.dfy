/** What the transaction coordinator queues. */
module Transactions {
  import opened Wrappers
  import opened Bytes

  /** The nonce lane an action belongs to: the 32 bytes of a wallet key or of an owner's key. */
  type Sender = seq<byte>

  /** A logical transaction id hashes exactly these fields; the model keeps the preimage. */
  datatype TxId = TxId(service: u32, sequence: u64, action: seq<byte>)

  datatype Pending = Pending(
    id: TxId,
    sender: Option<Sender>,
    nonce: Option<u64>,
    validUntil: Option<u64>,
    arrival: u64,
    params: string,
    extrinsics: seq<string>)
  {
    predicate IsSigned() { sender.Some? && nonce.Some? }
    predicate IsUnsigned() { sender.None? && nonce.None? }
  }

  /** `u64::saturating_add(1)`. */
  function SaturatingNext(n: u64): u64 {
    if n == U64_MAX then n else n + 1
  }
}

/** `select_canonical_indices`: repeated passes in arrival order over per-sender nonce counters. */
module Scheduler {
  import opened Bytes
  import opened Transactions

  type Nonces = map<Sender, u64>

  function Expected(nonces: Nonces, s: Sender): u64 {
    if s in nonces then nonces[s] else 0
  }

  /** The scheduler's working state: unvisited indices, tentative nonces, and the two results. */
  datatype Progress = Progress(
    remaining: set<nat>, tentative: Nonces, selected: seq<nat>, stale: seq<nat>)

  /** `(0..n).collect::<BTreeSet<_>>()`. */
  function Below(n: nat): (r: set<nat>)
    ensures forall i :: i in r <==> 0 <= i < n
  {
    if n == 0 then {} else Below(n - 1) + {n - 1}
  }

  function Start(n: nat, expected: Nonces): Progress {
    Progress(Below(n), expected, [], [])
  }

  /** One visit to the item at `i`. */
  function Visit(q: seq<Pending>, p: Progress, i: nat): Progress
    requires i < |q|
  {
    var item := q[i];
    if i !in p.remaining then p
    else if item.IsSigned() then
      var expected := Expected(p.tentative, item.sender.value);
      if item.nonce.value < expected then
        p.(remaining := p.remaining - {i}, stale := p.stale + [i])
      else if item.nonce.value == expected then
        p.(remaining := p.remaining - {i}, selected := p.selected + [i],
           tentative := p.tentative[item.sender.value := SaturatingNext(expected)])
      else p
    else if item.IsUnsigned() then
      p.(remaining := p.remaining - {i}, selected := p.selected + [i])
    else p
  }

  /** The cap is compared after a selection, so a cap of zero never stops the loop. */
  predicate Full(p: Progress, cap: nat) {
    cap != 0 && |p.selected| >= cap
  }

  ghost predicate Indices(order: seq<nat>, n: nat) {
    forall k :: 0 <= k < |order| ==> order[k] < n
  }

  /** The rest of a pass, from position `k` of the admission order. */
  function PassFrom(q: seq<Pending>, order: seq<nat>, k: nat, p: Progress, cap: nat): (r: Progress)
    requires Indices(order, |q|) && k <= |order|
    ensures r.remaining <= p.remaining
    ensures r.remaining == p.remaining ==> r == p
    decreases |order| - k
  {
    if k == |order| || Full(p, cap) then p
    else
      var next := Visit(q, p, order[k]);
      assert next.remaining == p.remaining ==> next == p;
      PassFrom(q, order, k + 1, next, cap)
  }

  /** Passes until the cap is met or a pass changes nothing. */
  function Passes(q: seq<Pending>, order: seq<nat>, p: Progress, cap: nat): Progress
    requires Indices(order, |q|)
    decreases |p.remaining|
  {
    var r := PassFrom(q, order, 0, p, cap);
    if Full(r, cap) || r.remaining == p.remaining then r
    else
      SubsetSmaller(r.remaining, p.remaining);
      Passes(q, order, r, cap)
  }

  lemma {:induction false} SubsetSmaller(a: set<nat>, b: set<nat>)
    requires a < b
    ensures |a| < |b|
  {
    assert |b| == |a| + |b - a| by {
      assert b == a + (b - a);
    }
    var x :| x in b - a;
    assert |b - a| == |b - a - {x}| + 1;
  }

  /** Inserts index `i` behind every index of equal or smaller arrival. */
  function InsertByArrival(q: seq<Pending>, sorted: seq<nat>, i: nat): seq<nat>
    requires i < |q| && Indices(sorted, |q|)
  {
    if sorted == [] || q[sorted[|sorted| - 1]].arrival <= q[i].arrival then sorted + [i]
    else InsertByArrival(q, sorted[..|sorted| - 1], i) + [sorted[|sorted| - 1]]
  }

  /** `sort_by_key(|index| (arrival_sequence, index))`. */
  function AdmissionOrder(q: seq<Pending>, n: nat): (order: seq<nat>)
    requires n <= |q|
    ensures Indices(order, |q|)
  {
    if n == 0 then []
    else
      InsertKeeps(q, AdmissionOrder(q, n - 1), n - 1);
      InsertByArrival(q, AdmissionOrder(q, n - 1), n - 1)
  }

  lemma {:induction false} InsertKeeps(q: seq<Pending>, sorted: seq<nat>, i: nat)
    requires i < |q| && Indices(sorted, |q|)
    ensures Indices(InsertByArrival(q, sorted, i), |q|)
    ensures |InsertByArrival(q, sorted, i)| == |sorted| + 1
    ensures forall x :: x in InsertByArrival(q, sorted, i) <==> x in sorted || x == i
  {
    if sorted != [] && q[sorted[|sorted| - 1]].arrival > q[i].arrival {
      var init, last := sorted[..|sorted| - 1], sorted[|sorted| - 1];
      InsertKeeps(q, init, i);
      assert sorted == init + [last];
    }
  }

  /** The sort key order of the source. */
  ghost predicate Before(q: seq<Pending>, i: nat, j: nat)
    requires i < |q| && j < |q|
  {
    q[i].arrival < q[j].arrival || (q[i].arrival == q[j].arrival && i < j)
  }

  ghost predicate Ordered(q: seq<Pending>, order: seq<nat>)
    requires Indices(order, |q|)
  {
    forall a, b :: 0 <= a < b < |order| ==> Before(q, order[a], order[b])
  }

  lemma {:induction false} InsertOrdered(q: seq<Pending>, sorted: seq<nat>, i: nat)
    requires i < |q| && Indices(sorted, |q|) && Ordered(q, sorted)
    requires forall k :: 0 <= k < |sorted| ==> sorted[k] < i
    ensures Indices(InsertByArrival(q, sorted, i), |q|)
    ensures Ordered(q, InsertByArrival(q, sorted, i))
  {
    InsertKeeps(q, sorted, i);
    if sorted != [] && q[sorted[|sorted| - 1]].arrival > q[i].arrival {
      var init, last := sorted[..|sorted| - 1], sorted[|sorted| - 1];
      InsertOrdered(q, init, i);
      InsertKeeps(q, init, i);
      var r := InsertByArrival(q, init, i);
      forall a | 0 <= a < |r| ensures Before(q, r[a], last) {
        assert r[a] in r;
        if r[a] != i {
          var k :| 0 <= k < |init| && init[k] == r[a];
          assert Before(q, sorted[k], sorted[|sorted| - 1]);
        }
      }
    }
  }

  /** The admission order lists every index once, by arrival and then by position. */
  lemma {:induction false} AdmissionOrderSorted(q: seq<Pending>, n: nat)
    requires n <= |q|
    ensures var order := AdmissionOrder(q, n);
      && Ordered(q, order) && |order| == n
      && (forall k :: 0 <= k < n ==> order[k] < n)
      && (forall i :: 0 <= i < n ==> i in order)
  {
    if n > 0 {
      AdmissionOrderSorted(q, n - 1);
      var prev := AdmissionOrder(q, n - 1);
      InsertKeeps(q, prev, n - 1);
      InsertOrdered(q, prev, n - 1);
      var order := AdmissionOrder(q, n);
      forall k | 0 <= k < n ensures order[k] < n {
        assert order[k] in order;
      }
      forall i | 0 <= i < n ensures i in order {
        assert i in prev || i == n - 1;
      }
    }
  }

  /** The scheduler's result for a queue. */
  function Select(q: seq<Pending>, expected: Nonces, cap: nat): Progress {
    Passes(q, AdmissionOrder(q, |q|), Start(|q|, expected), cap)
  }

  /** `select_canonical_indices`, loop for loop. */
  method SelectCanonicalIndices(q: seq<Pending>, expected: Nonces, cap: nat)
    returns (selected: seq<nat>, stale: seq<nat>)
    ensures selected == Select(q, expected, cap).selected
    ensures stale == Select(q, expected, cap).stale
  {
    hide AdmissionOrder, Visit;
    selected, stale := [], [];
    var remaining := Below(|q|);
    var tentative: Nonces := expected;
    var order := AdmissionOrder(q, |q|);
    ghost var goal := Select(q, expected, cap);
    while true
      invariant cap == 0 || |selected| < cap
      invariant Passes(q, order, Progress(remaining, tentative, selected, stale), cap) == goal
      decreases |remaining|
    {
      var progress := false;
      ghost var before := Progress(remaining, tentative, selected, stale);
      ghost var passed := PassFrom(q, order, 0, before, cap);
      var k := 0;
      while k < |order|
        invariant 0 <= k <= |order|
        invariant cap == 0 || |selected| < cap
        invariant remaining <= before.remaining
        invariant progress <==> remaining != before.remaining
        invariant PassFrom(q, order, k, Progress(remaining, tentative, selected, stale), cap) == passed
      {
        var index := order[k];
        k := k + 1;
        ghost var here := Progress(remaining, tentative, selected, stale);
        VisitCases(q, here, index);
        if index !in remaining {
          continue;
        }
        var item := q[index];
        var eligible := false;
        if item.IsSigned() {
          var wanted := Expected(tentative, item.sender.value);
          if item.nonce.value < wanted {
            remaining := remaining - {index};
            stale := stale + [index];
            progress := true;
            continue;
          } else if item.nonce.value == wanted {
            tentative := tentative[item.sender.value := SaturatingNext(wanted)];
            eligible := true;
          }
        } else if item.IsUnsigned() {
          eligible := true;
        }
        if eligible {
          remaining := remaining - {index};
          selected := selected + [index];
          progress := true;
          if |selected| == cap {
            return;
          }
        }
      }
      if !progress {
        return;
      }
      SubsetSmaller(remaining, before.remaining);
    }
  }

  /** `Visit` case by case, as the loop body takes it. */
  lemma {:induction false} VisitCases(q: seq<Pending>, p: Progress, i: nat)
    requires i < |q|
    ensures i !in p.remaining ==> Visit(q, p, i) == p
    ensures i in p.remaining ==>
      if q[i].IsSigned() then
        var e := Expected(p.tentative, q[i].sender.value);
        if q[i].nonce.value < e then
          Visit(q, p, i) == Progress(p.remaining - {i}, p.tentative, p.selected, p.stale + [i])
        else if q[i].nonce.value == e then
          Visit(q, p, i) == Progress(p.remaining - {i}, p.tentative[q[i].sender.value := SaturatingNext(e)],
                                     p.selected + [i], p.stale)
        else Visit(q, p, i) == p
      else if q[i].IsUnsigned() then
        Visit(q, p, i) == Progress(p.remaining - {i}, p.tentative, p.selected + [i], p.stale)
      else Visit(q, p, i) == p
  {
  }
}
