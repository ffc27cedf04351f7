/** What the scheduler's selection means. */
module SchedulerLaws {
  import opened Wrappers
  import opened Bytes
  import opened Transactions
  import opened Scheduler

  /** The counters after a signed item of theirs was taken; unsigned items have none. */
  function Advance(nonces: Nonces, item: Pending): Nonces {
    if item.IsSigned() then
      nonces[item.sender.value := SaturatingNext(Expected(nonces, item.sender.value))]
    else nonces
  }

  function AdvanceAll(nonces: Nonces, items: seq<Pending>): Nonces {
    if items == [] then nonces
    else Advance(AdvanceAll(nonces, items[..|items| - 1]), items[|items| - 1])
  }

  /** Taken in order, every item carries exactly the nonce its sender's counter then holds. */
  ghost predicate NonceRun(nonces: Nonces, items: seq<Pending>) {
    items != [] ==>
      var init, last := items[..|items| - 1], items[|items| - 1];
      && NonceRun(nonces, init)
      && (last.IsSigned() || last.IsUnsigned())
      && (last.IsSigned() ==> last.nonce.value == Expected(AdvanceAll(nonces, init), last.sender.value))
  }

  function Items(q: seq<Pending>, picks: seq<nat>): (r: seq<Pending>)
    requires Indices(picks, |q|)
    ensures |r| == |picks|
    ensures forall k :: 0 <= k < |r| ==> r[k] == q[picks[k]]
  {
    seq(|picks|, k requires 0 <= k < |picks| => q[picks[k]])
  }

  ghost predicate Distinct(picks: seq<nat>) {
    forall a, b :: 0 <= a < b < |picks| ==> picks[a] != picks[b]
  }

  /** Every index is in exactly one of the three collections, once. */
  ghost predicate Partitions(n: nat, p: Progress) {
    && Indices(p.selected, n) && Indices(p.stale, n) && p.remaining <= Below(n)
    && Distinct(p.selected) && Distinct(p.stale)
    && (forall i :: i in p.selected ==> i !in p.remaining && i !in p.stale)
    && (forall i :: i in p.stale ==> i !in p.remaining)
    && (forall i :: 0 <= i < n ==> i in p.remaining || i in p.selected || i in p.stale)
  }

  ghost predicate StaleBehind(q: seq<Pending>, p: Progress)
    requires Indices(p.stale, |q|)
  {
    forall k :: 0 <= k < |p.stale| ==> IsBehind(q[p.stale[k]], p.tentative)
  }

  ghost predicate IsBehind(item: Pending, nonces: Nonces) {
    item.IsSigned() && item.nonce.value < Expected(nonces, item.sender.value)
  }

  /** What every visit keeps. */
  ghost predicate Sound(q: seq<Pending>, expected: Nonces, p: Progress) {
    && Partitions(|q|, p)
    && NonceRun(expected, Items(q, p.selected))
    && p.tentative == AdvanceAll(expected, Items(q, p.selected))
    && StaleBehind(q, p)
  }

  lemma {:induction false} SelectOneMore(q: seq<Pending>, expected: Nonces, p: Progress, i: nat)
    requires Sound(q, expected, p) && i in p.remaining
    requires q[i].IsSigned() ==> q[i].nonce.value == Expected(p.tentative, q[i].sender.value)
    requires q[i].IsSigned() || q[i].IsUnsigned()
    ensures Sound(q, expected,
              Progress(p.remaining - {i}, Advance(p.tentative, q[i]), p.selected + [i], p.stale))
  {
    var r := Progress(p.remaining - {i}, Advance(p.tentative, q[i]), p.selected + [i], p.stale);
    hide NonceRun, AdvanceAll, Partitions;
    TakingKeepsPartition(|q|, p, i, Advance(p.tentative, q[i]));
    var before, after := Items(q, p.selected), Items(q, r.selected);
    assert NonceRun(expected, after) && r.tentative == AdvanceAll(expected, after) by {
      RunOneMore(expected, before, q[i]);
      assert after == before + [q[i]];
    }
    forall k | 0 <= k < |r.stale| ensures IsBehind(q[r.stale[k]], r.tentative) {
      assert IsBehind(q[p.stale[k]], p.tentative);
    }
  }

  lemma {:induction false} TakingKeepsPartition(n: nat, p: Progress, i: nat, nonces: Nonces)
    requires Partitions(n, p) && i in p.remaining
    ensures i < n && Indices(p.selected, n) && Indices(p.stale, n)
    ensures Partitions(n, Progress(p.remaining - {i}, nonces, p.selected + [i], p.stale))
  {
    assert i !in p.selected && i !in p.stale;
  }

  lemma {:induction false} RunOneMore(nonces: Nonces, items: seq<Pending>, x: Pending)
    ensures AdvanceAll(nonces, items + [x]) == Advance(AdvanceAll(nonces, items), x)
    ensures NonceRun(nonces, items + [x]) <==>
      && NonceRun(nonces, items)
      && (x.IsSigned() || x.IsUnsigned())
      && (x.IsSigned() ==> x.nonce.value == Expected(AdvanceAll(nonces, items), x.sender.value))
  {
    assert (items + [x])[..|items + [x]| - 1] == items;
  }

  lemma {:induction false} VisitKeepsSound(q: seq<Pending>, expected: Nonces, p: Progress, i: nat)
    requires i < |q| && Sound(q, expected, p)
    ensures Sound(q, expected, Visit(q, p, i))
  {
    hide Sound, Visit;
    VisitCases(q, p, i);
    if i in p.remaining {
      if q[i].IsSigned() && q[i].nonce.value < Expected(p.tentative, q[i].sender.value) {
        DropOneMore(q, expected, p, i);
      } else if q[i].IsUnsigned() ||
        (q[i].IsSigned() && q[i].nonce.value == Expected(p.tentative, q[i].sender.value)) {
        SelectOneMore(q, expected, p, i);
      }
    }
  }

  lemma {:induction false} DropOneMore(q: seq<Pending>, expected: Nonces, p: Progress, i: nat)
    requires Sound(q, expected, p) && i in p.remaining
    requires IsBehind(q[i], p.tentative)
    ensures Sound(q, expected, Progress(p.remaining - {i}, p.tentative, p.selected, p.stale + [i]))
  {
    hide NonceRun, AdvanceAll;
    var r := Progress(p.remaining - {i}, p.tentative, p.selected, p.stale + [i]);
    assert i !in p.selected && i !in p.stale;
    forall k | 0 <= k < |r.stale| ensures IsBehind(q[r.stale[k]], r.tentative) {
      if k < |p.stale| { assert IsBehind(q[p.stale[k]], p.tentative); }
    }
  }

  lemma {:induction false} PassKeepsSound(q: seq<Pending>, order: seq<nat>, k: nat, p: Progress, cap: nat,
                                         expected: Nonces)
    requires Indices(order, |q|) && k <= |order| && Sound(q, expected, p)
    ensures Sound(q, expected, PassFrom(q, order, k, p, cap))
    decreases |order| - k
  {
    hide Sound, Visit;
    if k < |order| && !Full(p, cap) {
      VisitKeepsSound(q, expected, p, order[k]);
      PassKeepsSound(q, order, k + 1, Visit(q, p, order[k]), cap, expected);
    }
  }

  lemma {:induction false} PassesKeepSound(q: seq<Pending>, order: seq<nat>, p: Progress, cap: nat, expected: Nonces)
    requires Indices(order, |q|) && Sound(q, expected, p)
    ensures Sound(q, expected, Passes(q, order, p, cap))
    decreases |p.remaining|
  {
    hide Sound, PassFrom;
    PassKeepsSound(q, order, 0, p, cap, expected);
    var r := PassFrom(q, order, 0, p, cap);
    if !Full(r, cap) && r.remaining != p.remaining {
      SubsetSmaller(r.remaining, p.remaining);
      PassesKeepSound(q, order, r, cap, expected);
    }
  }

  /** For every queue and cap: the selection splits the queue, is nonce-valid in order, and only
      items behind their sender's final counter are called stale. */
  lemma {:induction false} SelectionSound(q: seq<Pending>, expected: Nonces, cap: nat)
    ensures Sound(q, expected, Select(q, expected, cap))
  {
    hide Passes, AdmissionOrder;
    var p := Start(|q|, expected);
    assert Items(q, []) == [];
    assert Sound(q, expected, p);
    PassesKeepSound(q, AdmissionOrder(q, |q|), p, cap, expected);
  }

  /** Nothing left in the queue could be taken now: it is ahead of its sender's counter, or carries
      only one of sender and nonce. */
  ghost predicate Waits(item: Pending, nonces: Nonces) {
    && !item.IsUnsigned()
    && (item.IsSigned() ==> item.nonce.value > Expected(nonces, item.sender.value))
  }

  lemma {:induction false} UnchangedPassSettles(q: seq<Pending>, order: seq<nat>, k: nat, p: Progress, j: nat)
    requires Indices(order, |q|) && k <= j < |order|
    requires PassFrom(q, order, k, p, 0).remaining == p.remaining
    requires order[j] in p.remaining
    ensures Waits(q[order[j]], p.tentative)
    decreases |order| - k
  {
    hide Visit;
    VisitCases(q, p, order[k]);
    var next := Visit(q, p, order[k]);
    assert PassFrom(q, order, k, p, 0) == PassFrom(q, order, k + 1, next, 0);
    assert next.remaining <= p.remaining;
    assert next == p;
    if j > k {
      UnchangedPassSettles(q, order, k + 1, p, j);
    }
  }

  lemma {:induction false} UncappedPassesSettle(q: seq<Pending>, order: seq<nat>, p: Progress, i: nat)
    requires Indices(order, |q|) && i in order
    ensures var r := Passes(q, order, p, 0); i in r.remaining ==> i < |q| && Waits(q[i], r.tentative)
    decreases |p.remaining|
  {
    hide PassFrom, Waits;
    var r := PassFrom(q, order, 0, p, 0);
    if r.remaining == p.remaining {
      if i in r.remaining {
        var j :| 0 <= j < |order| && order[j] == i;
        UnchangedPassSettles(q, order, 0, p, j);
      }
    } else {
      SubsetSmaller(r.remaining, p.remaining);
      UncappedPassesSettle(q, order, r, i);
    }
  }

  lemma {:induction false} SelectionSettled(q: seq<Pending>, expected: Nonces, i: nat)
    ensures var r := Select(q, expected, 0); i in r.remaining && i < |q| ==> Waits(q[i], r.tentative)
  {
    hide Passes, AdmissionOrder, Waits;
    if i < |q| {
      AdmissionOrderSorted(q, |q|);
      UncappedPassesSettle(q, AdmissionOrder(q, |q|), Start(|q|, expected), i);
    }
  }

  ghost predicate HasNonce(q: seq<Pending>, s: Sender, n: u64) {
    exists i :: 0 <= i < |q| && q[i].sender == Some(s) && q[i].nonce == Some(n)
  }

  /** The end of the longest run of consecutive nonces of `s` in the queue, from `n` on. */
  ghost function RunEnd(q: seq<Pending>, s: Sender, n: u64): (end: u64)
    ensures n <= end
    decreases U64_MAX - n
  {
    if n < U64_MAX && HasNonce(q, s, n) then RunEnd(q, s, n + 1) else n
  }

  lemma {:induction false} RunEndUnique(q: seq<Pending>, s: Sender, n: u64, t: u64)
    requires n <= t
    requires forall m: u64 :: n <= m < t ==> HasNonce(q, s, m)
    requires t == U64_MAX || !HasNonce(q, s, t)
    ensures RunEnd(q, s, n) == t
    decreases t - n
  {
    if n < t {
      assert HasNonce(q, s, n);
      RunEndUnique(q, s, n + 1, t);
    }
  }

  lemma {:induction false} LastMayHold(items: seq<Pending>, s: Sender, n: u64)
    requires items != []
    ensures HasNonce(items, s, n) <==>
      || HasNonce(items[..|items| - 1], s, n)
      || (items[|items| - 1].sender == Some(s) && items[|items| - 1].nonce == Some(n))
  {
    var init := items[..|items| - 1];
    if HasNonce(init, s, n) {
      var i :| 0 <= i < |init| && init[i].sender == Some(s) && init[i].nonce == Some(n);
      assert items[i] == init[i];
    }
    if HasNonce(items, s, n) {
      var i :| 0 <= i < |items| && items[i].sender == Some(s) && items[i].nonce == Some(n);
      assert i < |init| ==> init[i] == items[i];
    }
  }

  /** In a nonce run every value a counter has passed is some item's nonce, and no item of that
      sender lies outside the values passed. */
  lemma {:induction false} RunCovers(nonces: Nonces, items: seq<Pending>, s: Sender, n: u64)
    requires NonceRun(nonces, items)
    ensures Expected(nonces, s) <= Expected(AdvanceAll(nonces, items), s)
    ensures Expected(nonces, s) <= n < Expected(AdvanceAll(nonces, items), s) ==> HasNonce(items, s, n)
    ensures HasNonce(items, s, n) ==>
      Expected(nonces, s) <= n && SaturatingNext(n) <= Expected(AdvanceAll(nonces, items), s)
  {
    if items != [] {
      var init, last := items[..|items| - 1], items[|items| - 1];
      RunCovers(nonces, init, s, n);
      var before, after := Expected(AdvanceAll(nonces, init), s), Expected(AdvanceAll(nonces, items), s);
      if before <= n < after {
        assert items[|items| - 1].sender == Some(s) && items[|items| - 1].nonce == Some(n);
      }
      LastMayHold(items, s, n);
    }
  }

  /** Two items of one sender in a nonce run carry different nonces, short of the saturated one. */
  lemma {:induction false} RunIncreases(nonces: Nonces, items: seq<Pending>, a: nat, b: nat)
    requires NonceRun(nonces, items) && a < b < |items|
    requires items[a].IsSigned() && items[b].IsSigned() && items[a].sender == items[b].sender
    ensures items[a].nonce.value < items[b].nonce.value || items[b].nonce.value == U64_MAX
  {
    if b < |items| - 1 {
      RunIncreases(nonces, items[..|items| - 1], a, b);
    } else {
      var init := items[..b];
      assert init[a] == items[a];
      RunCovers(nonces, init, items[a].sender.value, items[a].nonce.value);
      assert HasNonce(init, items[a].sender.value, items[a].nonce.value);
    }
  }

  /** How the uncapped scheduler must treat one item, by its sender's run alone. */
  ghost predicate TreatedByRun(q: seq<Pending>, expected: Nonces, p: Progress, i: nat)
    requires i < |q|
  {
    if q[i].IsUnsigned() then i in p.selected
    else if !q[i].IsSigned() then i in p.remaining
    else
      var s, n := q[i].sender.value, q[i].nonce.value;
      var from := Expected(expected, s);
      var end := RunEnd(q, s, from);
      && (n < from ==> i in p.stale)
      && (from <= n < end ==>
            && (i in p.selected || i in p.stale)
            && Indices(p.selected, |q|) && HasNonce(Items(q, p.selected), s, n))
      && (n == end ==> n == U64_MAX && i in p.selected)
      && (n > end ==> i in p.remaining)
  }

  lemma {:induction false} FinalCounterIsRunEnd(q: seq<Pending>, expected: Nonces, s: Sender)
    ensures Expected(Select(q, expected, 0).tentative, s) == RunEnd(q, s, Expected(expected, s))
  {
    hide Select, NonceRun, AdvanceAll, RunEnd;
    var r := Select(q, expected, 0);
    SelectionSound(q, expected, 0);
    var items := Items(q, r.selected);
    var from, end := Expected(expected, s), Expected(r.tentative, s);
    RunCovers(expected, items, s, 0);
    forall m: u64 | from <= m < end ensures HasNonce(q, s, m) {
      RunCovers(expected, items, s, m);
      var k :| 0 <= k < |items| && items[k].sender == Some(s) && items[k].nonce == Some(m);
      assert q[r.selected[k]] == items[k];
    }
    if end < U64_MAX && HasNonce(q, s, end) {
      var i :| 0 <= i < |q| && q[i].sender == Some(s) && q[i].nonce == Some(end);
      NoneAtEnd(q, expected, i);
    }
    RunEndUnique(q, s, from, end);
  }

  /** No queued item sits exactly at its sender's final counter, short of the saturated one. */
  lemma {:induction false} NoneAtEnd(q: seq<Pending>, expected: Nonces, i: nat)
    requires i < |q| && q[i].IsSigned()
    ensures var r := Select(q, expected, 0);
      q[i].nonce.value == Expected(r.tentative, q[i].sender.value) ==>
        q[i].nonce.value == U64_MAX && i in r.selected
  {
    hide Select, NonceRun, AdvanceAll;
    var r := Select(q, expected, 0);
    SelectionSound(q, expected, 0);
    SelectionSettled(q, expected, i);
    var s, n := q[i].sender.value, q[i].nonce.value;
    if i in r.stale {
      StaleIsBehind(q, expected, r, i);
    } else if i in r.selected {
      SelectedWithinRun(q, expected, r, i);
    }
  }

  lemma {:induction false} StaleIsBehind(q: seq<Pending>, expected: Nonces, r: Progress, i: nat)
    requires Sound(q, expected, r) && i in r.stale
    ensures IsBehind(q[i], r.tentative)
  {
    hide NonceRun, AdvanceAll;
    var k :| 0 <= k < |r.stale| && r.stale[k] == i;
    assert IsBehind(q[r.stale[k]], r.tentative);
  }

  lemma {:induction false} SelectedWithinRun(q: seq<Pending>, expected: Nonces, r: Progress, i: nat)
    requires Sound(q, expected, r) && i in r.selected && q[i].IsSigned()
    ensures Expected(expected, q[i].sender.value) <= q[i].nonce.value
    ensures SaturatingNext(q[i].nonce.value) <= Expected(r.tentative, q[i].sender.value)
  {
    hide NonceRun, AdvanceAll;
    var items := Items(q, r.selected);
    var k :| 0 <= k < |r.selected| && r.selected[k] == i;
    assert items[k] == q[i];
    assert HasNonce(items, q[i].sender.value, q[i].nonce.value);
    RunCovers(expected, items, q[i].sender.value, q[i].nonce.value);
  }

  /** Maximality.  Uncapped, an item below the expected nonce is stale; inside its sender's longest
      consecutive run it is selected or stale, and some copy of its nonce is selected; above the run it
      waits; and every unsigned item is selected. */
  lemma {:induction false} SelectionMaximal(q: seq<Pending>, expected: Nonces, i: nat)
    requires i < |q|
    ensures TreatedByRun(q, expected, Select(q, expected, 0), i)
  {
    hide Select, NonceRun, AdvanceAll, RunEnd;
    var r := Select(q, expected, 0);
    SelectionSound(q, expected, 0);
    SelectionSettled(q, expected, i);
    if i in r.selected {
      SelectedIsComplete(q, expected, r, i);
    }
    if q[i].IsSigned() {
      var s := q[i].sender.value;
      FinalCounterIsRunEnd(q, expected, s);
      RunCovers(expected, Items(q, r.selected), s, q[i].nonce.value);
      NoneAtEnd(q, expected, i);
      if i in r.selected {
        SelectedWithinRun(q, expected, r, i);
      } else if i in r.stale {
        StaleIsBehind(q, expected, r, i);
      }
    } else if i in r.stale {
      StaleIsBehind(q, expected, r, i);
    }
  }

  lemma {:induction false} SelectedIsComplete(q: seq<Pending>, expected: Nonces, r: Progress, i: nat)
    requires Sound(q, expected, r) && i in r.selected
    ensures q[i].IsSigned() || q[i].IsUnsigned()
  {
    hide AdvanceAll;
    var k :| 0 <= k < |r.selected| && r.selected[k] == i;
    RunMembers(expected, Items(q, r.selected), k);
  }

  lemma {:induction false} RunMembers(nonces: Nonces, items: seq<Pending>, k: nat)
    requires NonceRun(nonces, items) && k < |items|
    ensures items[k].IsSigned() || items[k].IsUnsigned()
  {
    if k < |items| - 1 {
      RunMembers(nonces, items[..|items| - 1], k);
    }
  }

  /** Each nonce of a run is selected once: with maximality, exactly once below the run's end. */
  lemma {:induction false} SelectedOncePerNonce(q: seq<Pending>, expected: Nonces, cap: nat, i: nat, j: nat)
    requires var r := Select(q, expected, cap); i in r.selected && j in r.selected && i != j
    requires i < |q| && j < |q| && q[i].IsSigned() && q[j].IsSigned()
    ensures q[i].sender != q[j].sender || q[i].nonce != q[j].nonce || q[i].nonce == Some(U64_MAX)
  {
    hide Select, NonceRun, AdvanceAll;
    SelectionSound(q, expected, cap);
    var r := Select(q, expected, cap);
    var items := Items(q, r.selected);
    var a :| 0 <= a < |r.selected| && r.selected[a] == i;
    var b :| 0 <= b < |r.selected| && r.selected[b] == j;
    if q[i].sender == q[j].sender {
      if a < b { RunIncreases(expected, items, a, b); } else { RunIncreases(expected, items, b, a); }
    }
  }

  /** The saturated nonce is the exception: two actions carrying it are both selected. */
  lemma {:induction false} SaturatedNonceSelectedTwice(x: Pending, y: Pending, s: Sender)
    requires x.sender == y.sender == Some(s) && x.nonce == y.nonce == Some(U64_MAX)
    requires x.arrival <= y.arrival
    ensures Select([x, y], map[s := U64_MAX], 0).selected == [0, 1]
  {
    var q, expected: Nonces := [x, y], map[s := U64_MAX];
    assert AdmissionOrder(q, 0) == [];
    assert AdmissionOrder(q, 1) == [0];
    assert AdmissionOrder(q, 2) == [0, 1];
    var p0 := Start(2, expected);
    var p1 := Visit(q, p0, 0);
    var p2 := Visit(q, p1, 1);
    assert p2.selected == [0, 1] && p2.remaining == {};
    assert PassFrom(q, [0, 1], 2, p2, 0) == p2;
    assert PassFrom(q, [0, 1], 1, p1, 0) == p2;
    assert PassFrom(q, [0, 1], 0, p0, 0) == p2;
    assert PassFrom(q, [0, 1], 0, p2, 0).remaining == p2.remaining;
    assert Passes(q, [0, 1], p2, 0) == p2;
    assert 0 in p0.remaining;
    assert Passes(q, [0, 1], p0, 0) == p2;
  }

  /** `later` continues `earlier`. */
  ghost predicate Extends(later: Progress, earlier: Progress) {
    earlier.selected <= later.selected && earlier.stale <= later.stale
  }

  lemma {:induction false} PassExtends(q: seq<Pending>, order: seq<nat>, k: nat, p: Progress, cap: nat)
    requires Indices(order, |q|) && k <= |order|
    ensures Extends(PassFrom(q, order, k, p, cap), p)
    decreases |order| - k
  {
    hide Visit;
    if k < |order| && !Full(p, cap) {
      VisitCases(q, p, order[k]);
      PassExtends(q, order, k + 1, Visit(q, p, order[k]), cap);
    }
  }

  lemma {:induction false} PassesExtend(q: seq<Pending>, order: seq<nat>, p: Progress, cap: nat)
    requires Indices(order, |q|)
    ensures Extends(Passes(q, order, p, cap), p)
    decreases |p.remaining|
  {
    hide PassFrom;
    PassExtends(q, order, 0, p, cap);
    var r := PassFrom(q, order, 0, p, cap);
    if !Full(r, cap) && r.remaining != p.remaining {
      SubsetSmaller(r.remaining, p.remaining);
      PassesExtend(q, order, r, cap);
    }
  }

  /** A capped pass agrees with the uncapped one up to the moment it is full. */
  ghost predicate CutShort(capped: Progress, free: Progress, cap: nat) {
    && |capped.selected| <= cap
    && Extends(free, capped)
    && (|capped.selected| < cap ==> capped == free)
  }

  lemma {:induction false} CappedPass(q: seq<Pending>, order: seq<nat>, k: nat, p: Progress, cap: nat)
    requires Indices(order, |q|) && k <= |order| && |p.selected| <= cap && cap > 0
    ensures CutShort(PassFrom(q, order, k, p, cap), PassFrom(q, order, k, p, 0), cap)
    decreases |order| - k
  {
    hide Visit;
    if Full(p, cap) {
      PassExtends(q, order, k, p, 0);
    } else if k < |order| {
      VisitCases(q, p, order[k]);
      CappedPass(q, order, k + 1, Visit(q, p, order[k]), cap);
    }
  }

  lemma {:induction false} CappedPasses(q: seq<Pending>, order: seq<nat>, p: Progress, cap: nat)
    requires Indices(order, |q|) && |p.selected| <= cap && cap > 0
    ensures CutShort(Passes(q, order, p, cap), Passes(q, order, p, 0), cap)
    decreases |p.remaining|
  {
    hide PassFrom;
    CappedPass(q, order, 0, p, cap);
    var r, free := PassFrom(q, order, 0, p, cap), PassFrom(q, order, 0, p, 0);
    if Full(r, cap) {
      if free.remaining != p.remaining {
        SubsetSmaller(free.remaining, p.remaining);
        PassesExtend(q, order, free, 0);
      }
    } else if r.remaining != p.remaining {
      SubsetSmaller(r.remaining, p.remaining);
      CappedPasses(q, order, r, cap);
    }
  }

  /** A cap only cuts the uncapped selection: the first `cap` picks, and the stale ones met so far. */
  lemma {:induction false} CappedIsPrefix(q: seq<Pending>, expected: Nonces, cap: nat)
    requires cap > 0
    ensures var capped, free := Select(q, expected, cap), Select(q, expected, 0);
      && capped.selected == free.selected[..if cap < |free.selected| then cap else |free.selected|]
      && capped.stale <= free.stale
      && (|free.selected| < cap ==> capped == free)
  {
    hide Passes, AdmissionOrder;
    CappedPasses(q, AdmissionOrder(q, |q|), Start(|q|, expected), cap);
  }

  /** Two queues whose admission orders list the same items. */
  ghost predicate SameRanks(q: seq<Pending>, order: seq<nat>, r: seq<Pending>, rank: seq<nat>) {
    && Indices(order, |q|) && Indices(rank, |r|) && |order| == |rank|
    && Distinct(order) && Distinct(rank)
    && (forall k :: 0 <= k < |order| ==> q[order[k]] == r[rank[k]])
  }

  ghost predicate Mirrors(q: seq<Pending>, order: seq<nat>, p: Progress,
                          r: seq<Pending>, rank: seq<nat>, o: Progress)
    requires SameRanks(q, order, r, rank)
  {
    && Indices(p.selected, |q|) && Indices(o.selected, |r|)
    && Indices(p.stale, |q|) && Indices(o.stale, |r|)
    && (forall k :: 0 <= k < |order| ==> (order[k] in p.remaining <==> rank[k] in o.remaining))
    && p.tentative == o.tentative
    && Items(q, p.selected) == Items(r, o.selected)
    && Items(q, p.stale) == Items(r, o.stale)
  }

  lemma {:induction false} ItemsAppend(q: seq<Pending>, picks: seq<nat>, i: nat)
    requires Indices(picks, |q|) && i < |q|
    ensures Items(q, picks + [i]) == Items(q, picks) + [q[i]]
  {
  }

  lemma {:induction false} VisitMirrors(q: seq<Pending>, order: seq<nat>, p: Progress,
                                        r: seq<Pending>, rank: seq<nat>, o: Progress, k: nat)
    requires SameRanks(q, order, r, rank) && k < |order|
    requires Mirrors(q, order, p, r, rank, o)
    ensures Mirrors(q, order, Visit(q, p, order[k]), r, rank, Visit(r, o, rank[k]))
  {
    hide Items, Visit;
    VisitCases(q, p, order[k]);
    VisitCases(r, o, rank[k]);
    if order[k] in p.remaining {
      ItemsAppend(q, p.selected, order[k]);
      ItemsAppend(r, o.selected, rank[k]);
      ItemsAppend(q, p.stale, order[k]);
      ItemsAppend(r, o.stale, rank[k]);
    }
  }

  lemma {:induction false} PassMirrors(q: seq<Pending>, order: seq<nat>, p: Progress,
                                       r: seq<Pending>, rank: seq<nat>, o: Progress, k: nat, cap: nat)
    requires SameRanks(q, order, r, rank) && k <= |order|
    requires Mirrors(q, order, p, r, rank, o)
    ensures Mirrors(q, order, PassFrom(q, order, k, p, cap), r, rank, PassFrom(r, rank, k, o, cap))
    decreases |order| - k
  {
    hide Visit, SameRanks;
    assert |order| == |rank| && Indices(order, |q|) && Indices(rank, |r|) by {
      SameRanksShape(q, order, r, rank);
    }
    assert |p.selected| == |o.selected|;
    hide Mirrors;
    if k < |order| && !Full(p, cap) {
      VisitMirrors(q, order, p, r, rank, o, k);
      PassMirrors(q, order, Visit(q, p, order[k]), r, rank, Visit(r, o, rank[k]), k + 1, cap);
    }
  }

  lemma {:induction false} SameRanksShape(q: seq<Pending>, order: seq<nat>, r: seq<Pending>, rank: seq<nat>)
    requires SameRanks(q, order, r, rank)
    ensures |order| == |rank| && Indices(order, |q|) && Indices(rank, |r|)
  {
  }

  /** Both orders list every index still waiting. */
  ghost predicate Covers(order: seq<nat>, remaining: set<nat>) {
    forall i :: i in remaining ==> i in order
  }

  lemma {:induction false} PassesMirror(q: seq<Pending>, order: seq<nat>, p: Progress,
                                        r: seq<Pending>, rank: seq<nat>, o: Progress, cap: nat)
    requires SameRanks(q, order, r, rank) && Mirrors(q, order, p, r, rank, o)
    requires Covers(order, p.remaining) && Covers(rank, o.remaining)
    ensures Mirrors(q, order, Passes(q, order, p, cap), r, rank, Passes(r, rank, o, cap))
    decreases |p.remaining|
  {
    hide PassFrom, Items, SameRanks;
    SameRanksShape(q, order, r, rank);
    PassMirrors(q, order, p, r, rank, o, 0, cap);
    var a, b := PassFrom(q, order, 0, p, cap), PassFrom(r, rank, 0, o, cap);
    MirrorsSettleTogether(q, order, p, a, r, rank, o, b);
    assert |a.selected| == |Items(q, a.selected)| == |b.selected|;
    if !Full(a, cap) && a.remaining != p.remaining {
      SubsetSmaller(a.remaining, p.remaining);
      PassesMirror(q, order, a, r, rank, b, cap);
    }
  }

  lemma {:induction false} MirrorsSettleTogether(
      q: seq<Pending>, order: seq<nat>, p: Progress, a: Progress,
      r: seq<Pending>, rank: seq<nat>, o: Progress, b: Progress)
    requires SameRanks(q, order, r, rank)
    requires Mirrors(q, order, p, r, rank, o) && Mirrors(q, order, a, r, rank, b)
    requires Covers(order, p.remaining) && Covers(rank, o.remaining)
    requires a.remaining <= p.remaining && b.remaining <= o.remaining
    ensures a.remaining == p.remaining <==> b.remaining == o.remaining
  {
    hide Items;
    if a.remaining == p.remaining {
      forall i | i in o.remaining ensures i in b.remaining {
        var k :| 0 <= k < |rank| && rank[k] == i;
        assert order[k] in p.remaining;
      }
    }
    if b.remaining == o.remaining {
      forall i | i in p.remaining ensures i in a.remaining {
        var k :| 0 <= k < |order| && order[k] == i;
        assert rank[k] in o.remaining;
      }
    }
  }

  ghost predicate DistinctArrivals(q: seq<Pending>) {
    forall i, j :: 0 <= i < j < |q| ==> q[i].arrival != q[j].arrival
  }

  ghost predicate Ascending(items: seq<Pending>) {
    forall i, j :: 0 <= i < j < |items| ==> items[i].arrival < items[j].arrival
  }

  lemma {:induction false} LastsAgree(a: seq<Pending>, b: seq<Pending>)
    requires Ascending(a) && Ascending(b)
    requires forall x :: x in a <==> x in b
    requires a != []
    ensures b != [] && a[|a| - 1] == b[|b| - 1]
  {
    assert a[0] in b;
    var x, y := a[|a| - 1], b[|b| - 1];
    assert x in b && y in a;
    var i :| 0 <= i < |b| && b[i] == x;
    var j :| 0 <= j < |a| && a[j] == y;
  }

  lemma {:induction false} AscendingUnique(a: seq<Pending>, b: seq<Pending>)
    requires Ascending(a) && Ascending(b)
    requires forall x :: x in a <==> x in b
    ensures a == b
  {
    assert b != [] ==> b[0] in a;
    if a != [] {
      LastsAgree(a, b);
      var c, d := a[..|a| - 1], b[..|b| - 1];
      forall z ensures z in c <==> z in d {
        InitMembers(a, z);
        InitMembers(b, z);
      }
      AscendingUnique(c, d);
      assert a == c + [a[|a| - 1]] && b == d + [b[|b| - 1]];
    }
  }

  lemma {:induction false} InitMembers(a: seq<Pending>, z: Pending)
    requires Ascending(a) && a != []
    ensures z in a[..|a| - 1] <==> z in a && z != a[|a| - 1]
  {
    var c := a[..|a| - 1];
    if z in a && z != a[|a| - 1] {
      var i :| 0 <= i < |a| && a[i] == z;
      assert c[i] == z;
    }
    if z in c {
      var i :| 0 <= i < |c| && c[i] == z;
      assert a[i] == z;
    }
  }

  lemma {:induction false} SortedItems(q: seq<Pending>)
    requires DistinctArrivals(q)
    ensures var order := AdmissionOrder(q, |q|);
      && Distinct(order) && Ascending(Items(q, order)) && Covers(order, Below(|q|))
      && (forall x :: x in q <==> x in Items(q, order))
  {
    hide AdmissionOrder;
    AdmissionOrderSorted(q, |q|);
    var order := AdmissionOrder(q, |q|);
    var items := Items(q, order);
    forall a, b | 0 <= a < b < |order|
      ensures order[a] != order[b] && items[a].arrival < items[b].arrival
    {
      assert Before(q, order[a], order[b]);
    }
    forall x | x in q ensures x in items {
      var i :| 0 <= i < |q| && q[i] == x;
      assert i in order;
      var k :| 0 <= k < |order| && order[k] == i;
      assert items[k] == x;
    }
    forall x | x in items ensures x in q {
      var k :| 0 <= k < |items| && items[k] == x;
      assert q[order[k]] == x;
    }
  }

  /** How the queue is stored does not matter: two queues holding the same items, with distinct
      arrivals, give the same selected and stale items in the same order, whatever the cap. */
  lemma {:induction false} StorageOrderIrrelevant(q: seq<Pending>, r: seq<Pending>, expected: Nonces, cap: nat)
    requires DistinctArrivals(q) && DistinctArrivals(r)
    requires forall x :: x in q <==> x in r
    ensures var a, b := Select(q, expected, cap), Select(r, expected, cap);
      && Indices(a.selected, |q|) && Indices(b.selected, |r|)
      && Indices(a.stale, |q|) && Indices(b.stale, |r|)
      && Items(q, a.selected) == Items(r, b.selected)
      && Items(q, a.stale) == Items(r, b.stale)
  {
    hide AdmissionOrder, Passes;
    SortedItems(q);
    SortedItems(r);
    var order, rank := AdmissionOrder(q, |q|), AdmissionOrder(r, |r|);
    AscendingUnique(Items(q, order), Items(r, rank));
    assert |order| == |Items(q, order)| == |Items(r, rank)| == |rank|;
    assert SameRanks(q, order, r, rank) by {
      forall k | 0 <= k < |order| ensures q[order[k]] == r[rank[k]] {
        assert Items(q, order)[k] == Items(r, rank)[k];
      }
    }
    var p, o := Start(|q|, expected), Start(|r|, expected);
    assert Mirrors(q, order, p, r, rank, o) by {
      assert Items(q, []) == [] == Items(r, []);
    }
    PassesMirror(q, order, p, r, rank, o, cap);
  }

  /** Maximality for any cap that is not reached. */
  lemma {:induction false} MaximalBelowCap(q: seq<Pending>, expected: Nonces, cap: nat, i: nat)
    requires i < |q| && (cap == 0 || |Select(q, expected, cap).selected| < cap)
    ensures TreatedByRun(q, expected, Select(q, expected, cap), i)
  {
    hide Select, TreatedByRun;
    SelectionMaximal(q, expected, i);
    if cap > 0 {
      CappedIsPrefix(q, expected, cap);
    }
  }

  /** The selected nonces of a sender, read off the queue. */
  ghost predicate RunIsSelected(q: seq<Pending>, expected: Nonces, p: Progress, s: Sender, n: u64)
    requires Indices(p.selected, |q|)
  {
    var from := Expected(expected, s);
    HasNonce(Items(q, p.selected), s, n) <==> from <= n < RunEnd(q, s, from)
  }

  /** Each sender's selected nonces are exactly its longest contiguous run: below the saturated nonce,
      a nonce is selected if and only if it lies in the run, whatever copies of it are queued. */
  lemma {:induction false} SelectsWholeRun(q: seq<Pending>, expected: Nonces, cap: nat, s: Sender, n: u64)
    requires n < U64_MAX && (cap == 0 || |Select(q, expected, cap).selected| < cap)
    ensures var r := Select(q, expected, cap);
      Indices(r.selected, |q|) && RunIsSelected(q, expected, r, s, n)
  {
    hide Select, NonceRun, AdvanceAll, RunEnd;
    if cap > 0 {
      CappedIsPrefix(q, expected, cap);
    }
    SelectionSound(q, expected, 0);
    FinalCounterIsRunEnd(q, expected, s);
    RunCovers(expected, Items(q, Select(q, expected, 0).selected), s, n);
  }
}
