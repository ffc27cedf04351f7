/** The key order of the durable store. */
module KeyOrder {
  import opened Bytes

  /** Bytewise lexicographic order. */
  ghost predicate Leq(a: seq<byte>, b: seq<byte>) {
    a == [] || (b != [] && (a[0] < b[0] || (a[0] == b[0] && Leq(a[1..], b[1..]))))
  }

  lemma {:induction false} PrefixIsBelow(p: seq<byte>, s: seq<byte>)
    ensures Leq(p, p + s)
  {
    if p != [] {
      assert (p + s)[1..] == p[1..] + s;
      PrefixIsBelow(p[1..], s);
    }
  }

  /** Once a scan upward from `p` has left the keys that start with `p`, it never meets one again. */
  lemma {:induction false} PrefixInterval(p: seq<byte>, x: seq<byte>, y: seq<byte>)
    requires Leq(p, x) && !(p <= x) && Leq(x, y)
    ensures !(p <= y)
  {
    if p[0] == x[0] && x[0] == y[0] {
      assert !(p[1..] <= x[1..]);
      PrefixInterval(p[1..], x[1..], y[1..]);
    }
  }
}

/** Managed state as rows of the durable store: service `id`'s key `k` is the row `BE4(id) + k`. */
module StateRows {
  import opened Wrappers
  import opened Bytes
  import opened KeyOrder

  type Key = seq<byte>
  type Value = seq<byte>
  type Managed = map<Key, Value>

  datatype Change = Change(key: Key, value: Option<Value>)

  /** `FullState::apply_diff`: changes in order. */
  function ApplyDiff(state: Managed, changes: seq<Change>): Managed {
    if changes == [] then state
    else
      var before, c := ApplyDiff(state, changes[..|changes| - 1]), changes[|changes| - 1];
      if c.value.Some? then before[c.key := c.value.value] else before - {c.key}
  }

  function Prefix(service: u32): (p: Key)
    ensures |p| == 4
  {
    BE(service, 4)
  }

  lemma {:induction false} PrefixesDiffer(a: u32, b: u32)
    requires a != b
    ensures Prefix(a) != Prefix(b)
  {
    Pow256Values();
    if Prefix(a) == Prefix(b) {
      BEInjective(a, b, 4);
    }
  }

  function Tails(rows: Managed, p: Key): (r: set<Key>)
    ensures forall s :: s in r <==> p + s in rows
  {
    var r := set k | k in rows && p <= k :: k[|p|..];
    assert forall k :: p <= k ==> k == p + k[|p|..];
    assert forall s :: p + s in rows ==> (p + s)[|p|..] == s;
    r
  }

  /** The part of the rows under a prefix, with the prefix taken off. */
  function View(rows: Managed, p: Key): (state: Managed)
    ensures forall s :: s in state <==> p + s in rows
    ensures forall s :: s in state ==> state[s] == rows[p + s]
  {
    map s | s in Tails(rows, p) :: rows[p + s]
  }

  /** The puts and deletes a transition adds to the write batch. */
  function ApplyRows(rows: Managed, p: Key, changes: seq<Change>): Managed {
    if changes == [] then rows
    else
      var before, c := ApplyRows(rows, p, changes[..|changes| - 1]), changes[|changes| - 1];
      if c.value.Some? then before[p + c.key := c.value.value] else before - {p + c.key}
  }

  lemma {:induction false} SameTail(p: Key, s: Key, t: Key)
    ensures p + s == p + t <==> s == t
  {
    assert (p + s)[|p|..] == s && (p + t)[|p|..] == t;
  }

  lemma {:induction false} ViewPut(rows: Managed, p: Key, key: Key, value: Value)
    ensures View(rows[p + key := value], p) == View(rows, p)[key := value]
    ensures View(rows - {p + key}, p) == View(rows, p) - {key}
  {
    hide View;
    forall s ensures p + s == p + key <==> s == key { SameTail(p, s, key); }
    var put, cut := View(rows[p + key := value], p), View(rows - {p + key}, p);
    assert put == View(rows, p)[key := value];
    assert cut == View(rows, p) - {key};
  }

  /** Writing a transition's rows is applying its diff to the service's state. */
  lemma {:induction false} RowsFollowDiff(rows: Managed, p: Key, changes: seq<Change>)
    ensures View(ApplyRows(rows, p, changes), p) == ApplyDiff(View(rows, p), changes)
  {
    hide View;
    if changes != [] {
      var init, c := changes[..|changes| - 1], changes[|changes| - 1];
      RowsFollowDiff(rows, p, init);
      ViewPut(ApplyRows(rows, p, init), p, c.key, if c.value.Some? then c.value.value else []);
    }
  }

  lemma {:induction false} OtherRow(p: Key, q: Key, s: Key, t: Key)
    requires |p| == |q| && p != q
    ensures p + s != q + t
  {
    assert (p + s)[..|p|] == p && (q + t)[..|q|] == q;
  }

  /** Writing one service's rows leaves every other service's state alone. */
  lemma {:induction false} RowsSpareOthers(rows: Managed, p: Key, q: Key, changes: seq<Change>)
    requires |p| == |q| && p != q
    ensures View(ApplyRows(rows, p, changes), q) == View(rows, q)
  {
    hide View;
    if changes != [] {
      var init, c := changes[..|changes| - 1], changes[|changes| - 1];
      RowsSpareOthers(rows, p, q, init);
      var before := ApplyRows(rows, p, init);
      forall s ensures q + s != p + c.key { OtherRow(q, p, s, c.key); }
      assert View(ApplyRows(rows, p, changes), q) == View(before, q);
    }
  }

  /** What the store's iterator yields from a key on: every row key at or above it, ascending. */
  ghost predicate IsScan(rows: Managed, p: Key, scan: seq<Key>) {
    && (forall k :: k in scan <==> k in rows && Leq(p, k))
    && (forall i, j :: 0 <= i < j < |scan| ==> Leq(scan[i], scan[j]) && scan[i] != scan[j])
  }

  /** Reads a service's rows: forward from the prefix, stopping at the first key without it. */
  method ScanPrefix(rows: Managed, p: Key, scan: seq<Key>) returns (state: Managed)
    requires IsScan(rows, p, scan)
    ensures state == View(rows, p)
  {
    hide View, Leq;
    state := map[];
    var k := 0;
    while k < |scan|
      invariant 0 <= k <= |scan|
      invariant forall j :: 0 <= j < k ==> p <= scan[j]
      invariant forall s :: s in state <==> p + s in scan[..k]
      invariant forall s :: s in state ==> p + s in rows && state[s] == rows[p + s]
    {
      if !(p <= scan[k]) {
        break;
      }
      var tail := scan[k][|p|..];
      assert scan[k] == p + tail;
      assert scan[..k + 1] == scan[..k] + [scan[k]];
      assert scan[k] in scan;
      forall s ensures p + s == scan[k] <==> s == tail { SameTail(p, s, tail); }
      state := state[tail := rows[scan[k]]];
      k := k + 1;
    }
    forall s | p + s in rows ensures s in state {
      PrefixIsBelow(p, s);
      assert p + s in scan;
      var j :| 0 <= j < |scan| && scan[j] == p + s;
      assert p <= p + s;
      if j >= k {
        assert scan[k] in scan && Leq(p, scan[k]);
        if j > k { PrefixInterval(p, scan[k], scan[j]); }
      } else {
        assert scan[..k][j] == p + s;
      }
    }
    assert forall s :: s in state <==> p + s in rows;
  }
}
