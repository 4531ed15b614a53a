/** Every state that a table of the cuckoo hash goes through, one write to memory at a time. */
module CuckooHistory {

  import opened Options
  import opened CuckooTables
  import opened CuckooChanges

  /* A change of a bucket between its two counter increments, and what was there before. */
  datatype Change = Change(bucket: nat, before: Bucket)

  /* What readers can see at some moment. */
  datatype Snapshot = Snapshot(counters: seq<nat>, table: Table, change: Option<Change>)

  /* The table without a change in progress. */
  function Committed(s: Snapshot): (t: Table)
    ensures |t| == |s.table|
  {
    if s.change.Some? && s.change.value.bucket < |s.table|
    then s.table[s.change.value.bucket := s.change.value.before] else s.table
  }

  /* The bucket being changed, and only that, has an odd counter. */
  ghost predicate CountersOk(s: Snapshot)
  {
    && |s.counters| == |s.table|
    && (s.change.Some? ==> s.change.value.bucket < |s.table|)
    && forall b :: 0 <= b < |s.counters| ==>
                     (s.counters[b] % 2 == 1 <==> s.change.Some? && s.change.value.bucket == b)
  }

  ghost predicate SnapshotOk(g: Geometry, s: Snapshot)
  {
    CountersOk(s) && Visible(g, Committed(s))
  }

  // ---------------------------------------------------------------- writes

  /* One write to memory. */
  datatype Write = Counter(bucket: nat)
                 | Chain(bucket: nat, slot: nat, chain: seq<Node>)
                 | HashOf(bucket: nat, slot: nat, hash: Hash)

  predicate InTable(s: Snapshot, w: Write)
  {
    w.bucket < |s.table| == |s.counters| && (w.Counter? || w.slot < CMAP_K)
  }

  /* A hash is written only while the bucket's counter is odd.  A chain can also be written
     without touching the counter. */
  predicate Wrote(s: Snapshot, w: Write, s': Snapshot)
  {
    && InTable(s, w)
    && match w
       case Counter(b) => s'.counters == s.counters[b := s.counters[b] + 1] && s'.table == s.table
       case Chain(b, i, c) => s'.counters == s.counters && s'.table == s.table[b := s.table[b][i := s.table[b][i].(chain := c)]]
       case HashOf(b, i, h) =>
         && s.counters[b] % 2 == 1
         && s'.counters == s.counters && s'.table == s.table[b := s.table[b][i := s.table[b][i].(hash := h)]]
  }

  /* A change in progress is always against the bucket as it was when the change began. */
  ghost predicate Tracked(s: Snapshot, s': Snapshot)
  {
    s'.change.Some? ==>
      if s.change.Some? then s'.change == s.change
      else s'.change.value.bucket < |s.table| && s'.change.value.before == s.table[s'.change.value.bucket]
  }

  ghost predicate Step(s: Snapshot, s': Snapshot)
  {
    Tracked(s, s') && exists w :: Wrote(s, w, s')
  }

  ghost predicate HistoryOk(g: Geometry, hist: seq<Snapshot>)
  {
    && (forall k :: 0 <= k < |hist| ==> SnapshotOk(g, hist[k]))
    && (forall k :: 0 <= k < |hist| - 1 ==> Step(hist[k], hist[k + 1]))
  }

  lemma Extend(g: Geometry, hist: seq<Snapshot>, w: Write, s: Snapshot)
    requires HistoryOk(g, hist) && hist != [] && SnapshotOk(g, s)
    requires Wrote(hist[|hist| - 1], w, s) && Tracked(hist[|hist| - 1], s)
    ensures HistoryOk(g, hist + [s])
  {
    hide SnapshotOk, Wrote;
    assert Step(hist[|hist| - 1], s);
  }

  // ---------------------------------------------------------------- cmap_set_bucket()

  /* The states of cmap_set_bucket() after each of its writes. */
  function Odd(s: Snapshot, b: nat): Snapshot
    requires b < |s.counters| == |s.table|
  {
    Snapshot(s.counters[b := s.counters[b] + 1], s.table, Some(Change(b, s.table[b])))
  }

  function NodeSet(s: Snapshot, b: nat, i: nat, chain: seq<Node>): Snapshot
    requires b < |s.counters| == |s.table| && i < CMAP_K
  {
    Odd(s, b).(table := s.table[b := s.table[b][i := s.table[b][i].(chain := chain)]])
  }

  function HashSet(s: Snapshot, b: nat, i: nat, h: Hash, chain: seq<Node>): Snapshot
    requires b < |s.counters| == |s.table| && i < CMAP_K
  {
    Odd(s, b).(table := WithSlot(s.table, b, i, h, chain))
  }

  function Even(s: Snapshot, b: nat, i: nat, h: Hash, chain: seq<Node>): Snapshot
    requires b < |s.counters| == |s.table| && i < CMAP_K
  {
    Snapshot(s.counters[b := s.counters[b] + 2], WithSlot(s.table, b, i, h, chain), None)
  }

  lemma SetBucketStates(g: Geometry, s: Snapshot, b: nat, i: nat, h: Hash, chain: seq<Node>)
    requires SnapshotOk(g, s) && s.change.None? && b < |s.table| && i < CMAP_K
    requires Visible(g, WithSlot(s.table, b, i, h, chain))
    ensures SnapshotOk(g, Odd(s, b)) && SnapshotOk(g, NodeSet(s, b, i, chain))
    ensures SnapshotOk(g, HashSet(s, b, i, h, chain)) && SnapshotOk(g, Even(s, b, i, h, chain))
    ensures Wrote(s, Counter(b), Odd(s, b))
    ensures Wrote(Odd(s, b), Chain(b, i, chain), NodeSet(s, b, i, chain))
    ensures Wrote(NodeSet(s, b, i, chain), HashOf(b, i, h), HashSet(s, b, i, h, chain))
    ensures Wrote(HashSet(s, b, i, h, chain), Counter(b), Even(s, b, i, h, chain))
  {
    hide Visible;
    assert Committed(Odd(s, b)) == s.table;
    assert Committed(NodeSet(s, b, i, chain)) == s.table;
    assert Committed(HashSet(s, b, i, h, chain)) == s.table;
    assert NodeSet(s, b, i, chain).table[b][i := NodeSet(s, b, i, chain).table[b][i].(hash := h)]
        == HashSet(s, b, i, h, chain).table[b];
    assert Odd(s, b).counters[b := s.counters[b] + 2] == Even(s, b, i, h, chain).counters;
  }

  // ---------------------------------------------------------------- atomicity

  /* From the state 'n' on, the committed table is 't' or 't2'. */
  ghost predicate Between(hist: seq<Snapshot>, n: nat, t: Table, t2: Table)
  {
    n <= |hist| && forall k :: n <= k < |hist| ==> Committed(hist[k]) == t || Committed(hist[k]) == t2
  }

  ghost predicate SameMap(g: Geometry, t: Table, s: Snapshot)
  {
    |t| == g.size && |s.table| == g.size && SameFor(g, t, Committed(s))
  }

  /* From the state 'n' on, every hash is mapped as in 't'. */
  ghost predicate Steady(g: Geometry, hist: seq<Snapshot>, n: nat, t: Table)
  {
    n <= |hist| && forall k :: n <= k < |hist| ==> SameMap(g, t, hist[k])
  }

  /* From the state 'n' on, all hashes are mapped as in 't', or all as in 't2'. */
  ghost predicate Atomic(g: Geometry, hist: seq<Snapshot>, n: nat, t: Table, t2: Table)
  {
    n <= |hist| && forall k :: n <= k < |hist| ==> SameMap(g, t, hist[k]) || SameMap(g, t2, hist[k])
  }

  lemma BetweenIsAtomic(g: Geometry, hist: seq<Snapshot>, n: nat, t: Table, t2: Table)
    requires |t| == |t2| == g.size && Between(hist, n, t, t2)
    ensures Atomic(g, hist, n, t, t2)
  {
    forall k | n <= k < |hist| ensures SameMap(g, t, hist[k]) || SameMap(g, t2, hist[k]) {
    }
  }

  /* A change to another table with the same chains. */
  lemma StillSteady(g: Geometry, hist: seq<Snapshot>, n: nat, m: nat, t0: Table, t: Table, t2: Table)
    requires |t0| == |t| == |t2| == g.size && n <= m <= |hist| && Steady(g, hist[..m], n, t0) && Between(hist, m, t, t2)
    requires SameFor(g, t0, t) && SameFor(g, t0, t2)
    ensures Steady(g, hist, n, t0)
  {
    hide Find;
    forall k | n <= k < |hist| ensures SameMap(g, t0, hist[k]) {
      if k < m {
        assert hist[k] == hist[..m][k];
      } else {
        assert Committed(hist[k]) == t || Committed(hist[k]) == t2;
      }
    }
  }

  lemma SteadyThenAtomic(g: Geometry, hist: seq<Snapshot>, n: nat, m: nat, t0: Table, t: Table, t2: Table)
    requires |t0| == |t| == |t2| == g.size && n <= m <= |hist| && Steady(g, hist[..m], n, t0) && Between(hist, m, t, t2)
    requires SameFor(g, t0, t)
    ensures Atomic(g, hist, n, t0, t2)
  {
    hide Find;
    forall k | n <= k < |hist| ensures SameMap(g, t0, hist[k]) || SameMap(g, t2, hist[k]) {
      if k < m {
        assert hist[k] == hist[..m][k];
      } else {
        assert Committed(hist[k]) == t || Committed(hist[k]) == t2;
      }
    }
  }
}
