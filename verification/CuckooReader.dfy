/** cmap_find__() running concurrently with a writer: every lookup returns what the table held
    for the hash at some moment during the lookup. */
module CuckooReaders {

  import opened Options
  import opened CuckooTables
  import opened CuckooHistory

  /* Counters are 32 bits wide. */
  const WRAP: nat := 0x1_0000_0000

  /* cmap_find_in_bucket(), one read at a time: of the hash in a slot, of a chain, and of the
     counter to check that it is unchanged. */
  datatype Phase = Slots(i: nat) | ChainOf(i: nat) | Check(chain: seq<Node>)

  datatype Reader =
    | Begin                                       /* read the counter of the first bucket */
    | First(c1: nat, phase: Phase)                /* read the first bucket */
    | Begin2(c1: nat)                             /* read the counter of the second bucket */
    | Second(c1: nat, c2: nat, phase: Phase)      /* read the second bucket */
    | Again(c1: nat)                              /* read the first counter again */
    | Done(chain: seq<Node>)

  function Scan(b: Bucket, h: Hash, phase: Phase): Phase
    requires !phase.Check?
  {
    match phase
    case Slots(i) =>
      if i >= CMAP_K then Check([])
      else if b[i].hash == h then ChainOf(i)
      else if i + 1 == CMAP_K then Check([])
      else Slots(i + 1)
    case ChainOf(i) => if i < CMAP_K then Check(b[i].chain) else Check([])
  }

  /* The reader's next read, at the moment 's'. */
  function Read(s: Snapshot, b1: nat, b2: nat, h: Hash, r: Reader): Reader
    requires b1 < |s.table| == |s.counters| && b2 < |s.table|
  {
    var c1, c2 := s.counters[b1] % WRAP, s.counters[b2] % WRAP;
    match r
    case Begin => if c1 % 2 == 1 then Begin else First(c1, Slots(0))
    case First(c, Check(chain)) => if c1 != c then Begin else if chain != [] then Done(chain) else Begin2(c)
    case First(c, phase) => First(c, Scan(s.table[b1], h, phase))
    case Begin2(c) => if c2 % 2 == 1 then Begin2(c) else Second(c, c2, Slots(0))
    case Second(c, d, Check(chain)) => if c2 != d then Begin2(c) else if chain != [] then Done(chain) else Again(c)
    case Second(c, d, phase) => Second(c, d, Scan(s.table[b2], h, phase))
    case Again(c) => if c1 != c then Begin else Done([])
    case Done(_) => r
  }

  /* The moments of the reader's reads. */
  ghost predicate Schedule(hist: seq<Snapshot>, at: seq<nat>)
  {
    && (forall k :: 0 <= k < |at| ==> at[k] < |hist|)
    && (forall k, l :: 0 <= k < l < |at| ==> at[k] <= at[l])
  }

  function After(g: Geometry, hist: seq<Snapshot>, h: Hash, at: seq<nat>): Reader
    requires Sized(g, hist) && forall k :: 0 <= k < |at| ==> at[k] < |hist|
  {
    if at == [] then Begin
    else
      var n := |at| - 1;
      Read(hist[at[n]], g.First(h), g.Second(h), h, After(g, hist, h, at[..n]))
  }

  predicate Sized(g: Geometry, hist: seq<Snapshot>)
  {
    forall k :: 0 <= k < |hist| ==> |hist[k].table| == |hist[k].counters| == g.size
  }

  lemma HistorySized(g: Geometry, hist: seq<Snapshot>)
    requires HistoryOk(g, hist)
    ensures Sized(g, hist)
  {
    hide Visible, Step;
    forall k | 0 <= k < |hist| ensures |hist[k].table| == |hist[k].counters| == g.size {
      assert SnapshotOk(g, hist[k]);
      VisibleSize(g, Committed(hist[k]));
    }
  }

  lemma VisibleSize(g: Geometry, t: Table)
    requires Visible(g, t)
    ensures |t| == g.size
  {
  }

  // ---------------------------------------------------------------- stable buckets

  function CounterOf(hist: seq<Snapshot>, k: nat, b: nat): nat
    requires k < |hist| && b < |hist[k].counters|
  {
    hist[k].counters[b]
  }

  predicate SameHashes(a: Bucket, b: Bucket)
  {
    forall i :: 0 <= i < CMAP_K ==> a[i].hash == b[i].hash
  }

  lemma OneStep(s: Snapshot, s': Snapshot, b: nat)
    requires Step(s, s') && b < |s.table|
    ensures |s'.table| == |s.table| == |s.counters| == |s'.counters|
    ensures s.counters[b] <= s'.counters[b]
    ensures s.counters[b] == s'.counters[b] && s.counters[b] % 2 == 0 ==> SameHashes(s.table[b], s'.table[b])
  {
    var w :| Wrote(s, w, s');
  }

  lemma {:induction false} Monotone(g: Geometry, hist: seq<Snapshot>, b: nat, p: nat, q: nat)
    requires HistoryOk(g, hist) && Sized(g, hist) && p <= q < |hist| && b < g.size
    ensures CounterOf(hist, p, b) <= CounterOf(hist, q, b)
    decreases q - p
  {
    hide SnapshotOk, Step;
    if p < q {
      OneStep(hist[q - 1], hist[q], b);
      Monotone(g, hist, b, p, q - 1);
    }
  }

  /* While an even counter stays the same, so do the bucket's hashes. */
  lemma {:induction false} Stable(g: Geometry, hist: seq<Snapshot>, b: nat, p: nat, q: nat)
    requires HistoryOk(g, hist) && Sized(g, hist) && p <= q < |hist| && b < g.size
    requires CounterOf(hist, p, b) == CounterOf(hist, q, b) && CounterOf(hist, p, b) % 2 == 0
    ensures SameHashes(hist[p].table[b], hist[q].table[b])
    decreases q - p
  {
    hide SnapshotOk, Step;
    if p < q {
      OneStep(hist[q - 1], hist[q], b);
      Monotone(g, hist, b, p, q - 1);
      Stable(g, hist, b, p, q - 1);
    }
  }

  /* Too few changes of the bucket for its counter to wrap around. */
  predicate NoWrapOf(g: Geometry, hist: seq<Snapshot>, b: nat, lo: nat, hi: nat)
    requires Sized(g, hist) && lo <= hi < |hist| && b < g.size
  {
    CounterOf(hist, hi, b) - CounterOf(hist, lo, b) < WRAP
  }

  /* Neither bucket of the hash is changed so often during a lookup. */
  predicate NoWrap(g: Geometry, hist: seq<Snapshot>, h: Hash, lo: nat, hi: nat)
    requires Sized(g, hist) && lo <= hi < |hist|
  {
    NoWrapOf(g, hist, g.First(h), lo, hi) && NoWrapOf(g, hist, g.Second(h), lo, hi)
  }

  /* Equal counter readings mean that the bucket was not changed in between. */
  lemma Unchanged(g: Geometry, hist: seq<Snapshot>, b: nat, lo: nat, hi: nat, p: nat, q: nat)
    requires HistoryOk(g, hist) && Sized(g, hist) && lo <= p <= q <= hi < |hist| && b < g.size && NoWrapOf(g, hist, b, lo, hi)
    requires CounterOf(hist, p, b) % WRAP == CounterOf(hist, q, b) % WRAP
    ensures CounterOf(hist, p, b) == CounterOf(hist, q, b)
    ensures forall r :: p <= r <= q ==> CounterOf(hist, r, b) == CounterOf(hist, p, b)
  {
    hide SnapshotOk, Step;
    Monotone(g, hist, b, lo, p);
    Monotone(g, hist, b, p, q);
    Monotone(g, hist, b, q, hi);
    assert CounterOf(hist, hi, b) - CounterOf(hist, lo, b) < WRAP;
    forall r | p <= r <= q ensures CounterOf(hist, r, b) == CounterOf(hist, p, b) {
      Monotone(g, hist, b, p, r);
      Monotone(g, hist, b, r, q);
    }
  }

  // ---------------------------------------------------------------- what a reader knows

  /* A read of slot 'i' between 'p' and 'q' did, or did not, find the hash. */
  ghost predicate HashSeen(hist: seq<Snapshot>, b: nat, i: nat, h: Hash, p: nat, q: nat, equal: bool)
  {
    i < CMAP_K && exists k :: p <= k <= q && HashAt(hist, k, b, i, h) == equal && InHistory(hist, k, b)
  }

  predicate InHistory(hist: seq<Snapshot>, k: nat, b: nat)
  {
    k < |hist| && b < |hist[k].table|
  }

  predicate HashAt(hist: seq<Snapshot>, k: nat, b: nat, i: nat, h: Hash)
  {
    InHistory(hist, k, b) && i < CMAP_K && hist[k].table[b][i].hash == h
  }

  ghost predicate NotBefore(hist: seq<Snapshot>, b: nat, i: nat, h: Hash, p: nat, q: nat)
  {
    forall j :: 0 <= j < i ==> HashSeen(hist, b, j, h, p, q, false)
  }

  ghost predicate ChainSeen(hist: seq<Snapshot>, b: nat, i: nat, p: nat, q: nat, chain: seq<Node>)
  {
    i < CMAP_K && exists k :: p <= k <= q && ChainAt(hist, k, b, i, chain)
  }

  predicate ChainAt(hist: seq<Snapshot>, k: nat, b: nat, i: nat, chain: seq<Node>)
  {
    InHistory(hist, k, b) && i < CMAP_K && hist[k].table[b][i].chain == chain
  }

  /* The reads from 'p' to 'q' that led to a phase. */
  ghost predicate Scanned(hist: seq<Snapshot>, b: nat, h: Hash, p: nat, q: nat, phase: Phase)
  {
    match phase
    case Slots(i) => i < CMAP_K && NotBefore(hist, b, i, h, p, q)
    case ChainOf(i) => NotBefore(hist, b, i, h, p, q) && HashSeen(hist, b, i, h, p, q, true)
    case Check(chain) =>
      || (chain == [] && NotBefore(hist, b, CMAP_K, h, p, q))
      || (exists i: nat :: NotBefore(hist, b, i, h, p, q) && HashSeen(hist, b, i, h, p, q, true) && ChainSeen(hist, b, i, p, q, chain))
  }

  lemma ScanMore(hist: seq<Snapshot>, b: nat, h: Hash, p: nat, q: nat, q': nat, phase: Phase)
    requires Scanned(hist, b, h, p, q, phase) && !phase.Check? && p <= q <= q' && InHistory(hist, q', b)
    ensures Scanned(hist, b, h, p, q', Scan(hist[q'].table[b], h, phase))
  {
    var bucket := hist[q'].table[b];
    forall j | HashSeen(hist, b, j, h, p, q, false) ensures HashSeen(hist, b, j, h, p, q', false) {
    }
    match phase
    case Slots(i) =>
      NotBeforeLater(hist, b, i, h, p, q, q');
      if bucket[i].hash == h {
        assert HashAt(hist, q', b, i, h);
      } else {
        assert !HashAt(hist, q', b, i, h);
        assert HashSeen(hist, b, i, h, p, q', false);
      }
    case ChainOf(i) =>
      NotBeforeLater(hist, b, i, h, p, q, q');
      var k :| p <= k <= q && HashAt(hist, k, b, i, h) == true && InHistory(hist, k, b);
      assert HashSeen(hist, b, i, h, p, q', true);
      assert ChainAt(hist, q', b, i, bucket[i].chain);
      assert ChainSeen(hist, b, i, p, q', bucket[i].chain);
  }

  lemma NotBeforeLater(hist: seq<Snapshot>, b: nat, i: nat, h: Hash, p: nat, q: nat, q': nat)
    requires NotBefore(hist, b, i, h, p, q) && q <= q'
    ensures NotBefore(hist, b, i, h, p, q')
  {
    forall j | 0 <= j < i ensures HashSeen(hist, b, j, h, p, q', false) {
      assert HashSeen(hist, b, j, h, p, q, false);
      var k :| p <= k <= q && HashAt(hist, k, b, j, h) == false && InHistory(hist, k, b);
    }
  }

  /* At the moment 'k' the bucket was not being changed, had the given counter, and held 'chain'. */
  ghost predicate Held(hist: seq<Snapshot>, b: nat, h: Hash, k: nat, c: nat, chain: seq<Node>)
  {
    && InHistory(hist, k, b) && b < |hist[k].counters| && CounterOf(hist, k, b) % WRAP == c && c % 2 == 0
    && ChainIn(hist[k].table[b], h) == chain
    && Committed(hist[k])[b] == hist[k].table[b]
  }

  lemma EvenIsCommitted(g: Geometry, hist: seq<Snapshot>, b: nat, k: nat)
    requires HistoryOk(g, hist) && Sized(g, hist) && k < |hist| && b < g.size && CounterOf(hist, k, b) % 2 == 0
    ensures Committed(hist[k])[b] == hist[k].table[b]
  {
    hide Visible, Step;
    assert SnapshotOk(g, hist[k]);
  }

  lemma HashesSame(a: Bucket, b: Bucket, h: Hash)
    requires SameHashes(a, b)
    ensures SlotOf(a, h) == SlotOf(b, h)
  {
  }

  /* A read of a bucket between two equal readings of its counter gives what the bucket held at
     some moment in between. */
  lemma ReadHeld(g: Geometry, hist: seq<Snapshot>, b: nat, h: Hash, lo: nat, hi: nat, p: nat, q: nat, chain: seq<Node>)
    returns (k: nat)
    requires HistoryOk(g, hist) && Sized(g, hist) && lo <= p <= q <= hi < |hist| && b < g.size && NoWrapOf(g, hist, b, lo, hi)
    requires CounterOf(hist, p, b) % WRAP == CounterOf(hist, q, b) % WRAP && CounterOf(hist, p, b) % 2 == 0
    requires Scanned(hist, b, h, p, q, Check(chain))
    ensures p <= k <= q && Held(hist, b, h, k, CounterOf(hist, p, b) % WRAP, chain)
  {
    hide SnapshotOk, Step, HistoryOk, NoWrapOf, SlotOf, Scanned, SameHashes, Held, Committed;
    Unchanged(g, hist, b, lo, hi, p, q);
    forall r | p <= r <= q ensures StableAt(hist, b, p, r) {
      Stable(g, hist, b, p, r);
      EvenIsCommitted(g, hist, b, r);
    }
    k := ReadStable(hist, b, h, p, q, chain);
  }

  ghost predicate StableAt(hist: seq<Snapshot>, b: nat, p: nat, r: nat)
  {
    && InHistory(hist, p, b) && InHistory(hist, r, b) && b < |hist[p].counters| && b < |hist[r].counters|
    && CounterOf(hist, p, b) == CounterOf(hist, r, b)
    && SameHashes(hist[p].table[b], hist[r].table[b]) && Committed(hist[r])[b] == hist[r].table[b]
  }

  lemma ReadStable(hist: seq<Snapshot>, b: nat, h: Hash, p: nat, q: nat, chain: seq<Node>) returns (k: nat)
    requires p <= q < |hist| && StableAt(hist, b, p, p) && forall r :: p <= r <= q ==> StableAt(hist, b, p, r)
    requires Scanned(hist, b, h, p, q, Check(chain)) && CounterOf(hist, p, b) % 2 == 0
    ensures p <= k <= q && Held(hist, b, h, k, CounterOf(hist, p, b) % WRAP, chain)
  {
    hide SlotOf, SameHashes, NotBefore, HashSeen, Committed, ChainSeen;
    if chain == [] && NotBefore(hist, b, CMAP_K, h, p, q) {
      AllDiffer(hist, b, h, p, q, CMAP_K);
      k := p;
    } else {
      var i: nat :| NotBefore(hist, b, i, h, p, q) && HashSeen(hist, b, i, h, p, q, true) && ChainSeen(hist, b, i, p, q, chain);
      HashFound(hist, b, h, p, q, i);
      AllDiffer(hist, b, h, p, q, i);
      k := ChainFound(hist, b, p, q, i, chain);
      assert StableAt(hist, b, p, k);
      HashesSame(hist[p].table[b], hist[k].table[b], h);
    }
  }

  lemma HashFound(hist: seq<Snapshot>, b: nat, h: Hash, p: nat, q: nat, i: nat)
    requires HashSeen(hist, b, i, h, p, q, true) && p <= q < |hist| && forall r :: p <= r <= q ==> StableAt(hist, b, p, r)
    ensures i < CMAP_K && HashAt(hist, p, b, i, h)
  {
    var m :| p <= m <= q && HashAt(hist, m, b, i, h) == true;
    assert StableAt(hist, b, p, m);
  }

  lemma ChainFound(hist: seq<Snapshot>, b: nat, p: nat, q: nat, i: nat, chain: seq<Node>) returns (k: nat)
    requires ChainSeen(hist, b, i, p, q, chain)
    ensures p <= k <= q && ChainAt(hist, k, b, i, chain)
  {
    k :| p <= k <= q && ChainAt(hist, k, b, i, chain);
  }

  lemma AllDiffer(hist: seq<Snapshot>, b: nat, h: Hash, p: nat, q: nat, i: nat)
    requires NotBefore(hist, b, i, h, p, q) && i <= CMAP_K && p <= q < |hist|
    requires InHistory(hist, p, b) && forall r :: p <= r <= q ==> StableAt(hist, b, p, r)
    ensures forall j :: 0 <= j < i ==> hist[p].table[b][j].hash != h
    ensures i < CMAP_K && hist[p].table[b][i].hash == h ==> SlotOf(hist[p].table[b], h) == i
    ensures i == CMAP_K ==> SlotOf(hist[p].table[b], h) == -1
  {
    forall j | 0 <= j < i ensures hist[p].table[b][j].hash != h {
      assert HashSeen(hist, b, j, h, p, q, false);
      var k :| p <= k <= q && HashAt(hist, k, b, j, h) == false && InHistory(hist, k, b);
      assert StableAt(hist, b, p, k);
    }
  }

  // ---------------------------------------------------------------- linearizability

  /* The first bucket did not hold 'h' at the moment 'q1' but had the counter that the reader
     remembers. */
  ghost predicate Missed(g: Geometry, hist: seq<Snapshot>, h: Hash, lo: nat, hi: nat, c1: nat, q1: nat)
  {
    lo <= q1 <= hi && Held(hist, g.First(h), h, q1, c1, [])
  }

  /* The reads of a bucket since its counter was read at 'p'. */
  ghost predicate Reading(hist: seq<Snapshot>, b: nat, h: Hash, p: nat, hi: nat, c: nat, phase: Phase)
  {
    && p <= hi && InHistory(hist, p, b) && b < |hist[p].counters|
    && CounterOf(hist, p, b) % WRAP == c && c % 2 == 0 && Scanned(hist, b, h, p, hi, phase)
  }

  ghost predicate FoundAt(g: Geometry, hist: seq<Snapshot>, h: Hash, k: nat, chain: seq<Node>)
  {
    k < |hist| && |hist[k].table| == g.size && Find(g, Committed(hist[k]), h) == chain
  }

  /* What a reader knows that started at the moment 'lo' and made its last read at 'hi'. */
  ghost predicate Knows(g: Geometry, hist: seq<Snapshot>, h: Hash, lo: nat, hi: nat, r: Reader)
  {
    match r
    case Begin => true
    case First(c1, phase) => exists p :: lo <= p && Reading(hist, g.First(h), h, p, hi, c1, phase)
    case Begin2(c1) => exists q1 :: Missed(g, hist, h, lo, hi, c1, q1)
    case Second(c1, c2, phase) =>
      exists q1, p :: Missed(g, hist, h, lo, hi, c1, q1) && q1 <= p && Reading(hist, g.Second(h), h, p, hi, c2, phase)
    case Again(c1) =>
      exists q1: nat, q2: nat, c2: nat :: Missed(g, hist, h, lo, hi, c1, q1) && q1 <= q2 <= hi && Held(hist, g.Second(h), h, q2, c2, [])
    case Done(chain) => exists k :: lo <= k <= hi && FoundAt(g, hist, h, k, chain)
  }

  ghost predicate Setting(g: Geometry, hist: seq<Snapshot>, h: Hash, lo: nat, hi: nat, hi': nat, end: nat)
  {
    HistoryOk(g, hist) && Sized(g, hist) && lo <= hi <= hi' <= end < |hist| && NoWrap(g, hist, h, lo, end)
  }

  lemma AtSize(g: Geometry, hist: seq<Snapshot>, k: nat)
    requires Sized(g, hist) && k < |hist|
    ensures |hist[k].table| == |hist[k].counters| == g.size
  {
  }

  /* Reading a counter. */
  lemma BeginReading(g: Geometry, hist: seq<Snapshot>, b: nat, h: Hash, hi: nat)
    requires Sized(g, hist) && hi < |hist| && b < g.size && CounterOf(hist, hi, b) % WRAP % 2 == 0
    ensures Reading(hist, b, h, hi, hi, CounterOf(hist, hi, b) % WRAP, Slots(0))
  {
  }

  lemma EvenMod(c: nat)
    ensures c % WRAP % 2 == c % 2
  {
  }

  lemma ReadingMore(g: Geometry, hist: seq<Snapshot>, b: nat, h: Hash, p: nat, hi: nat, hi': nat, c: nat, phase: Phase)
    requires Sized(g, hist) && hi <= hi' < |hist| && b < g.size && Reading(hist, b, h, p, hi, c, phase) && !phase.Check?
    ensures Reading(hist, b, h, p, hi', c, Scan(hist[hi'].table[b], h, phase))
  {
    ScanMore(hist, b, h, p, hi, hi', phase);
  }

  lemma CheckLater(hist: seq<Snapshot>, b: nat, h: Hash, p: nat, hi: nat, hi': nat, chain: seq<Node>)
    requires Scanned(hist, b, h, p, hi, Check(chain)) && hi <= hi'
    ensures Scanned(hist, b, h, p, hi', Check(chain))
  {
    if chain == [] && NotBefore(hist, b, CMAP_K, h, p, hi) {
      NotBeforeLater(hist, b, CMAP_K, h, p, hi, hi');
    } else {
      var i: nat :| NotBefore(hist, b, i, h, p, hi) && HashSeen(hist, b, i, h, p, hi, true) && ChainSeen(hist, b, i, p, hi, chain);
      NotBeforeLater(hist, b, i, h, p, hi, hi');
      var k :| p <= k <= hi && HashAt(hist, k, b, i, h) == true && InHistory(hist, k, b);
      assert HashSeen(hist, b, i, h, p, hi', true);
      var m := ChainFound(hist, b, p, hi, i, chain);
      assert ChainSeen(hist, b, i, p, hi', chain);
    }
  }

  /* The counter is unchanged after a bucket was read. */
  lemma ReadingDone(g: Geometry, hist: seq<Snapshot>, b: nat, h: Hash, lo: nat, p: nat, hi: nat, hi': nat, end: nat, c: nat,
                    chain: seq<Node>) returns (k: nat)
    requires Setting(g, hist, h, lo, hi, hi', end) && lo <= p && (b == g.First(h) || b == g.Second(h)) && Reading(hist, b, h, p, hi, c, Check(chain))
    requires CounterOf(hist, hi', b) % WRAP == c
    ensures p <= k <= hi' && Held(hist, b, h, k, c, chain)
  {
    hide HistoryOk, Sized, NoWrapOf, Scanned, Held, Geometry.First, Geometry.Second;
    EvenMod(CounterOf(hist, p, b));
    CheckLater(hist, b, h, p, hi, hi', chain);
    k := ReadHeld(g, hist, b, h, lo, end, p, hi', chain);
  }

  lemma HeldFirst(g: Geometry, hist: seq<Snapshot>, h: Hash, k: nat, c: nat, chain: seq<Node>)
    requires Sized(g, hist) && Held(hist, g.First(h), h, k, c, chain) && chain != []
    ensures FoundAt(g, hist, h, k, chain)
  {
  }

  lemma HeldSecond(g: Geometry, hist: seq<Snapshot>, h: Hash, k: nat, c: nat, chain: seq<Node>)
    requires HistoryOk(g, hist) && Sized(g, hist) && Held(hist, g.Second(h), h, k, c, chain) && chain != []
    ensures FoundAt(g, hist, h, k, chain)
  {
    hide SlotOf, ChainIn, Step;
    assert SnapshotOk(g, hist[k]);
    var t := Committed(hist[k]);
    assert Agreeing(t[g.First(h)], t[g.Second(h)], h);
  }

  /* If neither bucket held the hash, and the first one was unchanged all the while, then there
     was a moment when the table did not hold it. */
  lemma HeldNeither(g: Geometry, hist: seq<Snapshot>, h: Hash, lo: nat, q1: nat, q2: nat, hi: nat, end: nat, c1: nat, c2: nat)
    returns (k: nat)
    requires Setting(g, hist, h, lo, hi, hi, end) && lo <= q1 <= q2 <= hi
    requires Held(hist, g.First(h), h, q1, c1, []) && Held(hist, g.Second(h), h, q2, c2, [])
    requires CounterOf(hist, hi, g.First(h)) % WRAP == c1
    ensures lo <= k <= hi && FoundAt(g, hist, h, k, [])
  {
    hide Step, NoWrapOf, SlotOf;
    var b := g.First(h);
    Unchanged(g, hist, b, lo, end, q1, hi);
    EvenMod(CounterOf(hist, q1, b));
    Stable(g, hist, b, q1, q2);
    EvenIsCommitted(g, hist, b, q2);
    HashesSame(hist[q1].table[b], hist[q2].table[b], h);
    assert SnapshotOk(g, hist[q1]);
    var t := Committed(hist[q1]);
    assert Agreeing(t[b], t[g.Second(h)], h);
    k := if Find(g, t, h) == [] then q1 else q2;
  }

  /* One read keeps what a reader knows. */
  lemma ReadKnows(g: Geometry, hist: seq<Snapshot>, h: Hash, lo: nat, hi: nat, hi': nat, end: nat, r: Reader)
    requires Setting(g, hist, h, lo, hi, hi', end) && Knows(g, hist, h, lo, hi, r)
    ensures |hist[hi'].table| == |hist[hi'].counters| == g.size
    ensures Knows(g, hist, h, lo, hi', Read(hist[hi'], g.First(h), g.Second(h), h, r))
  {
    hide HistoryOk, Sized, NoWrap, Held, Scan, Scanned, Reading, FoundAt, Geometry.First, Geometry.Second;
    AtSize(g, hist, hi');
    var b1, b2, s := g.First(h), g.Second(h), hist[hi'];
    match r
    case Begin =>
      if s.counters[b1] % WRAP % 2 == 0 { BeginReading(g, hist, b1, h, hi'); }
    case First(c1, phase) =>
      var p :| lo <= p && Reading(hist, b1, h, p, hi, c1, phase);
      if phase.Check? {
        if s.counters[b1] % WRAP == c1 {
          var k := ReadingDone(g, hist, b1, h, lo, p, hi, hi', end, c1, phase.chain);
          ReadingFrom(hist, b1, h, p, hi, c1, phase);
          if phase.chain != [] {
            HeldFirst(g, hist, h, k, c1, phase.chain);
          } else {
            assert Missed(g, hist, h, lo, hi', c1, k);
          }
        }
      } else {
        ReadingMore(g, hist, b1, h, p, hi, hi', c1, phase);
      }
    case Begin2(c1) =>
      var q1 :| Missed(g, hist, h, lo, hi, c1, q1);
      assert Missed(g, hist, h, lo, hi', c1, q1);
      if s.counters[b2] % WRAP % 2 == 0 { BeginReading(g, hist, b2, h, hi'); }
    case Second(c1, c2, phase) =>
      var q1, p :| Missed(g, hist, h, lo, hi, c1, q1) && q1 <= p && Reading(hist, b2, h, p, hi, c2, phase);
      assert Missed(g, hist, h, lo, hi', c1, q1);
      if phase.Check? {
        if s.counters[b2] % WRAP == c2 {
          var k := ReadingDone(g, hist, b2, h, lo, p, hi, hi', end, c2, phase.chain);
          if phase.chain != [] {
            HeldSecond(g, hist, h, k, c2, phase.chain);
          }
        }
      } else {
        ReadingMore(g, hist, b2, h, p, hi, hi', c2, phase);
      }
    case Again(c1) =>
      var q1: nat, q2: nat, c2: nat :| Missed(g, hist, h, lo, hi, c1, q1) && q1 <= q2 <= hi && Held(hist, b2, h, q2, c2, []);
      if s.counters[b1] % WRAP == c1 {
        var k := HeldNeither(g, hist, h, lo, q1, q2, hi', end, c1, c2);
      }
    case Done(chain) =>
  }

  lemma ReadingFrom(hist: seq<Snapshot>, b: nat, h: Hash, p: nat, hi: nat, c: nat, phase: Phase)
    requires Reading(hist, b, h, p, hi, c, phase)
    ensures p <= hi
  {
  }

  lemma {:induction false} AfterKnows(g: Geometry, hist: seq<Snapshot>, h: Hash, at: seq<nat>, end: nat)
    requires HistoryOk(g, hist) && Sized(g, hist) && Schedule(hist, at) && at != []
    requires at[|at| - 1] <= end < |hist| && NoWrap(g, hist, h, at[0], end)
    ensures Knows(g, hist, h, at[0], at[|at| - 1], After(g, hist, h, at))
  {
    hide HistoryOk, Sized, NoWrap, Knows;
    var n := |at| - 1;
    if n == 0 {
      KnowsNothing(g, hist, h, at[0]);
      assert at[..0] == [];
      ReadKnows(g, hist, h, at[0], at[0], at[0], end, Begin);
    } else {
      AfterKnows(g, hist, h, at[..n], end);
      ReadKnows(g, hist, h, at[0], at[n - 1], at[n], end, After(g, hist, h, at[..n]));
    }
  }

  lemma KnowsNothing(g: Geometry, hist: seq<Snapshot>, h: Hash, lo: nat)
    ensures Knows(g, hist, h, lo, lo, Begin)
  {
  }

  /* Whatever the interleaving with the writes of a good history (whose states all have the same
     size, by HistorySized), a lookup returns the chain that the table held for the hash at
     some moment during the lookup, or nothing if it held none at some moment. */
  lemma Linearizable(g: Geometry, hist: seq<Snapshot>, h: Hash, at: seq<nat>) returns (k: nat)
    requires HistoryOk(g, hist) && Sized(g, hist) && Schedule(hist, at) && at != []
    requires NoWrap(g, hist, h, at[0], at[|at| - 1])
    requires After(g, hist, h, at).Done?
    ensures at[0] <= k <= at[|at| - 1] && Find(g, Committed(hist[k]), h) == After(g, hist, h, at).chain
  {
    hide HistoryOk, After;
    AfterKnows(g, hist, h, at, at[|at| - 1]);
    k :| at[0] <= k <= at[|at| - 1] && FoundAt(g, hist, h, k, After(g, hist, h, at).chain);
  }

  /* So a hash that stays in the map throughout the lookup is never reported missing. */
  lemma NeverMissed(g: Geometry, hist: seq<Snapshot>, h: Hash, at: seq<nat>)
    requires HistoryOk(g, hist) && Sized(g, hist) && Schedule(hist, at) && at != []
    requires NoWrap(g, hist, h, at[0], at[|at| - 1])
    requires forall k :: at[0] <= k <= at[|at| - 1] ==> Find(g, Committed(hist[k]), h) != []
    ensures After(g, hist, h, at) != Done([])
  {
    hide HistoryOk, After, Find, Committed;
    if After(g, hist, h, at).Done? {
      var k := Linearizable(g, hist, h, at);
    }
  }

  // ---------------------------------------------------------------- lookups end

  /* Neither bucket of the hash is written between 'lo' and 'hi', nor is it being written. */
  ghost predicate Quiet(g: Geometry, hist: seq<Snapshot>, h: Hash, lo: nat, hi: nat)
    requires Sized(g, hist) && lo <= hi < |hist|
  {
    && CounterOf(hist, lo, g.First(h)) % 2 == 0 && CounterOf(hist, lo, g.Second(h)) % 2 == 0
    && forall k :: lo <= k <= hi ==> && SameAt(hist[lo], hist[k], g.First(h)) && SameAt(hist[lo], hist[k], g.Second(h))
  }

  predicate SameAt(s: Snapshot, t: Snapshot, b: nat)
  {
    b < |s.table| == |s.counters| && b < |t.table| == |t.counters| && s.table[b] == t.table[b] && s.counters[b] == t.counters[b]
  }

  /* How many reads a phase of a bucket takes at most. */
  function PhaseReads(phase: Phase): nat
  {
    match phase
    case Slots(i) => if i < CMAP_K then CMAP_K - i + 2 else 2
    case ChainOf(_) => 2
    case Check(_) => 1
  }

  const MAX_READS: nat := 2 * CMAP_K + 7

  /* How many reads are left at most, if nothing is written. */
  function ReadsLeft(r: Reader): nat
  {
    match r
    case Begin => MAX_READS
    case First(_, phase) => PhaseReads(phase) + CMAP_K + 4
    case Begin2(_) => CMAP_K + 4
    case Second(_, _, phase) => PhaseReads(phase) + 1
    case Again(_) => 1
    case Done(_) => 0
  }

  /* What the phase has found in the bucket so far. */
  predicate PhaseOk(b: Bucket, h: Hash, phase: Phase)
  {
    match phase
    case Slots(i) => i < CMAP_K && forall j :: 0 <= j < i ==> b[j].hash != h
    case ChainOf(i) => SlotOf(b, h) == i
    case Check(chain) => chain == ChainIn(b, h)
  }

  /* What the reader has found in the two buckets so far. */
  predicate QuietlyRead(s: Snapshot, b1: nat, b2: nat, h: Hash, r: Reader)
    requires b1 < |s.table| == |s.counters| && b2 < |s.table|
  {
    var c1, c2 := s.counters[b1] % WRAP, s.counters[b2] % WRAP;
    match r
    case Begin => true
    case First(c, phase) => c == c1 && PhaseOk(s.table[b1], h, phase)
    case Begin2(c) => c == c1 && ChainIn(s.table[b1], h) == []
    case Second(c, d, phase) => c == c1 && d == c2 && ChainIn(s.table[b1], h) == [] && PhaseOk(s.table[b2], h, phase)
    case Again(c) => c == c1 && ChainIn(s.table[b1], h) == [] && ChainIn(s.table[b2], h) == []
    case Done(chain) => chain == if ChainIn(s.table[b1], h) != [] then ChainIn(s.table[b1], h) else ChainIn(s.table[b2], h)
  }

  lemma PhaseStep(b: Bucket, h: Hash, phase: Phase)
    requires !phase.Check? && PhaseOk(b, h, phase)
    ensures PhaseOk(b, h, Scan(b, h, phase)) && PhaseReads(Scan(b, h, phase)) < PhaseReads(phase)
  {
    match phase
    case Slots(i) =>
      if b[i].hash == h {
        assert SlotOf(b, h) == i;
      } else if i + 1 == CMAP_K {
        assert SlotOf(b, h) == -1;
      }
    case ChainOf(i) =>
  }

  /* Each read brings the lookup nearer to its end. */
  lemma QuietStep(s: Snapshot, t: Snapshot, b1: nat, b2: nat, h: Hash, r: Reader)
    requires SameAt(s, t, b1) && SameAt(s, t, b2) && s.counters[b1] % 2 == 0 && s.counters[b2] % 2 == 0
    requires QuietlyRead(s, b1, b2, h, r)
    ensures var r' := Read(t, b1, b2, h, r);
            QuietlyRead(s, b1, b2, h, r') && (r.Done? ==> r' == r) && (!r.Done? ==> ReadsLeft(r') < ReadsLeft(r))
  {
    hide ChainIn, SlotOf, Scan, PhaseOk, PhaseReads;
    EvenMod(s.counters[b1]);
    EvenMod(s.counters[b2]);
    match r
    case First(c, phase) =>
      if phase.Check? { Checked(s.table[b1], h, phase); } else { PhaseStep(s.table[b1], h, phase); }
    case Second(c, d, phase) =>
      if phase.Check? { Checked(s.table[b2], h, phase); } else { PhaseStep(s.table[b2], h, phase); }
    case Begin => PhaseStart(s.table[b1], h);
    case Begin2(_) => PhaseStart(s.table[b2], h);
    case _ =>
  }

  lemma Checked(b: Bucket, h: Hash, phase: Phase)
    requires phase.Check? && PhaseOk(b, h, phase)
    ensures phase.chain == ChainIn(b, h) && PhaseReads(phase) == 1
  {
  }

  lemma PhaseStart(b: Bucket, h: Hash)
    ensures PhaseOk(b, h, Slots(0)) && PhaseReads(Slots(0)) == CMAP_K + 2
  {
  }

  lemma {:induction false} QuietAfter(g: Geometry, hist: seq<Snapshot>, h: Hash, at: seq<nat>, hi: nat)
    requires Sized(g, hist) && Schedule(hist, at) && at != [] && at[|at| - 1] <= hi < |hist| && Quiet(g, hist, h, at[0], hi)
    ensures var r := After(g, hist, h, at);
            QuietlyRead(hist[at[0]], g.First(h), g.Second(h), h, r) && (r.Done? || ReadsLeft(r) + |at| <= MAX_READS)
  {
    hide QuietlyRead, Read, ReadsLeft, Geometry.First, Geometry.Second;
    var n := |at| - 1;
    var s, b1, b2 := hist[at[0]], g.First(h), g.Second(h);
    if n == 0 {
      StartsQuietly(s, b1, b2, h);
      assert at[..0] == [];
      QuietStep(s, s, b1, b2, h, Begin);
    } else {
      QuietAfter(g, hist, h, at[..n], hi);
      QuietStep(s, hist[at[n]], b1, b2, h, After(g, hist, h, at[..n]));
    }
  }

  lemma StartsQuietly(s: Snapshot, b1: nat, b2: nat, h: Hash)
    requires b1 < |s.table| == |s.counters| && b2 < |s.table|
    ensures QuietlyRead(s, b1, b2, h, Begin) && ReadsLeft(Begin) == MAX_READS
  {
  }

  /* A lookup during which neither bucket of the hash is written ends after so many reads, and
     returns what the table holds. */
  lemma QuietLookup(g: Geometry, hist: seq<Snapshot>, h: Hash, at: seq<nat>)
    requires HistoryOk(g, hist) && Sized(g, hist) && Schedule(hist, at) && |at| >= MAX_READS
    requires Quiet(g, hist, h, at[0], at[|at| - 1])
    ensures After(g, hist, h, at) == Done(Find(g, Committed(hist[at[0]]), h))
  {
    hide HistoryOk, After, ChainIn, Committed, Geometry.First, Geometry.Second;
    QuietAfter(g, hist, h, at, at[|at| - 1]);
    EvenIsCommitted(g, hist, g.First(h), at[0]);
    EvenIsCommitted(g, hist, g.Second(h), at[0]);
  }

  /* The reader is done with the first bucket. */
  predicate PastFirst(r: Reader) { r.Begin2? || r.Second? || r.Again? || r.Done? }

  /* The counter of the first bucket is 'c' at every read. */
  ghost predicate FirstIs(g: Geometry, hist: seq<Snapshot>, h: Hash, at: seq<nat>, c: nat)
    requires Sized(g, hist) && Schedule(hist, at)
  {
    forall k :: 0 <= k < |at| ==> CounterOf(hist, at[k], g.First(h)) % WRAP == c
  }

  lemma FirstCounter(g: Geometry, hist: seq<Snapshot>, h: Hash, at: seq<nat>, c: nat)
    requires Sized(g, hist) && Schedule(hist, at) && FirstIs(g, hist, h, at, c)
    ensures var r := After(g, hist, h, at);
            (r.First? || r.Begin2? || r.Second? || r.Again? ==> r.c1 == c)
  {
    hide Scan;
    if at != [] {
      FirstCounter(g, hist, h, at[..|at| - 1], c);
    }
  }

  /* Writes to the second bucket alone never make the lookup read the first one again. */
  lemma {:induction false} FirstReadOnce(g: Geometry, hist: seq<Snapshot>, h: Hash, at: seq<nat>, n: nat, c: nat)
    requires Sized(g, hist) && Schedule(hist, at) && FirstIs(g, hist, h, at, c) && n <= |at|
    requires PastFirst(After(g, hist, h, at[..n]))
    ensures PastFirst(After(g, hist, h, at))
    decreases |at|
  {
    hide Scan;
    if n == |at| {
      assert at[..n] == at;
    } else {
      var before := at[..|at| - 1];
      assert before[..n] == at[..n];
      FirstReadOnce(g, hist, h, before, n, c);
      FirstCounter(g, hist, h, before, c);
    }
  }
}
