/** The breadth-first search of cmap_insert_bfs() for a path along which entries can be moved.
    No set of visited buckets is kept, and both the queue and the depth are limited, and yet it
    finds a shortest path, which visits no bucket twice, whenever MAX_DEPTH hops are enough. */
module CuckooSearch {

  import opened CuckooTables

  const MAX_DEPTH: nat := 4
  const MAX_QUEUE: nat := 500

  /* A path that begins in one bucket and hops to another one, by the given slots. */
  datatype Path = Path(start: nat, end: nat, slots: seq<nat>)

  /* The other bucket that an entry could occupy. */
  function Next(g: Geometry, t: Table, b: nat, i: nat): (c: nat)
    requires |t| == g.size && b < |t| && i < CMAP_K
    ensures c < |t|
  {
    g.Other(b, t[b][i].hash)
  }

  predicate SlotsOk(slots: seq<nat>)
  {
    forall k :: 0 <= k < |slots| ==> slots[k] < CMAP_K
  }

  /* The sequence of buckets of a path. */
  function Trail(g: Geometry, t: Table, start: nat, slots: seq<nat>): (bs: seq<nat>)
    requires |t| == g.size && start < |t| && SlotsOk(slots)
    ensures |bs| == |slots| + 1 && forall k :: 0 <= k < |bs| ==> bs[k] < |t|
    ensures bs[0] == start
  {
    if slots == [] then [start]
    else
      var n := |slots| - 1;
      var bs := Trail(g, t, start, slots[..n]);
      bs + [Next(g, t, bs[n], slots[n])]
  }

  lemma {:induction false} TrailStep(g: Geometry, t: Table, start: nat, slots: seq<nat>, k: nat)
    requires |t| == g.size && start < |t| && SlotsOk(slots) && k < |slots|
    ensures var bs := Trail(g, t, start, slots); bs[k + 1] == Next(g, t, bs[k], slots[k])
  {
    if k < |slots| - 1 {
      TrailStep(g, t, start, slots[..|slots| - 1], k);
    }
  }

  ghost predicate Distinct(bs: seq<nat>)
  {
    forall k, l :: 0 <= k < l < |bs| ==> bs[k] != bs[l]
  }

  ghost predicate AllFull(t: Table, bs: seq<nat>)
  {
    forall k :: 0 <= k < |bs| ==> bs[k] < |t| && Full(t[bs[k]])
  }

  ghost predicate PathOk(g: Geometry, t: Table, p: Path)
    requires |t| == g.size
  {
    && p.start < |t| && SlotsOk(p.slots) && |p.slots| <= MAX_DEPTH
    && p.end == Trail(g, t, p.start, p.slots)[|p.slots|]
    && AllFull(t, Trail(g, t, p.start, p.slots))
  }

  // ---------------------------------------------------------------- the queue

  /* From which entry, and via which slot, an entry of the queue came; -1 for a starting point. */
  datatype Origin = Origin(parent: int, slot: int)

  predicate Before(a: Origin, b: Origin)
  {
    a.parent < b.parent || (a.parent == b.parent && a.slot < b.slot)
  }

  ghost predicate Child(g: Geometry, t: Table, queue: seq<Path>, c: nat, o: Origin)
    requires |t| == g.size && c < |queue|
  {
    && 0 <= o.parent < c && 0 <= o.slot < CMAP_K
    && var p := queue[o.parent];
       p.end < |t| && queue[c] == Path(p.start, Next(g, t, p.end, o.slot), p.slots + [o.slot])
  }

  ghost predicate EntryOk(g: Geometry, t: Table, queue: seq<Path>, c: nat, o: Origin)
    requires |t| == g.size && c < |queue|
  {
    && PathOk(g, t, queue[c])
    && (if o.parent < 0 then o.parent == -1 && 0 <= o.slot < 2 && queue[c].slots == [] else Child(g, t, queue, c, o))
  }

  /* The queue holds paths in the order of their origins, so the shorter ones come first. */
  ghost predicate QueueOk(g: Geometry, t: Table, queue: seq<Path>, from: seq<Origin>)
    requires |t| == g.size
  {
    && |queue| == |from| <= MAX_QUEUE
    && (forall c :: 0 <= c < |queue| ==> EntryOk(g, t, queue, c, from[c]))
    && (forall c, d :: 0 <= c < d < |queue| ==> Before(from[c], from[d]))
    && (forall c, d :: 0 <= c < d < |queue| ==> |queue[c].slots| <= |queue[d].slots|)
    && (forall c, d :: 0 <= c < d < |queue| && from[d].parent < 0 ==> queue[c].end != queue[d].end)
  }

  /* Slot 's' of entry 'q' led nowhere new, or its path was put into the queue, or could not be
     because of a limit. */
  ghost predicate Tried(g: Geometry, t: Table, queue: seq<Path>, from: seq<Origin>, q: nat, s: nat)
    requires |t| == g.size && q < |queue| == |from| && s < CMAP_K
  {
    && queue[q].end < |t|
    && var next := Next(g, t, queue[q].end, s);
       || next == queue[q].end
       || (&& Full(t[next])
           && (|| |queue[q].slots| >= MAX_DEPTH
               || (exists c :: 0 <= c < |queue| && from[c] == Origin(q, s))
               || (|queue| >= MAX_QUEUE && forall c :: 0 <= c < |queue| ==> Before(from[c], Origin(q, s)))))
  }

  /* The state of the search at slot 'i' of entry 'tail'. */
  ghost predicate Searching(g: Geometry, t: Table, queue: seq<Path>, from: seq<Origin>, tail: nat, i: nat)
    requires |t| == g.size
  {
    && QueueOk(g, t, queue, from) && tail <= |queue|
    && (forall c :: 0 <= c < |queue| ==> Before(from[c], Origin(tail, i)))
    && (forall q, s :: 0 <= q < |queue| && 0 <= s < CMAP_K && Before(Origin(q, s), Origin(tail, i))
                       ==> Tried(g, t, queue, from, q, s))
  }

  // ---------------------------------------------------------------- no loops

  /* No entry before 'c' ends in the same bucket. */
  ghost predicate EndsFirst(queue: seq<Path>, c: nat)
    requires c < |queue|
  {
    forall q :: 0 <= q < c ==> queue[q].end != queue[c].end
  }

  /* If an earlier entry ended in the bucket of the current entry, the search would have ended
     there. */
  lemma CurrentEndsFirst(g: Geometry, t: Table, queue: seq<Path>, from: seq<Origin>, tail: nat, i: nat)
    requires |t| == g.size && Searching(g, t, queue, from, tail, i) && tail < |queue| && i < CMAP_K
    requires queue[tail].end < |t| && var next := Next(g, t, queue[tail].end, i); next != queue[tail].end && !Full(t[next])
    ensures EndsFirst(queue, tail)
  {
    hide Full, Next, PathOk, Child;
    forall q | 0 <= q < tail ensures queue[q].end != queue[tail].end {
      assert EntryOk(g, t, queue, q, from[q]);
      PathInTable(g, t, queue[q]);
      assert Before(Origin(q, i), Origin(tail, i));
      assert Tried(g, t, queue, from, q, i);
    }
  }

  lemma PathInTable(g: Geometry, t: Table, p: Path)
    requires |t| == g.size && PathOk(g, t, p)
    ensures p.end < |t| && Full(t[p.end])
  {
  }

  /* And if an earlier entry ended in the bucket of the parent of 'd', then a path to the bucket
     of 'd' would have been put into the queue before 'd'. */
  lemma ParentEndsFirst(g: Geometry, t: Table, queue: seq<Path>, from: seq<Origin>, tail: nat, i: nat, d: nat)
    requires |t| == g.size && Searching(g, t, queue, from, tail, i)
    requires d < |queue| && d <= tail && from[d].parent >= 0 && EndsFirst(queue, d)
    ensures from[d].parent < d && EndsFirst(queue, from[d].parent)
  {
    hide Full, Next, PathOk;
    assert EntryOk(g, t, queue, d, from[d]);
    var p, s := from[d].parent, from[d].slot;
    forall q | 0 <= q < p ensures queue[q].end != queue[p].end {
      if queue[q].end == queue[p].end {
        assert EntryOk(g, t, queue, q, from[q]) && EntryOk(g, t, queue, p, from[p]);
        PathInTable(g, t, queue[q]);
        DepthOk(g, t, queue[d]);
        assert Before(Origin(q, s), Origin(tail, i));
        assert Tried(g, t, queue, from, q, s);
        NextDiffers(g, t, queue, from, d);
        assert |queue[q].slots| <= |queue[p].slots| < MAX_DEPTH;
        assert Before(Origin(q, s), from[d]);
        if c :| 0 <= c < |queue| && from[c] == Origin(q, s) {
          EarlierChild(g, t, queue, from, c, d);
        }
      }
    }
  }

  lemma DepthOk(g: Geometry, t: Table, p: Path)
    requires |t| == g.size && PathOk(g, t, p)
    ensures |p.slots| <= MAX_DEPTH
  {
  }

  lemma NextDiffers(g: Geometry, t: Table, queue: seq<Path>, from: seq<Origin>, d: nat)
    requires |t| == g.size && QueueOk(g, t, queue, from) && d < |queue| && from[d].parent >= 0 && EndsFirst(queue, d)
    ensures queue[d].end != queue[from[d].parent].end
  {
    assert EntryOk(g, t, queue, d, from[d]);
  }

  /* Of two children via slots to the same bucket, the one with the earlier origin comes first. */
  lemma EarlierChild(g: Geometry, t: Table, queue: seq<Path>, from: seq<Origin>, c: nat, d: nat)
    requires |t| == g.size && QueueOk(g, t, queue, from) && c < |queue| && d < |queue|
    requires from[c].parent >= 0 && from[d].parent >= 0 && Before(from[c], from[d]) && from[c].slot == from[d].slot
    requires var p, q := from[c].parent, from[d].parent; p < |queue| && q < |queue| && queue[p].end == queue[q].end
    ensures c < d && queue[c].end == queue[d].end
  {
    hide PathOk, Next, QueueOk;
    EarlierIndex(g, t, queue, from, c, d);
    QueueEntry(g, t, queue, from, c);
    QueueEntry(g, t, queue, from, d);
  }

  lemma EarlierIndex(g: Geometry, t: Table, queue: seq<Path>, from: seq<Origin>, c: nat, d: nat)
    requires |t| == g.size && QueueOk(g, t, queue, from) && c < |queue| && d < |queue| && Before(from[c], from[d])
    ensures c < d
  {
    hide EntryOk;
    assert !Before(from[d], from[c]);
  }

  lemma QueueEntry(g: Geometry, t: Table, queue: seq<Path>, from: seq<Origin>, c: nat)
    requires |t| == g.size && QueueOk(g, t, queue, from) && c < |queue|
    ensures EntryOk(g, t, queue, c, from[c])
  {
  }

  lemma {:induction false} TrailDistinct(g: Geometry, t: Table, queue: seq<Path>, from: seq<Origin>, tail: nat, i: nat, c: nat)
    requires |t| == g.size && Searching(g, t, queue, from, tail, i)
    requires c < |queue| && c <= tail && EndsFirst(queue, c) && PathOk(g, t, queue[c])
    ensures var bs := Trail(g, t, queue[c].start, queue[c].slots);
            Distinct(bs) && forall k :: 0 <= k < |bs| ==> EndOf(queue, c, bs[k])
    decreases c
  {
    hide Full, Next, Searching, QueueOk, AllFull, EndsFirst, EndOf, Distinct;
    EntryAt(g, t, queue, from, tail, i, c);
    if from[c].parent < 0 {
      LoneTrail(g, t, queue, c);
    } else {
      var p := from[c].parent;
      ParentEndsFirst(g, t, queue, from, tail, i, c);
      EntryAt(g, t, queue, from, tail, i, p);
      TrailDistinct(g, t, queue, from, tail, i, p);
      var ps := Trail(g, t, queue[p].start, queue[p].slots);
      TrailExtend(g, t, queue[p].start, queue[p].slots, from[c].slot);
      AddEnd(queue, p, c, ps);
    }
  }

  lemma LoneTrail(g: Geometry, t: Table, queue: seq<Path>, c: nat)
    requires |t| == g.size && c < |queue| && PathOk(g, t, queue[c]) && queue[c].slots == []
    ensures var bs := Trail(g, t, queue[c].start, queue[c].slots);
            Distinct(bs) && forall k :: 0 <= k < |bs| ==> EndOf(queue, c, bs[k])
  {
  }

  lemma AddEnd(queue: seq<Path>, p: nat, c: nat, ps: seq<nat>)
    requires p < c < |queue| && Distinct(ps) && (forall k :: 0 <= k < |ps| ==> EndOf(queue, p, ps[k])) && EndsFirst(queue, c)
    ensures var bs := ps + [queue[c].end];
            Distinct(bs) && forall k :: 0 <= k < |bs| ==> EndOf(queue, c, bs[k])
  {
    forall k | 0 <= k < |ps| ensures ps[k] != queue[c].end && EndOf(queue, c, ps[k]) {
      assert EndOf(queue, p, ps[k]);
    }
  }

  lemma TrailExtend(g: Geometry, t: Table, start: nat, slots: seq<nat>, s: nat)
    requires |t| == g.size && start < |t| && SlotsOk(slots) && s < CMAP_K
    ensures var bs := Trail(g, t, start, slots);
            SlotsOk(slots + [s]) && Trail(g, t, start, slots + [s]) == bs + [Next(g, t, bs[|slots|], s)]
  {
    assert (slots + [s])[..|slots|] == slots;
  }

  ghost predicate EndOf(queue: seq<Path>, c: nat, b: nat)
    requires c < |queue|
  {
    exists q :: 0 <= q <= c && queue[q].end == b
  }

  lemma EntryAt(g: Geometry, t: Table, queue: seq<Path>, from: seq<Origin>, tail: nat, i: nat, c: nat)
    requires |t| == g.size && Searching(g, t, queue, from, tail, i) && c < |queue|
    ensures |from| == |queue| && EntryOk(g, t, queue, c, from[c])
  {
  }

  // ---------------------------------------------------------------- the search

  /* A route for moving entries: from 'start', the 'hops' lead to a bucket whose slot 'last' is
     unused. */
  ghost predicate RouteOk(g: Geometry, t: Table, start: nat, hops: seq<nat>, last: nat)
    requires |t| == g.size
  {
    && start < |t| && SlotsOk(hops) && 1 <= |hops| <= MAX_DEPTH + 1 && last < CMAP_K
    && var bs := Trail(g, t, start, hops);
       && Distinct(bs) && AllFull(t, bs[..|hops|])
       && Target(t[bs[|hops|]], last) && t[bs[|hops|]][last].chain == []
  }

  lemma Starting(g: Geometry, t: Table, b1: nat, b2: nat, queue: seq<Path>, from: seq<Origin>)
    requires |t| == g.size && b1 < |t| && b2 < |t| && Full(t[b1]) && Full(t[b2])
    requires if b1 == b2 then queue == [Path(b1, b1, [])] && from == [Origin(-1, 0)]
             else queue == [Path(b1, b1, []), Path(b2, b2, [])] && from == [Origin(-1, 0), Origin(-1, 1)]
    ensures Searching(g, t, queue, from, 0, 0)
  {
  }

  lemma TriedMore(g: Geometry, t: Table, queue: seq<Path>, from: seq<Origin>, tail: nat, i: nat, p: Path, q: nat, s: nat)
    requires |t| == g.size && q < |queue| == |from| && s < CMAP_K && queue[q].end < |t|
    requires |queue| < MAX_QUEUE && Tried(g, t, queue, from, q, s)
    ensures Tried(g, t, queue + [p], from + [Origin(tail, i)], q, s)
  {
    if c :| 0 <= c < |queue| && from[c] == Origin(q, s) {
      assert (from + [Origin(tail, i)])[c] == Origin(q, s);
    }
  }

  /* A slot that adds nothing to the queue. */
  lemma Advance(g: Geometry, t: Table, queue: seq<Path>, from: seq<Origin>, tail: nat, i: nat)
    requires |t| == g.size && Searching(g, t, queue, from, tail, i) && tail < |queue| && i < CMAP_K
    requires queue[tail].end < |t|
    requires var next := Next(g, t, queue[tail].end, i);
             next == queue[tail].end || (Full(t[next]) && (|queue[tail].slots| >= MAX_DEPTH || |queue| >= MAX_QUEUE))
    ensures Searching(g, t, queue, from, tail, i + 1)
  {
    hide Full, Next, EntryOk;
    assert Tried(g, t, queue, from, tail, i);
    assert forall q, s :: Before(Origin(q, s), Origin(tail, i + 1)) ==> Before(Origin(q, s), Origin(tail, i)) || (q == tail && s == i);
  }

  /* A slot that puts a longer path into the queue. */
  lemma Enqueue(g: Geometry, t: Table, queue: seq<Path>, from: seq<Origin>, tail: nat, i: nat)
    requires |t| == g.size && Searching(g, t, queue, from, tail, i) && tail < |queue| && i < CMAP_K
    requires queue[tail].end < |t| && |queue[tail].slots| < MAX_DEPTH && |queue| < MAX_QUEUE
    requires var next := Next(g, t, queue[tail].end, i); next != queue[tail].end && Full(t[next])
    ensures var p := queue[tail];
            Searching(g, t, queue + [Path(p.start, Next(g, t, p.end, i), p.slots + [i])], from + [Origin(tail, i)], tail, i + 1)
  {
    hide Full, Next, EntryOk;
    var p := queue[tail];
    var longer := Path(p.start, Next(g, t, p.end, i), p.slots + [i]);
    var queue', from' := queue + [longer], from + [Origin(tail, i)];
    EnqueueOk(g, t, queue, from, tail, i);
    forall q, s | 0 <= q < |queue'| && 0 <= s < CMAP_K && Before(Origin(q, s), Origin(tail, i + 1))
      ensures queue'[q].end < |t| && Tried(g, t, queue', from', q, s)
    {
      EntryInTable(g, t, queue, q, from[q]);
      if q == tail && s == i {
        assert from'[|queue|] == Origin(q, s);
      } else {
        assert Before(Origin(q, s), Origin(tail, i));
        TriedMore(g, t, queue, from, tail, i, longer, q, s);
      }
    }
  }

  lemma EntryInTable(g: Geometry, t: Table, queue: seq<Path>, c: nat, o: Origin)
    requires |t| == g.size && c < |queue| && EntryOk(g, t, queue, c, o)
    ensures queue[c].end < |t|
  {
  }

  lemma EnqueueOk(g: Geometry, t: Table, queue: seq<Path>, from: seq<Origin>, tail: nat, i: nat)
    requires |t| == g.size && Searching(g, t, queue, from, tail, i) && tail < |queue| && i < CMAP_K
    requires queue[tail].end < |t| && |queue[tail].slots| < MAX_DEPTH && |queue| < MAX_QUEUE
    requires Full(t[Next(g, t, queue[tail].end, i)])
    ensures var p := queue[tail];
            QueueOk(g, t, queue + [Path(p.start, Next(g, t, p.end, i), p.slots + [i])], from + [Origin(tail, i)])
  {
    hide Full, Next, Tried, PathOk;
    var p := queue[tail];
    var longer := Path(p.start, Next(g, t, p.end, i), p.slots + [i]);
    var queue', from' := queue + [longer], from + [Origin(tail, i)];
    assert EntryOk(g, t, queue, tail, from[tail]);
    LongerPath(g, t, p, i);
    forall c | 0 <= c < |queue'| ensures EntryOk(g, t, queue', c, from'[c]) {
      if c < |queue| {
        assert EntryOk(g, t, queue, c, from[c]);
      }
    }
    forall c | 0 <= c < |queue| ensures |queue[c].slots| <= |longer.slots| {
      assert EntryOk(g, t, queue, c, from[c]);
      assert Before(from[c], Origin(tail, i));
    }
  }

  lemma LongerPath(g: Geometry, t: Table, p: Path, i: nat)
    requires |t| == g.size && PathOk(g, t, p) && i < CMAP_K && p.end < |t| && |p.slots| < MAX_DEPTH
    requires Full(t[Next(g, t, p.end, i)])
    ensures PathOk(g, t, Path(p.start, Next(g, t, p.end, i), p.slots + [i]))
  {
    hide Full, Next;
    TrailExtend(g, t, p.start, p.slots, i);
  }

  /* Success: the current path, and one more hop, is a route. */
  lemma RouteFound(g: Geometry, t: Table, queue: seq<Path>, from: seq<Origin>, tail: nat, i: nat, j: nat)
    requires |t| == g.size && Searching(g, t, queue, from, tail, i) && tail < |queue| && i < CMAP_K
    requires queue[tail].end < |t| && Next(g, t, queue[tail].end, i) != queue[tail].end
    requires var next := t[Next(g, t, queue[tail].end, i)]; Target(next, j) && next[j].chain == []
    ensures RouteOk(g, t, queue[tail].start, queue[tail].slots + [i], j)
  {
    hide Next, Searching;
    var p := queue[tail];
    EntryAt(g, t, queue, from, tail, i, tail);
    CurrentEndsFirst(g, t, queue, from, tail, i);
    TrailDistinct(g, t, queue, from, tail, i, tail);
    TrailExtend(g, t, p.start, p.slots, i);
    var bs := Trail(g, t, p.start, p.slots);
    assert Trail(g, t, p.start, p.slots + [i])[..|p.slots| + 1] == bs;
  }

  /* cmap_find_empty_slot_protected() */
  method FindEmptySlot(b: Bucket) returns (j: int)
    ensures j == -1 ==> Full(b)
    ensures j != -1 ==> 0 <= j && Target(b, j) && b[j].chain == []
  {
    for i := 0 to CMAP_K
      invariant forall k :: 0 <= k < i ==> b[k].chain != []
    {
      if b[i].chain == [] {
        return i;
      }
    }
    return -1;
  }

  // ---------------------------------------------------------------- what the search cannot miss

  /* No bucket within 'depth' hops of the starting points has an unused slot. */
  ghost predicate FullWithin(g: Geometry, t: Table, b1: nat, b2: nat, depth: nat)
    requires |t| == g.size
  {
    forall start, slots :: (start == b1 || start == b2) && start < |t| && SlotsOk(slots) && |slots| <= depth
                           ==> AllFull(t, Trail(g, t, start, slots))
  }

  ghost predicate Rooted(queue: seq<Path>, b1: nat, b2: nat)
  {
    && (exists c :: 0 <= c < |queue| && queue[c] == Path(b1, b1, []))
    && (exists c :: 0 <= c < |queue| && queue[c] == Path(b2, b2, []))
  }

  /* How many entries of the queue can come before one with this origin. */
  function Rank(o: Origin): int
  {
    if o.parent < 0 then o.slot else 2 + CMAP_K * o.parent + o.slot
  }

  lemma {:induction false} RankBounds(g: Geometry, t: Table, queue: seq<Path>, from: seq<Origin>, c: nat)
    requires |t| == g.size && QueueOk(g, t, queue, from) && c < |queue|
    ensures c <= Rank(from[c])
  {
    hide PathOk, Next;
    assert EntryOk(g, t, queue, c, from[c]);
    if c > 0 {
      RankBounds(g, t, queue, from, c - 1);
      assert EntryOk(g, t, queue, c - 1, from[c - 1]) && Before(from[c - 1], from[c]);
    }
  }

  /* The paths of at most 'depth' hops fit into so many entries. */
  function Room(depth: nat): nat
  {
    if depth == 0 then 2 else CMAP_K * Room(depth - 1) + 2
  }

  lemma {:induction false} ShortPathsFirst(g: Geometry, t: Table, queue: seq<Path>, from: seq<Origin>, c: nat)
    requires |t| == g.size && QueueOk(g, t, queue, from) && c < |queue|
    ensures c < Room(|queue[c].slots|)
  {
    hide PathOk, Next;
    assert EntryOk(g, t, queue, c, from[c]);
    RankBounds(g, t, queue, from, c);
    if from[c].parent >= 0 {
      ShortPathsFirst(g, t, queue, from, from[c].parent);
    }
  }

  /* The queue never becomes full while paths are extended to MAX_DEPTH - 1 hops. */
  lemma NotYetFull(g: Geometry, t: Table, queue: seq<Path>, from: seq<Origin>, q: nat, s: nat)
    requires |t| == g.size && QueueOk(g, t, queue, from) && q < |queue| && s < CMAP_K && |queue[q].slots| <= MAX_DEPTH - 2
    ensures |queue| >= MAX_QUEUE ==> exists c :: 0 <= c < |queue| && !Before(from[c], Origin(q, s))
  {
    hide PathOk, Next;
    ShortPathsFirst(g, t, queue, from, q);
    assert Room(0) == 2 && Room(1) == 12 && Room(2) == 62;
    if |queue| >= MAX_QUEUE {
      var c := |queue| - 1;
      RankBounds(g, t, queue, from, c);
      assert EntryOk(g, t, queue, c, from[c]);
      assert !Before(from[c], Origin(q, s));
    }
  }

  /* The search is done with all paths of fewer than 'depth' hops. */
  ghost predicate DoneBelow(queue: seq<Path>, tail: nat, depth: nat)
  {
    depth <= MAX_DEPTH && forall q :: 0 <= q < |queue| && |queue[q].slots| < depth ==> q < tail
  }

  /* Every bucket that can be reached in 'depth' hops, and fewer than MAX_DEPTH, is the end of a path
     in the queue. */
  lemma {:induction false} Reached(g: Geometry, t: Table, queue: seq<Path>, from: seq<Origin>, tail: nat, i: nat, b1: nat,
                                   b2: nat, depth: nat, start: nat, slots: seq<nat>) returns (c: nat)
    requires |t| == g.size && Searching(g, t, queue, from, tail, i) && Rooted(queue, b1, b2) && DoneBelow(queue, tail, depth)
    requires (start == b1 || start == b2) && start < |t| && SlotsOk(slots) && |slots| <= depth && |slots| < MAX_DEPTH
    ensures c < |queue| && queue[c].end == Trail(g, t, start, slots)[|slots|] && |queue[c].slots| <= |slots|
    ensures AllFull(t, Trail(g, t, start, slots))
    decreases |slots|
  {
    hide Searching, Next, Full, QueueOk, EntryOk;
    if slots == [] {
      c :| 0 <= c < |queue| && queue[c] == Path(start, start, []);
      EndFull(g, t, queue, from, tail, i, c);
    } else {
      var n := |slots| - 1;
      var d := Reached(g, t, queue, from, tail, i, b1, b2, depth, start, slots[..n]);
      c := Follow(g, t, queue, from, tail, i, d, slots[n]);
      EndFull(g, t, queue, from, tail, i, c);
    }
  }

  lemma EndFull(g: Geometry, t: Table, queue: seq<Path>, from: seq<Origin>, tail: nat, i: nat, c: nat)
    requires |t| == g.size && Searching(g, t, queue, from, tail, i) && c < |queue|
    ensures queue[c].end < |t| && Full(t[queue[c].end])
  {
    hide Full;
    EntryAt(g, t, queue, from, tail, i, c);
    PathInTable(g, t, queue[c]);
  }

  /* One hop further. */
  lemma Follow(g: Geometry, t: Table, queue: seq<Path>, from: seq<Origin>, tail: nat, i: nat, d: nat, s: nat) returns (c: nat)
    requires |t| == g.size && Searching(g, t, queue, from, tail, i) && d < |queue| && d < tail && queue[d].end < |t|
    requires |queue[d].slots| <= MAX_DEPTH - 2 && s < CMAP_K
    ensures c < |queue| && queue[c].end == Next(g, t, queue[d].end, s) && |queue[c].slots| <= |queue[d].slots| + 1
  {
    hide Full, Next, PathOk;
    NotYetFull(g, t, queue, from, d, s);
    assert Tried(g, t, queue, from, d, s);
    if Next(g, t, queue[d].end, s) == queue[d].end {
      c := d;
    } else {
      c :| 0 <= c < |queue| && from[c] == Origin(d, s);
      assert EntryOk(g, t, queue, c, from[c]);
    }
  }

  lemma NextFull(g: Geometry, t: Table, queue: seq<Path>, from: seq<Origin>, tail: nat, i: nat, d: nat, s: nat)
    requires |t| == g.size && Searching(g, t, queue, from, tail, i) && d < |queue| && d < tail && queue[d].end < |t| && s < CMAP_K
    ensures Full(t[Next(g, t, queue[d].end, s)])
  {
    hide Full, Next, EntryOk;
    assert Tried(g, t, queue, from, d, s);
    EndFull(g, t, queue, from, tail, i, d);
  }

  lemma AllSearched(g: Geometry, t: Table, queue: seq<Path>, from: seq<Origin>, tail: nat, i: nat, b1: nat, b2: nat, depth: nat)
    requires |t| == g.size && Searching(g, t, queue, from, tail, i) && Rooted(queue, b1, b2) && DoneBelow(queue, tail, depth)
    ensures FullWithin(g, t, b1, b2, depth)
  {
    hide Searching, Next, Full, QueueOk, EntryOk;
    forall start, slots | (start == b1 || start == b2) && start < |t| && SlotsOk(slots) && |slots| <= depth
      ensures AllFull(t, Trail(g, t, start, slots))
    {
      if |slots| < MAX_DEPTH {
        var c := Reached(g, t, queue, from, tail, i, b1, b2, depth, start, slots);
      } else {
        var n := |slots| - 1;
        var c := Reached(g, t, queue, from, tail, i, b1, b2, depth, start, slots[..n]);
        EndFull(g, t, queue, from, tail, i, c);
        NextFull(g, t, queue, from, tail, i, c, slots[n]);
      }
    }
  }

  lemma ShorterDone(g: Geometry, t: Table, queue: seq<Path>, from: seq<Origin>, tail: nat, i: nat)
    requires |t| == g.size && Searching(g, t, queue, from, tail, i) && tail < |queue| && |queue[tail].slots| <= MAX_DEPTH
    ensures DoneBelow(queue, tail, |queue[tail].slots|)
  {
    hide EntryOk, Tried;
  }

  /* The search finds a path whenever there is one of at most MAX_DEPTH hops, although the queue is
     limited, and the path is a shortest one. */
  method FindPath(g: Geometry, t: Table, b1: nat, b2: nat) returns (found: bool, start: nat, hops: seq<nat>, last: nat)
    requires |t| == g.size && b1 < |t| && b2 < |t| && Full(t[b1]) && Full(t[b2])
    ensures found ==> (start == b1 || start == b2) && RouteOk(g, t, start, hops, last)
    ensures found ==> 1 <= |hops| && FullWithin(g, t, b1, b2, |hops| - 1)
    ensures !found ==> FullWithin(g, t, b1, b2, MAX_DEPTH)
  {
    hide Next, Searching, Full, RouteOk, FullWithin, Rooted;
    found, start, hops, last := false, 0, [], 0;
    var queue := if b1 == b2 then [Path(b1, b1, [])] else [Path(b1, b1, []), Path(b2, b2, [])];
    ghost var from := if b1 == b2 then [Origin(-1, 0)] else [Origin(-1, 0), Origin(-1, 1)];
    Starting(g, t, b1, b2, queue, from);
    StartRooted(queue, b1, b2);
    var tail: nat := 0;
    while tail < |queue|
      invariant tail <= |queue| <= MAX_QUEUE && Searching(g, t, queue, from, tail, 0) && Rooted(queue, b1, b2)
      invariant forall c :: 0 <= c < |queue| ==> queue[c].start == b1 || queue[c].start == b2
      decreases MAX_QUEUE - tail
    {
      var path := queue[tail];
      EntryAt(g, t, queue, from, tail, 0, tail);
      for i := 0 to CMAP_K
        invariant tail < |queue| <= MAX_QUEUE && queue[tail] == path && Searching(g, t, queue, from, tail, i)
        invariant Rooted(queue, b1, b2)
        invariant forall c :: 0 <= c < |queue| ==> queue[c].start == b1 || queue[c].start == b2
      {
        var next := Next(g, t, path.end, i);
        if next == path.end {
          Advance(g, t, queue, from, tail, i);
        } else {
          var j := FindEmptySlot(t[next]);
          if j >= 0 {
            RouteFound(g, t, queue, from, tail, i, j);
            ShorterDone(g, t, queue, from, tail, i);
            AllSearched(g, t, queue, from, tail, i, b1, b2, |path.slots|);
            return true, path.start, path.slots + [i], j;
          }
          if |path.slots| < MAX_DEPTH && |queue| < MAX_QUEUE {
            Enqueue(g, t, queue, from, tail, i);
            StillRooted(queue, b1, b2, Path(path.start, next, path.slots + [i]));
            queue := queue + [Path(path.start, next, path.slots + [i])];
            from := from + [Origin(tail, i)];
          } else {
            Advance(g, t, queue, from, tail, i);
          }
        }
      }
      EntryDone(g, t, queue, from, tail);
      tail := tail + 1;
    }
    AllSearched(g, t, queue, from, |queue|, 0, b1, b2, MAX_DEPTH);
  }

  lemma StartRooted(queue: seq<Path>, b1: nat, b2: nat)
    requires queue == if b1 == b2 then [Path(b1, b1, [])] else [Path(b1, b1, []), Path(b2, b2, [])]
    ensures Rooted(queue, b1, b2)
  {
    assert queue[0] == Path(b1, b1, []) && queue[|queue| - 1] == Path(b2, b2, []);
  }

  lemma StillRooted(queue: seq<Path>, b1: nat, b2: nat, p: Path)
    requires Rooted(queue, b1, b2)
    ensures Rooted(queue + [p], b1, b2)
  {
    var c :| 0 <= c < |queue| && queue[c] == Path(b1, b1, []);
    var d :| 0 <= d < |queue| && queue[d] == Path(b2, b2, []);
    assert (queue + [p])[c] == Path(b1, b1, []) && (queue + [p])[d] == Path(b2, b2, []);
  }

  lemma EntryDone(g: Geometry, t: Table, queue: seq<Path>, from: seq<Origin>, tail: nat)
    requires |t| == g.size && Searching(g, t, queue, from, tail, CMAP_K) && tail < |queue|
    ensures Searching(g, t, queue, from, tail + 1, 0)
  {
    hide Full, Next, Tried, EntryOk;
  }
}
