/** struct cmap_impl: the operations that change a table in place, write by write. */
module CuckooImpls {

  import opened Options
  import opened CuckooTables
  import opened CuckooChanges
  import opened CuckooSearch
  import opened CuckooHistory

  // ---------------------------------------------------------------- displacement

  /* The state while entries are moved backward along a route: the slot that the next entry
     moves to, at bucket 'k' of the route, is spare, and the buckets up to it are untouched. */
  ghost predicate Displacing(g: Geometry, t0: Table, start: nat, hops: seq<nat>, last: nat, k: nat, t: Table)
    requires |t0| == |t| == g.size
  {
    && RouteOk(g, t0, start, hops, last) && k <= |hops|
    && var bs := Trail(g, t0, start, hops);
       && Spare(g, t, bs[k], (hops + [last])[k]) && SameFor(g, t0, t)
       && (forall m :: 0 <= m <= k ==> t[bs[m]] == t0[bs[m]])
       && (forall b :: 0 <= b < |t| && Full(t0[b]) ==> Full(t[b]))
       && Total(t) - |t[bs[k]][(hops + [last])[k]].chain| == Total(t0)
  }

  lemma DisplaceStart(g: Geometry, t: Table, start: nat, hops: seq<nat>, last: nat)
    requires TableOk(g, t) && RouteOk(g, t, start, hops, last)
    ensures Displacing(g, t, start, hops, last, |hops|, t)
  {
    hide Visible, Trail, Target, Full, Total, Twice;
  }

  lemma DisplaceStep(g: Geometry, t0: Table, start: nat, hops: seq<nat>, last: nat, k: nat, t: Table)
    requires |t0| == |t| == g.size && Displacing(g, t0, start, hops, last, k, t) && k > 0
    ensures var bs, slots := Trail(g, t0, start, hops), hops + [last];
            var e := t[bs[k - 1]][slots[k - 1]];
            var t' := WithSlot(t, bs[k], slots[k], e.hash, e.chain);
            Visible(g, t') && Displacing(g, t0, start, hops, last, k - 1, t')
  {
    hide Visible, Trail, Total, Twice, Find, Geometry.Other, Geometry.First, Geometry.Second, SlotOf, ChainIn;
    var bs, slots := Trail(g, t0, start, hops), hops + [last];
    var b, s, c, j := bs[k - 1], slots[k - 1], bs[k], slots[k];
    var e := t[b][s];
    var t' := WithSlot(t, c, j, e.hash, e.chain);
    TrailStep(g, t0, start, hops, k - 1);
    assert b != c && Full(t0[b]) by {
      assert bs[..|hops|][k - 1] == b;
    }
    HashesDiffer(g, t0, start, hops, last, k, t);
    MoveEntry(g, t, b, s, c, j);
    assert forall m :: 0 <= m <= k - 1 ==> bs[m] != c;
    SameForTwice(g, t0, t, t');
    FullPut(t[c], j, e);
  }

  lemma FullPut(b: Bucket, i: nat, s: Slot)
    requires i < CMAP_K && s.chain != []
    ensures Full(b) ==> Full(Put(b, i, s))
  {
  }

  lemma SameForTwice(g: Geometry, t0: Table, t: Table, t': Table)
    requires |t0| == |t| == |t'| == g.size && SameFor(g, t0, t) && SameFor(g, t, t')
    ensures SameFor(g, t0, t')
  {
  }

  /* The entry to be moved is not the one that it overwrites, which can only be in this bucket
     and the next one of the route. */
  lemma HashesDiffer(g: Geometry, t0: Table, start: nat, hops: seq<nat>, last: nat, k: nat, t: Table)
    requires |t0| == |t| == g.size && Displacing(g, t0, start, hops, last, k, t) && k > 0
    ensures var bs, slots := Trail(g, t0, start, hops), hops + [last];
            t[bs[k]][slots[k]].chain != [] ==> t[bs[k]][slots[k]].hash != t[bs[k - 1]][slots[k - 1]].hash
  {
    hide Trail, Total, Twice, Find, Geometry.Other, Geometry.First, Geometry.Second, SlotOf, ChainIn, Leads, SameFor, Target;
    var bs, slots := Trail(g, t0, start, hops), hops + [last];
    TrailStep(g, t0, start, hops, k - 1);
    if k < |hops| {
      TrailStep(g, t0, start, hops, k);
      var h := t[bs[k - 1]][slots[k - 1]].hash;
      assert bs[..|hops|][k - 1] == bs[k - 1];
      Entry(t[bs[k - 1]], slots[k - 1]);
      OtherHome(g, bs[k - 1], h);
      assert bs[k + 1] != bs[k - 1];
    }
  }

  /* At the end of the route, the new entry replaces the first one moved. */
  lemma DisplaceEnd(g: Geometry, t0: Table, start: nat, hops: seq<nat>, last: nat, t: Table, h: Hash, chain: seq<Node>)
    requires |t0| == |t| == g.size && Displacing(g, t0, start, hops, last, 0, t) && chain != []
    requires (start == g.First(h) || start == g.Second(h)) && Find(g, t0, h) == []
    requires Full(t0[g.First(h)]) && Full(t0[g.Second(h)])
    ensures var t' := WithSlot(t, start, hops[0], h, chain);
            && TableOk(g, t') && Find(g, t', h) == chain && SameBut(g, t0, t', h) && Total(t') == Total(t0) + |chain|
  {
    hide Visible, Trail, Total, Twice, Geometry.Other, Geometry.First, Geometry.Second, SlotOf, ChainIn, Spare, Full, RouteOk;
    assert Find(g, t, h) == [];
    FullHas(t[g.First(h)], h);
    FullHas(t[g.Second(h)], h);
    RouteStart(g, t0, start, hops, last);
    PlaceNew(g, t, start, hops[0], h, chain);
  }

  lemma RouteStart(g: Geometry, t: Table, start: nat, hops: seq<nat>, last: nat)
    requires |t| == g.size && RouteOk(g, t, start, hops, last)
    ensures |hops| > 0 && start < |t| && SlotsOk(hops) && last < CMAP_K && (hops + [last])[0] == hops[0] < CMAP_K
  {
  }

  // ---------------------------------------------------------------- insertion

  /* 'chain' has been put ahead of what the table held for 'h', and nothing else has changed. */
  ghost predicate Inserted(g: Geometry, t: Table, t': Table, h: Hash, chain: seq<Node>)
  {
    && |t| == |t'| == g.size && TableOk(g, t')
    && Find(g, t', h) == chain + Find(g, t, h) && SameBut(g, t, t', h) && Total(t') == Total(t) + |chain|
  }

  /* cmap_insert_dup() on one of the buckets. */
  lemma DupInserted(g: Geometry, t: Table, b: nat, h: Hash, chain: seq<Node>)
    requires TableOk(g, t) && b < |t| && SlotOf(t[b], h) != -1 && chain != []
    requires b == g.First(h) || (b == g.Second(h) && SlotOf(t[g.First(h)], h) == -1)
    ensures Inserted(g, t, WithChain(t, b, h, chain + ChainIn(t[b], h)), h, chain)
  {
    hide SlotOf, Geometry.First, Geometry.Second, Leads, Total;
    assert Agreeing(t[g.First(h)], t[g.Second(h)], h) && !Twice(g, t, h);
    assert Find(g, t, h) == ChainIn(t[b], h);
    ChainChange(g, t, b, h, chain + ChainIn(t[b], h));
    PutTotal(t, b, SlotOf(t[b], h), Slot(h, chain + ChainIn(t[b], h)));
  }

  /* cmap_insert_bucket() on one of the buckets. */
  lemma BucketInserted(g: Geometry, t: Table, b: nat, i: nat, h: Hash, chain: seq<Node>)
    requires TableOk(g, t) && b < |t| && Target(t[b], i) && t[b][i].chain == [] && chain != []
    requires (b == g.First(h) || b == g.Second(h)) && SlotOf(t[g.First(h)], h) == -1 && SlotOf(t[g.Second(h)], h) == -1
    ensures Inserted(g, t, WithSlot(t, b, i, h, chain), h, chain)
  {
    hide SlotOf, Geometry.First, Geometry.Second, Leads, Total, Target, Twice;
    PlaceNew(g, t, b, i, h, chain);
    assert Find(g, t, h) == [];
  }

  class Impl {
    const g: Geometry
    const counters: array<nat>
    const buckets: array<Bucket>
    var n: nat                        /* how many nodes there are */
    ghost var history: seq<Snapshot>

    /* The state is the last one of a good history. */
    ghost predicate Logged()
      reads this, counters, buckets
    {
      && buckets.Length == counters.Length == g.size && history != []
      && history[|history| - 1] == Snapshot(counters[..], buckets[..], None)
      && HistoryOk(g, history)
    }

    ghost predicate Valid()
      reads this, counters, buckets
    {
      Logged() && TableOk(g, buckets[..])
    }

    /* cmap_impl_create() */
    constructor (g: Geometry)
      ensures Valid() && this.g == g && n == 0 && fresh(counters) && fresh(buckets)
      ensures Total(buckets[..]) == 0 && forall h :: Find(g, buckets[..], h) == []
    {
      this.g := g;
      counters := new nat[g.size](_ => 0);
      buckets := new Bucket[g.size](_ => Zeroed());
      n := 0;
      history := [Snapshot(seq(g.size, _ => 0), seq(g.size, _ => Zeroed()), None)];
      new;
      assert counters[..] == seq(g.size, _ => 0);
      assert buckets[..] == seq(g.size, _ => Zeroed());
      EmptyTable(g);
    }

    ghost method Log(w: Write, change: Option<Change>)
      requires buckets.Length == counters.Length == g.size && history != [] && HistoryOk(g, history)
      requires SnapshotOk(g, Snapshot(counters[..], buckets[..], change))
      requires Wrote(history[|history| - 1], w, Snapshot(counters[..], buckets[..], change))
      requires Tracked(history[|history| - 1], Snapshot(counters[..], buckets[..], change))
      modifies this`history
      ensures history == old(history) + [Snapshot(counters[..], buckets[..], change)] && HistoryOk(g, history)
    {
      Extend(g, history, w, Snapshot(counters[..], buckets[..], change));
      history := history + [Snapshot(counters[..], buckets[..], change)];
    }

    /* cmap_set_bucket() */
    method SetBucket(b: nat, i: nat, chain: seq<Node>, h: Hash)
      requires Logged() && b < g.size && i < CMAP_K && Visible(g, WithSlot(buckets[..], b, i, h, chain))
      modifies this`history, counters, buckets
      ensures Logged() && old(history) <= history && Between(history, |old(history)|, old(buckets[..]), buckets[..])
      ensures buckets[..] == old(WithSlot(buckets[..], b, i, h, chain))
    {
      hide Visible, Wrote, SnapshotOk, HistoryOk;
      ghost var s := Snapshot(counters[..], buckets[..], None);
      LastOk(g, history);
      SetBucketStates(g, s, b, i, h, chain);
      counters[b] := counters[b] + 1;
      ghost var change := Some(Change(b, buckets[b]));
      assert Snapshot(counters[..], buckets[..], change) == Odd(s, b);
      Log(Counter(b), change);
      buckets[b] := buckets[b][i := buckets[b][i].(chain := chain)];
      assert Snapshot(counters[..], buckets[..], change) == NodeSet(s, b, i, chain);
      Log(Chain(b, i, chain), change);
      buckets[b] := buckets[b][i := buckets[b][i].(hash := h)];
      assert buckets[b] == Put(s.table[b], i, Slot(h, chain));
      assert Snapshot(counters[..], buckets[..], change) == HashSet(s, b, i, h, chain);
      Log(HashOf(b, i, h), change);
      counters[b] := counters[b] + 1;
      assert Snapshot(counters[..], buckets[..], None) == Even(s, b, i, h, chain);
      Log(Counter(b), None);
      StatesBetween(old(history), history, s, b, i, h, chain);
    }

    /* A single write of a node pointer, without touching the counter. */
    method SetChain(b: nat, i: nat, chain: seq<Node>)
      requires Logged() && b < g.size && i < CMAP_K && Visible(g, WithSlot(buckets[..], b, i, buckets[b][i].hash, chain))
      modifies this`history, buckets
      ensures Logged() && old(history) <= history && Between(history, |old(history)|, old(buckets[..]), buckets[..])
      ensures buckets[..] == old(WithSlot(buckets[..], b, i, buckets[b][i].hash, chain))
    {
      hide Visible, HistoryOk;
      LastOk(g, history);
      ghost var t := buckets[..];
      buckets[b] := buckets[b][i := buckets[b][i].(chain := chain)];
      assert buckets[..] == WithSlot(t, b, i, t[b][i].hash, chain);
      Log(Chain(b, i, chain), None);
    }

    /* cmap_insert_dup(): adds the chain to that of its hash if the bucket has a slot for it. */
    method InsertDup(chain: seq<Node>, h: Hash, b: nat) returns (ok: bool)
      requires Valid() && b < g.size && chain != []
      requires b == g.First(h) || (b == g.Second(h) && SlotOf(buckets[g.First(h)], h) == -1)
      modifies this`history, buckets
      ensures Logged() && old(history) <= history && Atomic(g, history, |old(history)|, old(buckets[..]), buckets[..])
      ensures ok ==> Inserted(g, old(buckets[..]), buckets[..], h, chain)
      ensures !ok ==> buckets[..] == old(buckets[..]) && SlotOf(buckets[b], h) == -1
    {
      hide HistoryOk, TableOk, Inserted, Geometry.First, Geometry.Second, ChainIn;
      ghost var t := buckets[..];
      for i := 0 to CMAP_K
        invariant forall j :: 0 <= j < i ==> buckets[b][j].hash != h
        invariant buckets[..] == t && Logged() && history == old(history)
      {
        if buckets[b][i].hash == h {
          FirstSlot(t[b], h, i);
          DupInserted(g, t, b, h, chain);
          assert WithChain(t, b, h, chain + ChainIn(t[b], h)) == WithSlot(t, b, i, h, chain + t[b][i].chain);
          InsertedVisible(g, t, WithSlot(t, b, i, h, chain + t[b][i].chain), h, chain);
          SetChain(b, i, chain + buckets[b][i].chain);
          BetweenIsAtomic(g, history, |old(history)|, t, buckets[..]);
          return true;
        }
      }
      return false;
    }

    /* cmap_insert_bucket() */
    method InsertBucket(chain: seq<Node>, h: Hash, b: nat) returns (ok: bool)
      requires Valid() && b < g.size && chain != []
      requires (b == g.First(h) || b == g.Second(h))
      requires SlotOf(buckets[g.First(h)], h) == -1 && SlotOf(buckets[g.Second(h)], h) == -1
      modifies this`history, counters, buckets
      ensures Logged() && old(history) <= history && Atomic(g, history, |old(history)|, old(buckets[..]), buckets[..])
      ensures ok ==> Inserted(g, old(buckets[..]), buckets[..], h, chain)
      ensures !ok ==> buckets[..] == old(buckets[..]) && Full(buckets[b])
    {
      hide HistoryOk, TableOk, Inserted, Geometry.First, Geometry.Second, ChainIn, SlotOf;
      ghost var t := buckets[..];
      for i := 0 to CMAP_K
        invariant forall j :: 0 <= j < i ==> buckets[b][j].chain != []
        invariant buckets[..] == t && Logged() && history == old(history)
      {
        if buckets[b][i].chain == [] {
          BucketInserted(g, t, b, i, h, chain);
          InsertedVisible(g, t, WithSlot(t, b, i, h, chain), h, chain);
          SetBucket(b, i, chain, h);
          BetweenIsAtomic(g, history, |old(history)|, t, buckets[..]);
          return true;
        }
      }
      return false;
    }

    /* cmap_insert_bfs() */
    method InsertBfs(chain: seq<Node>, h: Hash, b1: nat, b2: nat) returns (ok: bool)
      requires Valid() && b1 == g.First(h) && b2 == g.Second(h) && chain != []
      requires Full(buckets[b1]) && Full(buckets[b2]) && Find(g, buckets[..], h) == []
      modifies this`history, counters, buckets
      ensures Logged() && old(history) <= history && Atomic(g, history, |old(history)|, old(buckets[..]), buckets[..])
      ensures ok ==> Inserted(g, old(buckets[..]), buckets[..], h, chain)
      ensures !ok ==> buckets[..] == old(buckets[..]) && FullWithin(g, buckets[..], b1, b2, MAX_DEPTH)
    {
      hide HistoryOk, TableOk, Inserted, Geometry.First, Geometry.Second, Find, Displacing, RouteOk, Trail, Full, Visible, Total, FullWithin;
      ghost var t0 := buckets[..];
      var found, start, hops, last := FindPath(g, buckets[..], b1, b2);
      if !found {
        return false;
      }
      RouteStart(g, t0, start, hops, last);
      DisplaceStart(g, t0, start, hops, last);
      /* The slots and buckets of the route. */
      var slots, bs := hops + [last], Trail(g, buckets[..], start, hops);
      /* The last entry moves first, so none is ever missing. */
      var k: nat := |hops|;
      while k > 0
        invariant k <= |hops| && Logged() && old(history) <= history && Steady(g, history, |old(history)|, t0)
        invariant Displacing(g, t0, start, hops, last, k, buckets[..])
      {
        var from := buckets[bs[k - 1]][slots[k - 1]];
        DisplaceStep(g, t0, start, hops, last, k, buckets[..]);
        ghost var before, hist := buckets[..], history;
        SetBucket(bs[k], slots[k], from.chain, from.hash);
        DisplacingSame(g, t0, start, hops, last, k, before);
        DisplacingSame(g, t0, start, hops, last, k - 1, buckets[..]);
        assert history[..|hist|] == hist;
        StillSteady(g, history, |old(history)|, |hist|, t0, before, buckets[..]);
        k := k - 1;
      }
      DisplaceEnd(g, t0, start, hops, last, buckets[..], h, chain);
      ByBfs(g, t0, WithSlot(buckets[..], start, hops[0], h, chain), h, chain);
      ghost var before, hist := buckets[..], history;
      SetBucket(start, hops[0], chain, h);
      DisplacingSame(g, t0, start, hops, last, 0, before);
      assert history[..|hist|] == hist;
      SteadyThenAtomic(g, history, |old(history)|, |hist|, t0, before, buckets[..]);
      return true;
    }

    /* cmap_try_insert() */
    method TryInsert(chain: seq<Node>, h: Hash) returns (ok: bool)
      requires Valid() && chain != []
      modifies this`history, counters, buckets
      ensures Valid() && old(history) <= history && Atomic(g, history, |old(history)|, old(buckets[..]), buckets[..])
      ensures ok ==> Inserted(g, old(buckets[..]), buckets[..], h, chain)
      ensures !ok ==> buckets[..] == old(buckets[..])
      ensures !ok ==> FullWithin(g, buckets[..], g.First(h), g.Second(h), MAX_DEPTH)
    {
      hide HistoryOk, TableOk, Geometry.First, Geometry.Second, ChainIn, SlotOf, SameBut, Total, Find, FullWithin;
      var b1, b2 := g.First(h), g.Second(h);
      ok := InsertDup(chain, h, b1);
      if ok { return; }
      ok := InsertDup(chain, h, b2);
      if ok { return; }
      ok := InsertBucket(chain, h, b1);
      if ok { return; }
      ok := InsertBucket(chain, h, b2);
      if ok { return; }
      NoSlotsNoChain(g, buckets[..], h);
      ok := InsertBfs(chain, h, b1, b2);
    }

    /* cmap_find_slot_protected() */
    method FindUsedSlot(b: nat, h: Hash) returns (slot: int)
      requires b < buckets.Length
      ensures slot == -1 ==> forall i :: 0 <= i < CMAP_K && buckets[b][i].chain != [] ==> buckets[b][i].hash != h
      ensures slot != -1 ==> 0 <= slot < CMAP_K && buckets[b][slot].hash == h && buckets[b][slot].chain != []
    {
      for i := 0 to CMAP_K
        invariant forall j :: 0 <= j < i && buckets[b][j].chain != [] ==> buckets[b][j].hash != h
      {
        if buckets[b][i].hash == h && buckets[b][i].chain != [] {
          return i;
        }
      }
      return -1;
    }

    /* cmap_replace__() */
    method ReplaceIn(node: Node, replacement: Option<Node>, h: Hash, b: nat) returns (ok: bool)
      requires Valid() && b < g.size && node in Find(g, buckets[..], h)
      modifies this`history, buckets
      ensures Valid() && old(history) <= history && Atomic(g, history, |old(history)|, old(buckets[..]), buckets[..])
      ensures ok ==> NodeReplaced(g, old(buckets[..]), buckets[..], h, node, replacement)
      ensures !ok ==> buckets[..] == old(buckets[..])
      ensures !ok ==> forall i :: 0 <= i < CMAP_K && buckets[b][i].chain != [] ==> buckets[b][i].hash != h
    {
      hide HistoryOk, TableOk, Find, NodeReplaced;
      ghost var t := buckets[..];
      var slot := FindUsedSlot(b, h);
      if slot < 0 {
        return false;
      }
      TableVisible(g, t);
      FindMeaning(g, t, b, slot);
      var chain, k := buckets[b][slot].chain, 0;
      while chain[k] != node
        invariant 0 <= k < |chain| && node !in chain[..k]
        decreases |chain| - k
      {
        k := k + 1;
      }
      var rest := if replacement.Some? then [replacement.value] else [];
      ReplacedOk(g, t, b, slot, node, replacement, chain[..k] + rest + chain[k + 1..]);
      ReplacedVisible(g, t, WithSlot(t, b, slot, h, chain[..k] + rest + chain[k + 1..]), h, node, replacement);
      SetChain(b, slot, chain[..k] + rest + chain[k + 1..]);
      BetweenIsAtomic(g, history, |old(history)|, t, buckets[..]);
      return true;
    }
  }

  // ---------------------------------------------------------------- replacement

  /* 'chain' with one occurrence of 'node' replaced, or removed. */
  ghost predicate Replaced(chain: seq<Node>, node: Node, replacement: Option<Node>, chain': seq<Node>)
  {
    exists k :: 0 <= k < |chain| && chain[k] == node && node !in chain[..k]
                && chain' == chain[..k] + (if replacement.Some? then [replacement.value] else []) + chain[k + 1..]
  }

  /* What cmap_replace__() makes of a table. */
  ghost predicate NodeReplaced(g: Geometry, t: Table, t': Table, h: Hash, node: Node, replacement: Option<Node>)
  {
    && |t| == |t'| == g.size && TableOk(g, t')
    && Replaced(Find(g, t, h), node, replacement, Find(g, t', h)) && SameBut(g, t, t', h)
    && Total(t') == Total(t) - if replacement.Some? then 0 else 1
  }

  lemma ReplacedOk(g: Geometry, t: Table, b: nat, i: nat, node: Node, replacement: Option<Node>, chain: seq<Node>)
    requires TableOk(g, t) && b < |t| && i < CMAP_K && t[b][i].chain != [] && Replaced(t[b][i].chain, node, replacement, chain)
    ensures NodeReplaced(g, t, WithSlot(t, b, i, t[b][i].hash, chain), t[b][i].hash, node, replacement)
  {
    hide Geometry.First, Geometry.Second, Total, Twice, Find, SameBut;
    var h := t[b][i].hash;
    FindMeaning(g, t, b, i);
    assert SlotOf(t[b], h) == i;
    ChainChange(g, t, b, h, chain);
    PutTotal(t, b, i, Slot(h, chain));
    assert |chain| == |t[b][i].chain| - if replacement.Some? then 0 else 1;
  }

  lemma NoSlotsNoChain(g: Geometry, t: Table, h: Hash)
    requires |t| == g.size && SlotOf(t[g.First(h)], h) == -1 && SlotOf(t[g.Second(h)], h) == -1
    ensures Find(g, t, h) == []
  {
  }

  lemma TableVisible(g: Geometry, t: Table)
    requires TableOk(g, t)
    ensures Visible(g, t)
  {
  }

  lemma ReplacedVisible(g: Geometry, t: Table, t': Table, h: Hash, node: Node, replacement: Option<Node>)
    requires NodeReplaced(g, t, t', h, node, replacement)
    ensures TableOk(g, t') && Visible(g, t')
  {
  }

  lemma FirstSlot(b: Bucket, h: Hash, i: nat)
    requires i < CMAP_K && b[i].hash == h && forall j :: 0 <= j < i ==> b[j].hash != h
    ensures SlotOf(b, h) == i && ChainIn(b, h) == b[i].chain
  {
  }

  lemma InsertedVisible(g: Geometry, t: Table, t': Table, h: Hash, chain: seq<Node>)
    requires Inserted(g, t, t', h, chain)
    ensures Visible(g, t')
  {
  }

  lemma ByBfs(g: Geometry, t: Table, t': Table, h: Hash, chain: seq<Node>)
    requires |t| == |t'| == g.size && TableOk(g, t') && Find(g, t, h) == [] && Find(g, t', h) == chain
    requires SameBut(g, t, t', h) && Total(t') == Total(t) + |chain|
    ensures Inserted(g, t, t', h, chain) && Visible(g, t')
  {
  }

  lemma StatesBetween(before: seq<Snapshot>, hist: seq<Snapshot>, s: Snapshot, b: nat, i: nat, h: Hash, chain: seq<Node>)
    requires b < |s.counters| == |s.table| && i < CMAP_K && s.change.None?
    requires hist == before + [Odd(s, b)] + [NodeSet(s, b, i, chain)] + [HashSet(s, b, i, h, chain)] + [Even(s, b, i, h, chain)]
    ensures Between(hist, |before|, s.table, WithSlot(s.table, b, i, h, chain))
  {
    assert Committed(Odd(s, b)) == s.table;
    assert Committed(NodeSet(s, b, i, chain)) == s.table;
    assert Committed(HashSet(s, b, i, h, chain)) == s.table;
  }

  lemma DisplacingSame(g: Geometry, t0: Table, start: nat, hops: seq<nat>, last: nat, k: nat, t: Table)
    requires |t0| == |t| == g.size && Displacing(g, t0, start, hops, last, k, t)
    ensures SameFor(g, t0, t)
  {
  }

  lemma LastOk(g: Geometry, hist: seq<Snapshot>)
    requires HistoryOk(g, hist) && hist != []
    ensures SnapshotOk(g, hist[|hist| - 1])
  {
  }

  lemma EmptyTable(g: Geometry)
    ensures var t := seq(g.size, _ => Zeroed());
            && TableOk(g, t) && Total(t) == 0 && (forall h :: Find(g, t, h) == [])
            && HistoryOk(g, [Snapshot(seq(g.size, _ => 0), t, None)])
  {
    var t := seq(g.size, _ => Zeroed());
    assert forall b, h :: 0 <= b < |t| ==> ChainIn(t[b], h) == [];
    NoNodes(t, |t|);
  }

  lemma {:induction false} NoNodes(t: Table, n: nat)
    requires n <= |t| && forall b :: 0 <= b < |t| ==> t[b] == Zeroed()
    ensures NodeCount(t, n) == 0
  {
    if n > 0 {
      NoNodes(t, n - 1);
      NoNodesIn(CMAP_K);
    }
  }

  lemma {:induction false} NoNodesIn(n: nat)
    requires n <= CMAP_K
    ensures NodesIn(Zeroed(), n) == 0
  {
    if n > 0 {
      NoNodesIn(n - 1);
    }
  }
}
