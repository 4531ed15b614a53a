/** The changes of one slot that writers of the cuckoo hash make, and what they keep. */
module CuckooChanges {

  import opened CuckooTables

  // ---------------------------------------------------------------- one chain

  function WithChain(t: Table, b: nat, h: Hash, chain: seq<Node>): (t': Table)
    requires b < |t| && SlotOf(t[b], h) != -1
    ensures |t'| == |t|
  {
    t[b := Put(t[b], SlotOf(t[b], h), Slot(h, chain))]
  }

  /* The chain of a hash can be changed where it is, and begun where a hash has been left
     behind, unless that is in the second bucket and the first one has a slot for it too. */
  ghost predicate Changeable(g: Geometry, t: Table, b: nat, h: Hash)
  {
    && TableOk(g, t) && b < |t| && (b == g.First(h) || b == g.Second(h)) && SlotOf(t[b], h) != -1
    && (ChainIn(t[b], h) != []
        || (Find(g, t, h) == [] && (b == g.First(h) || SlotOf(t[g.First(h)], h) == -1)))
  }

  lemma ChainChange(g: Geometry, t: Table, b: nat, h: Hash, chain: seq<Node>)
    requires Changeable(g, t, b, h)
    ensures var t' := WithChain(t, b, h, chain);
            TableOk(g, t') && SameBut(g, t, t', h) && Find(g, t', h) == chain
  {
    hide SlotOf, ChainIn, Leads, Geometry.First, Geometry.Second, Geometry.Other;
    var t' := WithChain(t, b, h, chain);
    PutChain(t[b], h, chain);
    assert !Twice(g, t, h);
    forall x ensures Agreeing(t'[g.First(x)], t'[g.Second(x)], x) && !Twice(g, t', x) {
      assert Agreeing(t[g.First(x)], t[g.Second(x)], x) && !Twice(g, t, x);
    }
  }

  // ---------------------------------------------------------------- one slot

  /* Slot 'i' of bucket 'b' can be overwritten: it is unused, or its chain is in the other
     bucket too.  No other chain is in two buckets. */
  ghost predicate Spare(g: Geometry, t: Table, b: nat, i: nat)
  {
    && Visible(g, t) && b < |t| && Target(t[b], i)
    && (t[b][i].chain != [] ==> Twice(g, t, t[b][i].hash))
    && (forall h :: Twice(g, t, h) ==> t[b][i].chain != [] && h == t[b][i].hash)
  }

  function WithSlot(t: Table, b: nat, i: nat, h: Hash, chain: seq<Node>): (t': Table)
    requires b < |t| && i < CMAP_K
    ensures |t'| == |t|
  {
    t[b := Put(t[b], i, Slot(h, chain))]
  }

  /* Bucket 'b' may get the chain of 'h': a copy of the one in the other bucket, or a new one,
     but not behind a left-over slot in the first bucket. */
  ghost predicate Placeable(g: Geometry, t: Table, b: nat, h: Hash, chain: seq<Node>)
    requires |t| == g.size && b < |t|
  {
    && chain != [] && (b == g.First(h) || b == g.Second(h)) && ChainIn(t[b], h) == []
    && var other := ChainIn(t[g.Other(b, h)], h);
       other == chain || (other == [] && (b == g.First(h) || SlotOf(t[g.First(h)], h) == -1))
  }

  lemma Overwrite(g: Geometry, t: Table, b: nat, i: nat, h: Hash, chain: seq<Node>)
    requires Spare(g, t, b, i) && Placeable(g, t, b, h, chain)
    ensures var t' := WithSlot(t, b, i, h, chain);
            && Visible(g, t') && Find(g, t', h) == chain && SameBut(g, t, t', h)
            && forall x :: Twice(g, t', x) <==> x == h && ChainIn(t[g.Other(b, h)], h) != []
  {
    hide SlotOf, ChainIn, Leads, Geometry.First, Geometry.Second, Geometry.Other;
    var t' := WithSlot(t, b, i, h, chain);
    PutTarget(t[b], i, Slot(h, chain));
    forall x
      ensures Agreeing(t'[g.First(x)], t'[g.Second(x)], x)
      ensures Twice(g, t', x) <==> x == h && ChainIn(t[g.Other(b, h)], h) != []
      ensures x != h ==> Find(g, t', x) == Find(g, t, x)
    {
      OverwriteFor(g, t, b, i, h, chain, x);
    }
  }

  lemma OverwriteFor(g: Geometry, t: Table, b: nat, i: nat, h: Hash, chain: seq<Node>, x: Hash)
    requires Spare(g, t, b, i) && Placeable(g, t, b, h, chain)
    ensures var t' := WithSlot(t, b, i, h, chain);
            && Agreeing(t'[g.First(x)], t'[g.Second(x)], x)
            && (Twice(g, t', x) <==> x == h && ChainIn(t[g.Other(b, h)], h) != [])
            && (x != h ==> Find(g, t', x) == Find(g, t, x))
  {
    hide ChainIn, Leads, SlotOf, Geometry.First, Geometry.Second, Geometry.Other;
    var t' := WithSlot(t, b, i, h, chain);
    PutTarget(t[b], i, Slot(h, chain));
    assert Agreeing(t[g.First(x)], t[g.Second(x)], x);
    assert Twice(g, t, x) ==> t[b][i].chain != [] && x == t[b][i].hash;
    if x != h {
      PutSlotOf(t[b], i, Slot(h, chain), x);
      if t[b][i].chain != [] && x == t[b][i].hash {
        Entry(t[b], i);
        PutFull(t[b], i, Slot(h, chain), x);
      }
    }
  }

  lemma Entry(b: Bucket, i: nat)
    requires Leads(b) && i < CMAP_K && b[i].chain != []
    ensures ChainIn(b, b[i].hash) == b[i].chain
  {
  }

  lemma PutSlotOf(b: Bucket, i: nat, s: Slot, x: Hash)
    requires i < CMAP_K && x != s.hash
    ensures SlotOf(b, x) == -1 ==> SlotOf(Put(b, i, s), x) == -1
  {
    var p := SlotOf(Put(b, i, s), x);
  }

  // ---------------------------------------------------------------- counting

  /* The number of nodes in the first 'n' slots. */
  function NodesIn(b: Bucket, n: nat): nat
    requires n <= CMAP_K
  {
    if n == 0 then 0 else NodesIn(b, n - 1) + |b[n - 1].chain|
  }

  /* The number of nodes in the first 'n' buckets. */
  function NodeCount(t: Table, n: nat): nat
    requires n <= |t|
  {
    if n == 0 then 0 else NodeCount(t, n - 1) + NodesIn(t[n - 1], CMAP_K)
  }

  function Total(t: Table): nat
  {
    NodeCount(t, |t|)
  }

  lemma {:induction false} PutNodesIn(b: Bucket, i: nat, s: Slot, n: nat)
    requires i < CMAP_K && n <= CMAP_K
    ensures NodesIn(Put(b, i, s), n) == NodesIn(b, n) + if i < n then |s.chain| - |b[i].chain| else 0
  {
    if n > 0 {
      PutNodesIn(b, i, s, n - 1);
    }
  }

  lemma {:induction false} PutCount(t: Table, b: nat, i: nat, s: Slot, n: nat)
    requires b < |t| && i < CMAP_K && n <= |t|
    ensures NodeCount(t[b := Put(t[b], i, s)], n) == NodeCount(t, n) + if b < n then |s.chain| - |t[b][i].chain| else 0
  {
    if n > 0 {
      PutCount(t, b, i, s, n - 1);
      PutNodesIn(t[b], i, s, CMAP_K);
    }
  }

  lemma PutTotal(t: Table, b: nat, i: nat, s: Slot)
    requires b < |t| && i < CMAP_K
    ensures Total(t[b := Put(t[b], i, s)]) == Total(t) + |s.chain| - |t[b][i].chain|
  {
    PutCount(t, b, i, s, |t|);
  }

  // ---------------------------------------------------------------- displacement

  /* Copying an entry into a spare slot of its other bucket makes its own slot spare. */
  lemma MoveEntry(g: Geometry, t: Table, b: nat, s: nat, c: nat, j: nat)
    requires Spare(g, t, c, j) && b < |t| && s < CMAP_K && Full(t[b])
    requires c == g.Other(b, t[b][s].hash) != b
    requires t[c][j].chain != [] ==> t[c][j].hash != t[b][s].hash
    ensures var t' := WithSlot(t, c, j, t[b][s].hash, t[b][s].chain);
            && Spare(g, t', b, s) && SameFor(g, t, t') && Total(t') == Total(t) - |t[c][j].chain| + |t[b][s].chain|
  {
    hide SlotOf, ChainIn, Leads, Geometry.First, Geometry.Second, Geometry.Other;
    var h, chain := t[b][s].hash, t[b][s].chain;
    var t' := WithSlot(t, c, j, h, chain);
    Entry(t[b], s);
    FindMeaning(g, t, b, s);
    assert b == g.First(h) || b == g.Second(h);
    OtherHome(g, b, h);
    assert !Twice(g, t, h);
    assert Placeable(g, t, c, h, chain);
    Overwrite(g, t, c, j, h, chain);
    PutTotal(t, c, j, Slot(h, chain));
    assert t'[b] == t[b];
  }

  lemma OtherHome(g: Geometry, b: nat, h: Hash)
    requires b == g.First(h) || b == g.Second(h)
    ensures var c := g.Other(b, h); (c == g.First(h) || c == g.Second(h)) && g.Other(c, h) == b
  {
  }

  /* A new hash in a spare slot. */
  lemma PlaceNew(g: Geometry, t: Table, b: nat, i: nat, h: Hash, chain: seq<Node>)
    requires Spare(g, t, b, i) && chain != []
    requires (b == g.First(h) || b == g.Second(h)) && SlotOf(t[g.First(h)], h) == -1 && SlotOf(t[g.Second(h)], h) == -1
    ensures var t' := WithSlot(t, b, i, h, chain);
            && TableOk(g, t') && Find(g, t', h) == chain && SameBut(g, t, t', h)
            && Total(t') == Total(t) - |t[b][i].chain| + |chain|
  {
    hide SlotOf, Leads, Geometry.First, Geometry.Second, Geometry.Other;
    OtherHome(g, b, h);
    Overwrite(g, t, b, i, h, chain);
    PutTotal(t, b, i, Slot(h, chain));
  }
}
