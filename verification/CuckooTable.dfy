/** The table of the concurrent cuckoo hash (struct cmap_impl) as a value: buckets of CMAP_K
    slots, each a client hash and the chain of nodes with that hash. */
module CuckooTables {

  import opened Division

  type Hash = h: nat | h < 0x1_0000_0000 witness 0
  type Node = nat

  /* The slots of a bucket, on 64-bit hosts. */
  const CMAP_K: nat := 5

  /* A null chain means that the slot is unused, whatever its hash. */
  datatype Slot = Slot(hash: Hash, chain: seq<Node>)

  /* The slots of a bucket.  Its counter is kept beside them. */
  type Bucket = b: seq<Slot> | |b| == CMAP_K witness seq(CMAP_K, _ => Slot(0, []))

  function Zeroed(): Bucket { seq(CMAP_K, _ => Slot(0, [])) }

  type Table = seq<Bucket>

  type Size = n: nat | n > 0 witness 1

  /* The rehashing of the client's hashes with a basis, and the number of buckets. */
  datatype Geometry = Geometry(rehash: Hash -> Hash, size: Size)
  {
    /* The two buckets for a hash. */
    function First(h: Hash): (b: nat)
      ensures b < size
    {
      rehash(h) % size
    }

    function Second(h: Hash): (b: nat)
      ensures b < size
    {
      OtherHash(rehash(h)) % size
    }

    /* other_bucket_protected() */
    function Other(b: nat, h: Hash): (c: nat)
      ensures c < size
      ensures b == First(h) ==> c == Second(h)
      ensures b == Second(h) ==> c == First(h)
    {
      if First(h) == b then Second(h) else First(h)
    }
  }

  function OtherHash(h: Hash): Hash
  {
    h % 0x1_0000 * 0x1_0000 + h / 0x1_0000
  }

  /* The halves of the hash are exchanged, so doing it twice gives the hash itself. */
  lemma OtherHashIsSymmetric(h: Hash)
    ensures OtherHash(h) / 0x1_0000 == h % 0x1_0000 && OtherHash(h) % 0x1_0000 == h / 0x1_0000
    ensures OtherHash(OtherHash(h)) == h
  {
    var lo, hi := h % 0x1_0000, h / 0x1_0000;
    assert OtherHash(h) / 0x1_0000 == lo && OtherHash(h) % 0x1_0000 == hi;
  }

  /* With no more than 2^16 buckets, the two of a hash come from different halves of the rehashed hash. */
  lemma BucketHalves(g: Geometry, h: Hash)
    requires 0x1_0000 % g.size == 0
    ensures g.First(h) == g.rehash(h) % 0x1_0000 % g.size && g.Second(h) == g.rehash(h) / 0x1_0000 % g.size
  {
    var r := g.rehash(h);
    OtherHashIsSymmetric(r);
    ModuloDivisor(r, g.size);
    ModuloDivisor(OtherHash(r), g.size);
  }

  lemma ModuloDivisor(r: nat, size: Size)
    requires 0x1_0000 % size == 0
    ensures r % size == r % 0x1_0000 % size
  {
    var k, q := 0x1_0000 / size, r / 0x1_0000;
    assert r - r % 0x1_0000 == q * 0x1_0000 && 0x1_0000 == k * size;
    assert q * (k * size) == q * k * size;
    SameRemainder(r, r % 0x1_0000, q * k, size);
  }

  // ---------------------------------------------------------------- buckets

  /* The first slot from 'i' on with the given hash, used or not, or -1. */
  function SlotFrom(b: Bucket, h: Hash, i: nat): (s: int)
    requires i <= CMAP_K
    ensures s == -1 || (i <= s < CMAP_K && b[s].hash == h)
    ensures forall j :: i <= j < (if s == -1 then CMAP_K else s) ==> b[j].hash != h
    decreases CMAP_K - i
  {
    if i == CMAP_K then -1 else if b[i].hash == h then i else SlotFrom(b, h, i + 1)
  }

  function SlotOf(b: Bucket, h: Hash): (s: int)
    ensures s == -1 || (0 <= s < CMAP_K && b[s].hash == h)
    ensures forall j :: 0 <= j < (if s == -1 then CMAP_K else s) ==> b[j].hash != h
  {
    SlotFrom(b, h, 0)
  }

  /* cmap_find_in_bucket() */
  function ChainIn(b: Bucket, h: Hash): seq<Node>
  {
    var s := SlotOf(b, h);
    if s == -1 then [] else b[s].chain
  }

  /* Every used slot is the first one with its hash. */
  ghost predicate Leads(b: Bucket)
  {
    forall i :: 0 <= i < CMAP_K && b[i].chain != [] ==> SlotOf(b, b[i].hash) == i
  }

  predicate Full(b: Bucket)
  {
    forall i :: 0 <= i < CMAP_K ==> b[i].chain != []
  }

  function Put(b: Bucket, i: nat, s: Slot): Bucket
    requires i < CMAP_K
  {
    b[i := s]
  }

  /* 'i' can be overwritten: the first unused slot, or any slot of a full bucket. */
  ghost predicate Target(b: Bucket, i: nat)
  {
    && i < CMAP_K
    && (Full(b) || (b[i].chain == [] && forall j :: 0 <= j < i ==> b[j].chain != []))
  }

  /* Writing an entry into a target slot adds it, and removes the entry that was there. */
  lemma PutTarget(b: Bucket, i: nat, s: Slot)
    requires Leads(b) && Target(b, i) && s.chain != []
    requires ChainIn(b, s.hash) == []
    ensures Leads(Put(b, i, s))
    ensures ChainIn(Put(b, i, s), s.hash) == s.chain
    ensures forall h :: h != s.hash ==>
              ChainIn(Put(b, i, s), h) == if b[i].chain != [] && h == b[i].hash then [] else ChainIn(b, h)
  {
    var b' := Put(b, i, s);
    forall j | 0 <= j < i ensures b[j].hash != s.hash {
      assert b[j].chain != [] && SlotOf(b, b[j].hash) == j;
    }
    assert SlotOf(b', s.hash) == i;
    forall h | h != s.hash
      ensures ChainIn(b', h) == if b[i].chain != [] && h == b[i].hash then [] else ChainIn(b, h)
    {
      PutOther(b, i, s, h);
    }
    forall j | 0 <= j < CMAP_K && b'[j].chain != [] && j != i ensures SlotOf(b', b'[j].hash) == j {
      StillLeads(b, i, s, j);
    }
  }

  lemma StillLeads(b: Bucket, i: nat, s: Slot, j: nat)
    requires Leads(b) && i < CMAP_K && j < CMAP_K && i != j && b[j].chain != [] && ChainIn(b, s.hash) == []
    ensures SlotOf(Put(b, i, s), b[j].hash) == j
  {
    assert SlotOf(b, b[j].hash) == j;
    assert b[j].hash != s.hash;
    var b', p := Put(b, i, s), SlotOf(Put(b, i, s), b[j].hash);
    assert b'[j].hash == b[j].hash;
    assert p != i && p != -1;
  }

  lemma PutOther(b: Bucket, i: nat, s: Slot, h: Hash)
    requires Leads(b) && i < CMAP_K && h != s.hash
    ensures ChainIn(Put(b, i, s), h) == if b[i].chain != [] && h == b[i].hash then [] else ChainIn(b, h)
  {
    var b' := Put(b, i, s);
    var p, q := SlotOf(b, h), SlotOf(b', h);
    assert q != -1 ==> q != i && b[q].hash == h;
    assert p != -1 && p != i ==> b'[p].hash == h;
  }

  /* An overwritten entry of a full bucket leaves no slot with its hash. */
  lemma PutFull(b: Bucket, i: nat, s: Slot, h: Hash)
    requires Leads(b) && Full(b) && i < CMAP_K && h == b[i].hash && h != s.hash
    ensures SlotOf(Put(b, i, s), h) == -1
  {
    assert SlotOf(b, h) == i;
  }

  /* In a full bucket no unused slot has a hash. */
  lemma FullHas(b: Bucket, h: Hash)
    requires Full(b)
    ensures ChainIn(b, h) == [] ==> SlotOf(b, h) == -1
  {
  }

  /* Changing the chain of the first slot with a hash. */
  lemma PutChain(b: Bucket, h: Hash, chain: seq<Node>)
    requires Leads(b) && SlotOf(b, h) != -1
    ensures var b' := Put(b, SlotOf(b, h), Slot(h, chain));
            && Leads(b') && ChainIn(b', h) == chain
            && (forall x :: SlotOf(b', x) == SlotOf(b, x)) && (forall x :: x != h ==> ChainIn(b', x) == ChainIn(b, x))
  {
    var i := SlotOf(b, h);
    var b' := Put(b, i, Slot(h, chain));
    assert forall j :: 0 <= j < CMAP_K ==> b'[j].hash == b[j].hash;
    forall x ensures SlotOf(b', x) == SlotOf(b, x) {
    }
    forall j | 0 <= j < CMAP_K && b'[j].chain != [] ensures SlotOf(b', b'[j].hash) == j {
    }
  }

  // ---------------------------------------------------------------- tables

  /* What holds in every bucket for the chain of one hash: if both of its buckets hold it then
     they agree, and if only the second one does then the first one has no slot for it. */
  ghost predicate Agreeing(b1: Bucket, b2: Bucket, h: Hash)
  {
    var c1, c2 := ChainIn(b1, h), ChainIn(b2, h);
    && (c1 != [] && c2 != [] ==> c1 == c2)
    && (c1 == [] && c2 != [] ==> SlotOf(b1, h) == -1)
  }

  /* Every entry can be found. */
  ghost predicate Visible(g: Geometry, t: Table)
  {
    && |t| == g.size
    && (forall b :: 0 <= b < |t| ==> Leads(t[b]))
    && (forall b, h :: 0 <= b < |t| && ChainIn(t[b], h) != [] ==> b == g.First(h) || b == g.Second(h))
    && (forall h :: Agreeing(t[g.First(h)], t[g.Second(h)], h))
  }

  /* 'h' has a chain in both of its buckets. */
  ghost predicate Twice(g: Geometry, t: Table, h: Hash)
    requires |t| == g.size
  {
    g.First(h) != g.Second(h) && ChainIn(t[g.First(h)], h) != [] && ChainIn(t[g.Second(h)], h) != []
  }

  /* No hash has a chain in both of its buckets. */
  ghost predicate TableOk(g: Geometry, t: Table)
  {
    Visible(g, t) && forall h :: !Twice(g, t, h)
  }

  /* cmap_find(), without concurrent changes. */
  function Find(g: Geometry, t: Table, h: Hash): seq<Node>
    requires |t| == g.size
  {
    var c := ChainIn(t[g.First(h)], h);
    if c != [] then c else ChainIn(t[g.Second(h)], h)
  }

  /* Both tables map every hash, except perhaps 'h', to the same chain. */
  ghost predicate SameFor(g: Geometry, t: Table, t': Table)
    requires |t| == |t'| == g.size
  {
    forall h :: Find(g, t', h) == Find(g, t, h)
  }

  ghost predicate SameBut(g: Geometry, t: Table, t': Table, h: Hash)
    requires |t| == |t'| == g.size
  {
    forall x :: x != h ==> Find(g, t', x) == Find(g, t, x)
  }

  /* All used slots are found. */
  lemma FindMeaning(g: Geometry, t: Table, b: nat, i: nat)
    requires Visible(g, t) && b < |t| && i < CMAP_K && t[b][i].chain != []
    ensures Find(g, t, t[b][i].hash) == t[b][i].chain == ChainIn(t[b], t[b][i].hash)
  {
    var h := t[b][i].hash;
    assert SlotOf(t[b], h) == i;
    assert Agreeing(t[g.First(h)], t[g.Second(h)], h);
  }

  /* Only used slots are found. */
  lemma FoundInSlot(g: Geometry, t: Table, h: Hash) returns (b: nat, i: nat)
    requires |t| == g.size && Find(g, t, h) != []
    ensures b < |t| && i < CMAP_K && t[b][i] == Slot(h, Find(g, t, h)) && (b == g.First(h) || b == g.Second(h))
  {
    b := if ChainIn(t[g.First(h)], h) != [] then g.First(h) else g.Second(h);
    i := SlotOf(t[b], h);
  }
}
