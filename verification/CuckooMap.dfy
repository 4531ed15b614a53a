/** The concurrent hash map (struct cmap): a multimap from client hashes to nodes. */
module CuckooMaps {

  import opened Options
  import opened CuckooTables
  import opened CuckooChanges
  import opened CuckooHistory
  import opened CuckooImpls
  import opened CuckooSearch
  import CuckooReaders

  // ---------------------------------------------------------------- load limits

  const MAX_SIZE: nat := 0x2000_0000

  /* calc_max_n() and calc_min_n(): 'size' times CMAP_K times CMAP_MAX_LOAD (3650722200, 85% of
     UINT32_MAX) or CMAP_MIN_LOAD (858993459, 20%), of which the upper 32 of 64 bits count. */
  function MaxN(size: nat): nat
  {
    Upper(size * 18253611000)
  }

  function MinN(size: nat): nat
  {
    Upper(size * 4294967295)
  }

  function Upper(x: nat): nat
  {
    x / 0x1_0000_0000 % 0x1_0000_0000
  }

  predicate IsPow2(n: nat)
  {
    n == 1 || (n > 0 && n % 2 == 0 && IsPow2(n / 2))
  }

  lemma {:induction false} NextPow2(a: nat, b: nat)
    requires IsPow2(a) && IsPow2(b) && a < b
    ensures 2 * a <= b
  {
    if a > 1 {
      NextPow2(a / 2, b / 2);
    }
  }

  lemma DoublePow2(n: nat)
    requires IsPow2(n)
    ensures IsPow2(2 * n)
  {
    assert 2 * n / 2 == n;
  }

  lemma Pow2Times16(n: nat)
    requires IsPow2(n)
    ensures IsPow2(16 * n)
  {
    hide IsPow2;
    DoublePow2(n);
    DoublePow2(2 * n);
    DoublePow2(4 * n);
    DoublePow2(8 * n);
  }

  lemma MaxSizePow2()
    ensures IsPow2(MAX_SIZE)
  {
    hide IsPow2;
    assert IsPow2(2) by { Two(); }
    Pow2Times16(0x2);
    Pow2Times16(0x20);
    Pow2Times16(0x200);
    Pow2Times16(0x2000);
    Pow2Times16(0x2_0000);
    Pow2Times16(0x20_0000);
    Pow2Times16(0x200_0000);
  }

  lemma Two()
    ensures IsPow2(2)
  {
    assert IsPow2(1);
  }

  lemma UpperOf(x: nat)
    requires x < 0x1_0000_0000_0000_0000
    ensures Upper(x) == x / 0x1_0000_0000
  {
  }

  /* The limits are 85% of the slots, give or take two nodes, and 20% of them less one node. */
  lemma LoadLimits(size: nat)
    requires 0 < size <= MAX_SIZE
    ensures 85 * CMAP_K * size - 200 < 100 * MaxN(size) <= 85 * CMAP_K * size && MinN(size) == 20 * CMAP_K * size / 100 - 1
  {
    UpperOf(size * 18253611000);
    UpperOf(size * 4294967295);
  }

  lemma Doubling(size: nat)
    requires 0 < size && 2 * size <= MAX_SIZE
    ensures MaxN(size) < MaxN(2 * size)
  {
    UpperOf(size * 18253611000);
    UpperOf(2 * size * 18253611000);
    var x := size * 18253611000;
    assert 2 * size * 18253611000 == 2 * x;
  }

  /* Twice the buckets have room for more elements, until calc_max_n() overflows: the assertion
     in cmap_rehash() holds for every expansion except that from MAX_SIZE. */
  lemma ExpandExact(size: nat)
    requires IsPow2(size) && size <= MAX_SIZE
    ensures MaxN(size) < MaxN(2 * size) <==> size < MAX_SIZE
  {
    hide IsPow2;
    if size < MAX_SIZE {
      MaxSizePow2();
      NextPow2(size, MAX_SIZE);
      PositivePow2(size);
      Doubling(size);
    }
  }

  lemma PositivePow2(n: nat)
    requires IsPow2(n)
    ensures n > 0 && (n > 1 ==> n % 2 == 0 && IsPow2(n / 2))
  {
  }

  /* A map that has become too empty fits into half the buckets. */
  lemma ShrinkFits(size: nat, n: nat)
    requires IsPow2(size) && size <= MAX_SIZE && n < MinN(size)
    ensures size > 1 && n < MaxN(size / 2) && IsPow2(size / 2)
  {
    hide IsPow2;
    PositivePow2(size);
    UpperOf(size * 4294967295);
    assert MinN(1) == 0;
    UpperOf(size / 2 * 18253611000);
  }

  // ---------------------------------------------------------------- rehashing

  /* A used slot before slot 'i' of bucket 'b' has the hash. */
  ghost predicate Passed(t: Table, b: nat, i: nat, h: Hash)
  {
    exists c, j :: SlotBefore(t, c, j, b, i) && t[c][j].hash == h && t[c][j].chain != []
  }

  predicate SlotBefore(t: Table, c: int, j: int, b: nat, i: nat)
  {
    0 <= c < |t| && 0 <= j < CMAP_K && (c < b || (c == b && j < i))
  }

  /* The chains in the slots before slot 'i' of bucket 'b' have been copied. */
  ghost predicate Copied(g: Geometry, t: Table, g': Geometry, t': Table, b: nat, i: nat)
    requires |t| == g.size && |t'| == g'.size
  {
    && (forall h :: Find(g', t', h) == if Passed(t, b, i, h) then Find(g, t, h) else [])
    && b <= |t| && i <= CMAP_K && (b == |t| ==> i == 0)
    && Total(t') == NodeCount(t, b) + if b < |t| then NodesIn(t[b], i) else 0
  }

  lemma UsedOnce(g: Geometry, t: Table, b: nat, i: nat, c: nat, j: nat)
    requires TableOk(g, t) && b < |t| && c < |t| && i < CMAP_K && j < CMAP_K
    requires t[b][i].chain != [] && t[c][j].chain != [] && t[b][i].hash == t[c][j].hash
    ensures b == c && i == j
  {
    var h := t[b][i].hash;
    assert SlotOf(t[b], h) == i && SlotOf(t[c], h) == j;
    assert !Twice(g, t, h);
  }

  lemma CopyStart(g: Geometry, t: Table, g': Geometry, t': Table)
    requires |t| == g.size && |t'| == g'.size && Total(t') == 0 && forall h :: Find(g', t', h) == []
    ensures Copied(g, t, g', t', 0, 0)
  {
  }

  lemma CopySkip(g: Geometry, t: Table, g': Geometry, t': Table, b: nat, i: nat)
    requires |t| == g.size && |t'| == g'.size && Copied(g, t, g', t', b, i) && b < |t| && i < CMAP_K && t[b][i].chain == []
    ensures Copied(g, t, g', t', b, i + 1)
  {
    hide Find, Total;
    forall h ensures Passed(t, b, i + 1, h) <==> Passed(t, b, i, h) {
      PassedSame(t, b, i, h);
    }
  }

  lemma PassedSame(t: Table, b: nat, i: nat, h: Hash)
    requires b < |t| && i < CMAP_K && t[b][i].chain == []
    ensures Passed(t, b, i + 1, h) <==> Passed(t, b, i, h)
  {
    if Passed(t, b, i + 1, h) {
      var c, j :| SlotBefore(t, c, j, b, i + 1) && t[c][j].hash == h && t[c][j].chain != [];
      assert SlotBefore(t, c, j, b, i);
    }
    if Passed(t, b, i, h) {
      var c, j :| SlotBefore(t, c, j, b, i) && t[c][j].hash == h && t[c][j].chain != [];
      assert SlotBefore(t, c, j, b, i + 1);
    }
  }

  lemma PassedMore(t: Table, b: nat, i: nat, h: Hash)
    requires b < |t| && i < CMAP_K && t[b][i].chain != []
    ensures Passed(t, b, i + 1, h) <==> Passed(t, b, i, h) || h == t[b][i].hash
  {
    if Passed(t, b, i + 1, h) {
      var c, j :| SlotBefore(t, c, j, b, i + 1) && t[c][j].hash == h && t[c][j].chain != [];
      assert SlotBefore(t, c, j, b, i) || (c == b && j == i);
    }
    if Passed(t, b, i, h) {
      var c, j :| SlotBefore(t, c, j, b, i) && t[c][j].hash == h && t[c][j].chain != [];
      assert SlotBefore(t, c, j, b, i + 1);
    }
    assert SlotBefore(t, b, i, b, i + 1);
  }

  lemma CopyOne(g: Geometry, t: Table, g': Geometry, t': Table, t'': Table, b: nat, i: nat)
    requires TableOk(g, t) && |t'| == g'.size && b < |t| && i < CMAP_K && t[b][i].chain != []
    requires Copied(g, t, g', t', b, i) && Inserted(g', t', t'', t[b][i].hash, t[b][i].chain)
    ensures |t''| == g'.size && Copied(g, t, g', t'', b, i + 1)
  {
    hide Passed, TableOk, Total, Find;
    var h := t[b][i].hash;
    NotPassed(g, t, b, i);
    TableVisible(g, t);
    FindMeaning(g, t, b, i);
    forall x ensures Find(g', t'', x) == if Passed(t, b, i + 1, x) then Find(g, t, x) else [] {
      PassedMore(t, b, i, x);
    }
  }

  lemma NotPassed(g: Geometry, t: Table, b: nat, i: nat)
    requires TableOk(g, t) && b < |t| && i < CMAP_K && t[b][i].chain != []
    ensures !Passed(t, b, i, t[b][i].hash)
  {
    hide TableOk;
    forall c, j | SlotBefore(t, c, j, b, i) ensures !(t[c][j].hash == t[b][i].hash && t[c][j].chain != []) {
      if t[c][j].hash == t[b][i].hash && t[c][j].chain != [] {
        UsedOnce(g, t, b, i, c, j);
      }
    }
  }

  lemma CopyNext(g: Geometry, t: Table, g': Geometry, t': Table, b: nat)
    requires |t| == g.size && |t'| == g'.size && Copied(g, t, g', t', b, CMAP_K) && b < |t|
    ensures Copied(g, t, g', t', b + 1, 0)
  {
    forall h ensures Passed(t, b + 1, 0, h) <==> Passed(t, b, CMAP_K, h) {
      if Passed(t, b + 1, 0, h) {
        var c, j :| SlotBefore(t, c, j, b + 1, 0) && t[c][j].hash == h && t[c][j].chain != [];
        assert SlotBefore(t, c, j, b, CMAP_K);
      }
      if Passed(t, b, CMAP_K, h) {
        var c, j :| SlotBefore(t, c, j, b, CMAP_K) && t[c][j].hash == h && t[c][j].chain != [];
        assert SlotBefore(t, c, j, b + 1, 0);
      }
    }
  }

  lemma CopyEnd(g: Geometry, t: Table, g': Geometry, t': Table)
    requires |t| == g.size && |t'| == g'.size && Copied(g, t, g', t', |t|, 0)
    ensures Total(t') == Total(t) && forall h :: Find(g', t', h) == Find(g, t, h)
  {
    forall h | Find(g, t, h) != [] ensures Passed(t, |t|, 0, h) {
      var b, i := FoundInSlot(g, t, h);
      assert SlotBefore(t, b, i, |t|, 0);
    }
  }

  /* cmap_try_rehash() */
  method TryRehash(source: Impl, target: Impl) returns (ok: bool)
    requires source.Valid() && target.Valid() && source.buckets != target.buckets && source.counters != target.counters && source != target
    requires Total(target.buckets[..]) == 0 && forall h :: Find(target.g, target.buckets[..], h) == []
    modifies target`history, target.counters, target.buckets
    ensures target.Valid()
    ensures ok ==> Total(target.buckets[..]) == Total(source.buckets[..])
    ensures ok ==> forall h :: Find(target.g, target.buckets[..], h) == Find(source.g, source.buckets[..], h)
  {
    hide HistoryOk, TableOk, Copied, Total, Find, Inserted;
    ghost var t := source.buckets[..];
    CopyStart(source.g, t, target.g, target.buckets[..]);
    for b := 0 to source.g.size
      invariant source.Valid() && target.Valid() && source.buckets[..] == t
      invariant Copied(source.g, t, target.g, target.buckets[..], b, 0)
    {
      for i := 0 to CMAP_K
        invariant source.Valid() && target.Valid() && source.buckets[..] == t
        invariant Copied(source.g, t, target.g, target.buckets[..], b, i)
      {
        var slot := source.buckets[b][i];
        ghost var t' := target.buckets[..];
        if slot.chain != [] {
          ok := target.TryInsert(slot.chain, slot.hash);
          if !ok {
            return;
          }
          CopyOne(source.g, t, target.g, t', target.buckets[..], b, i);
        } else {
          CopySkip(source.g, t, target.g, t', b, i);
        }
      }
      CopyNext(source.g, t, target.g, target.buckets[..], b);
    }
    CopyEnd(source.g, t, target.g, target.buckets[..]);
    return true;
  }

  // ---------------------------------------------------------------- the map

  class Cmap {
    /* hash_finish(), whatever it computes. */
    const mix: (Hash, Hash) -> Hash
    var impl: Impl

    /* The nodes with hash 'h': what cmap_find() returns. */
    ghost function Nodes(h: Hash): seq<Node>
      requires impl.buckets.Length == impl.g.size
      reads this, impl, impl.buckets
    {
      Find(impl.g, impl.buckets[..], h)
    }

    ghost predicate Valid()
      reads this, impl, impl.counters, impl.buckets
    {
      && impl.Valid() && impl.n == Total(impl.buckets[..])
      && IsPow2(impl.g.size) && impl.g.size <= MAX_SIZE && impl.n <= MaxN(impl.g.size)
    }

    function GeometryFor(basis: Hash, size: Size): Geometry
    {
      Geometry((h: Hash) => mix(basis, h), size)
    }

    /* cmap_init() */
    constructor (mix: (Hash, Hash) -> Hash, basis: Hash)
      ensures Valid() && fresh(impl) && fresh(impl.counters) && fresh(impl.buckets)
      ensures impl.n == 0 && forall h :: Nodes(h) == []
    {
      this.mix := mix;
      impl := new Impl(Geometry((h: Hash) => mix(basis, h), 1));
    }

    /* cmap_rehash(): tries one random basis after the other.  'ok' is false if it has run out
       of them, and would go on. */
    method Rehash(size: Size, bases: seq<Hash>) returns (ok: bool, rest: seq<Hash>)
      requires Valid() && IsPow2(size) && size <= MAX_SIZE && impl.n < MaxN(size)
      modifies this
      ensures Valid() && impl.n == old(impl.n) && |rest| <= |bases|
      ensures forall h :: Nodes(h) == old(Nodes(h))
      ensures ok ==> |rest| < |bases| && impl.g.size == size
      ensures ok ==> fresh(impl) && fresh(impl.counters) && fresh(impl.buckets)
      ensures !ok ==> impl == old(impl)
    {
      hide HistoryOk, TableOk, Find, Total, MaxN, IsPow2;
      rest := bases;
      while rest != []
        invariant |rest| <= |bases| && impl == old(impl) && Valid()
        invariant impl.buckets[..] == old(impl.buckets[..])
      {
        var next := new Impl(GeometryFor(rest[0], size));
        rest := rest[1..];
        ok := TryRehash(impl, next);
        if ok {
          next.n := impl.n;
          impl := next;
          return;
        }
      }
      ok := false;
    }

    /* cmap_insert().  'done' is false if it has run out of random bases for rehashing. */
    method Insert(node: Node, h: Hash, bases: seq<Hash>) returns (done: bool, count: nat)
      requires Valid()
      requires impl.n < MaxN(impl.g.size) || impl.g.size < MAX_SIZE
      modifies this, impl, impl.counters, impl.buckets
      ensures Valid() && count == impl.n
      ensures done ==> impl.n == old(impl.n) + 1
      ensures done ==> impl.g.size == if old(impl.n) >= MaxN(old(impl.g.size)) then 2 * old(impl.g.size) else old(impl.g.size)
      ensures done ==> Nodes(h) == [node] + old(Nodes(h)) && forall x :: x != h ==> Nodes(x) == old(Nodes(x))
      ensures !done ==> impl.n == old(impl.n) && forall x :: Nodes(x) == old(Nodes(x))
      ensures !done && old(impl.n) < MaxN(old(impl.g.size)) ==> Hopeless(old(impl.g), old(impl.buckets[..]), h)
    {
      hide HistoryOk, TableOk, Find, Total, MaxN, IsPow2, Inserted, Hopeless, FullWithin, Geometry.First, Geometry.Second, Atomic;
      var rest := bases;
      ghost var failed := old(impl.n) >= MaxN(old(impl.g.size));
      if impl.n >= MaxN(impl.g.size) {
        ExpandExact(impl.g.size);
        MaxSizePow2();
        NextPow2(impl.g.size, MAX_SIZE);
        DoublePow2(impl.g.size);
        var ok;
        ok, rest := Rehash(2 * impl.g.size, rest);
        if !ok {
          return false, impl.n;
        }
      }
      while true
        invariant Valid() && impl.n == old(impl.n) < MaxN(impl.g.size)
        invariant impl.g.size == if old(impl.n) >= MaxN(old(impl.g.size)) then 2 * old(impl.g.size) else old(impl.g.size)
        invariant forall x :: Nodes(x) == old(Nodes(x))
        invariant failed || Hopeless(old(impl.g), old(impl.buckets[..]), h) || impl.buckets[..] == old(impl.buckets[..])
        invariant failed || Hopeless(old(impl.g), old(impl.buckets[..]), h) || impl.g == old(impl.g)
        invariant impl == old(impl) || (fresh(impl) && fresh(impl.counters) && fresh(impl.buckets))
        decreases |rest|
      {
        ghost var t := impl.buckets[..];
        var ok := impl.TryInsert([node], h);
        if ok {
          impl.n := impl.n + 1;
          InsertedNodes(impl.g, t, impl.buckets[..], h, [node]);
          return true, impl.n;
        }
        NoRoom(impl.g, t, h);
        ok, rest := Rehash(impl.g.size, rest);
        if !ok {
          return false, impl.n;
        }
      }
    }

    /* cmap_replace().  'done' is false if it has run out of random bases for shrinking. */
    method Replace(node: Node, replacement: Option<Node>, h: Hash, bases: seq<Hash>) returns (done: bool, count: nat)
      requires Valid() && node in Nodes(h)
      modifies this, impl, impl.counters, impl.buckets
      ensures Valid() && count == impl.n == old(impl.n) - if replacement.Some? then 0 else 1
      ensures done ==> impl.g.size == if replacement.None? && impl.n < MinN(old(impl.g.size)) then old(impl.g.size) / 2
                                      else old(impl.g.size)
      ensures Replaced(old(Nodes(h)), node, replacement, Nodes(h)) && forall x :: x != h ==> Nodes(x) == old(Nodes(x))
    {
      hide HistoryOk, TableOk, Find, Total, MaxN, MinN, IsPow2, NodeReplaced, Replaced, Geometry.First, Geometry.Second, Atomic;
      var b1, b2 := impl.g.First(h), impl.g.Second(h);
      ghost var t := impl.buckets[..];
      var ok := impl.ReplaceIn(node, replacement, h, b1);
      if !ok {
        ok := impl.ReplaceIn(node, replacement, h, b2);
      }
      assert ok by {
        if !ok { InOneBucket(impl.g, t, h); }
      }
      ReplacedNodes(impl.g, t, impl.buckets[..], h, node, replacement);
      done := true;
      if replacement.None? {
        impl.n := impl.n - 1;
        done := Shrink(bases);
      }
      count := impl.n;
    }

    /* The part of cmap_replace() after a removal. */
    method Shrink(bases: seq<Hash>) returns (done: bool)
      requires Valid()
      modifies this
      ensures Valid() && impl.n == old(impl.n) && forall x :: Nodes(x) == old(Nodes(x))
      ensures done ==> impl.g.size == if impl.n < MinN(old(impl.g.size)) then old(impl.g.size) / 2 else old(impl.g.size)
    {
      hide HistoryOk, TableOk, Find, Total, MaxN, MinN, IsPow2;
      done := true;
      if impl.n < MinN(impl.g.size) {
        ShrinkFits(impl.g.size, impl.n);
        var rest;
        done, rest := Rehash(impl.g.size / 2, bases);
      }
    }
  }

  /* Whatever operations a table goes through, a lookup that runs meanwhile returns what the table
     mapped its hash to at some moment during the lookup. */
  lemma ReadersSeeTheTable(impl: Impl, h: Hash, at: seq<nat>) returns (k: nat)
    requires impl.Logged() && CuckooReaders.Sized(impl.g, impl.history)
    requires CuckooReaders.Schedule(impl.history, at) && at != []
    requires CuckooReaders.NoWrap(impl.g, impl.history, h, at[0], at[|at| - 1])
    requires CuckooReaders.After(impl.g, impl.history, h, at).Done?
    ensures at[0] <= k <= at[|at| - 1]
    ensures Find(impl.g, Committed(impl.history[k]), h) == CuckooReaders.After(impl.g, impl.history, h, at).chain
  {
    k := CuckooReaders.Linearizable(impl.g, impl.history, h, at);
  }

  /* No bucket within MAX_DEPTH hops of those of the hash has an unused slot. */
  ghost predicate Hopeless(g: Geometry, t: Table, h: Hash)
  {
    |t| == g.size && FullWithin(g, t, g.First(h), g.Second(h), MAX_DEPTH)
  }

  lemma NoRoom(g: Geometry, t: Table, h: Hash)
    requires |t| == g.size && FullWithin(g, t, g.First(h), g.Second(h), MAX_DEPTH)
    ensures Hopeless(g, t, h)
  {
  }

  lemma InsertedNodes(g: Geometry, t: Table, t': Table, h: Hash, chain: seq<Node>)
    requires Inserted(g, t, t', h, chain)
    ensures |t| == |t'| == g.size && Total(t') == Total(t) + |chain| && Find(g, t', h) == chain + Find(g, t, h)
    ensures forall x :: x != h ==> Find(g, t', x) == Find(g, t, x)
  {
  }

  lemma ReplacedNodes(g: Geometry, t: Table, t': Table, h: Hash, node: Node, replacement: Option<Node>)
    requires NodeReplaced(g, t, t', h, node, replacement)
    ensures |t| == |t'| == g.size && Total(t') == Total(t) - if replacement.Some? then 0 else 1
    ensures Replaced(Find(g, t, h), node, replacement, Find(g, t', h))
    ensures forall x :: x != h ==> Find(g, t', x) == Find(g, t, x)
  {
  }

  lemma InOneBucket(g: Geometry, t: Table, h: Hash)
    requires |t| == g.size && Find(g, t, h) != []
    ensures exists b, i :: 0 <= b < |t| && 0 <= i < CMAP_K && (b == g.First(h) || b == g.Second(h))
                           && t[b][i].chain != [] && t[b][i].hash == h
  {
    var b, i := FoundInSlot(g, t, h);
    assert t[b][i].chain != [];
  }
}
