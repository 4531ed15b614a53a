/** The kernel's flow table (struct flow_table): masked lookup with a mask cache that nobody keeps
    up to date, shared masks, and rehashing into the other link set. */
module FlowTables {

  import opened Options
  import opened FlowKeys
  import opened FlowInstances
  import opened MaskArrays

  /* jhash2(), whatever it computes. */
  type Jhash = seq<Word> -> nat

  function RangeHash(hash: Jhash, key: Key, m: Mask): nat
  {
    hash(key[m.start..m.end])
  }

  /* A flow's key is masked, and its hash is that of the words under the mask. */
  ghost predicate FlowOk(hash: Jhash, masks: MaskMap, f: Flow)
  {
    && f.mask in masks
    && var m := masks[f.mask].mask; AgreesUnder(f.key, f.key, m) && f.hash == RangeHash(hash, f.key, m)
  }

  ghost predicate FlowsOk(hash: Jhash, masks: MaskMap, flows: Flows)
  {
    forall f :: f in flows ==> FlowOk(hash, masks, flows[f])
  }

  ghost predicate Matches(masks: MaskMap, f: Flow, key: Key)
  {
    f.mask in masks && AgreesUnder(key, f.key, masks[f.mask].mask)
  }

  /* A lookup finds a flow that matches, if there is one. */
  ghost predicate Correct(masks: MaskMap, flows: Flows, key: Key, r: Option<FlowId>)
  {
    match r
    case None => forall f :: f in flows ==> !Matches(masks, flows[f], key)
    case Some(f) => f in flows && Matches(masks, flows[f], key)
  }

  ghost predicate NonOverlapping(masks: MaskMap, flows: Flows)
  {
    forall f, g, key :: f in flows && g in flows && Matches(masks, flows[f], key) && Matches(masks, flows[g], key) ==> f == g
  }

  /* When flows do not overlap, every correct lookup finds the same. */
  lemma OnlyResult(masks: MaskMap, flows: Flows, key: Key, r: Option<FlowId>, r': Option<FlowId>)
    requires NonOverlapping(masks, flows) && Correct(masks, flows, key, r) && Correct(masks, flows, key, r')
    ensures r == r'
  {
  }

  /* A flow matches the keys that have its value in every 1-bit of its mask, and no others. */
  lemma MatchesBits(hash: Jhash, masks: MaskMap, f: Flow, key: Key)
    requires FlowOk(hash, masks, f)
    ensures Matches(masks, f, key) <==> AgreeOnMask(key, f.key, masks[f.mask].mask)
  {
    hide AgreesUnder, AgreeOnMask;
    MatchByBits(key, f.key, masks[f.mask].mask);
  }

  /* So keys that differ only where no mask has a 1-bit get the same result. */
  lemma OnlyMaskBitsMatter(hash: Jhash, masks: MaskMap, flows: Flows, key: Key, other: Key, r: Option<FlowId>)
    requires FlowsOk(hash, masks, flows) && forall m :: m in masks ==> AgreeOnMask(key, other, masks[m].mask)
    ensures Correct(masks, flows, key, r) <==> Correct(masks, flows, other, r)
  {
    hide Matches, AgreesUnder, AgreeOnMask, RangeHash;
    forall f | f in flows ensures Matches(masks, flows[f], key) <==> Matches(masks, flows[f], other) {
      assert FlowOk(hash, masks, flows[f]);
      SameMatch(hash, masks, flows[f], key, other);
    }
  }

  lemma SameMatch(hash: Jhash, masks: MaskMap, f: Flow, key: Key, other: Key)
    requires FlowOk(hash, masks, f) && AgreeOnMask(key, other, masks[f.mask].mask)
    ensures Matches(masks, f, key) <==> Matches(masks, f, other)
  {
    hide OneBit, Has, Matches, AgreesUnder;
    MatchesBits(hash, masks, f, key);
    MatchesBits(hash, masks, f, other);
  }

  // ---------------------------------------------------------------- lookup

  /* What is hashed of a key is the words in the mask's range, all of them and no others. */
  lemma HashExact(hash: Jhash, a: Key, b: Key, m: Mask)
    requires forall x, y :: hash(x) == hash(y) ==> x == y
    ensures RangeHash(hash, a, m) == RangeHash(hash, b, m) <==> SameRange(a, b, m.start, m.end)
  {
    var x, y := a[m.start..m.end], b[m.start..m.end];
    assert SameRange(a, b, m.start, m.end) ==> x == y;
    if x == y {
      assert forall i :: m.start <= i < m.end ==> a[i] == x[i - m.start] && b[i] == y[i - m.start];
    }
  }

  /* A matching flow with the mask has the hash of the masked key. */
  lemma SameHash(hash: Jhash, masks: MaskMap, f: Flow, key: Key, masked: Key)
    requires FlowOk(hash, masks, f) && AgreesUnder(key, masked, masks[f.mask].mask)
    ensures Matches(masks, f, key) <==>
            SameRange(f.key, masked, masks[f.mask].mask.start, masks[f.mask].mask.end)
    ensures Matches(masks, f, key) ==> f.hash == RangeHash(hash, masked, masks[f.mask].mask)
  {
    MatchByWords(key, masked, f.key, masks[f.mask].mask);
  }

  /* A match with the mask is in the bucket of the masked key. */
  lemma InBucket(hash: Jhash, spread: Spread, ti: Instance, next: Links, flows: Flows, lists: seq<seq<FlowId>>, masks: MaskMap,
                 key: Key, masked: Key, m: MaskId)
    requires Holds(spread, ti, next, flows, lists, flows.Keys) && FlowsOk(hash, masks, flows) && m in masks
    requires AgreesUnder(key, masked, masks[m].mask)
    requires var b := BucketOf(spread, ti, RangeHash(hash, masked, masks[m].mask));
             forall f :: f in lists[b] && f in flows && flows[f].mask == m ==> !Matches(masks, flows[f], key)
    ensures forall f :: f in flows && flows[f].mask == m ==> !Matches(masks, flows[f], key)
  {
    forall f | f in flows && flows[f].mask == m ensures !Matches(masks, flows[f], key) {
      SameHash(hash, masks, flows[f], key, masked);
    }
  }

  /* The list of a bucket is searched for a flow with the mask, the hash and the masked key. */
  method SearchList(next: Links, first: Option<FlowId>, flows: Flows, ghost list: seq<FlowId>, m: MaskId, h: nat,
                    masked: Key, start: nat, end: nat) returns (r: Option<FlowId>)
    requires IsChain(next, first, list) && (forall f :: f in list ==> f in flows) && start <= end <= KEY_WORDS
    ensures r.Some? ==> r.value in list && Wanted(flows, r.value, m, h, masked, start, end)
    ensures r.None? ==> forall f :: f in list ==> !Wanted(flows, f, m, h, masked, start, end)
  {
    hide SameRange, IsChain, Wanted;
    r := first;
    ghost var k := 0;
    ChainStep(next, first, list, 0);
    while r.Some?
      invariant 0 <= k <= |list| && r == At(list, k)
      invariant forall j :: 0 <= j < k ==> !Wanted(flows, list[j], m, h, masked, start, end)
      decreases |list| - k
    {
      assert list[k] in list;
      ChainStep(next, first, list, k);
      WantedMeans(flows, r.value, m, h, masked, start, end);
      var f := flows[r.value];
      if f.mask == m && f.hash == h {
        var same := CompareKeys(f.key, masked, start, end);
        if same {
          return;
        }
      }
      r := next[r.value];
      k := k + 1;
    }
  }

  lemma ChainStep(next: Links, first: Option<FlowId>, list: seq<FlowId>, k: nat)
    requires IsChain(next, first, list)
    ensures first == At(list, 0) && (k < |list| ==> list[k] in next && next[list[k]] == At(list, k + 1))
  {
  }

  lemma WantedMeans(flows: Flows, f: FlowId, m: MaskId, h: nat, masked: Key, start: nat, end: nat)
    requires start <= end <= KEY_WORDS && f in flows
    ensures Wanted(flows, f, m, h, masked, start, end)
            <==> flows[f].mask == m && flows[f].hash == h && SameRange(flows[f].key, masked, start, end)
  {
  }

  predicate Wanted(flows: Flows, f: FlowId, m: MaskId, h: nat, masked: Key, start: nat, end: nat)
    requires start <= end <= KEY_WORDS
  {
    f in flows && flows[f].mask == m && flows[f].hash == h && SameRange(flows[f].key, masked, start, end)
  }

  lemma WantedMatches(hash: Jhash, masks: MaskMap, flows: Flows, f: FlowId, m: MaskId, key: Key, masked: Key)
    requires FlowsOk(hash, masks, flows) && m in masks && AgreesUnder(key, masked, masks[m].mask) && f in flows
    ensures var mask := masks[m].mask;
            Wanted(flows, f, m, RangeHash(hash, masked, mask), masked, mask.start, mask.end)
            <==> flows[f].mask == m && Matches(masks, flows[f], key)
  {
    hide AgreesUnder, SameRange, RangeHash;
    assert FlowOk(hash, masks, flows[f]);
    if flows[f].mask == m {
      SameHash(hash, masks, flows[f], key, masked);
    }
  }

  /* masked_flow_lookup() */
  method MaskedLookup(hash: Jhash, spread: Spread, ti: Instance, next: Links, flows: Flows, ghost lists: seq<seq<FlowId>>,
                      masks: MaskMap, key: Key, m: MaskId) returns (r: Option<FlowId>)
    requires Holds(spread, ti, next, flows, lists, flows.Keys) && FlowsOk(hash, masks, flows) && m in masks
    ensures r.Some? ==> r.value in flows && flows[r.value].mask == m && Matches(masks, flows[r.value], key)
    ensures r.None? ==> forall f :: f in flows && flows[f].mask == m ==> !Matches(masks, flows[f], key)
  {
    hide AgreesUnder, SameRange, FlowsOk, Matches, NoDuplicates, RangeHash, IsChain, Wanted;
    var mask := masks[m].mask;
    var dst := new Word[KEY_WORDS](_ => 0);
    MaskKey(dst, key, mask);
    var masked: Key := dst[..];
    var h := RangeHash(hash, masked, mask);
    var b := BucketOf(spread, ti, h);
    assert ListOk(spread, ti, next, flows, b, lists[b]);
    r := SearchList(next, ti.heads[b], flows, lists[b], m, h, masked, mask.start, mask.end);
    forall f | f in lists[b] ensures
      Wanted(flows, f, m, h, masked, mask.start, mask.end) <==> flows[f].mask == m && Matches(masks, flows[f], key)
    {
      WantedMatches(hash, masks, flows, f, m, key, masked);
    }
    if r.None? {
      InBucket(hash, spread, ti, next, flows, lists, masks, key, masked, m);
    }
  }

  /* flow_lookup(): tries the mask at 'index' first, whatever that is. */
  method FlowLookup(hash: Jhash, spread: Spread, ti: Instance, next: Links, flows: Flows, ghost lists: seq<seq<FlowId>>,
                    masks: MaskMap, slots: Slots, key: Key, index0: nat) returns (r: Option<FlowId>, index: nat)
    requires Holds(spread, ti, next, flows, lists, flows.Keys) && FlowsOk(hash, masks, flows)
    requires Stored(slots, masks) && forall f :: f in flows ==> flows[f].mask in masks
    ensures Correct(masks, flows, key, r)
    ensures if r.Some? then index < |slots| && slots[index] == Some(flows[r.value].mask) else index == index0
  {
    hide Holds, FlowsOk, Matches;
    index := index0;
    if index < |slots| && slots[index].Some? {
      assert slots[index] in slots;
      r := MaskedLookup(hash, spread, ti, next, flows, lists, masks, key, slots[index].value);
      if r.Some? {
        return;
      }
    }
    for i := 0 to |slots|
      invariant index == index0
      invariant index < |slots| ==> NotWith(masks, flows, key, slots[index])
      invariant forall j :: 0 <= j < i ==> NotWith(masks, flows, key, slots[j])
    {
      if i != index && slots[i].Some? {
        assert slots[i] in slots;
        r := MaskedLookup(hash, spread, ti, next, flows, lists, masks, key, slots[i].value);
        if r.Some? {
          index := i;
          return;
        }
      }
    }
    forall f | f in flows ensures !Matches(masks, flows[f], key) {
      assert Some(flows[f].mask) in slots;
      var i :| 0 <= i < |slots| && slots[i] == Some(flows[f].mask);
      assert NotWith(masks, flows, key, slots[i]);
    }
    r := None;
  }

  /* No flow with the mask matches. */
  ghost predicate NotWith(masks: MaskMap, flows: Flows, key: Key, m: Option<MaskId>)
  {
    m.Some? ==> forall f :: f in flows && flows[f].mask == m.value ==> !Matches(masks, flows[f], key)
  }

  // ---------------------------------------------------------------- rehashing

  /* 'f' is before position 'k' of bucket 'i'. */
  ghost predicate SeenBefore(lists: seq<seq<FlowId>>, i: nat, k: nat, f: FlowId)
  {
    (exists b :: 0 <= b < i && b < |lists| && f in lists[b]) || (i < |lists| && k <= |lists[i]| && f in lists[i][..k])
  }

  ghost function Seen(flows: Flows, lists: seq<seq<FlowId>>, i: nat, k: nat): set<FlowId>
  {
    set f | f in flows && SeenBefore(lists, i, k, f)
  }

  lemma SeenNone(flows: Flows, lists: seq<seq<FlowId>>)
    ensures Seen(flows, lists, 0, 0) == {}
  {
  }

  lemma SeenOne(spread: Spread, ti: Instance, next: Links, flows: Flows, lists: seq<seq<FlowId>>, i: nat, k: nat)
    requires Holds(spread, ti, next, flows, lists, flows.Keys) && i < |lists| && k < |lists[i]|
    ensures var f := lists[i][k];
            f in flows && f !in Seen(flows, lists, i, k) && Seen(flows, lists, i, k + 1) == Seen(flows, lists, i, k) + {f}
  {
    hide IsChain;
    var f := lists[i][k];
    assert ListOk(spread, ti, next, flows, i, lists[i]);
    assert f in lists[i];
    forall b | 0 <= b < i ensures f !in lists[b] {
      assert ListOk(spread, ti, next, flows, b, lists[b]);
    }
    assert lists[i][..k + 1] == lists[i][..k] + [f];
    assert f !in lists[i][..k];
  }

  lemma SeenBucket(flows: Flows, lists: seq<seq<FlowId>>, i: nat)
    requires i < |lists|
    ensures Seen(flows, lists, i, |lists[i]|) == Seen(flows, lists, i + 1, 0)
  {
    assert lists[i][..|lists[i]|] == lists[i];
    forall f ensures SeenBefore(lists, i, |lists[i]|, f) <==> SeenBefore(lists, i + 1, 0, f) {
    }
  }

  lemma SeenAll(spread: Spread, ti: Instance, next: Links, flows: Flows, lists: seq<seq<FlowId>>)
    requires Holds(spread, ti, next, flows, lists, flows.Keys)
    ensures Seen(flows, lists, |lists|, 0) == flows.Keys
  {
    hide ListOk;
    forall f | f in flows ensures SeenBefore(lists, |lists|, 0, f) {
      assert f in lists[BucketOf(spread, ti, flows[f].hash)];
    }
  }

  lemma EmptyInstance(spread: Spread, ti: Instance, next: Links, flows: Flows)
    requires forall b :: 0 <= b < |ti.heads| ==> ti.heads[b].None?
    ensures Holds(spread, ti, next, flows, seq(|ti.heads|, _ => []), {})
  {
  }

  /* The position in the old list, and what the new instance holds. */
  ghost predicate Copying(spread: Spread, source: Instance, target: Instance, node: seq<Links>, flows: Flows,
                          lists: seq<seq<FlowId>>, newLists: seq<seq<FlowId>>, i: nat, k: nat)
  {
    && |node| == 2 && target.ver == 1 - source.ver
    && Holds(spread, source, node[source.ver], flows, lists, flows.Keys)
    && Holds(spread, target, node[target.ver], flows, newLists, Seen(flows, lists, i, k))
  }

  /* Copying one flow writes its other link only. */
  lemma CopyOne(spread: Spread, source: Instance, target: Instance, node: seq<Links>, flows: Flows,
                lists: seq<seq<FlowId>>, newLists: seq<seq<FlowId>>, i: nat, k: nat)
    requires Copying(spread, source, target, node, flows, lists, newLists, i, k) && i < |lists| && k < |lists[i]|
    ensures var f := lists[i][k];
            && f in flows && |newLists| == |target.heads|
            && var b := BucketOf(spread, target, flows[f].hash);
               Copying(spread, source, Pushed(spread, target, f, flows[f].hash),
                       node[target.ver := node[target.ver][f := target.heads[b]]],
                       flows, lists, newLists[b := [f] + newLists[b]], i, k + 1)
  {
    hide ListOk, Seen;
    SeenOne(spread, source, node[source.ver], flows, lists, i, k);
    AddHead(spread, target, node[target.ver], flows, newLists, Seen(flows, lists, i, k), lists[i][k]);
  }

  /* All states of the links from 'node0' to 'node': none of them differs in link set 'ver', so in
     each of them the instance with that link set holds the same flows in the same lists. */
  ghost predicate Traced(trace: seq<seq<Links>>, node0: seq<Links>, node: seq<Links>, ver: nat)
    requires |node0| == 2 && ver < 2
  {
    && trace != [] && trace[0] == node0 && trace[|trace| - 1] == node
    && forall s :: s in trace ==> |s| == 2 && s[ver] == node0[ver]
  }

  lemma TraceBegin(node0: seq<Links>, ver: nat)
    requires |node0| == 2 && ver < 2
    ensures Traced([node0], node0, node0, ver)
  {
  }

  lemma TraceMore(trace: seq<seq<Links>>, node0: seq<Links>, before: seq<Links>, node: seq<Links>, ver: nat)
    requires |node0| == |node| == 2 && ver < 2 && node[ver] == node0[ver] && Traced(trace, node0, before, ver)
    ensures Traced(trace + [node], node0, node, ver)
  {
  }

  lemma TraceEnd(trace: seq<seq<Links>>, node0: seq<Links>, node: seq<Links>, ver: nat)
    requires |node0| == 2 && ver < 2 && Traced(trace, node0, node, ver)
    ensures |node| == 2 && node[ver] == node0[ver]
  {
    assert trace[|trace| - 1] in trace;
  }

  /* A lookup through the old instance is as good at any moment while flows are copied. */
  lemma CopyIsolated(spread: Spread, ti: Instance, node0: seq<Links>, node: seq<Links>, flows: Flows, lists: seq<seq<FlowId>>,
                     trace: seq<seq<Links>>, s: seq<Links>)
    requires |node0| == 2 && Traced(trace, node0, node, ti.ver) && s in trace
    requires Holds(spread, ti, node0[ti.ver], flows, lists, flows.Keys)
    ensures |s| == 2 && Holds(spread, ti, s[ti.ver], flows, lists, flows.Keys)
  {
  }

  /* flow_table_copy_flows(), which returns the new instance and all states of the links. */
  method CopyFlows(spread: Spread, source: Instance, node0: seq<Links>, flows: Flows, ghost lists: seq<seq<FlowId>>,
                   nBuckets: nat, seed: nat)
    returns (target: Instance, node: seq<Links>, ghost newLists: seq<seq<FlowId>>, ghost trace: seq<seq<Links>>)
    requires |node0| == 2 && Holds(spread, source, node0[source.ver], flows, lists, flows.Keys) && nBuckets > 0
    ensures target.ver == 1 - source.ver && |target.heads| == nBuckets
    ensures |node| == 2 && Holds(spread, target, node[target.ver], flows, newLists, flows.Keys)
    ensures Traced(trace, node0, node, source.ver)
  {
    hide Holds, Seen, Traced;
    TraceBegin(node0, source.ver);
    target := Instance(seq(nBuckets, _ => None), 1 - source.ver, seed);
    node := node0;
    newLists := seq(nBuckets, _ => []);
    trace := [node0];
    HoldsSize(spread, source, node0[source.ver], flows, lists);
    EmptyInstance(spread, target, node[target.ver], flows);
    SeenNone(flows, lists);
    for i := 0 to |source.heads|
      invariant |target.heads| == nBuckets && Copying(spread, source, target, node, flows, lists, newLists, i, 0)
      invariant node[source.ver] == node0[source.ver] && Traced(trace, node0, node, source.ver)
    {
      var cur := source.heads[i];
      ghost var k := 0;
      ListAt(spread, source, node0[source.ver], flows, lists, i);
      while cur.Some?
        invariant |target.heads| == nBuckets && 0 <= k <= |lists[i]| && cur == At(lists[i], k)
        invariant Copying(spread, source, target, node, flows, lists, newLists, i, k)
        invariant node[source.ver] == node0[source.ver] && Traced(trace, node0, node, source.ver)
        decreases |lists[i]| - k
      {
        var f := cur.value;
        CopyOne(spread, source, target, node, flows, lists, newLists, i, k);
        var b := BucketOf(spread, target, flows[f].hash);
        /* table_instance_insert() */
        newLists := newLists[b := [f] + newLists[b]];
        ghost var before := node;
        node := node[target.ver := node[target.ver][f := target.heads[b]]];
        target := Pushed(spread, target, f, flows[f].hash);
        TraceMore(trace, node0, before, node, source.ver);
        trace := trace + [node];
        cur := node[source.ver][f];
        k := k + 1;
      }
      SeenBucket(flows, lists, i);
    }
    SeenAll(spread, source, node0[source.ver], flows, lists);
  }

  lemma HoldsSize(spread: Spread, ti: Instance, next: Links, flows: Flows, lists: seq<seq<FlowId>>)
    requires Holds(spread, ti, next, flows, lists, flows.Keys)
    ensures |lists| == |ti.heads|
  {
  }

  lemma ListAt(spread: Spread, ti: Instance, next: Links, flows: Flows, lists: seq<seq<FlowId>>, i: nat)
    requires Holds(spread, ti, next, flows, lists, flows.Keys) && i < |ti.heads|
    ensures |lists| == |ti.heads| && IsChain(next, ti.heads[i], lists[i]) && forall f :: f in lists[i] ==> f in flows
  {
    assert ListOk(spread, ti, next, flows, i, lists[i]);
  }

  // ---------------------------------------------------------------- the table

  const MC_HASH_SHIFT: nat := 256
  const MC_HASH_ENTRIES: nat := 256
  const MC_HASH_SEGS: nat := 4

  /* struct mask_cache_entry */
  datatype CacheEntry = CacheEntry(skbHash: nat, maskIndex: nat)

  /* What may go wrong or be due: memory for a mask, for a mask array and for an instance (with
     its random seed), and whether it is time for a rehash. */
  datatype Env = Env(maskMemory: bool, arrayMemory: bool, seed: Option<nat>, rehashDue: bool)

  lemma HoldsMore(spread: Spread, ti: Instance, next: Links, flows: Flows, lists: seq<seq<FlowId>>, f: FlowId, flow: Flow)
    requires Holds(spread, ti, next, flows, lists, flows.Keys) && f !in flows
    ensures Holds(spread, ti, next, flows[f := flow], lists, flows.Keys)
  {
    hide IsChain;
    forall b | 0 <= b < |lists| ensures ListOk(spread, ti, next, flows[f := flow], b, lists[b]) {
      assert ListOk(spread, ti, next, flows, b, lists[b]);
    }
  }

  /* The entries of masks may change, except for the masks themselves. */
  lemma FlowsStillOk(hash: Jhash, masks: MaskMap, masks': MaskMap, flows: Flows)
    requires FlowsOk(hash, masks, flows)
    requires forall m :: m in masks && (exists f :: f in flows && flows[f].mask == m) ==> m in masks' && masks'[m].mask == masks[m].mask
    ensures FlowsOk(hash, masks', flows)
  {
    forall f | f in flows ensures FlowOk(hash, masks', flows[f]) {
      assert FlowOk(hash, masks, flows[f]);
    }
  }

  function Shifted(h: nat, seg: nat): nat
  {
    if seg == 0 then h else Shifted(h, seg - 1) / MC_HASH_SHIFT
  }

  /* The entry for a hash in each segment. */
  function EntryIn(h: nat, seg: nat): (e: nat)
    ensures e < MC_HASH_ENTRIES
  {
    Shifted(h, seg) % MC_HASH_ENTRIES
  }

  /* The four segments use the four bytes of a hash. */
  lemma EntriesAreBytes(h: nat)
    requires h < 0x1_0000_0000
    ensures h == EntryIn(h, 0) + 0x100 * EntryIn(h, 1) + 0x1_0000 * EntryIn(h, 2) + 0x100_0000 * EntryIn(h, 3)
  {
    assert Shifted(h, 1) == h / 0x100;
    assert Shifted(h, 2) == h / 0x100 / 0x100;
    assert Shifted(h, 3) == h / 0x100 / 0x100 / 0x100;
  }

  /* 'e' is the first entry with the hash, or else the first one of those with the smallest hash. */
  predicate Chosen(entries: seq<CacheEntry>, skbHash: nat, e: nat)
    requires |entries| == MC_HASH_ENTRIES
  {
    exists seg :: 0 <= seg < MC_HASH_SEGS && e == EntryIn(skbHash, seg) && ChosenIn(entries, skbHash, seg)
  }

  predicate ChosenIn(entries: seq<CacheEntry>, skbHash: nat, seg: nat)
    requires |entries| == MC_HASH_ENTRIES
  {
    var e := entries[EntryIn(skbHash, seg)];
    if e.skbHash == skbHash then forall i :: 0 <= i < seg ==> entries[EntryIn(skbHash, i)].skbHash != skbHash
    else forall i :: 0 <= i < MC_HASH_SEGS ==>
                       var x := entries[EntryIn(skbHash, i)].skbHash; x != skbHash && (if i < seg then e.skbHash < x else e.skbHash <= x)
  }

  /* The first entry of the segments before 'n' with the smallest hash. */
  predicate Smallest(entries: seq<CacheEntry>, skbHash: nat, n: nat, seg: nat)
    requires |entries| == MC_HASH_ENTRIES
  {
    var e := entries[EntryIn(skbHash, seg)];
    seg < n && forall i :: 0 <= i < n ==>
                             var x := entries[EntryIn(skbHash, i)].skbHash; x != skbHash && (if i < seg then e.skbHash < x else e.skbHash <= x)
  }

  /* No entry but 'e' differs. */
  predicate OnlyEntry(a: seq<CacheEntry>, b: seq<CacheEntry>, e: int)
  {
    |a| == |b| && forall i :: 0 <= i < |a| && i != e ==> a[i] == b[i]
  }

  /* A flow that was found has left an entry that leads to its mask.  Otherwise the entry is not
     for this hash. */
  predicate Cached(e: CacheEntry, flows: Flows, slots: Slots, skbHash: nat, r: Option<FlowId>)
  {
    if r.Some? then
      e.skbHash == skbHash && r.value in flows && e.maskIndex < |slots| && slots[e.maskIndex] == Some(flows[r.value].mask)
    else
      skbHash != 0 ==> e.skbHash != skbHash
  }

  class FlowTable {
    const hash: Jhash
    const spread: Spread
    var flows: Flows                          /* all flows in the table */
    var node: seq<Links>                      /* their two link sets */
    var ti: Instance
    var count: nat
    var masks: MaskMap                        /* all masks in the table */
    var slots: array<Option<MaskId>>          /* the mask array */
    var maskCount: nat
    const cache: array<CacheEntry>            /* the mask cache of one CPU */
    ghost var lists: seq<seq<FlowId>>

    ghost predicate Valid()
      reads this, slots
    {
      && |node| == 2 && Holds(spread, ti, node[ti.ver], flows, lists, flows.Keys) && count == |flows|
      && FlowsOk(hash, masks, flows) && MasksOk(slots[..], maskCount, masks, flows)
      && cache.Length == MC_HASH_ENTRIES
    }

    /* ovs_flow_tbl_init() */
    constructor (hash: Jhash, spread: Spread, nBuckets: nat, seed: nat)
      requires nBuckets > 0
      ensures Valid() && flows == map[] && masks == map[] && fresh(slots)
    {
      this.hash, this.spread := hash, spread;
      flows, node, count, masks, maskCount := map[], [map[], map[]], 0, map[], 0;
      ti := Instance(seq(nBuckets, _ => None), 0, seed);
      lists := seq(nBuckets, _ => []);
      slots := new Option<MaskId>[MASK_ARRAY_SIZE_MIN](_ => None);
      cache := new CacheEntry[MC_HASH_ENTRIES](_ => CacheEntry(0, 0));
      new;
      assert slots[..] == [] + Nulls(MASK_ARRAY_SIZE_MIN);
      UsedNulls([], MASK_ARRAY_SIZE_MIN);
      EmptyInstance(spread, ti, map[], map[]);
    }

    /* ovs_flow_tbl_lookup_stats().  The cache entries can hold anything. */
    method LookupStats(key: Key, skbHash0: nat, recircId: nat) returns (r: Option<FlowId>)
      requires Valid()
      modifies cache
      ensures Correct(masks, flows, key, r)
      ensures skbHash0 == 0 ==> cache[..] == old(cache[..])
      ensures skbHash0 != 0 ==>
                var skbHash := if recircId != 0 then spread(skbHash0, recircId) else skbHash0;
                exists e :: 0 <= e < cache.Length && Chosen(old(cache[..]), skbHash, e)
                            && OnlyEntry(old(cache[..]), cache[..], e) && Cached(cache[e], flows, slots[..], skbHash, r)
    {
      hide Holds, FlowsOk, Correct, Used, Distinct, Counted;
      MasksUsed(slots[..], maskCount, masks, flows);
      var index;
      if skbHash0 == 0 {
        r, index := FlowLookup(hash, spread, ti, node[ti.ver], flows, lists, masks, slots[..], key, 0);
        return;
      }
      /* Packets before and after recirculation have the same hash, so it is hashed again. */
      var skbHash := if recircId != 0 then spread(skbHash0, recircId) else skbHash0;
      var hit, e := FindEntry(skbHash);
      r, index := FlowLookup(hash, spread, ti, node[ti.ver], flows, lists, masks, slots[..], key, cache[e].maskIndex);
      FoundIsFlow(masks, flows, key, r);
      if hit {
        cache[e] := CacheEntry(if r.None? then 0 else cache[e].skbHash, index);
      } else {
        cache[e] := CacheEntry(if r.Some? then skbHash else cache[e].skbHash, index);
      }
      assert Cached(cache[e], flows, slots[..], skbHash, r);
      assert OnlyEntry(old(cache[..]), cache[..], e);
    }

    /* The loop of ovs_flow_tbl_lookup_stats() that finds the cache entry to use. */
    method FindEntry(skbHash: nat) returns (hit: bool, ce: nat)
      requires cache.Length == MC_HASH_ENTRIES
      ensures ce < cache.Length && Chosen(cache[..], skbHash, ce) && hit == (cache[ce].skbHash == skbHash)
    {
      ce := 0;
      var h := skbHash;
      ghost var entries, best := cache[..], 0;
      for seg := 0 to MC_HASH_SEGS
        invariant h == Shifted(skbHash, seg)
        invariant seg > 0 ==> ce == EntryIn(skbHash, best) && Smallest(entries, skbHash, seg, best)
      {
        var e := h % MC_HASH_ENTRIES;
        if cache[e].skbHash == skbHash {
          assert ChosenIn(entries, skbHash, seg);
          return true, e;
        }
        if seg == 0 || cache[e].skbHash < cache[ce].skbHash {
          ce, best := e, seg;
        }
        h := h / MC_HASH_SHIFT;
      }
      assert ChosenIn(entries, skbHash, best);
      return false, ce;
    }

    /* tbl_mask_array_realloc() */
    method ReallocSlots(size: nat, memory: bool) returns (ok: bool)
      requires Stored(slots[..], masks) && maskCount == Used(slots[..]) <= size && size >= MASK_ARRAY_SIZE_MIN
      modifies this`slots, this`maskCount
      ensures Stored(slots[..], masks) && maskCount == Used(slots[..]) == old(maskCount)
      ensures ok == memory && (ok ==> slots.Length == size && fresh(slots)) && (!ok ==> slots == old(slots))
    {
      hide Used, Stored;
      if !memory {
        return false;
      }
      var larger := new Option<MaskId>[size](_ => None);
      assert larger[..] == Nulls(size);
      maskCount := CopySlots(slots, larger);
      Reallocated(slots[..], masks, size);
      slots := larger;
      return true;
    }

    /* flow_mask_find() */
    method FindMask(mask: Mask) returns (r: Option<MaskId>)
      requires Stored(slots[..], masks)
      ensures r.Some? ==> r.value in masks && MaskEqual(mask, masks[r.value].mask)
      ensures r.None? ==> forall m :: m in masks ==> !MaskEqual(mask, masks[m].mask)
    {
      hide MaskEqual;
      for i := 0 to slots.Length
        invariant forall j :: 0 <= j < i && slots[j].Some? && slots[j].value in masks ==>
                                !MaskEqual(mask, masks[slots[j].value].mask)
      {
        if slots[i].Some? {
          assert slots[..][i] == slots[i];
          if MaskEqual(mask, masks[slots[i].value].mask) {
            return slots[i];
          }
        }
      }
      forall m | m in masks ensures !MaskEqual(mask, masks[m].mask) {
        assert Some(m) in slots[..];
      }
      return None;
    }

    /* The part of flow_mask_insert() that puts a new mask into the array. */
    method AddMask(m: MaskId, e: MaskEntry)
      requires Stored(slots[..], masks) && maskCount == Used(slots[..]) < slots.Length && m !in masks
      modifies this`masks, this`maskCount, slots
      ensures masks == old(masks)[m := e] && Stored(slots[..], masks) && maskCount == Used(slots[..])
    {
      hide Used, Stored;
      ghost var before := slots[..];
      RoomLeft(before);
      var i := 0;
      while slots[i].Some?
        invariant 0 <= i < slots.Length && exists j :: i <= j < slots.Length && slots[j].None?
        decreases slots.Length - i
      {
        i := i + 1;
      }
      StoredNew(before, masks, i, m, e);
      slots[i] := Some(m);
      assert slots[..] == before[i := Some(m)];
      masks := masks[m := e];
      maskCount := maskCount + 1;
    }

    /* flow_mask_insert() for the flow 'f'; a new mask would be 'newId'. */
    method InsertMask(f: FlowId, mask: Mask, newId: MaskId, e: Env) returns (r: Option<MaskId>)
      requires MasksOk(slots[..], maskCount, masks, flows) && f !in flows && newId !in masks
      modifies this`masks, this`maskCount, this`slots, slots
      ensures r.Some? ==> r.value in masks && MaskEqual(mask, masks[r.value].mask)
      ensures r.Some? ==> forall flow: Flow :: flow.mask == r.value ==> MasksOk(slots[..], maskCount, masks, flows[f := flow])
      ensures forall m :: m in old(masks) ==> m in masks && masks[m].mask == old(masks)[m].mask
      ensures r.None? ==> masks == old(masks) && MasksOk(slots[..], maskCount, masks, flows)
      ensures r.None? <==> && (forall m :: m in old(masks) ==> !MaskEqual(mask, old(masks)[m].mask))
                           && (!e.maskMemory || (old(maskCount) >= old(slots.Length) && !e.arrayMemory))
      ensures slots == old(slots) || fresh(slots)
    {
      hide Used, Stored, Distinct, Counted, MaskEqual;
      r := FindMask(mask);
      ghost var before := masks;
      if r.None? {
        if !e.maskMemory {
          return;
        }
        if maskCount >= slots.Length {
          UsedAtMost(slots[..]);
          var ok := ReallocSlots(slots.Length + MASK_ARRAY_SIZE_MIN, e.arrayMemory);
          if !ok {
            return;
          }
        }
        SelfEqual(mask);
        DistinctNew(masks, newId, mask);
        AddMask(newId, MaskEntry(mask, 1));
        r := Some(newId);
      } else {
        var m := r.value;
        var entry := masks[m].(refCount := masks[m].refCount + 1);
        StoredEntry(slots[..], masks, m, entry);
        DistinctEntry(masks, m, entry);
        masks := masks[m := entry];
      }
      forall flow: Flow | flow.mask == r.value ensures Counted(masks, flows[f := flow]) {
        CountedMore(before, flows, f, flow, masks[r.value].mask);
      }
    }

    /* The part of flow_key_insert() that puts the flow into its bucket. */
    method Link(f: FlowId, flow: Flow)
      requires |node| == 2 && Holds(spread, ti, node[ti.ver], flows, lists, flows.Keys) && count == |flows| && f !in flows
      modifies this`flows, this`lists, this`node, this`ti, this`count
      ensures flows == old(flows)[f := flow] && flows.Keys == old(flows).Keys + {f} && count == |flows|
      ensures |node| == 2 && Holds(spread, ti, node[ti.ver], flows, lists, flows.Keys) && |ti.heads| == old(|ti.heads|)
    {
      hide Holds;
      HoldsMore(spread, ti, node[ti.ver], flows, lists, f, flow);
      HoldsSize(spread, ti, node[ti.ver], flows, lists);
      ghost var held := flows.Keys;
      flows := flows[f := flow];
      AddHead(spread, ti, node[ti.ver], flows, lists, held, f);
      assert flows.Keys == held + {f};
      count := count + 1;
      /* table_instance_insert() */
      var b := BucketOf(spread, ti, flow.hash);
      lists := lists[b := [f] + lists[b]];
      var next: Links := node[ti.ver][f := ti.heads[b]];
      node := node[ti.ver := next];
      ti := Pushed(spread, ti, f, flow.hash);
    }

    /* ovs_flow_tbl_insert(), without the unique identifiers of flows. */
    method Insert(f: FlowId, key: Key, mask: Mask, newId: MaskId, e: Env) returns (ok: bool)
      requires Valid() && f !in flows && newId !in masks && AgreesUnder(key, key, mask)
      modifies this, slots
      ensures Valid()
      ensures ok ==> flows.Keys == old(flows).Keys + {f} && flows[f].key == key
      ensures ok ==> flows[f].mask in masks && MaskEqual(mask, masks[flows[f].mask].mask)
      ensures forall g :: g in old(flows) ==> g in flows && flows[g] == old(flows)[g]
      ensures ok && e.seed.Some? ==> |ti.heads| == old(|ti.heads|) * if count > old(|ti.heads|) then 2 else 1
      ensures !ok ==> flows == old(flows) && masks == old(masks)
      ensures !ok <==> && (forall m :: m in old(masks) ==> !MaskEqual(mask, old(masks)[m].mask))
                       && (!e.maskMemory || (old(maskCount) >= old(slots.Length) && !e.arrayMemory))
    {
      hide Holds, FlowsOk, MasksOk, MaskEqual, AgreesUnder;
      ghost var flows0, masks0 := flows, masks;
      var m := InsertMask(f, mask, newId, e);
      if m.None? {
        return false;
      }
      FlowsStillOk(hash, masks0, masks, flows);
      var flow := Flow(key, m.value, RangeHash(hash, key, masks[m.value].mask));
      FlowAdded(hash, masks, flows, f, flow, mask);
      Link(f, flow);
      /* More flows than buckets, or time for a new seed. */
      if count > |ti.heads| {
        Rehash(2 * |ti.heads|, e.seed);
      } else if e.rehashDue {
        Rehash(|ti.heads|, e.seed);
      }
      return true;
    }

    /* hlist_del_rcu() */
    method Unhook(f: FlowId)
      requires |node| == 2 && Holds(spread, ti, node[ti.ver], flows, lists, flows.Keys) && count == |flows| && f in flows
      modifies this`flows, this`lists, this`node, this`ti, this`count
      ensures flows == old(flows) - {f} && count == |flows|
      ensures |node| == 2 && Holds(spread, ti, node[ti.ver], flows, lists, flows.Keys)
    {
      hide Holds, IsChain, NoDuplicates;
      var b := BucketOf(spread, ti, flows[f].hash);
      ghost var k := Position(spread, ti, node[ti.ver], flows, lists, f);
      ghost var list := lists[b];
      var next := node[ti.ver];
      var first := ti.heads[b];
      ChainStep(next, first, list, k);
      Unlink(spread, ti, next, flows, lists, flows.Keys, b, k);
      OncePerList(spread, ti, next, flows, lists, b, k);
      ChainStep(next, first, list, 0);
      if first == Some(f) {
        ti := ti.(heads := ti.heads[b := next[f]]);
      } else {
        var prev := FindPrevious(next, first, list, k, f);
        var next': Links := next[prev := next[f]];
        node := node[ti.ver := next'];
      }
      lists := lists[b := Cut(list, k)];
      ghost var before := flows;
      flows := flows - {f};
      assert flows.Keys == before.Keys - {f};
      count := count - 1;
    }

    /* flow_mask_remove() for the flow 'f', which has been taken out of 'flows0'. */
    method RemoveMask(ghost flows0: Flows, ghost f: FlowId, m: MaskId, memory: bool)
      requires MasksOk(slots[..], maskCount, masks, flows0) && f in flows0 && flows0[f].mask == m
      modifies this`masks, this`maskCount, this`slots, slots
      ensures MasksOk(slots[..], maskCount, masks, flows0 - {f})
      ensures forall x :: x in old(masks) && (x != m || old(masks)[x].refCount > 1) ==>
                            x in masks && masks[x].mask == old(masks)[x].mask
      ensures forall x :: x in masks ==> x in old(masks)
    {
      hide Used, Stored, Distinct, Counted;
      CountedLess(masks, flows0, f);
      var entry := masks[m].(refCount := masks[m].refCount - 1);
      if entry.refCount > 0 {
        StoredEntry(slots[..], masks, m, entry);
        DistinctEntry(masks, m, entry);
        masks := masks[m := entry];
      } else {
        DeleteMask(m);
        /* At most a third of the slots is in use. */
        if slots.Length >= 2 * MASK_ARRAY_SIZE_MIN && maskCount <= slots.Length / 3 {
          var ok := ReallocSlots(slots.Length / 2, memory);
        }
      }
    }

    /* tbl_mask_array_delete_mask() */
    method DeleteMask(m: MaskId)
      requires Stored(slots[..], masks) && Distinct(masks) && maskCount == Used(slots[..]) && m in masks
      modifies this`masks, this`maskCount, slots
      ensures masks == old(masks) - {m} && Stored(slots[..], masks) && Distinct(masks) && maskCount == Used(slots[..])
    {
      hide Used;
      ghost var before := slots[..];
      assert Some(m) in before;
      var i := 0;
      while slots[i] != Some(m)
        invariant 0 <= i < slots.Length && exists j :: i <= j < slots.Length && slots[j] == Some(m)
        decreases slots.Length - i
      {
        i := i + 1;
      }
      StoredDrop(before, masks, i, m);
      slots[i] := None;
      assert slots[..] == before[i := None];
      maskCount := maskCount - 1;
      masks := masks - {m};
    }

    /* ovs_flow_tbl_remove(), without the unique identifiers of flows. */
    method Remove(f: FlowId, memory: bool)
      requires Valid() && f in flows
      modifies this, slots
      ensures Valid() && flows == old(flows) - {f}
    {
      hide Holds, MasksOk, FlowOk, Counted;
      ghost var flows0, masks0 := flows, masks;
      MasksUsed(slots[..], maskCount, masks, flows);
      StillUsed(masks0, flows0, f);
      FlowsLess(hash, masks0, flows0, f);
      var m := flows[f].mask;
      Unhook(f);
      RemoveMask(flows0, f, m, memory);
      FlowsStillOk(hash, masks0, masks, flows0 - {f});
    }

    /* table_instance_rehash(), unless there is no memory. */
    method Rehash(nBuckets: nat, seed: Option<nat>)
      requires Valid() && nBuckets > 0
      modifies this`ti, this`node, this`lists
      ensures Valid()
      ensures seed.None? ==> ti == old(ti) && node == old(node)
      ensures seed.Some? ==> |ti.heads| == nBuckets && ti.ver == 1 - old(ti.ver) && node[old(ti.ver)] == old(node[ti.ver])
    {
      hide Holds, FlowsOk, MasksOk;
      if seed.Some? {
        var target, node', newLists, trace := CopyFlows(spread, ti, node, flows, lists, nBuckets, seed.value);
        TraceEnd(trace, node, node', ti.ver);
        ti, node, lists := target, node', newLists;
      }
    }
  }

  /* The list element whose link is *pprev of 'f'. */
  method FindPrevious(next: Links, first: Option<FlowId>, ghost list: seq<FlowId>, ghost k: nat, f: FlowId) returns (prev: FlowId)
    requires IsChain(next, first, list) && 0 < k < |list| && list[k] == f && forall i :: 0 <= i < |list| && list[i] == f ==> i == k
    ensures prev == list[k - 1]
  {
    hide IsChain;
    ChainStep(next, first, list, 0);
    prev := first.value;
    ghost var i := 0;
    while next[prev] != Some(f)
      invariant 0 <= i < k && prev == list[i] && prev in next && next[prev] == At(list, i + 1)
      decreases k - i
    {
      prev := next[prev].value;
      i := i + 1;
      ChainStep(next, first, list, i);
    }
  }

  ghost function Position(spread: Spread, ti: Instance, next: Links, flows: Flows, lists: seq<seq<FlowId>>, f: FlowId): (k: nat)
    requires Holds(spread, ti, next, flows, lists, flows.Keys) && f in flows
    ensures var b := BucketOf(spread, ti, flows[f].hash);
            |lists| == |ti.heads| && IsChain(next, ti.heads[b], lists[b]) && k < |lists[b]| && lists[b][k] == f
  {
    var b := BucketOf(spread, ti, flows[f].hash);
    assert ListOk(spread, ti, next, flows, b, lists[b]);
    var k :| 0 <= k < |lists[b]| && lists[b][k] == f;
    k
  }

  lemma OncePerList(spread: Spread, ti: Instance, next: Links, flows: Flows, lists: seq<seq<FlowId>>, b: nat, k: nat)
    requires Holds(spread, ti, next, flows, lists, flows.Keys) && b < |lists| && k < |lists[b]|
    ensures forall i :: 0 <= i < |lists[b]| && lists[b][i] == lists[b][k] ==> i == k
  {
    assert ListOk(spread, ti, next, flows, b, lists[b]);
  }

  /* A mask that other flows use as well has more than one user. */
  lemma StillUsed(masks: MaskMap, flows: Flows, f: FlowId)
    requires Counted(masks, flows) && f in flows
    ensures forall g :: g in flows && g != f && flows[g].mask == flows[f].mask ==> masks[flows[f].mask].refCount > 1
  {
    var m := flows[f].mask;
    forall g | g in flows && g != f && flows[g].mask == m ensures masks[m].refCount > 1 {
      assert {f, g} <= Users(flows, m);
      assert |Users(flows, m) - {f, g}| == |Users(flows, m)| - |{f, g}|;
    }
  }

  lemma FlowsLess(hash: Jhash, masks: MaskMap, flows: Flows, f: FlowId)
    requires FlowsOk(hash, masks, flows)
    ensures FlowsOk(hash, masks, flows - {f})
  {
  }

  lemma UsedAtMost(s: Slots)
    ensures Used(s) <= |s|
  {
  }

  lemma SelfEqual(m: Mask)
    ensures MaskEqual(m, m)
  {
  }

  lemma DistinctNew(masks: MaskMap, m: MaskId, mask: Mask)
    requires Distinct(masks) && m !in masks && forall x :: x in masks ==> !MaskEqual(mask, masks[x].mask)
    ensures Distinct(masks[m := MaskEntry(mask, 1)])
  {
    var masks' := masks[m := MaskEntry(mask, 1)];
    forall a, b | a in masks' && b in masks' && a != b ensures !MaskEqual(masks'[a].mask, masks'[b].mask) {
      if a != m && b == m {
        assert !MaskEqual(mask, masks[a].mask);
      }
    }
  }

  lemma DistinctEntry(masks: MaskMap, m: MaskId, e: MaskEntry)
    requires Distinct(masks) && m in masks && e.mask == masks[m].mask
    ensures Distinct(masks[m := e])
  {
  }

  lemma FlowAdded(hash: Jhash, masks: MaskMap, flows: Flows, f: FlowId, flow: Flow, mask: Mask)
    requires FlowsOk(hash, masks, flows) && flow.mask in masks && MaskEqual(mask, masks[flow.mask].mask)
    requires AgreesUnder(flow.key, flow.key, mask) && flow.hash == RangeHash(hash, flow.key, masks[flow.mask].mask)
    ensures FlowsOk(hash, masks, flows[f := flow])
  {
    EqualMasksAgree(mask, masks[flow.mask].mask);
    var flows' := flows[f := flow];
    forall g | g in flows' ensures FlowOk(hash, masks, flows'[g]) {
    }
  }

  lemma FoundIsFlow(masks: MaskMap, flows: Flows, key: Key, r: Option<FlowId>)
    requires Correct(masks, flows, key, r)
    ensures r.Some? ==> r.value in flows
  {
  }

  lemma MasksUsed(s: Slots, count: nat, masks: MaskMap, flows: Flows)
    requires MasksOk(s, count, masks, flows)
    ensures Stored(s, masks) && Distinct(masks) && Counted(masks, flows) && forall f :: f in flows ==> flows[f].mask in masks
  {
  }
}
