/** The invariants that tie the classifier's shared structures to its subtables: the priority
    vector, the prefix tries and the metadata partitions. */
module ClassifierState {

  import opened Options
  import opened Tries
  import opened Flows
  import opened Subtables
  import opened SubtableChanges
  import opened Selection

  ghost predicate SubOk(hs: Hasher, st: Subtable, tries: seq<ClsTrie>, mask: Flow)
  {
    st.mask == mask && Indexed(hs, st) && PlensOk(st, tries) && MaxOk(st) && st.chains != map[]
  }

  ghost predicate SubsOk(hs: Hasher, subs: Tables, tries: seq<ClsTrie>)
  {
    forall m :: m in subs ==> SubOk(hs, subs[m], tries, m)
  }

  /* The chains of all subtables. */
  type Heads = set<(Flow, Flow)>

  ghost function HeadsOf(subs: Tables): Heads
  {
    set m, k | m in subs && k in subs[m].chains :: (m, k)
  }

  // ---------------------------------------------------------------- tries

  /* What a trie on 'field' stores for a chain. */
  ghost function PrefixIn(field: Field, head: (Flow, Flow)): Option<Bits>
  {
    if field.Ok() && CidrLen(field.Value(head.0)) > 0
    then Some(field.Value(head.1)[..CidrLen(field.Value(head.0))]) else None
  }

  /* The chains that the trie counts at prefix 'p'. */
  ghost function Users(heads: Heads, field: Field, p: Bits): Heads
  {
    set h | h in heads && PrefixIn(field, h) == Some(p)
  }

  ghost predicate TrieCounts(heads: Heads, trie: ClsTrie)
  {
    && trie.field.Ok() && WellFormed(trie.root)
    && forall p :: Count(trie.root, p) == |Users(heads, trie.field, p)|
  }

  ghost predicate TriesOk(heads: Heads, tries: seq<ClsTrie>)
  {
    forall j :: 0 <= j < |tries| ==> TrieCounts(heads, tries[j])
  }

  lemma UsersAlso(heads: Heads, h: (Flow, Flow), field: Field, p: Bits)
    requires h !in heads
    ensures |Users(heads + {h}, field, p)| == |Users(heads, field, p)| + if PrefixIn(field, h) == Some(p) then 1 else 0
  {
    hide PrefixIn;
    assert Users(heads + {h}, field, p) == Users(heads, field, p) + if PrefixIn(field, h) == Some(p) then {h} else {};
  }

  /* The prefix length that a subtable uses for the trie. */
  lemma PlenAt(st: Subtable, tries: seq<ClsTrie>, j: nat, k: Flow)
    requires PlensOk(st, tries) && j < |tries|
    ensures st.triePlens[j] <= tries[j].field.nBits
    ensures PrefixIn(tries[j].field, (st.mask, k))
         == if st.triePlens[j] > 0 then Some(tries[j].field.Value(k)[..st.triePlens[j]]) else None
  {
  }

  /* Adding a chain's prefix, of length 'plen', to a trie. */
  method CountIn(ghost heads: Heads, ghost m: Flow, k: Flow, plen: nat, trie: ClsTrie) returns (trie2: ClsTrie)
    requires TrieCounts(heads, trie) && (m, k) !in heads && plen <= trie.field.nBits
    requires PrefixIn(trie.field, (m, k)) == if plen > 0 then Some(trie.field.Value(k)[..plen]) else None
    ensures trie2.field == trie.field && TrieCounts(heads + {(m, k)}, trie2)
  {
    hide Users, PrefixIn;
    trie2 := trie;
    if plen > 0 {
      var root := InsertPrefix(trie.root, trie.field.Value(k)[..plen]);
      trie2 := trie.(root := root);
    }
    forall p ensures Count(trie2.root, p) == |Users(heads + {(m, k)}, trie.field, p)| {
      UsersAlso(heads, (m, k), trie.field, p);
    }
  }

  /* Taking a chain's prefix out of a trie; it is there. */
  method CountOut(ghost heads: Heads, ghost m: Flow, k: Flow, plen: nat, trie: ClsTrie) returns (trie2: ClsTrie)
    requires TrieCounts(heads + {(m, k)}, trie) && (m, k) !in heads && plen <= trie.field.nBits
    requires PrefixIn(trie.field, (m, k)) == if plen > 0 then Some(trie.field.Value(k)[..plen]) else None
    ensures trie2.field == trie.field && TrieCounts(heads, trie2)
  {
    hide Users, PrefixIn;
    trie2 := trie;
    if plen > 0 {
      UsersAlso(heads, (m, k), trie.field, trie.field.Value(k)[..plen]);
      var root, found, depth := RemovePrefix(trie.root, trie.field.Value(k)[..plen]);
      trie2 := trie.(root := root);
    }
    forall p ensures Count(trie2.root, p) == |Users(heads, trie.field, p)| {
      UsersAlso(heads, (m, k), trie.field, p);
    }
  }

  ghost predicate SameFields(tries: seq<ClsTrie>, tries2: seq<ClsTrie>)
  {
    |tries2| == |tries| && forall j :: 0 <= j < |tries| ==> tries2[j].field == tries[j].field
  }

  /* The loops over all tries in classifier_replace() and classifier_remove(). */
  method CountInAll(ghost heads: Heads, k: Flow, st: Subtable, tries: seq<ClsTrie>) returns (tries2: seq<ClsTrie>)
    requires TriesOk(heads, tries) && (st.mask, k) !in heads && PlensOk(st, tries)
    ensures SameFields(tries, tries2) && TriesOk(heads + {(st.mask, k)}, tries2)
  {
    hide TrieCounts, PrefixIn;
    tries2 := tries;
    for j := 0 to |tries|
      invariant SameFields(tries, tries2)
      invariant forall x :: 0 <= x < j ==> TrieCounts(heads + {(st.mask, k)}, tries2[x])
      invariant forall x :: j <= x < |tries| ==> tries2[x] == tries[x]
    {
      PlenAt(st, tries, j, k);
      var trie := CountIn(heads, st.mask, k, st.triePlens[j], tries2[j]);
      tries2 := tries2[j := trie];
    }
  }

  method CountOutAll(ghost heads: Heads, k: Flow, st: Subtable, tries: seq<ClsTrie>) returns (tries2: seq<ClsTrie>)
    requires TriesOk(heads + {(st.mask, k)}, tries) && (st.mask, k) !in heads && PlensOk(st, tries)
    ensures SameFields(tries, tries2) && TriesOk(heads, tries2)
  {
    hide TrieCounts, PrefixIn;
    tries2 := tries;
    for j := 0 to |tries|
      invariant SameFields(tries, tries2)
      invariant forall x :: 0 <= x < j ==> TrieCounts(heads, tries2[x])
      invariant forall x :: j <= x < |tries| ==> tries2[x] == tries[x]
    {
      PlenAt(st, tries, j, k);
      var trie := CountOut(heads, st.mask, k, st.triePlens[j], tries2[j]);
      tries2 := tries2[j := trie];
    }
  }

  /* Only the tries' fields matter for a subtable's prefix lengths. */
  lemma SubsOkFields(hs: Hasher, subs: Tables, tries: seq<ClsTrie>, tries2: seq<ClsTrie>)
    requires SubsOk(hs, subs, tries) && SameFields(tries, tries2)
    ensures SubsOk(hs, subs, tries2)
  {
    hide Indexed, MaxOk;
    forall m | m in subs ensures SubOk(hs, subs[m], tries2, m) {
      assert SubOk(hs, subs[m], tries, m);
    }
  }

  lemma UsersInTrie(heads: Heads, trie: ClsTrie, h: (Flow, Flow), p: Bits)
    requires TrieCounts(heads, trie) && h in heads && PrefixIn(trie.field, h) == Some(p)
    ensures Count(trie.root, p) > 0
  {
    assert h in Users(heads, trie.field, p);
  }

  lemma TrieBounded(heads: Heads, trie: ClsTrie)
    requires TrieCounts(heads, trie)
    ensures TrieOk(trie)
  {
    forall p | Count(trie.root, p) > 0 ensures |p| <= trie.field.nBits {
      assert Users(heads, trie.field, p) != {};
    }
  }

  /* Every subtable is searchable. */
  lemma AllSearchable(hs: Hasher, subs: Tables, tries: seq<ClsTrie>, m: Flow)
    requires SubsOk(hs, subs, tries) && TriesOk(HeadsOf(subs), tries) && m in subs
    ensures Searchable(hs, subs[m], tries)
  {
    var st, heads := subs[m], HeadsOf(subs);
    assert SubOk(hs, st, tries, m);
    hide TrieCounts, TrieOk, PrefixIn, HeadsOf, MaxOk, ChainsOk, CmapsOk, PortsOk;
    forall j, k | 0 <= j < |tries| && st.triePlens[j] > 0 && k in st.chains
      ensures Count(tries[j].root, tries[j].field.Value(k)[..st.triePlens[j]]) > 0
    {
      PlenAt(st, tries, j, k);
      IsHead(subs, m, k);
      UsersInTrie(heads, tries[j], (m, k), tries[j].field.Value(k)[..st.triePlens[j]]);
    }
    forall j | 0 <= j < |tries| ensures TrieOk(tries[j]) {
      TrieBounded(heads, tries[j]);
    }
  }

  lemma IsHead(subs: Tables, m: Flow, k: Flow)
    requires m in subs && k in subs[m].chains
    ensures (m, k) in HeadsOf(subs)
  {
  }

  // ---------------------------------------------------------------- partitions

  predicate ExactMetadata(mask: Flow)
  {
    forall i :: 64 * METADATA_OFS64 <= i < 64 * METADATA_OFS64 + 64 ==> mask[i]
  }

  /* struct cls_partition: for one metadata value, the subtables of the chains with it. */
  type Partition = multiset<Flow>
  type Partitions = map<Bits, Partition>

  function PartitionFor(parts: Partitions, v: Bits): Partition
  {
    if v in parts then parts[v] else multiset{}
  }

  ghost function WithMetadata(heads: Heads, v: Bits, m: Flow): Heads
  {
    set h | h in heads && h.0 == m && ExactMetadata(m) && Metadata(h.1) == v
  }

  ghost predicate PartsOk(heads: Heads, parts: Partitions)
  {
    && (forall v, m :: PartitionFor(parts, v)[m] == |WithMetadata(heads, v, m)|)
    && (forall v :: v in parts ==> parts[v] != multiset{})
  }

  lemma MetadataAlso(heads: Heads, m: Flow, k: Flow, v: Bits, x: Flow)
    requires (m, k) !in heads
    ensures |WithMetadata(heads + {(m, k)}, v, x)|
         == |WithMetadata(heads, v, x)| + if x == m && ExactMetadata(m) && Metadata(k) == v then 1 else 0
  {
    hide ExactMetadata, Metadata;
    var one := if x == m && ExactMetadata(m) && Metadata(k) == v then {(m, k)} else {};
    assert WithMetadata(heads + {(m, k)}, v, x) == WithMetadata(heads, v, x) + one;
  }

  /* create_partition() */
  function Join(parts: Partitions, m: Flow, k: Flow): Partitions
  {
    if ExactMetadata(m) then parts[Metadata(k) := PartitionFor(parts, Metadata(k)) + multiset{m}] else parts
  }

  /* ... and its opposite, which drops a partition that is no longer used. */
  function Leave(parts: Partitions, m: Flow, k: Flow): Partitions
  {
    if !ExactMetadata(m) then parts
    else
      var rest := PartitionFor(parts, Metadata(k)) - multiset{m};
      if rest == multiset{} then parts - {Metadata(k)} else parts[Metadata(k) := rest]
  }

  lemma JoinCount(parts: Partitions, m: Flow, k: Flow, v: Bits, x: Flow)
    ensures PartitionFor(Join(parts, m, k), v)[x]
         == PartitionFor(parts, v)[x] + if x == m && ExactMetadata(m) && Metadata(k) == v then 1 else 0
  {
    hide ExactMetadata, Metadata;
  }

  lemma LeaveCount(parts: Partitions, m: Flow, k: Flow, v: Bits, x: Flow)
    requires ExactMetadata(m) ==> PartitionFor(parts, Metadata(k))[m] > 0
    ensures PartitionFor(Leave(parts, m, k), v)[x]
         == PartitionFor(parts, v)[x] - if x == m && ExactMetadata(m) && Metadata(k) == v then 1 else 0
  {
    hide ExactMetadata, Metadata;
    var rest := PartitionFor(parts, Metadata(k)) - multiset{m};
    if ExactMetadata(m) && v == Metadata(k) {
      assert PartitionFor(Leave(parts, m, k), v) == rest;
    }
  }

  lemma JoinOk(heads: Heads, parts: Partitions, m: Flow, k: Flow)
    requires (m, k) !in heads && PartsOk(heads, parts)
    ensures PartsOk(heads + {(m, k)}, Join(parts, m, k))
  {
    var parts2 := Join(parts, m, k);
    assert forall v :: v in parts2 ==> parts2[v] != multiset{} by {
      hide ExactMetadata, Metadata, WithMetadata;
      assert m in PartitionFor(parts, Metadata(k)) + multiset{m};
    }
    hide WithMetadata, ExactMetadata, Metadata, Join, PartitionFor;
    forall v, x ensures PartitionFor(parts2, v)[x] == |WithMetadata(heads + {(m, k)}, v, x)| {
      MetadataAlso(heads, m, k, v, x);
      JoinCount(parts, m, k, v, x);
    }
  }

  lemma LeaveOk(heads: Heads, parts: Partitions, m: Flow, k: Flow)
    requires (m, k) !in heads && PartsOk(heads + {(m, k)}, parts)
    ensures PartsOk(heads, Leave(parts, m, k))
  {
    assert ExactMetadata(m) ==> PartitionFor(parts, Metadata(k))[m] > 0 by {
      MetadataAlso(heads, m, k, Metadata(k), m);
    }
    hide WithMetadata, ExactMetadata, Metadata, PartitionFor;
    assert forall v :: v in Leave(parts, m, k) ==> Leave(parts, m, k)[v] != multiset{};
    hide Leave;
    forall v, x ensures PartitionFor(Leave(parts, m, k), v)[x] == |WithMetadata(heads, v, x)| {
      MetadataAlso(heads, m, k, v, x);
      LeaveCount(parts, m, k, v, x);
    }
  }

  /* A tag has two of 32 bits (tag_create_deterministic()). */
  function Tag(seed: nat): (t: set<nat>)
    ensures |t| == 2 && forall b :: b in t ==> b < 32
  {
    var x := seed % 32;
    var y0 := seed / 32 % 31;
    var y := if y0 >= x then y0 + 1 else y0;
    assert |{x} + {y}| == 2;
    {x, y}
  }

  const ALL_TAGS: set<nat> := set b: nat | b < 32

  /* A subtable that does not match metadata exactly has all tags. */
  function TagOf(seed: Flow -> nat, mask: Flow): set<nat>
  {
    if ExactMetadata(mask) then Tag(seed(mask)) else ALL_TAGS
  }

  /* The tags that a flow can match: of its partition, or arbitrary ones if it has none. */
  function TagsFor(seed: Flow -> nat, parts: Partitions, f: Flow): set<nat>
  {
    if Metadata(f) in parts then set b, m | m in parts[Metadata(f)] && b in TagOf(seed, m) :: b
    else {0, 1}
  }

  predicate TagsIntersect(a: set<nat>, b: set<nat>)
  {
    |a * b| >= 2
  }

  /* Subtables outside of the flow's partition have no match for it. */
  lemma SkippedHasNoMatch(seed: Flow -> nat, subs: Tables, parts: Partitions, m: Flow, f: Flow)
    requires PartsOk(HeadsOf(subs), parts) && m in subs && subs[m].mask == m
    requires !TagsIntersect(TagsFor(seed, parts, f), TagOf(seed, m))
    ensures MatchIn(subs[m], f) == []
  {
    if !ExactMetadata(m) {
      AllTagsIntersect(seed, parts, HeadsOf(subs), f, m);
    } else {
      var k := Masked(f, m);
      if k in subs[m].chains {
        assert Metadata(k) == Metadata(f);
        IsHead(subs, m, k);
        InPartition(HeadsOf(subs), parts, m, k);
        TagIncluded(seed, parts, f, m);
      }
    }
  }

  lemma InPartition(heads: Heads, parts: Partitions, m: Flow, k: Flow)
    requires PartsOk(heads, parts) && (m, k) in heads && ExactMetadata(m)
    ensures m in PartitionFor(parts, Metadata(k))
  {
    assert (m, k) in WithMetadata(heads, Metadata(k), m);
  }

  lemma TagIncluded(seed: Flow -> nat, parts: Partitions, f: Flow, m: Flow)
    requires m in PartitionFor(parts, Metadata(f))
    ensures TagsFor(seed, parts, f) * TagOf(seed, m) == TagOf(seed, m)
    ensures |TagOf(seed, m)| >= 2
  {
    assert TagOf(seed, m) <= TagsFor(seed, parts, f);
    if !ExactMetadata(m) {
      assert {0, 1} <= TagOf(seed, m);
      SubsetSize({0, 1}, TagOf(seed, m));
    }
  }

  lemma AllTagsIntersect(seed: Flow -> nat, parts: Partitions, heads: Heads, f: Flow, m: Flow)
    requires !ExactMetadata(m) && PartsOk(heads, parts)
    ensures TagsIntersect(TagsFor(seed, parts, f), TagOf(seed, m))
  {
    var tags := TagsFor(seed, parts, f);
    if Metadata(f) in parts {
      var x :| x in parts[Metadata(f)];
      TagIncluded(seed, parts, f, x);
      assert TagOf(seed, x) <= tags * TagOf(seed, m);
      SubsetSize(TagOf(seed, x), tags * TagOf(seed, m));
    } else {
      assert tags * TagOf(seed, m) == {0, 1};
    }
  }

  predicate SameMetadata(f: Flow, g: Flow)
  {
    forall i :: 64 * METADATA_OFS64 <= i < 64 * METADATA_OFS64 + 64 ==> f[i] == g[i]
  }

  lemma MetadataBits(f: Flow, g: Flow)
    requires Metadata(f) == Metadata(g)
    ensures SameMetadata(f, g)
  {
    var ofs := 64 * METADATA_OFS64;
    assert forall i :: ofs <= i < ofs + 64 ==> f[i] == Metadata(f)[i - ofs] && g[i] == Metadata(g)[i - ofs];
  }

  /* No rule with the flow's metadata is in a subtable with this tag, or with one of its bits. */
  ghost predicate TagUnused(seed: Flow -> nat, heads: Heads, f: Flow, t: set<nat>)
  {
    forall m, k :: (m, k) in heads && ExactMetadata(m) && SameMetadata(k, f) ==> Tag(seed(m)) !! t
  }

  /* Subtables that match all 64 bits of the metadata are skipped if their tag shows that they have no rules
     for those of the flow. */
  lemma OutsideIsSkipped(seed: Flow -> nat, heads: Heads, parts: Partitions, m: Flow, f: Flow)
    requires PartsOk(heads, parts) && forall i :: 64 * METADATA_OFS64 <= i < 64 * METADATA_OFS64 + 64 ==> m[i]
    requires if Metadata(f) in parts then TagUnused(seed, heads, f, Tag(seed(m))) else Tag(seed(m)) != {0, 1}
    ensures !TagsIntersect(TagsFor(seed, parts, f), TagOf(seed, m))
  {
    hide Metadata, Tag;
    var tags, t := TagsFor(seed, parts, f), Tag(seed(m));
    if Metadata(f) in parts {
      forall x | x in parts[Metadata(f)] ensures TagOf(seed, x) !! t {
        assert PartitionFor(parts, Metadata(f))[x] == |WithMetadata(heads, Metadata(f), x)| > 0;
        var h :| h in WithMetadata(heads, Metadata(f), x);
        MetadataBits(h.1, f);
        assert (x, h.1) in heads && ExactMetadata(x);
      }
      assert tags * t == {};
    } else {
      OnlyBoth(t);
    }
  }

  lemma OnlyBoth(t: set<nat>)
    requires |t| == 2 && t != {0, 1}
    ensures |{0, 1} * t| < 2
  {
    PairIs(t);
    SubsetSize({0, 1} * t, if 0 in t then {0} else {1});
  }

  lemma PairIs(t: set<nat>)
    requires |t| == 2
    ensures 0 in t && 1 in t ==> t == {0, 1}
  {
    if 0 in t && 1 in t {
      var rest := t - {0, 1};
      assert t == {0, 1} + rest;
      assert |rest| == 0;
    }
  }

  lemma SubsetSize<T>(a: set<T>, b: set<T>)
    requires a <= b
    ensures |a| <= |b|
  {
    assert b == a + (b - a);
  }

  // ---------------------------------------------------------------- priority order

  ghost predicate Sorted(order: seq<Entry>)
  {
    forall i, j :: 0 <= i < j < |order| ==> order[i].priority >= order[j].priority
  }

  ghost predicate Distinct(order: seq<Entry>)
  {
    forall i, j :: 0 <= i < j < |order| ==> order[i].mask != order[j].mask
  }

  /* The vector holds every subtable, at its highest priority, in descending order. */
  ghost predicate OrderOk(order: seq<Entry>, pris: map<Flow, Priority>)
  {
    && Sorted(order) && Distinct(order)
    && forall e :: e in order <==> e.mask in pris && pris[e.mask] == e.priority
  }

  function Pris(subs: Tables): map<Flow, Priority>
  {
    map m | m in subs :: subs[m].maxPriority
  }

  /* pvector_remove() */
  function Without(order: seq<Entry>, m: Flow): (r: seq<Entry>)
    ensures |r| <= |order|
    ensures forall e :: e in r <==> e in order && e.mask != m
  {
    if order == [] then []
    else if order[0].mask == m then Without(order[1..], m)
    else [order[0]] + Without(order[1..], m)
  }

  /* The place of a new entry in the sorted vector. */
  function Insert(order: seq<Entry>, e: Entry): (r: seq<Entry>)
    ensures |r| == |order| + 1
    ensures forall x :: x in r <==> x in order || x == e
  {
    if order == [] || order[0].priority < e.priority then [e] + order
    else [order[0]] + Insert(order[1..], e)
  }

  lemma {:induction false} WithoutKeeps(order: seq<Entry>, m: Flow)
    requires Sorted(order) && Distinct(order)
    ensures Sorted(Without(order, m)) && Distinct(Without(order, m))
  {
    if order != [] {
      FirstIsBest(order);
      WithoutKeeps(order[1..], m);
      ConsKeeps(order[0], Without(order[1..], m));
    }
  }

  lemma ConsKeeps(e: Entry, some: seq<Entry>)
    requires Sorted(some) && Distinct(some)
    requires forall x :: x in some ==> x.priority <= e.priority && x.mask != e.mask
    ensures Sorted([e] + some) && Distinct([e] + some)
  {
  }

  lemma FirstIsBest(order: seq<Entry>)
    requires Sorted(order) && Distinct(order) && order != []
    ensures forall x :: x in order[1..] ==> x.priority <= order[0].priority && x.mask != order[0].mask
    ensures Sorted(order[1..]) && Distinct(order[1..])
  {
  }

  lemma {:induction false} InsertKeeps(order: seq<Entry>, e: Entry)
    requires Sorted(order) && Distinct(order) && forall x :: x in order ==> x.mask != e.mask
    ensures Sorted(Insert(order, e)) && Distinct(Insert(order, e))
  {
    if order != [] {
      FirstIsBest(order);
      if order[0].priority < e.priority {
        assert forall x :: x in order ==> x == order[0] || x in order[1..];
        ConsKeeps(e, order);
      } else {
        InsertKeeps(order[1..], e);
        ConsKeeps(order[0], Insert(order[1..], e));
      }
    }
  }

  /* pvector_insert() and pvector_change_priority() */
  function Place(order: seq<Entry>, m: Flow, pri: Priority): seq<Entry>
  {
    Insert(Without(order, m), Entry(m, pri))
  }

  lemma PlaceOk(order: seq<Entry>, pris: map<Flow, Priority>, m: Flow, pri: Priority)
    requires OrderOk(order, pris)
    ensures OrderOk(Place(order, m, pri), pris[m := pri])
  {
    WithoutKeeps(order, m);
    InsertKeeps(Without(order, m), Entry(m, pri));
  }

  lemma WithoutOk(order: seq<Entry>, pris: map<Flow, Priority>, m: Flow)
    requires OrderOk(order, pris)
    ensures OrderOk(Without(order, m), pris - {m})
  {
    WithoutKeeps(order, m);
  }

  // ---------------------------------------------------------------- rules

  /* All rules of a classifier. */
  ghost function AllRules(subs: Tables): set<Rule>
  {
    set m, k, r | m in subs && k in subs[m].chains && r in subs[m].chains[k] :: r
  }

  /* 'r' is in the chain for its mask and flow. */
  predicate Has(subs: Tables, r: Rule)
  {
    r.mask in subs && r.flow in subs[r.mask].chains && r in subs[r.mask].chains[r.flow]
  }

  lemma RulesAreWhereTheyBelong(hs: Hasher, subs: Tables, tries: seq<ClsTrie>)
    requires SubsOk(hs, subs, tries)
    ensures forall r :: r in AllRules(subs) <==> Has(subs, r)
  {
    hide CmapsOk, PortsOk, PlensOk, MaxOk;
    forall m, k, r | m in subs && k in subs[m].chains && r in subs[m].chains[k]
      ensures r.mask == m && r.flow == k
    {
      assert SubOk(hs, subs[m], tries, m);
      assert ChainOk(m, k, subs[m].chains[k]);
    }
  }

  lemma RuleIsWhereItBelongs(hs: Hasher, subs: Tables, tries: seq<ClsTrie>, r: Rule)
    requires SubsOk(hs, subs, tries)
    ensures r in AllRules(subs) <==> Has(subs, r)
  {
    RulesAreWhereTheyBelong(hs, subs, tries);
  }
}
