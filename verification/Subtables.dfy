/** One subtable of the classifier (struct cls_subtable): the rules that share a mask, found
    through staged hash indices, the classifier's prefix tries and the subtable's ports trie. */
module Subtables {

  import opened Options
  import opened Tries
  import opened Flows

  const INT_MIN: int := -0x8000_0000
  const INT_MAX: int := 0x7fff_ffff

  type Priority = p: int | INT_MIN <= p <= INT_MAX witness 0

  type ConjId = b: Bits | |b| == 32 witness seq(32, _ => false)

  datatype Conjunction = Conjunction(id: ConjId, clause: nat, nClauses: nat)

  /* struct cls_rule, with the conjunctions of its cls_match. */
  datatype Rule = Rule(name: nat, priority: Priority, flow: Flow, mask: Flow, conj: seq<Conjunction>)

  /* A match specifies no values for wildcarded bits; clients should not use INT_MIN. */
  predicate RuleOk(r: Rule)
  {
    Masked(r.flow, r.mask) == r.flow && r.priority > INT_MIN
  }

  /* Rules that differ only in priority, highest first. */
  type Chain = seq<Rule>

  function HeadPri(c: Chain): Priority
  {
    if c == [] then INT_MIN else c[0].priority
  }

  /* A cmap of chains by hash.  A chain is known by the flow that it matches. */
  type Cmap = map<nat, set<Flow>>

  function Nodes(m: Cmap, hash: nat): set<Flow>
  {
    if hash in m then m[hash] else {}
  }

  datatype Subtable = Subtable(
    mask: Flow,
    stages: seq<nat>,           /* index_ofs: u64 segment boundaries */
    triePlens: seq<nat>,        /* prefix length of each trie's field in 'mask', or 0 */
    portsLen: nat,              /* ports_mask_len */
    portsTrie: Trie,
    chains: map<Flow, Chain>,
    rules: Cmap,
    indices: seq<Cmap>,
    maxPriority: Priority,
    maxCount: nat)

  /* struct cls_trie */
  datatype ClsTrie = ClsTrie(field: Field, root: Trie)

  /* struct trie_ctx */
  datatype TrieCtx = TrieCtx(done: bool, maskbits: nat, plens: Bits)

  /* The chain in 'st' that 'f' matches: what a search through all of 'st' would find. */
  function MatchIn(st: Subtable, f: Flow): Chain
  {
    var k := Masked(f, st.mask);
    if k in st.chains then st.chains[k] else []
  }

  // ---------------------------------------------------------------- invariants

  ghost predicate ChainOk(mask: Flow, k: Flow, c: Chain)
  {
    && c != []
    && (forall i :: 0 <= i < |c| ==> c[i].flow == k && c[i].mask == mask && RuleOk(c[i]))
    && (forall i, j :: 0 <= i < j < |c| ==> c[i].priority > c[j].priority)
  }

  ghost predicate ChainsOk(st: Subtable)
  {
    forall k :: k in st.chains ==> ChainOk(st.mask, k, st.chains[k]) && Masked(k, st.mask) == k
  }

  /* 'm' holds exactly 'keys', each under its hash of the words below 'end'. */
  ghost predicate CmapOk(hs: Hasher, m: Cmap, keys: set<Flow>, mask: Flow, end: nat)
    requires end <= FLOW_U64S
  {
    forall h, k :: k in Nodes(m, h) <==> k in keys && StageHash(hs, k, mask, end) == h
  }

  ghost predicate StagesOk(stages: seq<nat>)
  {
    && (forall i :: 0 <= i < |stages| ==> stages[i] <= FLOW_U64S)
    && (forall i, j :: 0 <= i < j < |stages| ==> stages[i] <= stages[j])
  }

  ghost predicate CmapsOk(hs: Hasher, st: Subtable)
  {
    && StagesOk(st.stages) && |st.indices| == |st.stages|
    && CmapOk(hs, st.rules, st.chains.Keys, st.mask, FLOW_U64S)
    && forall i :: 0 <= i < |st.stages| ==> CmapOk(hs, st.indices[i], st.chains.Keys, st.mask, st.stages[i])
  }

  /* The ports trie's view of a masked flow. */
  function Ports(k: Flow): (v: Bits)
    ensures |v| == 32
  {
    k[TP_PORTS_BIT..TP_PORTS_BIT + 32]
  }

  /* 'n' is the number of ports bits up to the last one in 'mask'. */
  ghost predicate IsPortsLen(mask: Flow, n: nat)
  {
    && n <= 32
    && (n > 0 ==> mask[TP_PORTS_BIT + n - 1])
    && forall i :: TP_PORTS_BIT + n <= i < TP_PORTS_BIT + 32 ==> !mask[i]
  }

  ghost function SharingPorts(st: Subtable, p: Bits): set<Flow>
    requires st.portsLen <= 32
  {
    set k | k in st.chains && Ports(k)[..st.portsLen] == p
  }

  /* The ports trie counts the chains by the leading bits of their ports. */
  ghost predicate PortsOk(st: Subtable)
  {
    && IsPortsLen(st.mask, st.portsLen)
    && WellFormed(st.portsTrie)
    && forall p :: Count(st.portsTrie, p) == if st.portsLen == 0 then 0 else |SharingPorts(st, p)|
  }

  /* Each prefix length is that of the mask on the trie's field. */
  ghost predicate PlensOk(st: Subtable, tries: seq<ClsTrie>)
  {
    && |st.triePlens| == |tries|
    && forall j :: 0 <= j < |tries| ==> tries[j].field.Ok() && st.triePlens[j] == CidrLen(tries[j].field.Value(st.mask))
  }

  ghost predicate TrieOk(trie: ClsTrie)
  {
    trie.field.Ok() && WellFormed(trie.root) && AtMost(trie.root, trie.field.nBits)
  }

  /* Every chain's prefix is in every trie that the subtable consults. */
  ghost predicate InTries(st: Subtable, tries: seq<ClsTrie>)
    requires PlensOk(st, tries)
  {
    forall j, k :: 0 <= j < |tries| && st.triePlens[j] > 0 && k in st.chains ==>
                     Count(tries[j].root, tries[j].field.Value(k)[..st.triePlens[j]]) > 0
  }

  /* What lookups rely on. */
  ghost predicate Searchable(hs: Hasher, st: Subtable, tries: seq<ClsTrie>)
  {
    && ChainsOk(st) && CmapsOk(hs, st) && PortsOk(st) && PlensOk(st, tries) && InTries(st, tries)
    && forall j :: 0 <= j < |tries| ==> TrieOk(tries[j])
  }

  // ---------------------------------------------------------------- wildcards

  /* 'g' is like 'f' for a cached flow with wildcards 'wc'.  The metadata partitions and the
     Ethernet type are matched by every cached flow. */
  predicate Alike(f: Flow, g: Flow, wc: Flow)
  {
    Agree(f, g, wc) && Metadata(f) == Metadata(g) && DlType(f) == DlType(g)
  }

  /* The wildcards are good: all flows alike have the same match. */
  ghost predicate Settled(st: Subtable, f: Flow, wc: Flow)
  {
    forall g :: Alike(f, g, wc) ==> MatchIn(st, g) == MatchIn(st, f)
  }

  lemma SettledMore(st: Subtable, f: Flow, wc: Flow, more: Flow)
    requires Settled(st, f, wc) && Covers(more, wc)
    ensures Settled(st, f, more)
  {
    forall g | Alike(f, g, more) ensures MatchIn(st, g) == MatchIn(st, f) {
      CoversAgree(f, g, more, wc);
    }
  }

  /* No chain has the stage hash of 'f' without having its stage bits. */
  ghost predicate NoCollision(hs: Hasher, st: Subtable, f: Flow)
    requires StagesOk(st.stages)
  {
    forall i, k :: 0 <= i < |st.stages| && k in st.chains
                   && StageHash(hs, k, st.mask, st.stages[i]) == StageHash(hs, f, st.mask, st.stages[i])
                   ==> AgreeBelow(f, k, st.mask, 64 * st.stages[i])
  }

  /* If the mask has ports bits then it has none behind the ports. */
  predicate PortsLast(mask: Flow)
  {
    (exists i :: TP_PORTS_BIT <= i < TP_PORTS_BIT + 32 && mask[i])
    ==> forall i :: TP_PORTS_BIT + 32 <= i < FLOW_BITS ==> !mask[i]
  }

  /* Un-wildcarding the whole mask is always good. */
  lemma FullMaskSettles(st: Subtable, f: Flow, wc: Flow)
    requires Covers(wc, st.mask)
    ensures Settled(st, f, wc)
  {
    forall g | Alike(f, g, wc) ensures MatchIn(st, g) == MatchIn(st, f) {
      assert Masked(g, st.mask) == Masked(f, st.mask);
    }
  }

  /* The chain that 'f' matches is in every index under the hash of 'f'. */
  lemma MatchIndexed(hs: Hasher, st: Subtable, f: Flow, end: nat)
    requires ChainsOk(st) && Masked(f, st.mask) in st.chains && end <= FLOW_U64S
    ensures StageHash(hs, Masked(f, st.mask), st.mask, end) == StageHash(hs, f, st.mask, end)
    ensures Agree(f, Masked(f, st.mask), st.mask)
  {
    BasisAgree(hs, Masked(f, st.mask), f, st.mask, end);
  }

  /* Nothing in an index: no flow with the same bits so far has a match. */
  lemma IndexMiss(hs: Hasher, st: Subtable, m: Cmap, end: nat, f: Flow, g: Flow)
    requires ChainsOk(st) && end <= FLOW_U64S && CmapOk(hs, m, st.chains.Keys, st.mask, end)
    requires Nodes(m, StageHash(hs, f, st.mask, end)) == {}
    requires AgreeBelow(f, g, st.mask, 64 * end)
    ensures MatchIn(st, g) == []
  {
    var k := Masked(g, st.mask);
    if k in st.chains {
      MatchIndexed(hs, st, g, end);
      BasisAgree(hs, f, g, st.mask, end);
    }
  }

  /* A single node in an index is the only possible match. */
  lemma SingleNode(hs: Hasher, st: Subtable, m: Cmap, end: nat, f: Flow, g: Flow, k: Flow)
    requires ChainsOk(st) && end <= FLOW_U64S && CmapOk(hs, m, st.chains.Keys, st.mask, end)
    requires Nodes(m, StageHash(hs, f, st.mask, end)) == {k}
    requires AgreeBelow(f, g, st.mask, 64 * end)
    ensures MatchIn(st, g) == if Agree(g, k, st.mask) then st.chains[k] else []
  {
    assert k in Nodes(m, StageHash(hs, f, st.mask, end));
    MaskedIffAgree(g, k, st.mask);
    var kg := Masked(g, st.mask);
    if kg in st.chains {
      MatchIndexed(hs, st, g, end);
      BasisAgree(hs, f, g, st.mask, end);
      assert kg in Nodes(m, StageHash(hs, f, st.mask, end));
    }
  }

  /* A mismatch with a single node, without collisions, is settled by the words before the
     mismatch and one differing bit. */
  lemma SingleMismatch(hs: Hasher, st: Subtable, i: nat, f: Flow, k: Flow, wc: Flow, b: int)
    requires ChainsOk(st) && CmapsOk(hs, st) && i < |st.stages|
    requires Nodes(st.indices[i], StageHash(hs, f, st.mask, st.stages[i])) == {k}
    requires ShowsMismatch(f, k, st.mask, wc, b)
    requires NoCollision(hs, st, f)
    ensures Settled(st, f, wc)
  {
    hide StageHash, MatchIn, ChainsOk;
    var end := st.stages[i];
    assert CmapOk(hs, st.indices[i], st.chains.Keys, st.mask, end);
    assert k in Nodes(st.indices[i], StageHash(hs, f, st.mask, end));
    assert k in st.chains && StageHash(hs, k, st.mask, st.stages[i]) == StageHash(hs, f, st.mask, st.stages[i]);
    assert AgreeBelow(f, k, st.mask, 64 * st.stages[i]);
    assert b >= 64 * end;
    SingleNode(hs, st, st.indices[i], end, f, f, k);
    forall g | Alike(f, g, wc) ensures MatchIn(st, g) == MatchIn(st, f) {
      assert AgreeBelow(f, g, st.mask, 64 * end);
      SingleNode(hs, st, st.indices[i], end, f, g, k);
      assert g[b] == f[b] != k[b];
    }
  }

  // ---------------------------------------------------------------- tries

  ghost predicate CtxOk(trie: ClsTrie, ctx: TrieCtx, f: Flow)
    requires trie.field.Ok()
  {
    ctx.done ==>
      if trie.field.prereqs(DlType(f)) then Decides(trie.root, trie.field.Value(f), ctx.maskbits, ctx.plens)
      else |ctx.plens| == trie.field.nBits && forall n :: 1 <= n <= |ctx.plens| ==> HasLength(ctx.plens, n)
  }

  ghost predicate CtxsOk(tries: seq<ClsTrie>, ctxs: seq<TrieCtx>, f: Flow)
  {
    |ctxs| == |tries| && forall j :: 0 <= j < |tries| ==> tries[j].field.Ok() && CtxOk(tries[j], ctxs[j], f)
  }

  /* trie_lookup() */
  method TrieLookup(trie: ClsTrie, f: Flow) returns (ctx: TrieCtx)
    requires TrieOk(trie)
    ensures ctx.done && CtxOk(trie, ctx, f)
  {
    if trie.field.prereqs(DlType(f)) {
      var maskbits, plens := LookupValue(trie.root, trie.field.Value(f));
      ctx := TrieCtx(true, maskbits, plens);
    } else {
      /* All prefixes, no skipping. */
      ctx := TrieCtx(true, 0, seq(trie.field.nBits, _ => true));
    }
  }

  /* The trie shows that no chain whose field prefix has length 'plen' matches a flow alike. */
  ghost predicate Excludes(trie: ClsTrie, plen: nat, f: Flow, wc: Flow)
  {
    && trie.field.Ok() && 0 < plen <= trie.field.nBits
    && forall g :: Alike(f, g, wc) ==> Count(trie.root, trie.field.Value(g)[..plen]) == 0
  }

  lemma UnmarkedExcludes(trie: ClsTrie, ctx: TrieCtx, plen: nat, f: Flow, wc: Flow)
    requires trie.field.Ok() && CtxOk(trie, ctx, f) && ctx.done
    requires 0 < plen <= trie.field.nBits && |ctx.plens| == trie.field.nBits && !HasLength(ctx.plens, plen)
    requires BitsSet(wc, 32 * trie.field.be32ofs, ctx.maskbits)
    ensures Excludes(trie, plen, f, wc)
  {
    var fld := trie.field;
    forall g | Alike(f, g, wc) ensures Count(trie.root, fld.Value(g)[..plen]) == 0 {
      SetBitsAgree(f, g, wc, 32 * fld.be32ofs, ctx.maskbits);
      assert fld.Value(g)[..ctx.maskbits] == g[32 * fld.be32ofs..32 * fld.be32ofs + ctx.maskbits];
      assert fld.Value(f)[..ctx.maskbits] == f[32 * fld.be32ofs..32 * fld.be32ofs + ctx.maskbits];
      assert SameBits(fld.Value(f), fld.Value(g), ctx.maskbits);
      assert ExactLengths(trie.root, fld.Value(g), ctx.plens);
    }
  }

  /* check_tries(): whether some trie excludes all rules of the subtable. */
  method CheckTries(tries: seq<ClsTrie>, plens: seq<nat>, start: nat, end: nat, f: Flow,
                    ctxs0: seq<TrieCtx>, wc0: Flow)
    returns (skip: bool, ctxs: seq<TrieCtx>, wc: Flow)
    requires CtxsOk(tries, ctxs0, f) && |plens| == |tries|
    requires forall j :: 0 <= j < |tries| ==> TrieOk(tries[j]) && plens[j] <= tries[j].field.nBits
    ensures CtxsOk(tries, ctxs, f) && Covers(wc, wc0)
    ensures skip ==> exists j :: 0 <= j < |tries| && Excludes(tries[j], plens[j], f, wc)
                                 && SetsPrefix(tries[j].field, plens[j], wc0, wc)
    ensures !skip ==> wc == wc0
  {
    ctxs, wc := ctxs0, wc0;
    for j := 0 to |tries|
      invariant CtxsOk(tries, ctxs, f) && wc == wc0
    {
      var fld := tries[j].field;
      if plens[j] > 0 && start <= fld.be32ofs / 2 < end {
        /* On-demand trie lookup. */
        if !ctxs[j].done {
          var ctx := TrieLookup(tries[j], f);
          ctxs := ctxs[j := ctx];
        }
        var ctx := ctxs[j];
        if !HasLength(ctx.plens, plens[j]) {
          /* Only if the subtable would look at so many bits of the field anyway. */
          if ctx.maskbits <= plens[j] {
            wc := SetBits(wc, 32 * fld.be32ofs, ctx.maskbits);
            UnmarkedExcludes(tries[j], ctx, plens[j], f, wc);
            assert SetsPrefix(fld, plens[j], wc0, wc);
            return true, ctxs, wc;
          }
          if BitsSet(wc, 32 * fld.be32ofs, ctx.maskbits) {
            UnmarkedExcludes(tries[j], ctx, plens[j], f, wc);
            assert SetsPrefix(fld, plens[j], wc0, wc);
            return true, ctxs, wc;
          }
        }
      }
    }
    skip := false;
  }

  /* Only bits of the field's prefix have been added to the wildcards. */
  ghost predicate SetsPrefix(field: Field, plen: nat, wc0: Flow, wc: Flow)
  {
    forall i :: 0 <= i < FLOW_BITS && wc[i] ==> wc0[i] || 32 * field.be32ofs <= i < 32 * field.be32ofs + plen
  }

  /* The prefix is a part of the mask. */
  lemma PrefixWithin(st: Subtable, tries: seq<ClsTrie>, j: nat, wc0: Flow, wc: Flow, start: nat)
    requires PlensOk(st, tries) && j < |tries| && SetsPrefix(tries[j].field, st.triePlens[j], wc0, wc)
    ensures Within(st.mask, wc0, FoldRange(wc, st.mask, 0, start))
  {
    var field, n := tries[j].field, st.triePlens[j];
    forall i | 32 * field.be32ofs <= i < 32 * field.be32ofs + n ensures st.mask[i] {
      assert IsPrefixMask(field.Value(st.mask), n);
      assert field.Value(st.mask)[i - 32 * field.be32ofs];
    }
  }

  lemma PlensFit(st: Subtable, tries: seq<ClsTrie>)
    requires PlensOk(st, tries)
    ensures forall j :: 0 <= j < |tries| ==> st.triePlens[j] <= tries[j].field.nBits
  {
  }

  /* A subtable whose prefix length a trie excludes has no match for any flow alike. */
  lemma ExcludedNoMatch(st: Subtable, tries: seq<ClsTrie>, j: nat, f: Flow, g: Flow, wc: Flow)
    requires PlensOk(st, tries) && InTries(st, tries) && ChainsOk(st)
    requires j < |tries| && Excludes(tries[j], st.triePlens[j], f, wc) && Alike(f, g, wc)
    ensures MatchIn(st, g) == []
  {
    var k, fld, n := Masked(g, st.mask), tries[j].field, st.triePlens[j];
    forall i | 0 <= i < n ensures fld.Value(k)[i] == fld.Value(g)[i] {
      assert fld.Value(st.mask)[i];
    }
    assert fld.Value(k)[..n] == fld.Value(g)[..n];
    assert Count(tries[j].root, fld.Value(k)[..n]) == 0;
  }

  lemma SkipSettles(st: Subtable, tries: seq<ClsTrie>, j: nat, f: Flow, wc: Flow)
    requires PlensOk(st, tries) && InTries(st, tries) && ChainsOk(st)
    requires j < |tries| && Excludes(tries[j], st.triePlens[j], f, wc)
    ensures MatchIn(st, f) == [] && Settled(st, f, wc)
  {
    forall g | Alike(f, g, wc) ensures MatchIn(st, g) == [] {
      ExcludedNoMatch(st, tries, j, f, g, wc);
    }
    assert Alike(f, f, wc);
  }

  // ---------------------------------------------------------------- search

  /* find_match(): goes through the chains with the given hash. */
  method FindMatch(hs: Hasher, st: Subtable, f: Flow, hash: nat) returns (c: Chain)
    requires ChainsOk(st) && CmapOk(hs, st.rules, st.chains.Keys, st.mask, FLOW_U64S)
    requires hash == StageHash(hs, f, st.mask, FLOW_U64S)
    ensures c == MatchIn(st, f)
  {
    var nodes := Nodes(st.rules, hash);
    ghost var key := Masked(f, st.mask);
    if key in st.chains {
      MatchIndexed(hs, st, f, FLOW_U64S);
    }
    while nodes != {}
      invariant key in st.chains ==> key in nodes
      invariant nodes <= st.chains.Keys
      decreases |nodes|
    {
      var k :| k in nodes;
      MaskedIffAgree(f, k, st.mask);
      if Agree(f, k, st.mask) {
        return st.chains[k];
      }
      nodes := nodes - {k};
    }
    return [];
  }

  /* The bits un-wildcarded when the ports trie explains a miss. */
  function FoldPorts(wc: Flow, mask: Flow, mbits: nat): (r: Flow)
    ensures forall i :: 0 <= i < FLOW_BITS ==>
                          r[i] == (wc[i] || (mask[i] && (i < TP_PORTS_BIT || i < TP_PORTS_BIT + mbits)))
    ensures Covers(r, wc)
  {
    var ports := seq(FLOW_BITS, i requires 0 <= i < FLOW_BITS =>
                       wc[i] || (mask[i] && TP_PORTS_BIT <= i < TP_PORTS_BIT + mbits));
    FoldRange(ports, mask, 0, TP_PORTS_OFS64)
  }

  /* A flow that shares the deciding ports bits and all earlier bits has no match either. */
  lemma PortsMiss(st: Subtable, f: Flow, g: Flow, mbits: nat, plens: Bits)
    requires ChainsOk(st) && PortsOk(st) && PortsLast(st.mask) && st.portsLen > 0
    requires MatchIn(st, f) == []
    requires Decides(st.portsTrie, Ports(Masked(f, st.mask)), mbits, plens)
    requires forall i :: 0 <= i < TP_PORTS_BIT + mbits && st.mask[i] ==> f[i] == g[i]
    ensures MatchIn(st, g) == []
  {
    var kf, kg, n := Masked(f, st.mask), Masked(g, st.mask), st.portsLen;
    assert SameBits(Ports(kf), Ports(kg), mbits) by {
      assert forall i :: TP_PORTS_BIT <= i < TP_PORTS_BIT + mbits ==> kf[i] == kg[i];
      assert Ports(kf)[..mbits] == Ports(kg)[..mbits];
    }
    assert ExactLengths(st.portsTrie, Ports(kg), plens);
    if kg in st.chains {
      assert kg in SharingPorts(st, Ports(kg)[..n]);
      assert Count(st.portsTrie, Ports(kg)[..n]) > 0;
      assert HasLength(plens, n);
      SamePorts(st, f, g, n);
      ChainFound(st, kf);
    }
  }

  lemma ChainFound(st: Subtable, k: Flow)
    requires ChainsOk(st)
    ensures k in st.chains ==> st.chains[k] != []
  {
    if k in st.chains {
      assert ChainOk(st.mask, k, st.chains[k]);
    }
  }

  lemma SamePorts(st: Subtable, f: Flow, g: Flow, n: nat)
    requires IsPortsLen(st.mask, n) && PortsLast(st.mask) && n > 0
    requires forall i :: 0 <= i < TP_PORTS_BIT + n && st.mask[i] ==> f[i] == g[i]
    ensures Masked(f, st.mask) == Masked(g, st.mask)
  {
    assert st.mask[TP_PORTS_BIT + n - 1];
    forall i | 0 <= i < FLOW_BITS ensures Masked(f, st.mask)[i] == Masked(g, st.mask)[i] {
    }
  }

  lemma PortsMissSettles(st: Subtable, f: Flow, wc: Flow, mbits: nat, plens: Bits)
    requires ChainsOk(st) && PortsOk(st) && PortsLast(st.mask) && st.portsLen > 0
    requires MatchIn(st, f) == []
    requires Decides(st.portsTrie, Ports(Masked(f, st.mask)), mbits, plens)
    ensures Settled(st, f, FoldPorts(wc, st.mask, mbits))
  {
    forall g | Alike(f, g, FoldPorts(wc, st.mask, mbits)) ensures MatchIn(st, g) == [] {
      PortsMiss(st, f, g, mbits, plens);
    }
  }

  /* Stored ports prefixes are no longer than the ports. */
  lemma PortsAtMost(st: Subtable)
    requires PortsOk(st)
    ensures AtMost(st.portsTrie, 32)
  {
    forall p | Count(st.portsTrie, p) > 0 ensures |p| <= 32 {
      assert SharingPorts(st, p) != {};
    }
  }

  /* The wildcards that the ports trie gives for a miss. */
  ghost predicate PortsExplain(st: Subtable, f: Flow, wc0: Flow, wc: Flow)
  {
    exists mbits, plens :: Decides(st.portsTrie, Ports(Masked(f, st.mask)), mbits, plens) && wc == FoldPorts(wc0, st.mask, mbits)
  }

  /* The final stage of find_match_wc(). */
  method FindMatchFinal(hs: Hasher, st: Subtable, f: Flow, hash: nat, wc0: Flow) returns (c: Chain, wc: Flow)
    requires ChainsOk(st) && CmapsOk(hs, st) && PortsOk(st)
    requires hash == StageHash(hs, f, st.mask, FLOW_U64S)
    ensures c == MatchIn(st, f) && Covers(wc, wc0) && Within(st.mask, wc0, wc)
    ensures PortsLast(st.mask) ==> Settled(st, f, wc)
    ensures c == [] && st.portsLen > 0 ==> PortsExplain(st, f, wc0, wc)
  {
    c := FindMatch(hs, st, f, hash);
    if c == [] && st.portsLen > 0 {
      /* A miss: the ports trie tells how many bits of the ports explain it. */
      PortsAtMost(st);
      var mbits, plens := LookupValue(st.portsTrie, Ports(Masked(f, st.mask)));
      wc := FoldPorts(wc0, st.mask, mbits);
      if PortsLast(st.mask) {
        PortsMissSettles(st, f, wc0, mbits, plens);
      }
    } else {
      /* The whole mask has been compared. */
      wc := FoldRange(wc0, st.mask, 0, FLOW_U64S);
      FullMaskSettles(st, f, wc);
    }
  }

  /* The bits seen so far settle a stage without nodes. */
  lemma IndexMissSettles(hs: Hasher, st: Subtable, i: nat, f: Flow, wc: Flow)
    requires ChainsOk(st) && CmapsOk(hs, st) && i < |st.stages|
    requires Nodes(st.indices[i], StageHash(hs, f, st.mask, st.stages[i])) == {}
    ensures MatchIn(st, f) == []
    ensures Settled(st, f, FoldRange(wc, st.mask, 0, st.stages[i]))
  {
    assert CmapOk(hs, st.indices[i], st.chains.Keys, st.mask, st.stages[i]);
    forall g | AgreeBelow(f, g, st.mask, 64 * st.stages[i]) ensures MatchIn(st, g) == [] {
      IndexMiss(hs, st, st.indices[i], st.stages[i], f, g);
    }
  }

  /* The wildcards that a failed comparison with 'k' gives. */
  ghost predicate Differs(f: Flow, k: Flow, mask: Flow, wc0: Flow, wc: Flow)
  {
    exists b :: ShowsMismatch(f, k, mask, wc, b) && AddsOnly(mask, wc0, wc, b)
  }

  /* The single chain left in stage 'i' is compared in full. */
  method CheckSingle(hs: Hasher, st: Subtable, i: nat, f: Flow, k: Flow, wc0: Flow) returns (c: Chain, wc: Flow)
    requires ChainsOk(st) && CmapsOk(hs, st) && i < |st.stages|
    requires Nodes(st.indices[i], StageHash(hs, f, st.mask, st.stages[i])) == {k}
    ensures c == MatchIn(st, f) && Covers(wc, wc0) && Within(st.mask, wc0, wc)
    ensures NoCollision(hs, st, f) ==> Settled(st, f, wc)
    ensures c == [] ==> Differs(f, k, st.mask, wc0, wc)
  {
    assert CmapOk(hs, st.indices[i], st.chains.Keys, st.mask, st.stages[i]);
    assert k in Nodes(st.indices[i], StageHash(hs, f, st.mask, st.stages[i]));
    SingleNode(hs, st, st.indices[i], st.stages[i], f, f, k);
    var ok;
    ok, wc := MatchesFlowWc(k, st.mask, f, wc0);
    c := if ok then st.chains[k] else [];
    if ok {
      ChainFound(st, k);
      FullMaskSettles(st, f, wc);
    } else if NoCollision(hs, st, f) {
      ghost var b :| ShowsMismatch(f, k, st.mask, wc, b);
      SingleMismatch(hs, st, i, f, k, wc, b);
    }
  }

  ghost predicate Crowded(nodes: set<Flow>)
  {
    exists a, b :: a in nodes && b in nodes && a != b
  }

  /* The first 'n' stages leave more than one chain. */
  ghost predicate Passes(hs: Hasher, st: Subtable, f: Flow, n: nat)
    requires CmapsOk(hs, st) && n <= |st.stages|
  {
    forall i :: 0 <= i < n ==> Crowded(Nodes(st.indices[i], StageHash(hs, f, st.mask, st.stages[i])))
  }

  /* Stage 'i' is the first one that leaves at most one chain, which is 'k'. */
  ghost predicate SingleAt(hs: Hasher, st: Subtable, f: Flow, i: nat, k: Flow)
    requires CmapsOk(hs, st)
  {
    i < |st.stages| && Passes(hs, st, f, i) && Nodes(st.indices[i], StageHash(hs, f, st.mask, st.stages[i])) == {k}
  }

  /* Which stage that is decides what the wildcards are. */
  ghost predicate Outcome(hs: Hasher, st: Subtable, f: Flow, wc0: Flow, wc: Flow)
    requires CmapsOk(hs, st)
  {
    && (Passes(hs, st, f, |st.stages|) && st.portsLen > 0 ==> PortsExplain(st, f, wc0, wc))
    && (forall i: nat, k :: SingleAt(hs, st, f, i, k) ==> Differs(f, k, st.mask, wc0, wc))
    && forall i: nat :: EmptyAt(hs, st, f, i) ==> OnlyBelow(st.mask, wc0, wc, st.stages[i])
  }

  function StageStart(st: Subtable, i: nat): nat
    requires i <= |st.stages|
  {
    if i == 0 then 0 else st.stages[i - 1]
  }

  /* Before the stage 'i', the trie 'j' shows that there is no match: the wildcards gain bits of the prefix that
     shows it and of the stages that were passed, and no others. */
  ghost predicate SkipsAt(hs: Hasher, st: Subtable, tries: seq<ClsTrie>, f: Flow, wc0: Flow, wc: Flow, i: nat, j: nat)
    requires CmapsOk(hs, st) && |st.triePlens| == |tries|
  {
    && i <= |st.stages| && j < |tries| && Passes(hs, st, f, i) && Excludes(tries[j], st.triePlens[j], f, wc)
    && forall b :: 0 <= b < FLOW_BITS && wc[b] ==>
                     || wc0[b] || 32 * tries[j].field.be32ofs <= b < 32 * tries[j].field.be32ofs + st.triePlens[j]
                     || (st.mask[b] && b < 64 * StageStart(st, i))
  }

  lemma SkipOutcome(hs: Hasher, st: Subtable, tries: seq<ClsTrie>, f: Flow, wc0: Flow, wc: Flow, i: nat, j: nat)
    requires CmapsOk(hs, st) && |st.triePlens| == |tries| && i <= |st.stages| && j < |tries| && Passes(hs, st, f, i)
    requires Excludes(tries[j], st.triePlens[j], f, wc) && SetsPrefix(tries[j].field, st.triePlens[j], wc0, wc)
    ensures SkipsAt(hs, st, tries, f, wc0, FoldRange(wc, st.mask, 0, StageStart(st, i)), i, j)
  {
    hide Passes, CmapsOk, Count, FoldRange;
    var wc' := FoldRange(wc, st.mask, 0, StageStart(st, i));
    forall g | Alike(f, g, wc') ensures Alike(f, g, wc) {
      CoversAgree(f, g, wc', wc);
    }
  }

  /* Stage 'i' is the first one that leaves at most one chain, and leaves none. */
  ghost predicate EmptyAt(hs: Hasher, st: Subtable, f: Flow, i: nat)
    requires CmapsOk(hs, st)
  {
    i < |st.stages| && Passes(hs, st, f, i) && Nodes(st.indices[i], StageHash(hs, f, st.mask, st.stages[i])) == {}
  }

  /* Only bits of the mask in the words below 'end' have been added to the wildcards. */
  predicate OnlyBelow(mask: Flow, wc0: Flow, wc: Flow, end: nat)
  {
    forall i :: 0 <= i < FLOW_BITS && wc[i] ==> wc0[i] || (mask[i] && i < 64 * end)
  }

  lemma OutcomeAt(hs: Hasher, st: Subtable, f: Flow, i: nat, wc0: Flow, wc: Flow)
    requires CmapsOk(hs, st) && i < |st.stages| && Passes(hs, st, f, i)
    requires var nodes := Nodes(st.indices[i], StageHash(hs, f, st.mask, st.stages[i]));
             if nodes == {} then OnlyBelow(st.mask, wc0, wc, st.stages[i])
             else exists k :: nodes == {k} && Differs(f, k, st.mask, wc0, wc)
    ensures Outcome(hs, st, f, wc0, wc)
  {
    hide CmapOk, StageHash, PortsExplain, Differs, OnlyBelow;
    forall j: nat | EmptyAt(hs, st, f, j) ensures j == i {
    }
    forall j: nat, x | SingleAt(hs, st, f, j, x) ensures Differs(f, x, st.mask, wc0, wc) {
    }
  }

  lemma OutcomeLast(hs: Hasher, st: Subtable, f: Flow, wc0: Flow, wc: Flow)
    requires CmapsOk(hs, st) && Passes(hs, st, f, |st.stages|) && (st.portsLen > 0 ==> PortsExplain(st, f, wc0, wc))
    ensures Outcome(hs, st, f, wc0, wc)
  {
    hide CmapOk, StageHash, PortsExplain, Differs, OnlyBelow;
    forall j: nat, x ensures !SingleAt(hs, st, f, j, x) && !EmptyAt(hs, st, f, j) {
      if j < |st.stages| {
        assert Crowded(Nodes(st.indices[j], StageHash(hs, f, st.mask, st.stages[j])));
      }
    }
  }

  lemma CrowdedStage(hs: Hasher, st: Subtable, f: Flow, i: nat, k: Flow)
    requires CmapsOk(hs, st) && i < |st.stages| && Passes(hs, st, f, i)
    requires var nodes := Nodes(st.indices[i], StageHash(hs, f, st.mask, st.stages[i])); k in nodes && nodes != {k}
    ensures Passes(hs, st, f, i + 1)
  {
    hide CmapOk, StageHash;
    var nodes := Nodes(st.indices[i], StageHash(hs, f, st.mask, st.stages[i]));
    var x :| x in nodes && x != k;
    assert Crowded(nodes);
  }

  /* find_match_wc(): finds the chain that 'f' matches stage by stage, and un-wildcards enough
     bits of 'f' for every flow alike to have the same outcome. */
  method FindMatchWc(hs: Hasher, st: Subtable, tries: seq<ClsTrie>, f: Flow, ctxs0: seq<TrieCtx>, wc0: Flow)
    returns (c: Chain, ctxs: seq<TrieCtx>, wc: Flow)
    requires Searchable(hs, st, tries) && CtxsOk(tries, ctxs0, f)
    ensures c == MatchIn(st, f)
    ensures CtxsOk(tries, ctxs, f) && Covers(wc, wc0) && Within(st.mask, wc0, wc)
    ensures NoCollision(hs, st, f) && PortsLast(st.mask) ==> Settled(st, f, wc)
    ensures tries == [] && c == [] ==> Outcome(hs, st, f, wc0, wc)
    ensures c == [] ==> Outcome(hs, st, f, wc0, wc) || exists i, j :: SkipsAt(hs, st, tries, f, wc0, wc, i, j)
  {
    hide Outcome, Passes, SkipsAt;
    PlensFit(st, tries);
    NoneYet(hs, st, f);
    ctxs, wc := ctxs0, wc0;
    var start: nat, basis, skip, hash := 0, (0, 0), false, 0;
    for i := 0 to |st.stages|
      invariant CtxsOk(tries, ctxs, f) && wc == wc0
      invariant start == StageStart(st, i) && start <= FLOW_U64S && (i < |st.stages| ==> start <= st.stages[i])
      invariant basis == Basis(hs, f, st.mask, start) && Passes(hs, st, f, i)
    {
      var end := st.stages[i];
      skip, ctxs, wc := CheckTries(tries, st.triePlens, start, end, f, ctxs, wc);
      if skip {
        ghost var j :| 0 <= j < |tries| && Excludes(tries[j], st.triePlens[j], f, wc) && SetsPrefix(tries[j].field, st.triePlens[j], wc0, wc);
        SkipSettles(st, tries, j, f, wc);
        PrefixWithin(st, tries, j, wc0, wc, start);
        SettledMore(st, f, wc, FoldRange(wc, st.mask, 0, start));
        SkipOutcome(hs, st, tries, f, wc0, wc, i, j);
        /* The stages before this one have been used, too. */
        return [], ctxs, FoldRange(wc, st.mask, 0, start);
      }
      hash, basis := HashRange(hs, f, st.mask, start, end, basis);
      var nodes := Nodes(st.indices[i], hash);
      if nodes == {} {
        /* A miss, which the bits of the stages so far explain. */
        IndexMissSettles(hs, st, i, f, wc);
        OutcomeAt(hs, st, f, i, wc0, FoldRange(wc, st.mask, 0, end));
        return [], ctxs, FoldRange(wc, st.mask, 0, end);
      }
      var k :| k in nodes;
      if nodes == {k} {
        c, wc := CheckSingle(hs, st, i, f, k, wc);
        if c == [] {
          OutcomeAt(hs, st, f, i, wc0, wc);
        }
        return;
      }
      CrowdedStage(hs, st, f, i, k);
      start := end;
    }
    skip, ctxs, wc := CheckTries(tries, st.triePlens, start, FLOW_U64S, f, ctxs, wc);
    if skip {
      ghost var j :| 0 <= j < |tries| && Excludes(tries[j], st.triePlens[j], f, wc) && SetsPrefix(tries[j].field, st.triePlens[j], wc0, wc);
      SkipSettles(st, tries, j, f, wc);
      PrefixWithin(st, tries, j, wc0, wc, start);
      SettledMore(st, f, wc, FoldRange(wc, st.mask, 0, start));
      SkipOutcome(hs, st, tries, f, wc0, wc, |st.stages|, j);
      return [], ctxs, FoldRange(wc, st.mask, 0, start);
    }
    hash, basis := HashRange(hs, f, st.mask, start, FLOW_U64S, basis);
    c, wc := FindMatchFinal(hs, st, f, hash, wc);
    if c == [] {
      OutcomeLast(hs, st, f, wc0, wc);
    }
  }

  lemma NoneYet(hs: Hasher, st: Subtable, f: Flow)
    requires CmapsOk(hs, st)
    ensures Passes(hs, st, f, 0)
  {
  }
}
