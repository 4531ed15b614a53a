/** When the wildcards of a lookup are not good: bits matched behind the ports, and flows whose
    stage hash collides with that of a rule they do not match. */
module WildcardLimits {

  import opened Options
  import opened Tries
  import opened Flows
  import opened Subtables
  import opened SubtableChanges

  function NoBits(): Flow
  {
    seq(FLOW_BITS, _ => false)
  }

  function OneBit(b: nat): (f: Flow)
    requires b < FLOW_BITS
  {
    NoBits()[b := true]
  }

  // ---------------------------------------------------------------- behind the ports

  /* 'f' has no match in a subtable with this mask, and the search goes through all stages, so that
     the ports trie gives its wildcards. */
  ghost predicate PortsMissed(hs: Hasher, st: Subtable, mask: Flow, f: Flow, wc: Flow)
  {
    && st.mask == mask && Searchable(hs, st, []) && st.portsLen > 0 && MatchIn(st, f) == []
    && Passes(hs, st, f, |st.stages|) && PortsExplain(st, f, NoBits(), wc)
  }

  /* A flow that differs from a rule behind the ports only is not told apart from it. */
  lemma BehindPorts(st: Subtable, f: Flow, b: nat, wc: Flow)
    requires TP_PORTS_BIT + 32 <= b < FLOW_BITS && f == OneBit(b) && MatchIn(st, f) == [] && PortsExplain(st, f, NoBits(), wc)
    requires ChainsOk(st) && NoBits() in st.chains
    ensures !Settled(st, f, wc)
  {
    hide Decides;
    var mbits, plens :| Decides(st.portsTrie, Ports(Masked(f, st.mask)), mbits, plens) && wc == FoldPorts(NoBits(), st.mask, mbits);
    DecidingBits(st.portsTrie, Ports(Masked(f, st.mask)), mbits, plens);
    var g := NoBits();
    assert Masked(g, st.mask) == g;
    ChainFound(st, g);
    assert Alike(f, g, wc) by {
      assert Metadata(f) == Metadata(g) && DlType(f) == DlType(g);
    }
  }

  lemma DecidingBits(t: Trie, value: Bits, mbits: nat, plens: Bits)
    requires Decides(t, value, mbits, plens)
    ensures mbits <= |value|
  {
  }

  /* The rules that the examples are made of: for flows without any bit of the mask, and for flows
     with the last bit of the ports only. */
  function RuleFor(mask: Flow, k: Flow): Rule
  {
    Subtables.Rule(0, 0, k, mask, [])
  }

  function LastPort(n: nat): Flow
    requires 0 < n <= 32
  {
    OneBit(TP_PORTS_BIT + n - 1)
  }

  /* A flow that shares everything before the ports with two rules passes all stages. */
  lemma TwoPass(hs: Hasher, st: Subtable, f: Flow, b: nat, n: nat)
    requires CmapsOk(hs, st) && 0 < n <= 32 && TP_PORTS_BIT + 32 <= b < FLOW_BITS && f == OneBit(b)
    requires NoBits() in st.chains && LastPort(n) in st.chains && forall i :: 0 <= i < |st.stages| ==> st.stages[i] <= TP_PORTS_OFS64
    ensures Passes(hs, st, f, |st.stages|)
  {
    var k, l := NoBits(), LastPort(n);
    assert l[TP_PORTS_BIT + n - 1] && !k[TP_PORTS_BIT + n - 1];
    forall i | 0 <= i < |st.stages| ensures Crowded(Nodes(st.indices[i], StageHash(hs, f, st.mask, st.stages[i]))) {
      BasisAgree(hs, k, f, st.mask, st.stages[i]);
      BasisAgree(hs, l, f, st.mask, st.stages[i]);
      assert CmapOk(hs, st.indices[i], st.chains.Keys, st.mask, st.stages[i]);
    }
  }

  lemma NotMatched(st: Subtable, b: nat, n: nat)
    requires 0 < n <= 32 && TP_PORTS_BIT + 32 <= b < FLOW_BITS && st.mask[b] && st.chains.Keys == {NoBits(), LastPort(n)}
    ensures MatchIn(st, OneBit(b)) == []
  {
    assert Masked(OneBit(b), st.mask)[b] && !NoBits()[b] && !LastPort(n)[b];
  }

  /* A search in a subtable with the two rules, for any mask that has bits behind its ports. */
  method PortsUnsettled(hs: Hasher, segments: seq<nat>, mask: Flow, n: nat, b: nat)
    returns (st: Subtable, f: Flow, c: Chain, wc: Flow)
    requires SegmentsOk(segments) && IsPortsLen(mask, n) && n > 0 && TP_PORTS_BIT + 32 <= b < FLOW_BITS && mask[b]
    ensures st.mask == mask && Searchable(hs, st, []) && StagesComplete(segments, mask, st.stages)
    ensures c == MatchIn(st, f) == [] && !Settled(st, f, wc)
  {
    hide Indexed, StagesComplete, StagesUseful, MatchIn, Settled, ChainsOk, Outcome, Masked, OneBit, NoBits, Passes;
    f := OneBit(b);
    st := NewSubtable(hs, segments, [], mask);
    StagesBeforePorts(hs, st, mask);
    RulesOk(mask, n);
    st := AddHead(hs, st, RuleFor(mask, NoBits()));
    st := AddHead(hs, st, RuleFor(mask, LastPort(n)));
    assert st.chains.Keys == {NoBits(), LastPort(n)};
    IndexedSearchable(hs, st, n);
    NotMatched(st, b, n);
    var ctxs;
    c, ctxs, wc := FindMatchWc(hs, st, [], f, [], NoBits());
    TwoPass(hs, st, f, b, n);
    Explained(hs, st, f, wc);
    BehindPorts(st, f, b, wc);
  }

  lemma StagesBeforePorts(hs: Hasher, st: Subtable, mask: Flow)
    requires Indexed(hs, st) && StagesUseful(mask, st.stages)
    ensures forall i :: 0 <= i < |st.stages| ==> st.stages[i] <= TP_PORTS_OFS64
  {
    if st.stages != [] {
      assert HasBits(mask, Last(st.stages), FLOW_U64S);
    }
  }

  lemma RulesOk(mask: Flow, n: nat)
    requires IsPortsLen(mask, n) && n > 0
    ensures RuleOk(RuleFor(mask, NoBits())) && RuleOk(RuleFor(mask, LastPort(n))) && NoBits() != LastPort(n)
  {
    var k, l := NoBits(), LastPort(n);
    assert l[TP_PORTS_BIT + n - 1] && !k[TP_PORTS_BIT + n - 1];
    assert Masked(k, mask) == k && Masked(l, mask) == l;
  }

  lemma IndexedSearchable(hs: Hasher, st: Subtable, n: nat)
    requires Indexed(hs, st) && PlensOk(st, []) && IsPortsLen(st.mask, n) && n > 0
    ensures Searchable(hs, st, []) && st.portsLen > 0 && ChainsOk(st) && CmapsOk(hs, st)
  {
  }

  lemma Explained(hs: Hasher, st: Subtable, f: Flow, wc: Flow)
    requires CmapsOk(hs, st) && Outcome(hs, st, f, NoBits(), wc) && Passes(hs, st, f, |st.stages|) && st.portsLen > 0
    ensures PortsExplain(st, f, NoBits(), wc)
  {
  }

  // Such a subtable as a value, without stages.

  /* All of 'keys' under their hashes. */
  ghost function Index(hs: Hasher, mask: Flow, keys: set<Flow>): Cmap
  {
    var hashes := set k | k in keys :: StageHash(hs, k, mask, FLOW_U64S);
    map h | h in hashes :: set k | k in keys && StageHash(hs, k, mask, FLOW_U64S) == h
  }

  function PortsTrie(n: nat): Trie
    requires n > 0
  {
    Node(seq(n - 1, _ => false), 0, Node([false], 1, Null, Null), Node([true], 1, Null, Null))
  }

  ghost function TwoRules(hs: Hasher, mask: Flow, n: nat): Subtable
    requires 0 < n <= 32
  {
    var k, l := NoBits(), LastPort(n);
    Subtable(mask, [], [], n, PortsTrie(n), map[k := [RuleFor(mask, k)], l := [RuleFor(mask, l)]], Index(hs, mask, {k, l}), [], 0, 2)
  }

  lemma TwoRulesOk(hs: Hasher, mask: Flow, n: nat)
    requires IsPortsLen(mask, n) && n > 0
    ensures Searchable(hs, TwoRules(hs, mask, n), [])
  {
    var st, k, l := TwoRules(hs, mask, n), NoBits(), LastPort(n);
    RulesOk(mask, n);
    assert st.chains.Keys == {k, l};
    assert ChainsOk(st);
    hide Index, StageHash;
    IndexOk(hs, mask, {k, l});
    TwoRulesPorts(hs, mask, n);
  }

  lemma IndexOk(hs: Hasher, mask: Flow, keys: set<Flow>)
    ensures CmapOk(hs, Index(hs, mask, keys), keys, mask, FLOW_U64S)
  {
    hide StageHash;
  }

  lemma TwoRulesPorts(hs: Hasher, mask: Flow, n: nat)
    requires IsPortsLen(mask, n) && n > 0
    ensures PortsOk(TwoRules(hs, mask, n))
  {
    hide Index;
    var st, k, l := TwoRules(hs, mask, n), NoBits(), LastPort(n);
    var z := seq(n - 1, _ => false);
    assert Ports(k)[..n] == z + [false] && Ports(l)[..n] == z + [true];
    assert WellFormed(Node([false], 1, Null, Null)) && WellFormed(Node([true], 1, Null, Null));
    assert WellFormed(st.portsTrie);
    forall p ensures Count(st.portsTrie, p) == |SharingPorts(st, p)| {
      PortsTrieCount(n, p);
      if p == z + [false] {
        assert (z + [false])[n - 1] != (z + [true])[n - 1];
        assert SharingPorts(st, p) == {k};
      } else if p == z + [true] {
        assert SharingPorts(st, p) == {l};
      } else {
        assert SharingPorts(st, p) == {};
      }
    }
  }

  lemma PortsTrieCount(n: nat, p: Bits)
    requires n > 0
    ensures var z := seq(n - 1, _ => false); Count(PortsTrie(n), p) == if p == z + [false] || p == z + [true] then 1 else 0
  {
    var z := seq(n - 1, _ => false);
    if z <= p && |p| > n - 1 {
      var rest := p[n - 1..];
      assert p == z + rest;
      assert rest[0] == p[n - 1];
      if |rest| == 1 {
        assert rest == [rest[0]];
      }
    }
  }

  lemma SomeWildcards(st: Subtable, f: Flow) returns (wc: Flow)
    ensures PortsExplain(st, f, NoBits(), wc)
  {
    var value := Ports(Masked(f, st.mask));
    var plens := seq(32, i requires 0 <= i < 32 => Count(st.portsTrie, value[..i + 1]) > 0);
    wc := FoldPorts(NoBits(), st.mask, 32);
    hide FoldPorts, Ports, Masked;
    assert Decides(st.portsTrie, value, 32, plens) by {
      forall other | SameBits(value, other, 32) ensures other == value {
        assert other[..32] == other && value[..32] == value;
      }
    }
  }

  /* For a mask with ports bits, the wildcards that the ports trie gives are good in every
     subtable and for every flow if and only if the mask has no bits behind the ports. */
  lemma PortsExact(mask: Flow, n: nat)
    requires IsPortsLen(mask, n) && n > 0
    ensures PortsLast(mask) <==> forall hs, st, f, wc :: PortsMissed(hs, st, mask, f, wc) ==> Settled(st, f, wc)
  {
    hide Decides, ChainsOk, CmapsOk, PortsOk, Settled, MatchIn, Masked, FoldPorts, OneBit;
    if PortsLast(mask) {
      forall hs, st, f, wc | PortsMissed(hs, st, mask, f, wc) ensures Settled(st, f, wc) {
        var mbits, plens :| Decides(st.portsTrie, Ports(Masked(f, st.mask)), mbits, plens) && wc == FoldPorts(NoBits(), st.mask, mbits);
        PortsMissSettles(st, f, NoBits(), mbits, plens);
      }
    } else {
      var b :| TP_PORTS_BIT + 32 <= b < FLOW_BITS && mask[b];
      var hs, f := FirstBits(), OneBit(b);
      var st := TwoRules(hs, mask, n);
      TwoRulesOk(hs, mask, n);
      assert st.chains.Keys == {NoBits(), LastPort(n)};
      NotMatched(st, b, n);
      var wc := SomeWildcards(st, f);
      BehindPorts(st, f, b, wc);
      assert PortsMissed(hs, st, mask, f, wc);
    }
  }

  // ---------------------------------------------------------------- hash collisions

  /* 'f' has the hash of stage 'i' in common with the single node 'k' that the stage leaves, but not
     the stage itself: they differ in bit 'b' of it, and only there.  Another rule, for 'g', agrees
     with 'f' on that bit and on the words before it. */
  ghost predicate Collides(hs: Hasher, st: Subtable, f: Flow, i: nat, k: Flow, g: Flow, b: nat)
  {
    && ChainsOk(st) && CmapsOk(hs, st) && SingleAt(hs, st, f, i, k) && b < 64 * st.stages[i]
    && st.mask[b] && f[b] != k[b] && (forall j :: 0 <= j < FLOW_BITS && st.mask[j] && j != b ==> f[j] == k[j])
    && MatchIn(st, g) != [] && AgreeBelow(f, g, st.mask, 64 * (b / 64)) && f[b] == g[b]
    && Metadata(f) == Metadata(g) && DlType(f) == DlType(g)
  }

  /* Then the comparison with 'k' shows one differing bit, and the wildcards are wrong. */
  lemma CollisionUnsettles(hs: Hasher, st: Subtable, f: Flow, i: nat, k: Flow, g: Flow, b: nat, wc: Flow)
    requires Collides(hs, st, f, i, k, g, b) && Differs(f, k, st.mask, NoBits(), wc)
    ensures StageHash(hs, f, st.mask, st.stages[i]) == StageHash(hs, k, st.mask, st.stages[i])
    ensures MatchIn(st, f) == [] && !Settled(st, f, wc)
  {
    hide StageHash, MatchIn;
    assert CmapOk(hs, st.indices[i], st.chains.Keys, st.mask, st.stages[i]);
    assert k in Nodes(st.indices[i], StageHash(hs, f, st.mask, st.stages[i]));
    SingleNode(hs, st, st.indices[i], st.stages[i], f, f, k);
    var shown :| ShowsMismatch(f, k, st.mask, wc, shown) && AddsOnly(st.mask, NoBits(), wc, shown);
    assert shown == b;
    assert Agree(f, g, wc);
    assert Alike(f, g, wc);
  }

  /* A hash that counts the words whose first bit is set. */
  function FirstBits(): Hasher
  {
    Hasher((h: nat, w: Bits) => if w != [] && w[0] then h + 1 else h, (h: nat, n: nat) => h)
  }

  /* Two bits in the first stage and one bit behind it. */
  function StagedMask(): Flow { NoBits()[0 := true][1 := true][64 * 20 := true] }

  function Both(): Flow { NoBits()[0 := true][1 := true] }

  /* The flow has 01 in the first two bits.  Such a subtable, made by insertions of rules for 00 and
     11, and the search in it. */
  method CollisionExists() returns (hs: Hasher, st: Subtable, f: Flow, c: Chain, wc: Flow)
    ensures Searchable(hs, st, []) && c == MatchIn(st, f) == [] && !Settled(st, f, wc)
    ensures exists k, g, b :: Collides(hs, st, f, 0, k, g, b)
  {
    hide Indexed, StagesComplete, StagesUseful, StagedMask, MatchIn, StageHash, FirstBits, Settled, Collides, Outcome, OneBit, NoBits, Both;
    hs, f := FirstBits(), OneBit(1);
    StagedFlows();
    st := NewSubtable(hs, [1], [], StagedMask());
    OnlyStage(hs, st);
    st := AddHead(hs, st, RuleFor(StagedMask(), NoBits()));
    st := AddHead(hs, st, RuleFor(StagedMask(), Both()));
    assert st.chains.Keys == {NoBits(), Both()};
    StagedSearchable(hs, st);
    TwoCollide(st);
    var ctxs;
    c, ctxs, wc := FindMatchWc(hs, st, [], f, [], NoBits());
    StageOutcome(hs, st, f, NoBits(), Both(), 1, wc);
  }

  lemma StagedSearchable(hs: Hasher, st: Subtable)
    requires Indexed(hs, st) && PlensOk(st, [])
    ensures Searchable(hs, st, [])
  {
  }

  lemma StagedFlows()
    ensures RuleOk(RuleFor(StagedMask(), NoBits())) && RuleOk(RuleFor(StagedMask(), Both())) && NoBits() != Both()
  {
    var mask, k, g := StagedMask(), NoBits(), Both();
    assert Masked(k, mask) == k && Masked(g, mask) == g;
    assert g[0] && !k[0];
  }

  /* There is one stage, as the segment divides the mask. */
  lemma OnlyStage(hs: Hasher, st: Subtable)
    requires Indexed(hs, st) && StagesUseful(StagedMask(), st.stages) && StagesComplete([1], StagedMask(), st.stages)
    requires forall s :: s in st.stages ==> s in [1]
    ensures st.stages == [1]
  {
    hide CmapOk;
    var mask, stages := StagedMask(), st.stages;
    assert mask[0] && mask[64 * 20];
    assert HasBits(mask, 0, 1) && HasBits(mask, 1, FLOW_U64S);
    assert StageFor(mask, stages, 1);
    assert forall i :: 0 <= i < |stages| ==> stages[i] in stages;
    if |stages| > 1 {
      StagesGrow(mask, stages);
    }
  }

  lemma StagesGrow(mask: Flow, stages: seq<nat>)
    requires StagesAdd(mask, stages) && |stages| > 1
    ensures stages[|stages| - 2] != stages[|stages| - 1]
  {
  }

  lemma StageOutcome(hs: Hasher, st: Subtable, f: Flow, k: Flow, g: Flow, b: nat, wc: Flow)
    requires Collides(hs, st, f, 0, k, g, b) && Outcome(hs, st, f, NoBits(), wc)
    ensures !Settled(st, f, wc)
  {
    hide Settled, MatchIn, StageHash;
    assert SingleAt(hs, st, f, 0, k);
    CollisionUnsettles(hs, st, f, 0, k, g, b, wc);
  }

  lemma TwoCollide(st: Subtable)
    requires Searchable(FirstBits(), st, []) && st.mask == StagedMask() && st.stages == [1] && st.chains.Keys == {NoBits(), Both()}
    ensures Collides(FirstBits(), st, OneBit(1), 0, NoBits(), Both(), 1) && MatchIn(st, OneBit(1)) == []
  {
    hide StageHash, FirstBits, PortsOk, InTries;
    var f, k, g := OneBit(1), NoBits(), Both();
    assert Masked(k, st.mask) == k && Masked(g, st.mask) == g && Masked(f, st.mask) == f;
    assert f[1] && !f[0] && !k[1] && g[0] && g[1] && !k[0] && st.mask[1];
    FirstHash(f, 1);
    FirstHash(k, 1);
    FirstHash(g, 1);
    assert Metadata(f) == Metadata(g) && DlType(f) == DlType(g);
    assert CmapOk(FirstBits(), st.indices[0], st.chains.Keys, st.mask, 1);
    ChainFound(st, g);
    var nodes := Nodes(st.indices[0], StageHash(FirstBits(), f, st.mask, 1));
    forall x ensures x in nodes <==> x == k {
      assert x in nodes <==> x in st.chains.Keys && StageHash(FirstBits(), x, st.mask, 1) == 0;
    }
    assert nodes == {k};
  }

  lemma {:induction false} FirstHash(f: Flow, end: nat)
    requires 1 <= end <= FLOW_U64S && !f[64 * 20]
    ensures Basis(FirstBits(), f, StagedMask(), end).0 == if f[0] then 1 else 0
    ensures StageHash(FirstBits(), f, StagedMask(), end) == if f[0] then 1 else 0
  {
    var mask := StagedMask();
    if end == 1 {
      assert mask[0];
      assert InMap(mask, 0);
      assert MaskedWord(f, mask, 0)[0] == f[0];
      assert Basis(FirstBits(), f, mask, 0) == (0, 0);
    } else {
      FirstHash(f, end - 1);
      assert !MaskedWord(f, mask, end - 1)[0];
    }
  }
}
