/** How classifier_replace() and classifier_remove() change one subtable. */
module SubtableChanges {

  import opened Options
  import opened Tries
  import opened Flows
  import opened Subtables

  function CmapInsert(m: Cmap, hash: nat, k: Flow): Cmap
  {
    m[hash := Nodes(m, hash) + {k}]
  }

  function CmapRemove(m: Cmap, hash: nat, k: Flow): Cmap
  {
    m[hash := Nodes(m, hash) - {k}]
  }

  lemma CmapInsertOk(hs: Hasher, m: Cmap, keys: set<Flow>, mask: Flow, end: nat, k: Flow)
    requires end <= FLOW_U64S && CmapOk(hs, m, keys, mask, end)
    ensures CmapOk(hs, CmapInsert(m, StageHash(hs, k, mask, end), k), keys + {k}, mask, end)
  {
    var m' := CmapInsert(m, StageHash(hs, k, mask, end), k);
    forall h, x ensures x in Nodes(m', h) <==> x in keys + {k} && StageHash(hs, x, mask, end) == h {
      assert x in Nodes(m, h) <==> x in keys && StageHash(hs, x, mask, end) == h;
    }
  }

  lemma CmapRemoveOk(hs: Hasher, m: Cmap, keys: set<Flow>, mask: Flow, end: nat, k: Flow)
    requires end <= FLOW_U64S && CmapOk(hs, m, keys, mask, end)
    ensures CmapOk(hs, CmapRemove(m, StageHash(hs, k, mask, end), k), keys - {k}, mask, end)
  {
    var m' := CmapRemove(m, StageHash(hs, k, mask, end), k);
    forall h, x ensures x in Nodes(m', h) <==> x in keys - {k} && StageHash(hs, x, mask, end) == h {
      assert x in Nodes(m, h) <==> x in keys && StageHash(hs, x, mask, end) == h;
    }
  }

  /* The state of a subtable's search structures, whatever its priorities. */
  ghost predicate Indexed(hs: Hasher, st: Subtable)
  {
    ChainsOk(st) && CmapsOk(hs, st) && PortsOk(st)
  }

  /* 'st' changed only in its search structures. */
  predicate SameShape(st: Subtable, st': Subtable)
  {
    && st'.mask == st.mask && st'.stages == st.stages && st'.triePlens == st.triePlens
    && st'.portsLen == st.portsLen && st'.maxPriority == st.maxPriority && st'.maxCount == st.maxCount
  }

  /* The segment indices after adding (or removing) the node of 'k' in each of them. */
  method ChangeIndices(hs: Hasher, st: Subtable, k: Flow, add: bool) returns (indices: seq<Cmap>, rules: Cmap)
    requires CmapsOk(hs, st)
    ensures CmapsOk(hs, st.(indices := indices, rules := rules, chains :=
                              if add then st.chains[k := []] else st.chains - {k}))
  {
    ghost var keys := st.chains.Keys;
    ghost var keys' := if add then keys + {k} else keys - {k};
    assert (st.chains[k := []]).Keys == keys + {k} && (st.chains - {k}).Keys == keys - {k};
    indices := st.indices;
    var start: nat, basis, hash := 0, (0, 0), 0;
    for i := 0 to |st.stages|
      invariant |indices| == |st.stages| && start <= FLOW_U64S && (i < |st.stages| ==> start <= st.stages[i])
      invariant basis == Basis(hs, k, st.mask, start)
      invariant forall j :: 0 <= j < i ==> CmapOk(hs, indices[j], keys', st.mask, st.stages[j])
      invariant forall j :: i <= j < |st.stages| ==> indices[j] == st.indices[j]
    {
      hash, basis := HashRange(hs, k, st.mask, start, st.stages[i], basis);
      start := st.stages[i];
      assert CmapOk(hs, st.indices[i], keys, st.mask, st.stages[i]);
      CmapInsertOk(hs, indices[i], keys, st.mask, start, k);
      CmapRemoveOk(hs, indices[i], keys, st.mask, start, k);
      indices := indices[i := if add then CmapInsert(indices[i], hash, k) else CmapRemove(indices[i], hash, k)];
    }
    hash, basis := HashRange(hs, k, st.mask, start, FLOW_U64S, basis);
    CmapInsertOk(hs, st.rules, keys, st.mask, FLOW_U64S, k);
    CmapRemoveOk(hs, st.rules, keys, st.mask, FLOW_U64S, k);
    rules := if add then CmapInsert(st.rules, hash, k) else CmapRemove(st.rules, hash, k);
  }

  lemma SharingAdd(st: Subtable, st': Subtable, k: Flow, p: Bits)
    requires st.portsLen <= 32 && SameShape(st, st')
    requires k !in st.chains && st'.chains.Keys == st.chains.Keys + {k}
    ensures |SharingPorts(st', p)| == |SharingPorts(st, p)| + if p == Ports(k)[..st.portsLen] then 1 else 0
  {
    hide Ports;
    forall x ensures x in SharingPorts(st', p) <==> x in SharingPorts(st, p) || (x == k && p == Ports(k)[..st.portsLen]) {
    }
    OneMore(SharingPorts(st, p), SharingPorts(st', p), k, p == Ports(k)[..st.portsLen]);
  }

  lemma OneMore<T>(a: set<T>, b: set<T>, k: T, hit: bool)
    requires k !in a && forall x :: x in b <==> x in a || (x == k && hit)
    ensures |b| == |a| + if hit then 1 else 0
  {
    assert b == if hit then a + {k} else a;
  }

  /* The ports trie follows the chains. */
  lemma PortsAddOk(st: Subtable, st': Subtable, k: Flow)
    requires PortsOk(st) && k !in st.chains && SameShape(st, st') && WellFormed(st'.portsTrie)
    requires st'.chains.Keys == st.chains.Keys + {k}
    requires if st.portsLen == 0 then st'.portsTrie == st.portsTrie
             else forall p :: Count(st'.portsTrie, p)
                              == Count(st.portsTrie, p) + if p == Ports(k)[..st.portsLen] then 1 else 0
    ensures PortsOk(st')
  {
    hide Count, WellFormed, SharingPorts, Ports;
    forall p ensures Count(st'.portsTrie, p) == if st.portsLen == 0 then 0 else |SharingPorts(st', p)| {
      SharingAdd(st, st', k, p);
    }
  }

  lemma PortsDropOk(st: Subtable, st': Subtable, k: Flow)
    requires PortsOk(st) && k in st.chains && SameShape(st, st') && WellFormed(st'.portsTrie)
    requires st'.chains.Keys == st.chains.Keys - {k}
    requires if st.portsLen == 0 then st'.portsTrie == st.portsTrie
             else forall p :: Count(st'.portsTrie, p)
                              == Count(st.portsTrie, p) - if p == Ports(k)[..st.portsLen] then 1 else 0
    ensures PortsOk(st')
  {
    hide Count, WellFormed, SharingPorts, Ports;
    assert st.chains.Keys == st'.chains.Keys + {k};
    forall p ensures Count(st'.portsTrie, p) == if st.portsLen == 0 then 0 else |SharingPorts(st', p)| {
      SharingAdd(st', st, k, p);
    }
  }

  /* Adds a chain of one rule to the search structures. */
  method AddHead(hs: Hasher, st: Subtable, rule: Rule) returns (st': Subtable)
    requires Indexed(hs, st) && RuleOk(rule) && rule.mask == st.mask && rule.flow !in st.chains
    ensures Indexed(hs, st') && SameShape(st, st')
    ensures st'.chains == st.chains[rule.flow := [rule]]
  {
    var k := rule.flow;
    var trie := st.portsTrie;
    if st.portsLen > 0 {
      trie := InsertPrefix(trie, Ports(k)[..st.portsLen]);
    }
    var indices, rules := ChangeIndices(hs, st, k, true);
    st' := st.(portsTrie := trie, indices := indices, rules := rules, chains := st.chains[k := [rule]]);
    assert CmapsOk(hs, st') by {
      assert (st.chains[k := []]).Keys == st'.chains.Keys;
    }
    PortsAddOk(st, st', k);
    assert ChainOk(st.mask, k, [rule]);
  }

  /* The ports prefix of a chain is in the ports trie, so that removing it cannot fail. */
  lemma PortsStored(st: Subtable, k: Flow)
    requires PortsOk(st) && k in st.chains && st.portsLen > 0
    ensures Count(st.portsTrie, Ports(k)[..st.portsLen]) > 0
  {
    assert k in SharingPorts(st, Ports(k)[..st.portsLen]);
  }

  /* Removes the chain of 'k' from the search structures. */
  method DropHead(hs: Hasher, st: Subtable, k: Flow) returns (st': Subtable)
    requires Indexed(hs, st) && k in st.chains
    ensures Indexed(hs, st') && SameShape(st, st')
    ensures st'.chains == st.chains - {k}
  {
    var trie := st.portsTrie;
    if st.portsLen > 0 {
      PortsStored(st, k);
      var found, depth;
      trie, found, depth := RemovePrefix(trie, Ports(k)[..st.portsLen]);
    }
    var indices, rules := ChangeIndices(hs, st, k, false);
    st' := st.(portsTrie := trie, indices := indices, rules := rules, chains := st.chains - {k});
    PortsDropOk(st, st', k);
  }

  // ---------------------------------------------------------------- chains

  /* The outcome of adding 'rule' to the chain 'c' of otherwise identical rules. */
  ghost predicate ChainGot(c: Chain, rule: Rule, c': Chain, displaced: Option<Rule>)
  {
    && (forall r :: r in c' <==> r == rule || (r in c && Some(r) != displaced))
    && (displaced.Some? ==> displaced.value in c && displaced.value.priority == rule.priority)
    && (displaced.None? ==> forall r :: r in c ==> r.priority != rule.priority)
    && |c'| == |c| + (if displaced.None? then 1 else 0)
    && c' != [] && c != [] && c'[0] == if rule.priority >= HeadPri(c) then rule else c[0]
  }

  lemma ReplaceAt(c: Chain, i: nat, rule: Rule)
    requires ChainOk(rule.mask, rule.flow, c) && RuleOk(rule) && rule !in c
    requires i < |c| && c[i].priority == rule.priority
    ensures ChainOk(rule.mask, rule.flow, c[i := rule]) && ChainGot(c, rule, c[i := rule], Some(c[i]))
  {
    var c' := c[i := rule];
    forall r ensures r in c' <==> r == rule || (r in c && r != c[i]) {
      if r in c && r != c[i] {
        var j :| 0 <= j < |c| && c[j] == r;
        assert c'[j] == r;
      }
      assert c'[i] == rule;
    }
    assert i > 0 ==> c[0].priority > rule.priority;
  }

  lemma InConcat<T>(a: seq<T>, x: T, b: seq<T>)
    ensures forall y :: y in a + [x] + b <==> y in a + b || y == x
  {
  }

  /* Inserting between higher and lower priorities keeps a chain. */
  lemma {:induction false} InsertOrdered(high: Chain, rule: Rule, low: Chain)
    requires high + low != [] ==> ChainOk(rule.mask, rule.flow, high + low)
    requires RuleOk(rule)
    requires forall j :: 0 <= j < |high| ==> high[j].priority > rule.priority
    requires forall j :: 0 <= j < |low| ==> low[j].priority < rule.priority
    ensures ChainOk(rule.mask, rule.flow, high + [rule] + low)
    decreases |high|
  {
    hide ChainOk, RuleOk;
    if high == [] {
      assert high + low == low && high + [rule] + low == [rule] + low;
      ConsChain(rule.mask, rule.flow, rule, low);
    } else {
      var c, rest := high + low, high[1..] + [rule] + low;
      assert high[1..] + low == c[1..];
      TailChain(rule.mask, rule.flow, c);
      InsertOrdered(high[1..], rule, low);
      InConcat(high[1..], rule, low);
      ConsChain(rule.mask, rule.flow, high[0], rest);
      assert [high[0]] + rest == high + [rule] + low;
    }
  }

  lemma TailChain(mask: Flow, k: Flow, c: Chain)
    requires ChainOk(mask, k, c)
    ensures c != []
    ensures c[1..] != [] ==> ChainOk(mask, k, c[1..])
    ensures c[0].flow == k && c[0].mask == mask && RuleOk(c[0]) && forall r :: r in c[1..] ==> r.priority < c[0].priority
  {
    hide RuleOk;
  }

  lemma ConsChain(mask: Flow, k: Flow, x: Rule, rest: Chain)
    requires (rest == [] || ChainOk(mask, k, rest)) && x.flow == k && x.mask == mask && RuleOk(x)
    requires forall r :: r in rest ==> r.priority < x.priority
    ensures ChainOk(mask, k, [x] + rest)
  {
    hide RuleOk;
  }

  lemma InsertAt(c: Chain, i: nat, rule: Rule)
    requires ChainOk(rule.mask, rule.flow, c) && RuleOk(rule)
    requires i <= |c| && (forall j :: 0 <= j < i ==> c[j].priority > rule.priority)
    requires i < |c| ==> c[i].priority < rule.priority
    ensures ChainOk(rule.mask, rule.flow, c[..i] + [rule] + c[i..])
    ensures ChainGot(c, rule, c[..i] + [rule] + c[i..], None)
  {
    assert forall j :: 0 <= j < |c| ==> c[j].priority != rule.priority;
    assert c == c[..i] + c[i..];
    InsertOrdered(c[..i], rule, c[i..]);
    hide ChainOk, RuleOk;
    InConcat(c[..i], rule, c[i..]);
  }

  /* The loop that puts 'rule' before the first rule of a lower priority, or in the place of the
     one with the same priority. */
  method InsertInChain(c: Chain, rule: Rule) returns (c': Chain, displaced: Option<Rule>)
    requires ChainOk(rule.mask, rule.flow, c) && RuleOk(rule) && rule !in c
    ensures ChainOk(rule.mask, rule.flow, c')
    ensures ChainGot(c, rule, c', displaced)
  {
    var i := 0;
    while i < |c| && rule.priority < c[i].priority
      invariant 0 <= i <= |c|
      invariant forall j :: 0 <= j < i ==> c[j].priority > rule.priority
    {
      i := i + 1;
    }
    if i < |c| && rule.priority == c[i].priority {
      ReplaceAt(c, i, rule);
      return c[i := rule], Some(c[i]);
    }
    InsertAt(c, i, rule);
    return c[..i] + [rule] + c[i..], None;
  }

  /* Removing a rule from its chain. */
  function WithoutRule(c: Chain, rule: Rule): (c': Chain)
    requires rule in c
    ensures |c'| == |c| - 1
  {
    if c[0] == rule then c[1..] else [c[0]] + WithoutRule(c[1..], rule)
  }

  lemma {:induction false} WithoutRuleOk(mask: Flow, k: Flow, c: Chain, rule: Rule)
    requires ChainOk(mask, k, c) && rule in c
    ensures forall r :: r in WithoutRule(c, rule) <==> r in c && r != rule
    ensures |c| > 1 ==> ChainOk(mask, k, WithoutRule(c, rule))
    ensures c[0] != rule ==> |c| > 1 && WithoutRule(c, rule)[0] == c[0]
    ensures c[0] == rule ==> WithoutRule(c, rule) == c[1..]
  {
    hide RuleOk;
    assert c == [c[0]] + c[1..];
    if c[0] != rule {
      WithoutRuleOk(mask, k, c[1..], rule);
      if |c| > 2 {
        ConsChain(mask, k, c[0], WithoutRule(c[1..], rule));
      }
    }
  }

  lemma ReplaceChainOk(hs: Hasher, st: Subtable, k: Flow, c: Chain)
    requires Indexed(hs, st) && k in st.chains && ChainOk(st.mask, k, c)
    ensures Indexed(hs, st.(chains := st.chains[k := c]))
  {
    var st' := st.(chains := st.chains[k := c]);
    assert st'.chains.Keys == st.chains.Keys;
    assert forall p :: SharingPorts(st', p) == SharingPorts(st, p);
  }

  // ---------------------------------------------------------------- priorities

  /* The chains among 'keys' whose head has priority 'pri'. */
  ghost function AtPriority(chains: map<Flow, Chain>, keys: set<Flow>, pri: Priority): set<Flow>
  {
    set k | k in keys && k in chains && HeadPri(chains[k]) == pri
  }

  lemma AtPriorityAdd(chains: map<Flow, Chain>, keys: set<Flow>, k: Flow, pri: Priority)
    requires k in chains && k !in keys
    ensures AtPriority(chains, keys + {k}, pri)
            == AtPriority(chains, keys, pri) + if HeadPri(chains[k]) == pri then {k} else {}
    ensures |AtPriority(chains, keys + {k}, pri)|
            == |AtPriority(chains, keys, pri)| + if HeadPri(chains[k]) == pri then 1 else 0
  {
    assert AtPriority(chains, keys + {k}, pri)
        == AtPriority(chains, keys, pri) + if HeadPri(chains[k]) == pri then {k} else {};
  }

  ghost predicate MaxAmong(chains: map<Flow, Chain>, keys: set<Flow>, max: Priority, count: nat)
  {
    && (forall k :: k in keys && k in chains ==> HeadPri(chains[k]) <= max)
    && count == |AtPriority(chains, keys, max)|
  }

  /* 'max_priority' is the highest priority in the subtable, of 'max_count' heads. */
  ghost predicate MaxOk(st: Subtable)
  {
    MaxAmong(st.chains, st.chains.Keys, st.maxPriority, st.maxCount) && st.maxCount > 0
  }

  /* One more head. */
  lemma MaxAmongAdd(chains: map<Flow, Chain>, keys: set<Flow>, k: Flow, max: Priority, count: nat)
    requires k in chains && k !in keys && MaxAmong(chains, keys, max, count)
    ensures var pri := HeadPri(chains[k]);
            MaxAmong(chains, keys + {k}, if pri > max then pri else max,
                     if pri > max then 1 else if pri == max then count + 1 else count)
  {
    var pri := HeadPri(chains[k]);
    if pri > max {
      assert AtPriority(chains, keys, pri) == {};
    }
    AtPriorityAdd(chains, keys, k, if pri > max then pri else max);
  }

  /* Only the heads of 'keys' matter. */
  lemma MaxAmongSame(chains: map<Flow, Chain>, chains': map<Flow, Chain>, keys: set<Flow>, max: Priority, count: nat)
    requires keys <= chains.Keys && keys <= chains'.Keys
    requires forall k :: k in keys ==> HeadPri(chains[k]) == HeadPri(chains'[k])
    requires MaxAmong(chains, keys, max, count)
    ensures MaxAmong(chains', keys, max, count)
  {
    assert AtPriority(chains', keys, max) == AtPriority(chains, keys, max);
  }

  /* One head less. */
  lemma MaxAmongRemove(chains: map<Flow, Chain>, keys: set<Flow>, k: Flow, max: Priority, count: nat)
    requires k in chains && k in keys && MaxAmong(chains, keys, max, count)
    ensures HeadPri(chains[k]) <= max && (HeadPri(chains[k]) == max ==> count > 0)
    ensures MaxAmong(chains, keys - {k}, max, if HeadPri(chains[k]) == max then count - 1 else count)
  {
    AtPriorityAdd(chains, keys - {k}, k, max);
    assert keys - {k} + {k} == keys;
  }

  /* The update after a rule was added: 'st' holds the rule already, 'first' if it is alone. */
  function AddPriority(st: Subtable, pri: Priority, first: bool): Subtable
  {
    if first || pri > st.maxPriority then st.(maxPriority := pri, maxCount := 1)
    else if pri == st.maxPriority then st.(maxCount := st.maxCount + 1)
    else st
  }

  /* The heads are those of 'before', except that the chain of 'k' got a rule of priority 'pri'. */
  ghost predicate GotRule(before: map<Flow, Chain>, chains: map<Flow, Chain>, k: Flow, pri: Priority)
  {
    && k in chains && chains.Keys == before.Keys + {k}
    && (forall x :: x in before && x != k ==> HeadPri(chains[x]) == HeadPri(before[x]))
    && var was := if k in before then HeadPri(before[k]) else INT_MIN;
       && pri != was && HeadPri(chains[k]) == if pri > was then pri else was
  }

  lemma MaxAfterRule(before: map<Flow, Chain>, chains: map<Flow, Chain>, k: Flow, pri: Priority, max: Priority, count: nat)
    requires GotRule(before, chains, k, pri) && MaxAmong(before, before.Keys, max, count)
    ensures MaxAmong(chains, chains.Keys, if pri > max then pri else max,
                     if pri > max then 1 else if pri == max then count + 1 else count)
  {
    hide MaxAmong, HeadPri;
    var rest := before.Keys - {k};
    assert rest + {k} == chains.Keys;
    var left := count;
    if k in before {
      MaxAmongRemove(before, before.Keys, k, max, count);
      left := if HeadPri(before[k]) == max then count - 1 else count;
    } else {
      assert rest == before.Keys;
    }
    MaxAmongSame(before, chains, rest, max, left);
    MaxAmongAdd(chains, rest, k, max, left);
  }

  lemma AddPriorityOk(before: Subtable, st: Subtable, k: Flow, pri: Priority)
    requires GotRule(before.chains, st.chains, k, pri) && pri > INT_MIN && SameShape(before, st)
    requires before.chains != map[] ==> MaxOk(before)
    ensures MaxOk(AddPriority(st, pri, before.chains == map[]))
  {
    hide MaxAmong, HeadPri;
    if before.chains == map[] {
      NoHeads(before.chains);
      assert before.chains.Keys == {};
      MaxAfterRule(before.chains, st.chains, k, pri, INT_MIN, 0);
    } else {
      MaxAfterRule(before.chains, st.chains, k, pri, before.maxPriority, before.maxCount);
    }
  }

  lemma NoHeads(chains: map<Flow, Chain>)
    ensures MaxAmong(chains, {}, INT_MIN, 0)
  {
    assert AtPriority(chains, {}, INT_MIN) == {};
  }

  /* The maximum priority, and its count, from all heads. */
  method FindMax(chains: map<Flow, Chain>) returns (max: Priority, count: nat)
    requires chains != map[] && forall k :: k in chains ==> HeadPri(chains[k]) > INT_MIN
    ensures MaxAmong(chains, chains.Keys, max, count) && count > 0
  {
    hide MaxAmong, HeadPri;
    var left := chains.Keys;
    max, count := INT_MIN, 0;
    ghost var done: set<Flow> := {};
    NoHeads(chains);
    while left != {}
      invariant done + left == chains.Keys && done !! left
      invariant MaxAmong(chains, done, max, count)
      invariant if done == {} then max == INT_MIN else count > 0
      decreases |left|
    {
      var k :| k in left;
      MaxAmongAdd(chains, done, k, max, count);
      var pri := HeadPri(chains[k]);
      if pri > max {
        max, count := pri, 1;
      } else if pri == max {
        count := count + 1;
      }
      MoveOne(done, left, k, chains.Keys);
      left, done := left - {k}, done + {k};
    }
    assert done == chains.Keys;
  }

  lemma MoveOne<T>(done: set<T>, left: set<T>, k: T, all: set<T>)
    requires done + left == all && done !! left && k in left
    ensures (done + {k}) + (left - {k}) == all && (done + {k}) !! (left - {k}) && |left - {k}| < |left|
  {
  }

  /* The update after a head of priority 'pri' was replaced by a lower one or removed. */
  method DropPriority(before: Subtable, st: Subtable, k: Flow, pri: Priority) returns (st': Subtable)
    requires MaxOk(before) && SameShape(before, st) && st.chains != map[]
    requires k in before.chains && pri == HeadPri(before.chains[k])
    requires st.chains.Keys + {k} == before.chains.Keys
    requires forall x :: x in st.chains && x != k ==> HeadPri(st.chains[x]) == HeadPri(before.chains[x])
    requires k in st.chains ==> HeadPri(st.chains[k]) < pri
    requires forall x :: x in st.chains ==> HeadPri(st.chains[x]) > INT_MIN
    ensures MaxOk(st') && st' == st.(maxPriority := st'.maxPriority, maxCount := st'.maxCount)
  {
    ghost var rest := before.chains.Keys - {k};
    ghost var count := if pri == st.maxPriority then st.maxCount - 1 else st.maxCount;
    MaxAmongRemove(before.chains, before.chains.Keys, k, before.maxPriority, before.maxCount);
    MaxAmongSame(before.chains, st.chains, rest, before.maxPriority, count);
    if k in st.chains {
      MaxAmongAdd(st.chains, rest, k, before.maxPriority, count);
      assert rest + {k} == st.chains.Keys;
    } else {
      assert rest == st.chains.Keys;
    }
    assert MaxAmong(st.chains, st.chains.Keys, st.maxPriority, count);
    st' := st;
    if st.maxPriority == pri {
      st' := st.(maxCount := st.maxCount - 1);
      if st'.maxCount == 0 {
        var max, count := FindMax(st.chains);
        st' := st.(maxPriority := max, maxCount := count);
      }
    }
  }

  // ---------------------------------------------------------------- new subtables

  /* 'mask' has bits in the words [start, end). */
  predicate HasBits(mask: Flow, start: nat, end: nat)
  {
    exists i :: 0 <= i < FLOW_BITS && 64 * start <= i < 64 * end && mask[i]
  }

  ghost predicate SegmentsOk(segments: seq<nat>)
  {
    && (forall i :: 0 <= i < |segments| ==> segments[i] <= FLOW_U64S)
    && (forall i, j :: 0 <= i < j < |segments| ==> segments[i] <= segments[j])
  }

  function Last(stages: seq<nat>): nat
  {
    if stages == [] then 0 else stages[|stages| - 1]
  }

  /* Every stage adds bits of 'mask' to the previous one. */
  ghost predicate StagesAdd(mask: Flow, stages: seq<nat>)
  {
    stages != [] ==>
      var n := |stages| - 1;
      HasBits(mask, Last(stages[..n]), stages[n]) && StagesAdd(mask, stages[..n])
  }

  /* So does what follows the last one. */
  ghost predicate StagesUseful(mask: Flow, stages: seq<nat>)
  {
    StagesAdd(mask, stages) && (stages != [] ==> HasBits(mask, Last(stages), FLOW_U64S))
  }

  /* Some stage looks at the same bits of 'mask' as the words below 's' do. */
  ghost predicate StageFor(mask: Flow, stages: seq<nat>, s: nat)
  {
    exists t :: t in stages && t <= s && !HasBits(mask, t, s)
  }

  /* There is a stage for every segment that divides the bits of 'mask'. */
  ghost predicate StagesComplete(segments: seq<nat>, mask: Flow, stages: seq<nat>)
  {
    forall s :: s in segments && HasBits(mask, 0, s) && HasBits(mask, s, FLOW_U64S) ==> StageFor(mask, stages, s)
  }

  lemma OldBits(none: Flow, mask: Flow, start: nat, end: nat)
    requires FoldRange(none, mask, 0, end) == FoldRange(none, mask, 0, start) && start <= end
    requires forall i :: 0 <= i < FLOW_BITS ==> !none[i]
    ensures !HasBits(mask, start, end)
  {
    var a, b := FoldRange(none, mask, 0, end), FoldRange(none, mask, 0, start);
    assert forall i :: 0 <= i < FLOW_BITS ==> a[i] == b[i];
  }

  lemma StageForMore(mask: Flow, stages: seq<nat>, t: nat, s: nat)
    requires StageFor(mask, stages, s)
    ensures StageFor(mask, stages + [t], s)
  {
    var x :| x in stages && x <= s && !HasBits(mask, x, s);
    assert x in stages + [t];
  }

  /* Without bits behind the last stage, no segment behind it divides the mask. */
  lemma LastNotNeeded(segments: seq<nat>, mask: Flow, stages: seq<nat>)
    requires stages != [] && !HasBits(mask, Last(stages), FLOW_U64S)
    requires forall s :: s in segments && HasBits(mask, 0, s) ==> StageFor(mask, stages, s)
    ensures StagesComplete(segments, mask, stages[..|stages| - 1])
  {
    var fewer := stages[..|stages| - 1];
    forall s | s in segments && HasBits(mask, 0, s) && HasBits(mask, s, FLOW_U64S) ensures StageFor(mask, fewer, s) {
      var t :| t in stages && t <= s && !HasBits(mask, t, s);
      assert stages == fewer + [Last(stages)];
    }
  }

  /* The segmented lookup that insert_subtable() sets up: an index for each segment that adds
     mask bits, without the last one if the rest of the mask adds none. */
  method SetUpStages(segments: seq<nat>, mask: Flow) returns (stages: seq<nat>)
    requires SegmentsOk(segments)
    ensures StagesOk(stages) && StagesUseful(mask, stages)
    ensures forall s :: s in stages ==> s in segments
    ensures StagesComplete(segments, mask, stages)
  {
    hide HasBits, StageFor, FoldRange;
    var none: Flow := seq(FLOW_BITS, _ => false);
    var wc, seen, prev: nat := none, none, 0;
    FoldNothing(none, mask);
    stages := [];
    for i := 0 to |segments|
      invariant prev == (if i == 0 then 0 else segments[i - 1]) && prev <= FLOW_U64S
      invariant Last(stages) <= prev && StagesOk(stages)
      invariant StagesAdd(mask, stages)
      invariant forall s :: s in stages ==> s in segments
      invariant forall j :: 0 <= j < i && HasBits(mask, 0, segments[j]) ==> StageFor(mask, stages, segments[j])
      invariant wc == FoldRange(none, mask, 0, prev) && seen == FoldRange(none, mask, 0, Last(stages))
    {
      assert i > 0 ==> segments[i - 1] <= segments[i];
      wc := FoldRange(wc, mask, prev, segments[i]);
      FoldTwice(none, mask, prev, segments[i]);
      if wc != seen {
        NewBits(none, mask, Last(stages), segments[i]);
        StagesMore(mask, stages, segments, i);
        assert (stages + [segments[i]])[..|stages|] == stages;
        stages, seen := stages + [segments[i]], wc;
      } else {
        OldBits(none, mask, Last(stages), segments[i]);
        LastIsFor(mask, stages, segments[i]);
      }
      prev := segments[i];
    }
    if stages != [] {
      wc := FoldRange(wc, mask, prev, FLOW_U64S);
      FoldTwice(none, mask, prev, FLOW_U64S);
      if wc == seen {
        LaterBits(mask, Last(stages[..|stages| - 1]), Last(stages));
        OldBits(none, mask, Last(stages), FLOW_U64S);
        LastNotNeeded(segments, mask, stages);
        stages := stages[..|stages| - 1];
      } else {
        NewBits(none, mask, Last(stages), FLOW_U64S);
      }
    }
  }

  lemma FoldTwice(none: Flow, mask: Flow, a: nat, b: nat)
    requires a <= b
    ensures FoldRange(FoldRange(none, mask, 0, a), mask, a, b) == FoldRange(none, mask, 0, b)
  {
  }

  lemma FoldNothing(none: Flow, mask: Flow)
    ensures FoldRange(none, mask, 0, 0) == none
  {
  }

  lemma StagesMore(mask: Flow, stages: seq<nat>, segments: seq<nat>, i: nat)
    requires i < |segments|
    requires forall j :: 0 <= j < i && HasBits(mask, 0, segments[j]) ==> StageFor(mask, stages, segments[j])
    ensures forall j :: 0 <= j <= i && HasBits(mask, 0, segments[j]) ==> StageFor(mask, stages + [segments[i]], segments[j])
  {
    hide HasBits;
    forall j | 0 <= j <= i && HasBits(mask, 0, segments[j]) ensures StageFor(mask, stages + [segments[i]], segments[j]) {
      if j < i {
        StageForMore(mask, stages, segments[i], segments[j]);
      } else {
        NoBitsBetween(mask, segments[i]);
        assert segments[i] in stages + [segments[i]];
      }
    }
  }

  lemma NoBitsBetween(mask: Flow, s: nat)
    ensures !HasBits(mask, s, s)
  {
  }

  lemma LastIsFor(mask: Flow, stages: seq<nat>, s: nat)
    requires Last(stages) <= s && !HasBits(mask, Last(stages), s)
    ensures HasBits(mask, 0, s) ==> StageFor(mask, stages, s)
  {
    if HasBits(mask, 0, s) {
      assert Last(stages) in stages;
    }
  }

  lemma NewBits(none: Flow, mask: Flow, start: nat, end: nat)
    requires FoldRange(none, mask, 0, end) != FoldRange(none, mask, 0, start) && start <= end
    ensures HasBits(mask, start, end)
  {
    var a, b := FoldRange(none, mask, 0, end), FoldRange(none, mask, 0, start);
    var i :| 0 <= i < FLOW_BITS && a[i] != b[i];
    assert mask[i];
  }

  lemma LaterBits(mask: Flow, start: nat, end: nat)
    requires HasBits(mask, start, end) && end <= FLOW_U64S
    ensures HasBits(mask, start, FLOW_U64S)
  {
    var i :| 0 <= i < FLOW_BITS && 64 * start <= i < 64 * end && mask[i];
  }

  /* 32 - ctz32(ports mask) */
  function PortsLen(mask: Flow, n: nat): (r: nat)
    requires n <= 32 && forall i :: TP_PORTS_BIT + n <= i < TP_PORTS_BIT + 32 ==> !mask[i]
    ensures IsPortsLen(mask, r)
  {
    if n == 0 || mask[TP_PORTS_BIT + n - 1] then n else PortsLen(mask, n - 1)
  }

  /* insert_subtable(): a subtable without rules. */
  method NewSubtable(hs: Hasher, segments: seq<nat>, tries: seq<ClsTrie>, mask: Flow) returns (st: Subtable)
    requires SegmentsOk(segments) && forall j :: 0 <= j < |tries| ==> tries[j].field.Ok()
    ensures st.mask == mask && st.chains == map[] && Indexed(hs, st) && PlensOk(st, tries)
    ensures StagesUseful(mask, st.stages) && StagesComplete(segments, mask, st.stages)
    ensures forall s :: s in st.stages ==> s in segments
  {
    hide Indexed, StagesUseful, StagesComplete, StagesOk, CidrLen, PortsLen, IsPortsLen;
    var stages := SetUpStages(segments, mask);
    var plens := [];
    for j := 0 to |tries|
      invariant |plens| == j
      invariant forall x :: 0 <= x < j ==> plens[x] == CidrLen(tries[x].field.Value(mask))
    {
      var n := PrefixLen(tries[j].field.Value(mask));
      plens := plens + [n];
    }
    st := Subtable(mask, stages, plens, PortsLen(mask, 32), Null, map[], map[], seq(|stages|, _ => map[]), 0, 0);
    EmptyIndexed(hs, st);
  }

  lemma EmptyIndexed(hs: Hasher, st: Subtable)
    requires StagesOk(st.stages) && IsPortsLen(st.mask, st.portsLen) && st.portsTrie == Null
    requires st.chains == map[] && st.rules == map[] && st.indices == seq(|st.stages|, _ => map[])
    ensures Indexed(hs, st)
  {
    assert forall p :: SharingPorts(st, p) == {};
  }
}
