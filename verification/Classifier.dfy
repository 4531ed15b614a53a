/** The flow classifier (struct classifier): replacing, removing and looking up rules. */
module Classifiers {

  import opened Options
  import opened Tries
  import opened Flows
  import opened Subtables
  import opened SubtableChanges
  import opened Selection
  import opened ClassifierState
  import opened Lookups
  import opened Matching

  ghost predicate Inv(hs: Hasher, subs: Tables, order: seq<Entry>, parts: Partitions, tries: seq<ClsTrie>, nRules: int)
  {
    && SubsOk(hs, subs, tries)
    && OrderOk(order, Pris(subs))
    && TriesOk(HeadsOf(subs), tries)
    && PartsOk(HeadsOf(subs), parts)
    && nRules == |AllRules(subs)|
  }

  // ---------------------------------------------------------------- changes of one subtable

  /* A new chain is a new head, in an old or in a new subtable. */
  lemma HeadsWithNew(subs: Tables, m: Flow, k: Flow, before: Subtable, st: Subtable)
    requires if m in subs then before == subs[m] else before.chains == map[]
    requires k !in before.chains && st.chains.Keys == before.chains.Keys + {k}
    ensures (m, k) !in HeadsOf(subs) && HeadsOf(subs[m := st]) == HeadsOf(subs) + {(m, k)}
  {
    forall x, y ensures (x, y) in HeadsOf(subs[m := st]) <==> (x, y) in HeadsOf(subs) + {(m, k)} {
    }
  }

  lemma HeadsSame(subs: Tables, m: Flow, st: Subtable)
    requires m in subs && st.chains.Keys == subs[m].chains.Keys
    ensures HeadsOf(subs[m := st]) == HeadsOf(subs)
  {
    forall x, y ensures (x, y) in HeadsOf(subs[m := st]) <==> (x, y) in HeadsOf(subs) {
    }
  }

  lemma SubsOkAfter(hs: Hasher, subs: Tables, tries: seq<ClsTrie>, m: Flow, st: Subtable)
    requires SubsOk(hs, subs, tries) && SubOk(hs, st, tries, m)
    ensures SubsOk(hs, subs[m := st], tries)
  {
    hide SubOk;
  }

  lemma RulesAfter(hs: Hasher, subs: Tables, subs2: Tables, tries: seq<ClsTrie>, gone: set<Rule>, come: set<Rule>)
    requires SubsOk(hs, subs, tries) && SubsOk(hs, subs2, tries)
    requires forall r :: Has(subs2, r) <==> (Has(subs, r) && r !in gone) || r in come
    requires forall r :: r in gone ==> Has(subs, r)
    requires forall r :: r in come ==> !Has(subs, r)
    ensures gone <= AllRules(subs) && come !! AllRules(subs)
    ensures AllRules(subs2) == AllRules(subs) - gone + come
    ensures |AllRules(subs2)| == |AllRules(subs)| - |gone| + |come|
  {
    hide Has, SubsOk, AllRules;
    RulesAreWhereTheyBelong(hs, subs, tries);
    RulesAreWhereTheyBelong(hs, subs2, tries);
    var all, all2 := AllRules(subs), AllRules(subs2);
    assert forall r :: r in all2 <==> (r in all && r !in gone) || r in come;
    SetCount(all, all2, gone, come);
  }

  lemma SetCount<T>(s: set<T>, t: set<T>, gone: set<T>, come: set<T>)
    requires gone <= s && come !! s && forall x :: x in t <==> (x in s && x !in gone) || x in come
    ensures t == s - gone + come && |t| == |s| - |gone| + |come|
  {
    assert t == (s - gone) + come && (s - gone) !! come;
  }

  /* One chain changed, appeared or disappeared: 'gone' and 'come' are the rules it lost and got. */
  lemma HasAfter(subs: Tables, subs2: Tables, m: Flow, k: Flow, old': Chain, new': Chain, gone: set<Rule>, come: set<Rule>)
    requires old' == (if m in subs && k in subs[m].chains then subs[m].chains[k] else [])
    requires new' == (if m in subs2 && k in subs2[m].chains then subs2[m].chains[k] else [])
    requires forall x, y :: (x, y) != (m, k) ==>
                              ((x in subs && y in subs[x].chains) <==> (x in subs2 && y in subs2[x].chains))
                              && (x in subs && y in subs[x].chains ==> subs2[x].chains[y] == subs[x].chains[y])
    requires forall r :: r in new' <==> (r in old' && r !in gone) || r in come
    requires forall r :: r in gone ==> r in old'
    requires forall r :: r in old' + new' ==> r.mask == m && r.flow == k
    requires forall r :: r in come ==> r !in old'
    ensures forall r :: Has(subs2, r) <==> (Has(subs, r) && r !in gone) || r in come
    ensures forall r :: r in gone ==> Has(subs, r)
    ensures forall r :: r in come ==> !Has(subs, r)
  {
    forall r ensures Has(subs2, r) <==> (Has(subs, r) && r !in gone) || r in come {
      if (r.mask, r.flow) == (m, k) {
        assert Has(subs2, r) <==> r in new';
        assert Has(subs, r) <==> r in old';
      } else {
        assert Has(subs2, r) <==> Has(subs, r);
      }
    }
  }

  lemma ChainRules(hs: Hasher, subs: Tables, tries: seq<ClsTrie>, m: Flow, k: Flow)
    requires SubsOk(hs, subs, tries) && m in subs && k in subs[m].chains
    ensures forall r :: r in subs[m].chains[k] ==> r.mask == m && r.flow == k
  {
    assert SubOk(hs, subs[m], tries, m);
    assert ChainOk(m, k, subs[m].chains[k]);
  }

  lemma PrisAfter(subs: Tables, m: Flow, st: Subtable)
    ensures Pris(subs[m := st]) == Pris(subs)[m := st.maxPriority]
    ensures Pris(subs - {m}) == Pris(subs) - {m}
  {
  }

  /* The state after a rule got a chain of its own. */
  lemma NewChainInv(hs: Hasher, subs: Tables, order: seq<Entry>, parts: Partitions, tries: seq<ClsTrie>, nRules: int,
                    before: Subtable, st: Subtable, order2: seq<Entry>, tries2: seq<ClsTrie>, rule: Rule)
    requires Inv(hs, subs, order, parts, tries, nRules)
    requires if rule.mask in subs then before == subs[rule.mask] else before.chains == map[]
    requires rule.flow !in before.chains && st.chains == before.chains[rule.flow := [rule]]
    requires SubOk(hs, st, tries, rule.mask) && SameFields(tries, tries2)
    requires TriesOk(HeadsOf(subs) + {(rule.mask, rule.flow)}, tries2)
    requires OrderOk(order2, Pris(subs)[rule.mask := st.maxPriority])
    ensures Inv(hs, subs[rule.mask := st], order2, Join(parts, rule.mask, rule.flow), tries2, nRules + 1)
    ensures AllRules(subs[rule.mask := st]) == AllRules(subs) + {rule} && rule !in AllRules(subs)
  {
    hide SubsOk, SubOk, OrderOk, TriesOk, PartsOk, HeadsOf, AllRules, Pris, Join, SameFields, Has;
    var m, k, subs2 := rule.mask, rule.flow, subs[rule.mask := st];
    HeadsWithNew(subs, m, k, before, st);
    JoinOk(HeadsOf(subs), parts, m, k);
    SubsOkAfter(hs, subs, tries, m, st);
    PrisAfter(subs, m, st);
    HasAfter(subs, subs2, m, k, [], [rule], {}, {rule});
    RulesAfter(hs, subs, subs2, tries, {}, {rule});
    SubsOkFields(hs, subs2, tries, tries2);
  }

  /* The state after an existing chain changed. */
  lemma ChainChangeInv(hs: Hasher, subs: Tables, order: seq<Entry>, parts: Partitions, tries: seq<ClsTrie>, nRules: int,
                       st: Subtable, k: Flow, order2: seq<Entry>, gone: set<Rule>, come: set<Rule>)
    requires Inv(hs, subs, order, parts, tries, nRules)
    requires st.mask in subs && k in subs[st.mask].chains && SubOk(hs, st, tries, st.mask) && k in st.chains
    requires st.chains == subs[st.mask].chains[k := st.chains[k]]
    requires OrderOk(order2, Pris(subs)[st.mask := st.maxPriority])
    requires forall r :: r in st.chains[k] <==> (r in subs[st.mask].chains[k] && r !in gone) || r in come
    requires forall r :: r in gone ==> r in subs[st.mask].chains[k]
    requires forall r :: r in come ==> r !in subs[st.mask].chains[k]
    ensures Inv(hs, subs[st.mask := st], order2, parts, tries, nRules - |gone| + |come|)
    ensures AllRules(subs[st.mask := st]) == AllRules(subs) - gone + come
    ensures gone <= AllRules(subs) && come !! AllRules(subs)
  {
    hide SubsOk, SubOk, OrderOk, TriesOk, PartsOk, HeadsOf, AllRules, Pris, Has;
    var m, subs2 := st.mask, subs[st.mask := st];
    HeadsSame(subs, m, st);
    SubsOkAfter(hs, subs, tries, m, st);
    PrisAfter(subs, m, st);
    ChainRules(hs, subs, tries, m, k);
    ChainRules(hs, subs2, tries, m, k);
    HasAfter(subs, subs2, m, k, subs[m].chains[k], st.chains[k], gone, come);
    RulesAfter(hs, subs, subs2, tries, gone, come);
  }

  lemma HeadsWithout(subs: Tables, subs2: Tables, m: Flow, k: Flow, st: Subtable)
    requires m in subs && k in subs[m].chains && st.chains == subs[m].chains - {k}
    requires if st.chains == map[] then subs2 == subs - {m} else subs2 == subs[m := st]
    ensures (m, k) !in HeadsOf(subs2)
    ensures HeadsOf(subs) - {(m, k)} == HeadsOf(subs2) && HeadsOf(subs) == HeadsOf(subs2) + {(m, k)}
  {
    assert subs == subs2[m := subs[m]];
    assert st.chains.Keys + {k} == subs[m].chains.Keys;
    HeadsWithNew(subs2, m, k, st, subs[m]);
  }

  lemma SubsOkWithout(hs: Hasher, subs: Tables, tries: seq<ClsTrie>, m: Flow)
    requires SubsOk(hs, subs, tries)
    ensures SubsOk(hs, subs - {m}, tries)
  {
    hide SubOk;
  }

  /* The state after the last rule of a chain was removed, together with its subtable if it has
     no other chain. */
  lemma DropChainInv(hs: Hasher, subs: Tables, order: seq<Entry>, parts: Partitions, tries: seq<ClsTrie>, nRules: int,
                     st: Subtable, subs2: Tables, order2: seq<Entry>, tries2: seq<ClsTrie>, rule: Rule)
    requires Inv(hs, subs, order, parts, tries, nRules)
    requires rule.mask in subs && rule.flow in subs[rule.mask].chains && subs[rule.mask].chains[rule.flow] == [rule]
    requires st.chains == subs[rule.mask].chains - {rule.flow}
    requires SameFields(tries, tries2) && TriesOk(HeadsOf(subs) - {(rule.mask, rule.flow)}, tries2)
    requires if st.chains == map[] then subs2 == subs - {rule.mask} && OrderOk(order2, Pris(subs) - {rule.mask})
             else && subs2 == subs[rule.mask := st] && SubOk(hs, st, tries, rule.mask)
                  && OrderOk(order2, Pris(subs)[rule.mask := st.maxPriority])
    ensures Inv(hs, subs2, order2, Leave(parts, rule.mask, rule.flow), tries2, nRules - 1)
    ensures AllRules(subs2) == AllRules(subs) - {rule} && rule in AllRules(subs)
  {
    hide SubsOk, SubOk, OrderOk, TriesOk, PartsOk, HeadsOf, AllRules, Pris, Leave, SameFields, Has;
    var m, k := rule.mask, rule.flow;
    HeadsWithout(subs, subs2, m, k, st);
    LeaveOk(HeadsOf(subs2), parts, m, k);
    if st.chains == map[] {
      SubsOkWithout(hs, subs, tries, m);
    } else {
      SubsOkAfter(hs, subs, tries, m, st);
    }
    PrisAfter(subs, m, st);
    OtherChains(subs, subs2, m, k, st);
    HasAfter(subs, subs2, m, k, [rule], [], {rule}, {});
    RulesAfter(hs, subs, subs2, tries, {rule}, {});
    SubsOkFields(hs, subs2, tries, tries2);
  }

  lemma OtherChains(subs: Tables, subs2: Tables, m: Flow, k: Flow, st: Subtable)
    requires m in subs && k in subs[m].chains && st.chains == subs[m].chains - {k}
    requires if st.chains == map[] then subs2 == subs - {m} else subs2 == subs[m := st]
    ensures forall x, y :: (x, y) != (m, k) ==>
                             ((x in subs && y in subs[x].chains) <==> (x in subs2 && y in subs2[x].chains))
                             && (x in subs && y in subs[x].chains ==> subs2[x].chains[y] == subs[x].chains[y])
    ensures !(m in subs2 && k in subs2[m].chains)
  {
    forall x, y | (x, y) != (m, k)
      ensures (x in subs && y in subs[x].chains) <==> (x in subs2 && y in subs2[x].chains)
    {
      if x == m && y in subs[m].chains {
        assert y in st.chains;
      }
    }
  }

  // ---------------------------------------------------------------- the classifier

  /* cls_rule_equal(): the same flows under the same mask, and the same priority. */
  predicate Identical(a: Rule, b: Rule)
  {
    a.mask == b.mask && a.flow == b.flow && a.priority == b.priority
  }

  /* find_equal(): is there a chain for exactly this flow? */
  method FindEqual(hs: Hasher, st: Subtable, k: Flow) returns (found: bool)
    requires CmapsOk(hs, st)
    ensures found <==> k in st.chains
  {
    var hash, basis := HashRange(hs, k, st.mask, 0, FLOW_U64S, (0, 0));
    var nodes := Nodes(st.rules, hash);
    assert k in nodes <==> k in st.chains.Keys;
    while nodes != {}
      invariant k in nodes <==> k in st.chains
      decreases |nodes|
    {
      var x :| x in nodes;
      if x == k {
        return true;
      }
      nodes := nodes - {x};
    }
    return false;
  }

  lemma TrieFields(heads: Heads, tries: seq<ClsTrie>)
    requires TriesOk(heads, tries)
    ensures forall j :: 0 <= j < |tries| ==> tries[j].field.Ok()
  {
    forall j | 0 <= j < |tries| ensures tries[j].field.Ok() {
      assert TrieCounts(heads, tries[j]);
    }
  }

  lemma NotAHead(subs: Tables, m: Flow, k: Flow)
    requires !(m in subs && k in subs[m].chains)
    ensures (m, k) !in HeadsOf(subs)
  {
  }

  lemma SubOkMask(hs: Hasher, st: Subtable, tries: seq<ClsTrie>, m: Flow)
    requires SubOk(hs, st, tries, m)
    ensures st.mask == m
  {
  }

  lemma SubOkAt(hs: Hasher, subs: Tables, tries: seq<ClsTrie>, m: Flow)
    requires SubsOk(hs, subs, tries) && m in subs
    ensures SubOk(hs, subs[m], tries, m)
  {
    hide SubOk;
  }

  lemma IndexedCmaps(hs: Hasher, st: Subtable)
    requires Indexed(hs, st)
    ensures CmapsOk(hs, st)
  {
  }

  ghost function Gone(displaced: Option<Rule>): set<Rule>
  {
    if displaced.Some? then {displaced.value} else {}
  }

  lemma ChainGotSets(c: Chain, rule: Rule, c': Chain, displaced: Option<Rule>)
    requires ChainGot(c, rule, c', displaced) && rule !in c
    ensures forall r :: r in c' <==> (r in c && r !in Gone(displaced)) || r in {rule}
    ensures forall r :: r in Gone(displaced) ==> r in c
    ensures forall r :: r in {rule} ==> r !in c
    ensures if displaced.None? then forall r :: r in c ==> r.priority != rule.priority
            else displaced.value in c && displaced.value.priority == rule.priority
    ensures |Gone(displaced)| == if displaced.None? then 0 else 1
  {
  }

  /* An identical rule can only be in the rule's own chain. */
  lemma IdenticalRules(hs: Hasher, subs: Tables, tries: seq<ClsTrie>, rule: Rule)
    requires SubsOk(hs, subs, tries)
    ensures forall r :: r in AllRules(subs) && r.mask == rule.mask && r.flow == rule.flow <==>
                          rule.mask in subs && rule.flow in subs[rule.mask].chains && r in subs[rule.mask].chains[rule.flow]
  {
    RulesAreWhereTheyBelong(hs, subs, tries);
    if rule.mask in subs && rule.flow in subs[rule.mask].chains {
      ChainRules(hs, subs, tries, rule.mask, rule.flow);
    }
  }

  /* An entry of the priority vector is only moved when its priority changed. */
  method Reorder(subs: Tables, order: seq<Entry>, m: Flow, pri: Priority) returns (order2: seq<Entry>)
    requires OrderOk(order, Pris(subs))
    ensures OrderOk(order2, Pris(subs)[m := pri])
  {
    hide OrderOk;
    if m in subs && subs[m].maxPriority == pri {
      assert Pris(subs)[m := pri] == Pris(subs);
      return order;
    }
    PlaceOk(order, Pris(subs), m, pri);
    return Place(order, m, pri);
  }

  /* A rule with a new chain, counted into the priorities of its subtable. */
  method AddChain(hs: Hasher, tries: seq<ClsTrie>, before: Subtable, rule: Rule) returns (st: Subtable)
    requires Indexed(hs, before) && PlensOk(before, tries) && before.mask == rule.mask && RuleOk(rule)
    requires before.chains != map[] ==> MaxOk(before)
    requires rule.flow !in before.chains
    ensures SubOk(hs, st, tries, rule.mask) && st.chains == before.chains[rule.flow := [rule]]
  {
    hide MaxOk, Indexed;
    var held := AddHead(hs, before, rule);
    AddPriorityOk(before, held, rule.flow, rule.priority);
    st := AddPriority(held, rule.priority, before.chains == map[]);
    SameIndexed(hs, held, st);
  }

  /* The priorities of a subtable play no role in its search structures. */
  lemma SameIndexed(hs: Hasher, st: Subtable, st': Subtable)
    requires Indexed(hs, st) && st' == st.(maxPriority := st'.maxPriority, maxCount := st'.maxCount)
    ensures Indexed(hs, st')
  {
    hide ChainOk, CmapOk;
    forall p ensures SharingPorts(st', p) == SharingPorts(st, p) {
    }
  }

  /* A rule added to a chain of identical matches. */
  method AddToChain(hs: Hasher, tries: seq<ClsTrie>, before: Subtable, rule: Rule)
    returns (st: Subtable, displaced: Option<Rule>)
    requires SubOk(hs, before, tries, rule.mask) && RuleOk(rule) && rule.flow in before.chains
    requires rule !in before.chains[rule.flow]
    ensures SubOk(hs, st, tries, rule.mask) && rule.flow in st.chains
    ensures st.chains == before.chains[rule.flow := st.chains[rule.flow]]
    ensures ChainGot(before.chains[rule.flow], rule, st.chains[rule.flow], displaced)
  {
    var k := rule.flow;
    assert ChainOk(rule.mask, k, before.chains[k]);
    hide Indexed, MaxOk, ChainOk, PlensOk;
    var c;
    c, displaced := InsertInChain(before.chains[k], rule);
    st := before.(chains := before.chains[k := c]);
    ReplaceChainOk(hs, before, k, c);
    if displaced.None? {
      HeadMoves(before, st, k, rule);
      AddPriorityOk(before, st, k, rule.priority);
      SameIndexed(hs, st, AddPriority(st, rule.priority, false));
      st := AddPriority(st, rule.priority, false);
    } else {
      HeadKept(before, st, k, rule, displaced.value);
    }
    SubOkFrom(hs, before, st, tries, rule.mask);
  }

  lemma SubOkFrom(hs: Hasher, before: Subtable, st: Subtable, tries: seq<ClsTrie>, m: Flow)
    requires SubOk(hs, before, tries, m) && Indexed(hs, st) && MaxOk(st)
    requires st.chains != map[] && st.mask == before.mask && st.triePlens == before.triePlens
    ensures SubOk(hs, st, tries, m)
  {
    hide Indexed, MaxOk;
  }

  lemma HeadMoves(before: Subtable, st: Subtable, k: Flow, rule: Rule)
    requires k in before.chains && k in st.chains && st.chains == before.chains[k := st.chains[k]]
    requires ChainGot(before.chains[k], rule, st.chains[k], None)
    ensures GotRule(before.chains, st.chains, k, rule.priority)
  {
    assert before.chains[k][0] in before.chains[k];
    assert st.chains.Keys == before.chains.Keys + {k};
  }

  /* Replacing a rule by one of the same priority keeps the head's priority. */
  lemma HeadKept(before: Subtable, st: Subtable, k: Flow, rule: Rule, displaced: Rule)
    requires MaxOk(before) && k in before.chains && k in st.chains && SameShape(before, st)
    requires st.chains == before.chains[k := st.chains[k]]
    requires ChainGot(before.chains[k], rule, st.chains[k], Some(displaced))
    requires ChainOk(rule.mask, k, before.chains[k])
    ensures MaxOk(st)
  {
    var c := before.chains[k];
    var i :| 0 <= i < |c| && c[i] == displaced;
    assert rule.priority <= HeadPri(c);
    assert HeadPri(st.chains[k]) == HeadPri(c);
    MaxAmongSame(before.chains, st.chains, before.chains.Keys, before.maxPriority, before.maxCount);
    assert st.chains.Keys == before.chains.Keys;
  }

  lemma SubOkPlens(hs: Hasher, st: Subtable, tries: seq<ClsTrie>, m: Flow)
    requires SubOk(hs, st, tries, m)
    ensures PlensOk(st, tries)
  {
    hide Indexed, MaxOk;
  }

  lemma HeadsAboveMin(hs: Hasher, st: Subtable)
    requires Indexed(hs, st)
    ensures forall x :: x in st.chains ==> HeadPri(st.chains[x]) > INT_MIN
  {
    forall x | x in st.chains ensures HeadPri(st.chains[x]) > INT_MIN {
      assert ChainOk(st.mask, x, st.chains[x]);
    }
  }

  /* A rule removed from a chain that has others. */
  method TakeFromChain(hs: Hasher, tries: seq<ClsTrie>, before: Subtable, rule: Rule) returns (st: Subtable)
    requires SubOk(hs, before, tries, rule.mask) && rule.flow in before.chains
    requires rule in before.chains[rule.flow] && |before.chains[rule.flow]| > 1
    ensures SubOk(hs, st, tries, rule.mask) && rule.flow in st.chains
    ensures st.chains == before.chains[rule.flow := st.chains[rule.flow]]
    ensures forall r :: r in st.chains[rule.flow] <==> r in before.chains[rule.flow] && r != rule
  {
    var k := rule.flow;
    assert ChainOk(rule.mask, k, before.chains[k]);
    WithoutRuleOk(rule.mask, k, before.chains[k], rule);
    var c := WithoutRule(before.chains[k], rule);
    assert before.chains[k][0] == rule ==> HeadPri(c) < rule.priority;
    hide Indexed, MaxOk, ChainOk, PlensOk;
    st := before.(chains := before.chains[k := c]);
    ReplaceChainOk(hs, before, k, c);
    assert st.chains.Keys == before.chains.Keys;
    if before.chains[k][0] == rule {
      /* Head rule: the next one replaces it in the data structures. */
      HeadsAboveMin(hs, st);
      var st' := DropPriority(before, st, k, rule.priority);
      SameIndexed(hs, st, st');
      st := st';
    } else {
      HeadStays(before, st, k);
    }
    SubOkFrom(hs, before, st, tries, rule.mask);
  }

  lemma HeadStays(before: Subtable, st: Subtable, k: Flow)
    requires MaxOk(before) && k in before.chains && k in st.chains && SameShape(before, st)
    requires st.chains == before.chains[k := st.chains[k]] && HeadPri(st.chains[k]) == HeadPri(before.chains[k])
    ensures MaxOk(st)
  {
    MaxAmongSame(before.chains, st.chains, before.chains.Keys, before.maxPriority, before.maxCount);
    assert st.chains.Keys == before.chains.Keys;
  }

  /* A chain of one rule removed. */
  method TakeChain(hs: Hasher, tries: seq<ClsTrie>, before: Subtable, rule: Rule) returns (st: Subtable)
    requires SubOk(hs, before, tries, rule.mask) && rule.flow in before.chains
    requires before.chains[rule.flow] == [rule]
    ensures st.chains == before.chains - {rule.flow}
    ensures if st.chains == map[] then st.portsTrie.Null? else SubOk(hs, st, tries, rule.mask)
  {
    hide Indexed, MaxOk, PlensOk;
    st := DropHead(hs, before, rule.flow);
    if st.chains == map[] {
      PortsEmpty(hs, st);
    } else {
      HeadsAboveMin(hs, st);
      assert st.chains.Keys + {rule.flow} == before.chains.Keys;
      var st' := DropPriority(before, st, rule.flow, rule.priority);
      SameIndexed(hs, st, st');
      SubOkFrom(hs, before, st', tries, rule.mask);
      st := st';
    }
  }

  /* What destroy_subtable() asserts about the ports trie. */
  lemma PortsEmpty(hs: Hasher, st: Subtable)
    requires Indexed(hs, st) && st.chains == map[]
    ensures st.portsTrie.Null?
  {
    assert forall p :: SharingPorts(st, p) == {};
    NullIffEmpty(st.portsTrie);
  }

  /* 'r' is a rule of the highest priority among those that match 'f', if there are any. */
  ghost predicate Best(rules: set<Rule>, f: Flow, r: Option<Rule>)
  {
    match r
    case None => forall x :: x in rules ==> !Agree(f, x.flow, x.mask)
    case Some(best) =>
      && best in rules && Agree(f, best.flow, best.mask)
      && forall x :: x in rules && Agree(f, x.flow, x.mask) ==> x.priority <= best.priority
  }

  class Classifier {
    const hs: Hasher
    const segments: seq<nat>
    const tagSeed: Flow -> nat

    var nRules: int
    var subtables: Tables
    var order: seq<Entry>
    var partitions: Partitions
    var tries: seq<ClsTrie>

    ghost predicate Valid()
      reads this
    {
      SegmentsOk(segments) && Inv(hs, subtables, order, partitions, tries, nRules)
    }

    ghost function Rules(): set<Rule>
      reads this
    {
      AllRules(subtables)
    }

    /* classifier_init(), with the prefix fields of classifier_set_prefix_fields(). */
    constructor (hs: Hasher, segments: seq<nat>, tagSeed: Flow -> nat, fields: seq<Field>)
      requires SegmentsOk(segments) && forall j :: 0 <= j < |fields| ==> fields[j].Ok()
      ensures Valid() && Rules() == {} && nRules == 0
      ensures this.hs == hs
    {
      this.hs, this.segments, this.tagSeed := hs, segments, tagSeed;
      nRules, subtables, order, partitions := 0, map[], [], map[];
      tries := seq(|fields|, j requires 0 <= j < |fields| => ClsTrie(fields[j], Null));
      new;
      assert forall field, p :: Users(HeadsOf(subtables), field, p) == {};
      assert forall v, m :: WithMetadata(HeadsOf(subtables), v, m) == {};
    }

    /* What a lookup reads. */
    function View(): Config
      reads this
    {
      Config(hs, tagSeed, order, subtables, partitions, tries)
    }

    /* classifier_replace() */
    method Replace(rule: Rule) returns (displaced: Option<Rule>)
      requires Valid() && RuleOk(rule) && rule !in Rules()
      modifies this
      ensures Valid()
      ensures displaced.None? ==> Rules() == old(Rules()) + {rule} && nRules == old(nRules) + 1
                                  && forall r :: r in old(Rules()) ==> !Identical(r, rule)
      ensures displaced.Some? ==> Rules() == old(Rules()) - {displaced.value} + {rule} && nRules == old(nRules)
                                  && displaced.value in old(Rules()) && Identical(displaced.value, rule)
    {
      TrieFields(HeadsOf(subtables), tries);
      IdenticalRules(hs, subtables, tries, rule);
      var m, k := rule.mask, rule.flow;
      if m in subtables {
        assert SubOk(hs, subtables[m], tries, m);
      }
      hide OrderOk, TriesOk, PartsOk, HeadsOf, AllRules, Pris, Indexed, MaxOk, SubsOk, PlensOk;
      var before;
      if m in subtables {
        before := subtables[m];
      } else {
        before := NewSubtable(hs, segments, tries, m);
      }
      IndexedCmaps(hs, before);
      var found := FindEqual(hs, before, k);
      if found {
        displaced := ReplaceInChain(rule);
      } else {
        ReplaceNew(before, rule);
        displaced := None;
      }
    }

    /* The part of classifier_replace() for a rule with equal ones in its subtable. */
    method ReplaceInChain(rule: Rule) returns (displaced: Option<Rule>)
      requires Valid() && RuleOk(rule)
      requires rule.mask in subtables && rule.flow in subtables[rule.mask].chains
      requires rule !in subtables[rule.mask].chains[rule.flow]
      modifies this
      ensures Valid()
      ensures var c := old(subtables[rule.mask].chains[rule.flow]);
              if displaced.None? then Rules() == old(Rules()) + {rule} && nRules == old(nRules) + 1
                                      && forall r :: r in c ==> r.priority != rule.priority
              else Rules() == old(Rules()) - {displaced.value} + {rule} && nRules == old(nRules)
                   && displaced.value in c && displaced.value.priority == rule.priority
    {
      hide SubOk, OrderOk, TriesOk, PartsOk, HeadsOf, AllRules, Pris, SubsOk, ChainGot, RuleOk, SegmentsOk;
      var m, k := rule.mask, rule.flow;
      SubOkAt(hs, subtables, tries, m);
      var st;
      st, displaced := AddToChain(hs, tries, subtables[m], rule);
      SubOkMask(hs, st, tries, m);
      var order2 := Reorder(subtables, order, m, st.maxPriority);
      ChainGotSets(subtables[m].chains[k], rule, st.chains[k], displaced);
      ChainChangeInv(hs, subtables, order, partitions, tries, nRules, st, k, order2, Gone(displaced), {rule});
      subtables, order := subtables[m := st], order2;
      if displaced.None? {
        nRules := nRules + 1;
      }
    }

    /* The part of classifier_replace() for a rule without an equal one in its subtable. */
    method ReplaceNew(before: Subtable, rule: Rule)
      requires Valid() && RuleOk(rule)
      requires if rule.mask in subtables then before == subtables[rule.mask] else before.chains == map[]
      requires before.mask == rule.mask && Indexed(hs, before) && PlensOk(before, tries)
      requires before.chains != map[] ==> MaxOk(before)
      requires rule.flow !in before.chains
      modifies this
      ensures Valid()
      ensures Rules() == old(Rules()) + {rule} && nRules == old(nRules) + 1
    {
      hide SubOk, OrderOk, TriesOk, PartsOk, HeadsOf, AllRules, Pris, Join, Indexed, MaxOk, SubsOk;
      var m, k := rule.mask, rule.flow;
      NotAHead(subtables, m, k);
      var tries2 := CountInAll(HeadsOf(subtables), k, before, tries);
      var st := AddChain(hs, tries, before, rule);
      var order2 := Reorder(subtables, order, m, st.maxPriority);
      NewChainInv(hs, subtables, order, partitions, tries, nRules, before, st, order2, tries2, rule);
      subtables, order, tries := subtables[m := st], order2, tries2;
      partitions, nRules := Join(partitions, m, k), nRules + 1;
    }

    /* classifier_remove(): does nothing if the rule is not in the classifier. */
    method Remove(rule: Rule) returns (removed: Option<Rule>)
      requires Valid()
      modifies this
      ensures Valid() && Rules() == old(Rules()) - {rule}
      ensures removed == if rule in old(Rules()) then Some(rule) else None
      ensures nRules == old(nRules) - if removed.Some? then 1 else 0
    {
      hide SubOk, OrderOk, TriesOk, PartsOk, HeadsOf, AllRules, Pris, SubsOk, SegmentsOk;
      RuleIsWhereItBelongs(hs, subtables, tries, rule);
      var m, k := rule.mask, rule.flow;
      if !Has(subtables, rule) {
        return None;
      }
      if |subtables[m].chains[k]| == 1 {
        RemoveLast(rule);
      } else {
        RemoveFromChain(rule);
      }
      return Some(rule);
    }

    /* The part of classifier_remove() for a rule that is not the last of its kind. */
    method RemoveFromChain(rule: Rule)
      requires Valid() && Has(subtables, rule) && |subtables[rule.mask].chains[rule.flow]| > 1
      modifies this
      ensures Valid() && Rules() == old(Rules()) - {rule} && nRules == old(nRules) - 1
    {
      hide SubOk, OrderOk, TriesOk, PartsOk, HeadsOf, AllRules, Pris, SubsOk, SegmentsOk;
      var m, k := rule.mask, rule.flow;
      SubOkAt(hs, subtables, tries, m);
      SubOkMask(hs, subtables[m], tries, m);
      var st := TakeFromChain(hs, tries, subtables[m], rule);
      SubOkMask(hs, st, tries, m);
      var order2 := Reorder(subtables, order, m, st.maxPriority);
      ChainChangeInv(hs, subtables, order, partitions, tries, nRules, st, k, order2, {rule}, {});
      subtables, order, nRules := subtables[m := st], order2, nRules - 1;
    }

    /* The part of classifier_remove() for the last rule of its kind. */
    method RemoveLast(rule: Rule)
      requires Valid() && Has(subtables, rule) && |subtables[rule.mask].chains[rule.flow]| == 1
      modifies this
      ensures Valid() && Rules() == old(Rules()) - {rule} && nRules == old(nRules) - 1
    {
      hide SubOk, OrderOk, TriesOk, PartsOk, HeadsOf, AllRules, Pris, SubsOk, SegmentsOk, Leave, PlensOk;
      var m, k := rule.mask, rule.flow;
      SubOkAt(hs, subtables, tries, m);
      SubOkMask(hs, subtables[m], tries, m);
      var st := TakeChain(hs, tries, subtables[m], rule);
      IsHead(subtables, m, k);
      ghost var heads := HeadsOf(subtables) - {(m, k)};
      assert HeadsOf(subtables) == heads + {(m, k)};
      SubOkPlens(hs, subtables[m], tries, m);
      var tries2 := CountOutAll(heads, k, subtables[m], tries);
      var subs2, order2;
      if st.chains == map[] {
        /* destroy_subtable() */
        WithoutOk(order, Pris(subtables), m);
        subs2, order2 := subtables - {m}, Without(order, m);
      } else {
        order2 := Reorder(subtables, order, m, st.maxPriority);
        subs2 := subtables[m := st];
      }
      DropChainInv(hs, subtables, order, partitions, tries, nRules, st, subs2, order2, tries2, rule);
      subtables, order, tries := subs2, order2, tries2;
      partitions, nRules := Leave(partitions, m, k), nRules - 1;
    }

    /* classifier_lookup(): without conjunctions, a matching rule of the highest priority. */
    method Lookup(f: Flow, wc0: Flow) returns (r: Option<Rule>, wc: Flow)
      requires Valid()
      ensures Covers(wc, wc0) && Frugal(subtables, wc0, wc)
      ensures (forall x :: x in Rules() ==> x.conj == []) ==> Best(Rules(), f, r)
      ensures forall clauses :: ConjOk(View(), f, clauses) ==>
                exists q, id :: Decided(View(), f, clauses, r, q, id, NO_BOUND)
                                && (Unshadowed(View(), f, clauses) ==> Exact(View(), f, clauses, q))
      ensures r == Select(order, subtables, f)
      ensures View().Sound(f) ==> forall g :: Alike(f, g, wc) ==> Select(order, subtables, g) == r
    {
      hide SubsOk, OrderOk, TriesOk, PartsOk, AllRules, Decided, ConjOk, SegmentsOk, Frugal, Unshadowed, Exact;
      r, wc := Lookups.Lookup(View(), f, wc0);
      if forall x :: x in Rules() ==> x.conj == [] {
        BestMatch(View(), f);
      }
      forall clauses | ConjOk(View(), f, clauses)
        ensures exists q, id :: Decided(View(), f, clauses, r, q, id, NO_BOUND)
                                && (Unshadowed(View(), f, clauses) ==> Exact(View(), f, clauses, q))
      {
        var q, id := SelectMeaning(View(), f, clauses);
        if Unshadowed(View(), f, clauses) {
          SelectExact(View(), f, clauses, r, q, id);
        }
      }
    }
  }
}
