/** What the selection means: without conjunctions, a matching rule of the highest priority; with
    them, the decision at the highest priority at which a certain match or a complete
    conjunction is found. */
module Matching {

  import opened Options
  import opened Tries
  import opened Flows
  import opened Subtables
  import opened SubtableChanges
  import opened Selection
  import opened ClassifierState
  import opened Lookups

  /* 'r' is one of the rules and matches 'f'. */
  ghost predicate Matches(c: Config, f: Flow, r: Rule)
  {
    r in AllRules(c.subs) && Agree(f, r.flow, r.mask)
  }

  /* Equivalently, it is in the chain that 'f' has in the rule's subtable. */
  predicate Candidate(c: Config, f: Flow, r: Rule)
  {
    r in MatchAt(c.subs, r.mask, f)
  }

  lemma MatchesIffCandidate(c: Config, f: Flow, r: Rule)
    requires c.Ok()
    ensures Matches(c, f, r) <==> Candidate(c, f, r)
  {
    hide SubsOk, TriesOk, PartsOk, OrderOk, AllRules, RuleOk, Agree;
    RuleIsWhereItBelongs(c.hs, c.subs, c.tries, r);
    if r.mask in c.subs {
      SubChains(c, r.mask);
      var st := c.subs[r.mask];
      if r.flow in st.chains {
        MaskedIffAgree(f, r.flow, r.mask);
      }
      var k := Masked(f, r.mask);
      if k in st.chains {
        assert ChainOk(r.mask, k, st.chains[k]);
      }
    }
  }

  lemma SubChains(c: Config, m: Flow)
    requires c.Ok() && m in c.subs
    ensures c.subs[m].mask == m && ChainsOk(c.subs[m])
  {
    assert SubOk(c.hs, c.subs[m], c.tries, m);
  }

  /* What is known about the chain of 'f' in a subtable. */
  lemma ChainFacts(c: Config, f: Flow, m: Flow)
    requires c.Ok()
    ensures var ch := MatchAt(c.subs, m, f);
            && (forall i :: 0 <= i < |ch| ==> ch[i].mask == m && ch[i].priority > INT_MIN && Candidate(c, f, ch[i]))
            && (forall i, j :: 0 <= i < j < |ch| ==> ch[i].priority > ch[j].priority)
  {
    hide SubsOk, TriesOk, PartsOk, OrderOk;
    if m in c.subs {
      var st, k := c.subs[m], Masked(f, m);
      SubChains(c, m);
      if k in st.chains {
        assert ChainOk(m, k, st.chains[k]);
      }
    }
  }

  // ---------------------------------------------------------------- the scan

  /* 'r' is a best certain match. */
  ghost predicate HardBest(c: Config, f: Flow, r: Option<Rule>)
  {
    && (r.Some? ==> Candidate(c, f, r.value) && r.value.conj == [])
    && forall x :: Candidate(c, f, x) && x.conj == [] ==> x.priority <= Pri(r)
  }

  /* 'ch' is what is left, from some rule on, of the chain of 'f' in a subtable. */
  ghost predicate Tail(c: Config, f: Flow, ch: Chain)
  {
    ch != [] ==>
      var whole := MatchAt(c.subs, ch[0].mask, f);
      |ch| <= |whole| && ch == whole[|whole| - |ch|..] && ch[0].conj != []
  }

  ghost predicate TailsOk(c: Config, f: Flow, soft: seq<Chain>)
  {
    && (forall j :: 0 <= j < |soft| ==> Tail(c, f, soft[j]))
    && (forall i, j :: 0 <= i < j < |soft| && soft[i] != [] && soft[j] != [] ==> soft[i][0].mask != soft[j][0].mask)
  }

  /* Every candidate is outdone by the hard match, still in a soft match, or a part of a
     conjunction of a priority that has been decided. */
  ghost predicate Accounted(c: Config, f: Flow, found: Found, bound: int, r: Rule)
  {
    || r.priority <= Pri(found.hard)
    || (exists j :: 0 <= j < |found.soft| && r in found.soft[j])
    || (r.conj != [] && r.priority >= bound)
  }

  /* The state before deciding the priorities below 'bound'. */
  ghost predicate Deciding(c: Config, f: Flow, found: Found, bound: int)
  {
    && (found.hard.Some? ==> Candidate(c, f, found.hard.value) && found.hard.value.conj == [])
    && TailsOk(c, f, found.soft)
    && (forall j :: 0 <= j < |found.soft| ==> HeadPri(found.soft[j]) < bound)
    && (forall r :: Candidate(c, f, r) ==> Accounted(c, f, found, bound, r))
  }

  /* The state of the scan after 'n' subtables. */
  ghost predicate Scanning(c: Config, f: Flow, n: nat, found: Found)
    requires n <= |c.order|
  {
    && (found.hard.Some? ==> Candidate(c, f, found.hard.value) && found.hard.value.conj == [])
    && (forall j :: 0 <= j < |found.soft| ==> ScannedTail(c, f, n, found.soft[j]))
    && (forall i, j :: 0 <= i < j < |found.soft| && found.soft[i] != [] && found.soft[j] != []
                       ==> found.soft[i][0].mask != found.soft[j][0].mask)
    && (forall i :: 0 <= i < n ==> Covered(c, f, i, found))
  }

  ghost predicate ScannedTail(c: Config, f: Flow, n: nat, ch: Chain)
    requires n <= |c.order|
  {
    ch != [] && Tail(c, f, ch) && |ch| == |MatchAt(c.subs, ch[0].mask, f)|
    && exists i :: 0 <= i < n && c.order[i].mask == ch[0].mask
  }

  /* The i-th subtable has nothing above the hard match, or is among the soft ones. */
  ghost predicate Covered(c: Config, f: Flow, i: nat, found: Found)
    requires i < |c.order|
  {
    var ch := MatchAt(c.subs, c.order[i].mask, f);
    HeadPri(ch) <= Pri(found.hard) || ch in found.soft
  }

  lemma {:induction false} ScanState(c: Config, f: Flow, n: nat)
    requires c.Ok() && n <= |c.order|
    ensures Scanning(c, f, n, Scan(c.order[..n], c.subs, f, true))
  {
    hide Config.Ok, MatchAt, ScannedTail, Candidate, Covered;
    if n > 0 {
      ScanState(c, f, n - 1);
      assert c.order[..n][..n - 1] == c.order[..n - 1];
      ScanStateStep(c, f, n - 1, Scan(c.order[..n - 1], c.subs, f, true));
    }
  }

  lemma OrderDistinct(c: Config, n: nat)
    requires c.Ok() && n < |c.order|
    ensures forall i :: 0 <= i < n ==> c.order[i].mask != c.order[n].mask
  {
  }

  lemma ScannedTailLater(c: Config, f: Flow, n: nat, ch: Chain)
    requires n < |c.order| && ScannedTail(c, f, n, ch)
    ensures ScannedTail(c, f, n + 1, ch)
  {
    hide Tail, MatchAt;
  }

  lemma CoveredLater(c: Config, f: Flow, i: nat, found: Found, ch: Chain)
    requires i < |c.order| && Covered(c, f, i, found)
    ensures Covered(c, f, i, Consider(found, ch, true))
  {
    hide MatchAt;
  }

  lemma NewTail(c: Config, f: Flow, n: nat, ch: Chain)
    requires c.Ok() && n < |c.order| && ch == MatchAt(c.subs, c.order[n].mask, f) != [] && ch[0].conj != []
    ensures ScannedTail(c, f, n + 1, ch)
  {
    hide Config.Ok, MatchAt, Candidate;
    ChainFacts(c, f, c.order[n].mask);
    assert ch[0].mask == c.order[n].mask;
    assert ch[0..] == ch;
  }

  lemma ScanStateStep(c: Config, f: Flow, n: nat, found: Found)
    requires c.Ok() && n < |c.order| && Scanning(c, f, n, found)
    ensures Scanning(c, f, n + 1, Consider(found, MatchAt(c.subs, c.order[n].mask, f), true))
  {
    hide Config.Ok, MatchAt, ScannedTail, Candidate, Covered;
    var ch := MatchAt(c.subs, c.order[n].mask, f);
    var found' := Consider(found, ch, true);
    ChainFacts(c, f, c.order[n].mask);
    OrderDistinct(c, n);
    forall i | 0 <= i < n + 1 ensures Covered(c, f, i, found') {
      if i < n {
        CoveredLater(c, f, i, found, ch);
      } else {
        CoveredNow(c, f, n, found);
      }
    }
    forall j | 0 <= j < |found'.soft| ensures ScannedTail(c, f, n + 1, found'.soft[j]) {
      if j < |found.soft| {
        ScannedTailLater(c, f, n, found.soft[j]);
      } else {
        NewTail(c, f, n, ch);
      }
    }
    forall i | 0 <= i < |found.soft| && ch != [] && found.soft[i] != []
      ensures found.soft[i][0].mask != ch[0].mask
    {
      TailMask(c, f, n, found.soft[i]);
    }
  }

  lemma CoveredNow(c: Config, f: Flow, n: nat, found: Found)
    requires n < |c.order|
    ensures Covered(c, f, n, Consider(found, MatchAt(c.subs, c.order[n].mask, f), true))
  {
    hide MatchAt;
  }

  lemma TailMask(c: Config, f: Flow, n: nat, ch: Chain)
    requires n <= |c.order| && ScannedTail(c, f, n, ch)
    ensures ch != [] && exists i :: 0 <= i < n && c.order[i].mask == ch[0].mask
  {
  }

  /* After the scan nothing is decided yet. */
  lemma ScanDeciding(c: Config, f: Flow)
    requires c.Ok()
    ensures Deciding(c, f, Scan(c.order, c.subs, f, true), INT_MAX + 1)
  {
    hide Config.Ok, MatchAt, ScannedTail, Candidate, Scan, Accounted, Tail;
    var n := |c.order|;
    var found := Scan(c.order, c.subs, f, true);
    assert c.order[..n] == c.order;
    ScanState(c, f, n);
    forall j | 0 <= j < |found.soft| ensures Tail(c, f, found.soft[j]) {
      ScannedIsTail(c, f, n, found.soft[j]);
    }
    forall r | Candidate(c, f, r) ensures Accounted(c, f, found, INT_MAX + 1, r) {
      CandidateEntry(c, f, r);
      var i :| 0 <= i < n && c.order[i].mask == r.mask;
      CoveredAccounts(c, f, i, found, r);
    }
  }

  lemma ScannedIsTail(c: Config, f: Flow, n: nat, ch: Chain)
    requires n <= |c.order| && ScannedTail(c, f, n, ch)
    ensures Tail(c, f, ch)
  {
  }

  lemma CoveredAccounts(c: Config, f: Flow, i: nat, found: Found, r: Rule)
    requires c.Ok() && i < |c.order| && c.order[i].mask == r.mask && Candidate(c, f, r)
    requires Covered(c, f, i, found)
    ensures Accounted(c, f, found, INT_MAX + 1, r)
  {
    hide Config.Ok, MatchAt;
    HeadIsBest(c, f, r);
  }

  lemma CandidateEntry(c: Config, f: Flow, r: Rule)
    requires c.Ok() && Candidate(c, f, r)
    ensures exists i :: 0 <= i < |c.order| && c.order[i].mask == r.mask
  {
    hide SubsOk, TriesOk, PartsOk, HeadsOf;
    var e := Entry(r.mask, c.subs[r.mask].maxPriority);
    assert e in c.order;
  }

  lemma HeadIsBest(c: Config, f: Flow, r: Rule)
    requires c.Ok() && Candidate(c, f, r)
    ensures r.priority <= HeadPri(MatchAt(c.subs, r.mask, f))
  {
    hide Config.Ok, MatchAt;
    ChainFacts(c, f, r.mask);
    var ch := MatchAt(c.subs, r.mask, f);
    var i :| 0 <= i < |ch| && ch[i] == r;
  }

  lemma {:induction false} NoSoft(c: Config, f: Flow, n: nat)
    requires c.Ok() && n <= |c.order| && forall r :: r in AllRules(c.subs) ==> r.conj == []
    ensures Scan(c.order[..n], c.subs, f, true).soft == []
  {
    hide Config.Ok, MatchAt, AllRules;
    if n > 0 {
      NoSoft(c, f, n - 1);
      assert c.order[..n][..n - 1] == c.order[..n - 1];
      var ch := MatchAt(c.subs, c.order[n - 1].mask, f);
      ChainFacts(c, f, c.order[n - 1].mask);
      if ch != [] {
        MatchesIffCandidate(c, f, ch[0]);
      }
    }
  }

  /* Without conjunctions a lookup finds a matching rule of the highest priority, or none if no
     rule matches. */
  lemma BestMatch(c: Config, f: Flow)
    requires c.Ok() && forall r :: r in AllRules(c.subs) ==> r.conj == []
    ensures match Select(c.order, c.subs, f)
            case None => forall r :: r in AllRules(c.subs) ==> !Agree(f, r.flow, r.mask)
            case Some(best) =>
              && best in AllRules(c.subs) && Agree(f, best.flow, best.mask)
              && forall r :: r in AllRules(c.subs) && Agree(f, r.flow, r.mask) ==> r.priority <= best.priority
  {
    hide Config.Ok, AllRules, Candidate, Scan, Agree, Deciding, MatchAt;
    var found := Scan(c.order, c.subs, f, true);
    assert c.order[..|c.order|] == c.order;
    NoSoft(c, f, |c.order|);
    ScanDeciding(c, f);
    HardDecides(c, f, found);
    forall r ensures Matches(c, f, r) <==> Candidate(c, f, r) {
      MatchesIffCandidate(c, f, r);
    }
    forall r | Matches(c, f, r) ensures r.priority <= Pri(found.hard) && r.priority > INT_MIN {
      AboveMin(c, f, r);
    }
    assert found.hard.Some? ==> Matches(c, f, found.hard.value);
  }

  lemma AboveMin(c: Config, f: Flow, r: Rule)
    requires c.Ok() && Candidate(c, f, r)
    ensures r.priority > INT_MIN
  {
    hide Config.Ok, MatchAt;
    ChainFacts(c, f, r.mask);
  }

  /* Once no soft matches are left, the hard match decides all priorities below 'bound'. */
  lemma HardDecides(c: Config, f: Flow, found: Found)
    requires Deciding(c, f, found, INT_MAX + 1) && found.soft == []
    ensures forall r :: Candidate(c, f, r) ==> r.priority <= Pri(found.hard)
    ensures found.hard.Some? ==> Candidate(c, f, found.hard.value)
  {
    forall r | Candidate(c, f, r) ensures r.priority <= Pri(found.hard) {
      assert Accounted(c, f, found, INT_MAX + 1, r);
    }
  }

  // ---------------------------------------------------------------- conjunctions

  /* Conjunctions as they should be: 1 to 64 clauses, always the same number for an id, and at
     most one clause of an id per rule. */
  ghost predicate ConjOk(c: Config, f: Flow, clauses: ConjId -> nat)
  {
    && (forall id :: 0 < clauses(id) <= 64)
    && (forall r :: Candidate(c, f, r) ==> RuleConjOk(r, clauses))
  }

  ghost predicate RuleConjOk(r: Rule, clauses: ConjId -> nat)
  {
    && (forall i :: 0 <= i < |r.conj| ==> r.conj[i].nClauses == clauses(r.conj[i].id) <= 64
                                          && r.conj[i].clause < r.conj[i].nClauses)
    && (forall i, j :: 0 <= i < j < |r.conj| ==> r.conj[i].id != r.conj[j].id)
  }

  /* Rule 'r' supplies clause 'k' of conjunction 'id'. */
  ghost predicate Supplies(r: Rule, id: ConjId, k: nat)
  {
    exists i :: 0 <= i < |r.conj| && r.conj[i].id == id && r.conj[i].clause == k
  }

  /* Some rule of priority 'pri' that 'f' matches supplies the clause. */
  ghost predicate ClauseAt(c: Config, f: Flow, pri: int, id: ConjId, k: nat)
  {
    exists r :: Candidate(c, f, r) && r.priority == pri && Supplies(r, id, k)
  }

  /* All clauses of the conjunction match at one priority. */
  ghost predicate Complete(c: Config, f: Flow, clauses: ConjId -> nat, pri: int, id: ConjId)
  {
    forall k :: 0 <= k < clauses(id) ==> ClauseAt(c, f, pri, id, k)
  }

  /* The matching rules of this priority that are parts of conjunctions. */
  ghost function Parts(c: Config, f: Flow, pri: int): set<Rule>
  {
    set r | r in AllRules(c.subs) && Candidate(c, f, r) && r.priority == pri && r.conj != []
  }

  /* Some matching rule of this priority is a part of the conjunction. */
  ghost predicate Listed(c: Config, f: Flow, pri: int, id: ConjId)
  {
    exists r, j :: Candidate(c, f, r) && r.priority == pri && 0 <= j < |r.conj| && r.conj[j].id == id
  }

  /* A conjunction of 64 clauses leaves no bit that is not preset, so that any clause completes it
     once there are 64 soft matches. */
  ghost predicate Premature(c: Config, f: Flow, clauses: ConjId -> nat, pri: int, id: ConjId)
  {
    clauses(id) == 64 && Listed(c, f, pri, id) && |Parts(c, f, pri)| >= 64
  }

  /* The conjunction is taken for complete. */
  ghost predicate Believed(c: Config, f: Flow, clauses: ConjId -> nat, pri: int, id: ConjId)
  {
    Complete(c, f, clauses, pri, id) || Premature(c, f, clauses, pri, id)
  }

  /* The conjunction is taken for complete, but there is no rule for its id. */
  ghost predicate Dangling(c: Config, f: Flow, clauses: ConjId -> nat, pri: int, id: ConjId)
  {
    Believed(c, f, clauses, pri, id) && ByConjId(c.order, c.subs, f, id).None?
  }

  /* Entry 'j' of a rule's conjunctions stands behind a dangling one. */
  ghost predicate Behind(c: Config, f: Flow, clauses: ConjId -> nat, pri: int, conj: seq<Conjunction>, j: nat)
    requires j <= |conj|
  {
    exists i :: 0 <= i < j && Dangling(c, f, clauses, pri, conj[i].id)
  }

  /* So does every entry, in a matching rule of this priority, for clause 'k' of 'id'. */
  ghost predicate ClauseBehind(c: Config, f: Flow, clauses: ConjId -> nat, pri: int, id: ConjId, k: nat)
  {
    forall r, j :: Candidate(c, f, r) && r.priority == pri && 0 <= j < |r.conj| && r.conj[j].id == id && r.conj[j].clause == k
                   ==> Behind(c, f, clauses, pri, r.conj, j)
  }

  /* Some clause stands behind dangling conjunctions only; of 64 clauses all have to. */
  ghost predicate Shadowed(c: Config, f: Flow, clauses: ConjId -> nat, pri: int, id: ConjId)
  {
    if clauses(id) == 64 then forall k :: 0 <= k < 64 ==> ClauseBehind(c, f, clauses, pri, id, k)
    else exists k :: 0 <= k < clauses(id) && ClauseBehind(c, f, clauses, pri, id, k)
  }

  /* A complete conjunction can be missed only if it has no rule or is shadowed. */
  ghost predicate Excused(c: Config, f: Flow, clauses: ConjId -> nat, pri: int, id: ConjId)
  {
    ByConjId(c.order, c.subs, f, id).None? || Shadowed(c, f, clauses, pri, id)
  }

  /* The soft matches of priority 'pri' are exactly the rules of that priority that 'f' matches
     and that are parts of conjunctions. */
  ghost predicate LevelOk(c: Config, f: Flow, soft: seq<Chain>, pri: Priority)
  {
    && pri > INT_MIN
    && (forall j :: 0 <= j < |soft| && HeadPri(soft[j]) == pri && soft[j] != [] ==> Candidate(c, f, soft[j][0]) && soft[j][0].conj != [])
    && (forall i, j :: 0 <= i < j < |soft| && soft[i] != [] && soft[j] != [] ==> soft[i][0].mask != soft[j][0].mask)
    && (forall r :: Candidate(c, f, r) && r.priority == pri && r.conj != [] ==> exists j :: HeadAt(soft, j, r))
  }

  ghost predicate HeadAt(soft: seq<Chain>, j: int, r: Rule)
  {
    0 <= j < |soft| && soft[j] != [] && soft[j][0] == r
  }

  /* What was recorded is backed by matching rules. */
  ghost predicate SeenSound(c: Config, f: Flow, clauses: ConjId -> nat, pri: Priority, seen: Seen)
  {
    forall id, k :: id in seen && k in seen[id] && k < clauses(id) < 64 ==> ClauseAt(c, f, pri, id, k)
  }

  /* Everything that the first 'n' entries of 'conj' supply is recorded, and completes nothing. */
  ghost predicate Recorded(conj: seq<Conjunction>, n: nat, max: nat, seen: Seen)
    requires n <= |conj|
  {
    forall i :: 0 <= i < n && conj[i].nClauses <= max ==>
                  conj[i].id in seen && conj[i].clause in seen[conj[i].id]
  }

  /* The bits that stand for no clause are preset, and there are only 64. */
  ghost predicate Preset(clauses: ConjId -> nat, seen: Seen)
  {
    forall id :: id in seen ==> NoClauses(clauses(id)) <= seen[id] <= ALL_CLAUSES
  }

  /* What has been reported has no rule. */
  ghost predicate NoneRuled(c: Config, f: Flow, seen: Seen)
  {
    forall id :: id in seen && seen[id] == ALL_CLAUSES ==> ByConjId(c.order, c.subs, f, id).None?
  }

  /* Every entry that stands behind no dangling conjunction is recorded. */
  ghost predicate FrontRecorded(c: Config, f: Flow, clauses: ConjId -> nat, pri: int, conj: seq<Conjunction>, max: nat, seen: Seen)
  {
    forall j :: 0 <= j < |conj| && conj[j].nClauses <= max && !Behind(c, f, clauses, pri, conj, j) ==>
                  conj[j].id in seen && conj[j].clause in seen[conj[j].id]
  }

  /* Recording only grows what was seen. */
  ghost predicate Grows(seen: Seen, seen2: Seen)
  {
    forall id :: id in seen ==> id in seen2 && seen[id] <= seen2[id]
  }

  /* find_conjunctive_match() reports only conjunctions that are complete, or have 64 clauses. */
  lemma {:induction false} RecordSound(c: Config, f: Flow, clauses: ConjId -> nat, pri: Priority, r: Rule, i: nat, max: nat, seen: Seen)
    requires ConjOk(c, f, clauses) && Candidate(c, f, r) && r.priority == pri && i <= |r.conj|
    requires SeenSound(c, f, clauses, pri, seen) && max <= |Parts(c, f, pri)|
    ensures SeenSound(c, f, clauses, pri, Record(r.conj, i, max, seen).0)
    ensures var id := Record(r.conj, i, max, seen).1; id.Some? ==> Believed(c, f, clauses, pri, id.value)
    decreases |r.conj| - i
  {
    hide Candidate, Parts;
    if i < |r.conj| && r.conj[i].nClauses <= max {
      var e := r.conj[i];
      var s := See(seen, e);
      assert RuleConjOk(r, clauses);
      assert Supplies(r, e.id, e.clause);
      assert ClauseAt(c, f, pri, e.id, e.clause);
      var seen' := seen[e.id := s];
      assert SeenSound(c, f, clauses, pri, seen');
      if s == ALL_CLAUSES {
        if clauses(e.id) < 64 {
          forall k | 0 <= k < clauses(e.id) ensures ClauseAt(c, f, pri, e.id, k) {
            assert k in s;
          }
        } else {
          assert Premature(c, f, clauses, pri, e.id);
        }
      } else {
        RecordSound(c, f, clauses, pri, r, i + 1, max, seen');
      }
    } else if i < |r.conj| {
      RecordSound(c, f, clauses, pri, r, i + 1, max, seen);
    }
  }

  /* How far the recording of a rule's clauses has come. */
  ghost predicate RecordedTo(conj: seq<Conjunction>, max: nat, seen: Seen, id: Option<ConjId>)
  {
    if id.None? then Recorded(conj, |conj|, max, seen)
    else exists x :: 0 <= x < |conj| && conj[x].id == id.value && Recorded(conj, x + 1, max, seen)
  }

  /* All is recorded up to the entry that is reported, if any, and nothing else becomes complete. */
  lemma {:induction false} RecordAll(r: Rule, clauses: ConjId -> nat, i: nat, max: nat, seen: Seen)
    requires i <= |r.conj| && RuleConjOk(r, clauses) && Recorded(r.conj, i, max, seen) && Preset(clauses, seen)
    ensures var (seen', id) := Record(r.conj, i, max, seen);
            && RecordedTo(r.conj, max, seen', id) && Preset(clauses, seen') && Grows(seen, seen')
            && forall y :: y in seen' && seen'[y] == ALL_CLAUSES ==> Some(y) == id || (y in seen && seen[y] == ALL_CLAUSES)
    decreases |r.conj| - i
  {
    hide See, RuleConjOk;
    if i < |r.conj| {
      var e := r.conj[i];
      if e.nClauses > max {
        RecordAll(r, clauses, i + 1, max, seen);
      } else {
        RecordOne(r, clauses, i, max, seen);
        var seen1 := seen[e.id := See(seen, e)];
        if See(seen, e) == ALL_CLAUSES {
          assert Recorded(r.conj, i + 1, max, seen1);
        } else {
          RecordAll(r, clauses, i + 1, max, seen1);
        }
      }
    }
  }

  lemma RecordOne(r: Rule, clauses: ConjId -> nat, i: nat, max: nat, seen: Seen)
    requires i < |r.conj| && RuleConjOk(r, clauses) && Recorded(r.conj, i, max, seen) && Preset(clauses, seen)
    ensures var seen' := seen[r.conj[i].id := See(seen, r.conj[i])];
            Recorded(r.conj, i + 1, max, seen') && Preset(clauses, seen') && Grows(seen, seen')
  {
  }

  // ---------------------------------------------------------------- one level

  /* The first 'n' soft matches of priority 'pri' are recorded, as far as nothing dangling stands in
     front. */
  ghost predicate LevelRecorded(c: Config, f: Flow, clauses: ConjId -> nat, soft: seq<Chain>, pri: Priority, n: nat, max: nat, seen: Seen)
    requires n <= |soft|
  {
    forall j :: 0 <= j < n && HeadPri(soft[j]) == pri && soft[j] != [] ==>
                  FrontRecorded(c, f, clauses, pri, soft[j][0].conj, max, seen)
  }

  lemma RecordedLater(c: Config, f: Flow, clauses: ConjId -> nat, pri: Priority, conj: seq<Conjunction>, max: nat, seen: Seen, seen2: Seen)
    requires FrontRecorded(c, f, clauses, pri, conj, max, seen) && Grows(seen, seen2)
    ensures FrontRecorded(c, f, clauses, pri, conj, max, seen2)
  {
    hide Behind;
  }

  /* Recording stops only at a dangling conjunction, or at one that has a rule. */
  lemma RecordedFront(c: Config, f: Flow, clauses: ConjId -> nat, pri: Priority, conj: seq<Conjunction>, max: nat, seen: Seen,
                      id: Option<ConjId>)
    requires RecordedTo(conj, max, seen, id) && (id.Some? ==> Dangling(c, f, clauses, pri, id.value))
    ensures FrontRecorded(c, f, clauses, pri, conj, max, seen)
  {
    hide Dangling;
  }

  /* A conjunction of which enough is recorded is complete in the record. */
  lemma FullyRecorded(c: Config, f: Flow, clauses: ConjId -> nat, soft: seq<Chain>, pri: Priority, max: nat, seen: Seen, id: ConjId)
    requires ConjOk(c, f, clauses) && LevelOk(c, f, soft, pri)
    requires LevelRecorded(c, f, clauses, soft, pri, |soft|, max, seen) && Preset(clauses, seen) && clauses(id) <= max
    requires !Shadowed(c, f, clauses, pri, id)
    ensures id in seen && seen[id] == ALL_CLAUSES
  {
    hide Candidate, ClauseBehind, LevelRecorded;
    assert 0 < clauses(id) <= 64;
    if clauses(id) == 64 {
      var k :| 0 <= k < 64 && !ClauseBehind(c, f, clauses, pri, id, k);
      ClauseRecorded(c, f, clauses, soft, pri, max, seen, id, k);
      assert NoClauses(64) == ALL_CLAUSES;
    } else {
      ClauseRecorded(c, f, clauses, soft, pri, max, seen, id, 0);
      forall k | 0 <= k < clauses(id) ensures k in seen[id] {
        ClauseRecorded(c, f, clauses, soft, pri, max, seen, id, k);
      }
      forall k | k in ALL_CLAUSES ensures k in seen[id] {
        if k >= clauses(id) {
          assert k in NoClauses(clauses(id));
        }
      }
    }
  }

  lemma ClauseRecorded(c: Config, f: Flow, clauses: ConjId -> nat, soft: seq<Chain>, pri: Priority, max: nat, seen: Seen,
                       id: ConjId, k: nat)
    requires ConjOk(c, f, clauses) && LevelOk(c, f, soft, pri) && !ClauseBehind(c, f, clauses, pri, id, k)
    requires LevelRecorded(c, f, clauses, soft, pri, |soft|, max, seen) && clauses(id) <= max
    ensures id in seen && k in seen[id]
  {
    hide Candidate, Behind;
    var r, i :| Candidate(c, f, r) && r.priority == pri && 0 <= i < |r.conj| && r.conj[i].id == id && r.conj[i].clause == k
                && !Behind(c, f, clauses, pri, r.conj, i);
    var j :| HeadAt(soft, j, r);
    assert FrontRecorded(c, f, clauses, pri, r.conj, max, seen);
    assert RuleConjOk(r, clauses);
  }

  /* The soft matches of a priority are as many as the rules that are parts of conjunctions. */
  lemma PartsCounted(c: Config, f: Flow, soft: seq<Chain>, pri: Priority)
    requires c.Ok() && LevelOk(c, f, soft, pri)
    ensures |Parts(c, f, pri)| == CountPri(soft, pri)
  {
    hide Config.Ok, Candidate, AllRules, CountPri;
    CountRules(soft, pri);
    forall r ensures r in Parts(c, f, pri) <==> r in RulesAt(soft, pri) {
      MatchesIffCandidate(c, f, r);
      if r in Parts(c, f, pri) {
        var j :| HeadAt(soft, j, r);
      }
    }
    assert Parts(c, f, pri) == RulesAt(soft, pri);
  }

  ghost function RulesAt(soft: seq<Chain>, pri: Priority): set<Rule>
  {
    set j | 0 <= j < |soft| && soft[j] != [] && HeadPri(soft[j]) == pri :: soft[j][0]
  }

  lemma {:induction false} CountRules(soft: seq<Chain>, pri: Priority)
    requires pri > INT_MIN
    requires forall i, j :: 0 <= i < j < |soft| && soft[i] != [] && soft[j] != [] ==> soft[i][0].mask != soft[j][0].mask
    ensures |RulesAt(soft, pri)| == CountPri(soft, pri)
  {
    hide RulesAt;
    if soft == [] {
      NoRules(pri);
    } else {
      var n := |soft| - 1;
      CountRules(soft[..n], pri);
      RulesAtLast(soft, pri);
    }
  }

  lemma NoRules(pri: Priority)
    ensures RulesAt([], pri) == {}
  {
  }

  lemma RulesAtLast(soft: seq<Chain>, pri: Priority)
    requires soft != [] && pri > INT_MIN
    requires forall i, j :: 0 <= i < j < |soft| && soft[i] != [] && soft[j] != [] ==> soft[i][0].mask != soft[j][0].mask
    ensures var n := |soft| - 1;
            var before := RulesAt(soft[..n], pri);
            if HeadPri(soft[n]) != pri then RulesAt(soft, pri) == before
            else soft[n] != [] && soft[n][0] !in before && RulesAt(soft, pri) == before + {soft[n][0]}
  {
    var n := |soft| - 1;
    assert forall j :: 0 <= j < n ==> soft[..n][j] == soft[j];
    forall x | x in RulesAt(soft, pri) && (HeadPri(soft[n]) != pri || x != soft[n][0]) ensures x in RulesAt(soft[..n], pri) {
      var j :| 0 <= j < |soft| && soft[j] != [] && HeadPri(soft[j]) == pri && soft[j][0] == x;
      assert soft[..n][j][0] == x;
    }
  }

  /* A complete conjunction has no more clauses than there are soft matches: each supplies at
     most one. */
  lemma EnoughMatches(c: Config, f: Flow, clauses: ConjId -> nat, soft: seq<Chain>, pri: Priority, id: ConjId)
    requires ConjOk(c, f, clauses) && LevelOk(c, f, soft, pri) && Complete(c, f, clauses, pri, id)
    ensures clauses(id) <= CountPri(soft, pri)
  {
    hide Complete, ConjOk, LevelOk;
    var s := Suppliers(c, f, clauses, soft, pri, id, clauses(id));
    CountHeads(soft, pri, s);
  }

  /* Distinct soft matches for the first 'n' clauses. */
  lemma {:induction false} Suppliers(c: Config, f: Flow, clauses: ConjId -> nat, soft: seq<Chain>, pri: Priority, id: ConjId, n: nat)
    returns (s: set<int>)
    requires ConjOk(c, f, clauses) && LevelOk(c, f, soft, pri) && Complete(c, f, clauses, pri, id) && n <= clauses(id)
    ensures |s| == n && forall j :: j in s ==> SuppliesSome(soft, pri, id, n, j) && RuleConjOk(soft[j][0], clauses)
  {
    hide Candidate;
    if n == 0 {
      s := {};
    } else {
      var t := Suppliers(c, f, clauses, soft, pri, id, n - 1);
      assert ClauseAt(c, f, pri, id, n - 1);
      var r :| Candidate(c, f, r) && r.priority == pri && Supplies(r, id, n - 1);
      var j :| HeadAt(soft, j, r);
      assert RuleConjOk(r, clauses);
      assert j !in t by {
        if j in t {
          assert SuppliesSome(soft, pri, id, n - 1, j);
          var k :| 0 <= k < n - 1 && Supplies(r, id, k);
          OneClause(r, clauses, id, k, n - 1);
        }
      }
      s := t + {j};
      forall x | x in s ensures SuppliesSome(soft, pri, id, n, x) && RuleConjOk(soft[x][0], clauses) {
        if x in t {
          assert SuppliesSome(soft, pri, id, n - 1, x);
        }
      }
    }
  }

  ghost predicate SuppliesSome(soft: seq<Chain>, pri: Priority, id: ConjId, n: nat, j: int)
  {
    0 <= j < |soft| && soft[j] != [] && HeadPri(soft[j]) == pri && exists k :: 0 <= k < n && Supplies(soft[j][0], id, k)
  }

  lemma OneClause(r: Rule, clauses: ConjId -> nat, id: ConjId, k: nat, n: nat)
    requires RuleConjOk(r, clauses) && Supplies(r, id, k) && Supplies(r, id, n)
    ensures k == n
  {
    var i :| 0 <= i < |r.conj| && r.conj[i].id == id && r.conj[i].clause == k;
    var j :| 0 <= j < |r.conj| && r.conj[j].id == id && r.conj[j].clause == n;
  }

  lemma {:induction false} CountHeads(soft: seq<Chain>, pri: Priority, s: set<int>)
    requires forall j :: j in s ==> 0 <= j < |soft| && HeadPri(soft[j]) == pri
    ensures |s| <= CountPri(soft, pri)
  {
    if soft == [] {
      assert forall j :: j !in s;
    } else {
      var n := |soft| - 1;
      CountHeads(soft[..n], pri, s - {n});
      if n in s {
        assert |s - {n}| == |s| - 1;
      } else {
        assert s - {n} == s;
      }
    }
  }

  /* Any match that a level finds is that of a complete conjunction.  A level that finds none has
     no complete conjunction, except for those that have no rule or are shadowed.  All this is so for
     conjunctions that are taken for complete. */
  lemma {:induction false} LevelMeaning(c: Config, f: Flow, clauses: ConjId -> nat, soft: seq<Chain>, pri: Priority, i: nat, seen: Seen)
    requires c.Ok() && ConjOk(c, f, clauses) && LevelOk(c, f, soft, pri) && i <= |soft|
    requires SeenSound(c, f, clauses, pri, seen)
    ensures var r := Level(c.order, c.subs, f, soft, pri, CountPri(soft, pri), i, seen);
            && (r.Some? ==> exists id :: Believed(c, f, clauses, pri, id) && ByConjId(c.order, c.subs, f, id) == r)
            && (r.None? && LevelState(c, f, clauses, soft, pri, i, seen)
                ==> forall id :: Believed(c, f, clauses, pri, id) ==> Excused(c, f, clauses, pri, id))
    decreases |soft| - i
  {
    hide Config.Ok, Candidate, Believed, ByConjId, SeenSound, Record, CountPri, ConjOk, LevelState, Excused, Parts;
    var n := CountPri(soft, pri);
    PartsCounted(c, f, soft, pri);
    if i == |soft| {
      if LevelState(c, f, clauses, soft, pri, i, seen) {
        forall id | Believed(c, f, clauses, pri, id) ensures Excused(c, f, clauses, pri, id) {
          NothingMissed(c, f, clauses, soft, pri, seen, id);
        }
      }
    } else if HeadPri(soft[i]) != pri || soft[i] == [] {
      SkipState(c, f, clauses, soft, pri, i, seen);
      LevelMeaning(c, f, clauses, soft, pri, i + 1, seen);
    } else {
      var r0 := soft[i][0];
      var (seen', id) := Record(r0.conj, 0, n, seen);
      RecordSound(c, f, clauses, pri, r0, 0, n, seen);
      if id.Some? && ByConjId(c.order, c.subs, f, id.value).Some? {
        assert Believed(c, f, clauses, pri, id.value);
      } else {
        LevelMeaning(c, f, clauses, soft, pri, i + 1, seen');
        if LevelState(c, f, clauses, soft, pri, i, seen) {
          RecordLevel(c, f, clauses, soft, pri, i, seen);
        }
      }
    }
  }

  /* The record after the first 'i' soft matches, none of which has decided the level. */
  ghost predicate LevelState(c: Config, f: Flow, clauses: ConjId -> nat, soft: seq<Chain>, pri: Priority, i: nat, seen: Seen)
    requires i <= |soft|
  {
    LevelRecorded(c, f, clauses, soft, pri, i, CountPri(soft, pri), seen) && NoneRuled(c, f, seen) && Preset(clauses, seen)
  }

  lemma SkipState(c: Config, f: Flow, clauses: ConjId -> nat, soft: seq<Chain>, pri: Priority, i: nat, seen: Seen)
    requires i < |soft| && (HeadPri(soft[i]) != pri || soft[i] == [])
    ensures LevelState(c, f, clauses, soft, pri, i, seen) ==> LevelState(c, f, clauses, soft, pri, i + 1, seen)
  {
    hide FrontRecorded, Preset, NoneRuled, CountPri;
  }

  lemma NothingMissed(c: Config, f: Flow, clauses: ConjId -> nat, soft: seq<Chain>, pri: Priority, seen: Seen, id: ConjId)
    requires c.Ok() && ConjOk(c, f, clauses) && LevelOk(c, f, soft, pri) && LevelState(c, f, clauses, soft, pri, |soft|, seen)
    requires Believed(c, f, clauses, pri, id)
    ensures Excused(c, f, clauses, pri, id)
  {
    hide Config.Ok, Candidate, Complete, Preset, LevelRecorded, ConjOk, CountPri, Shadowed, Parts;
    if !Shadowed(c, f, clauses, pri, id) {
      PartsCounted(c, f, soft, pri);
      if Complete(c, f, clauses, pri, id) {
        EnoughMatches(c, f, clauses, soft, pri, id);
      }
      FullyRecorded(c, f, clauses, soft, pri, CountPri(soft, pri), seen, id);
    }
  }

  lemma RecordLevel(c: Config, f: Flow, clauses: ConjId -> nat, soft: seq<Chain>, pri: Priority, i: nat, seen: Seen)
    requires ConjOk(c, f, clauses) && LevelOk(c, f, soft, pri) && i < |soft| && soft[i] != [] && HeadPri(soft[i]) == pri
    requires LevelState(c, f, clauses, soft, pri, i, seen)
    requires var id := Record(soft[i][0].conj, 0, CountPri(soft, pri), seen).1; id.Some? ==> Dangling(c, f, clauses, pri, id.value)
    ensures LevelState(c, f, clauses, soft, pri, i + 1, Record(soft[i][0].conj, 0, CountPri(soft, pri), seen).0)
  {
    var r0, n := soft[i][0], CountPri(soft, pri);
    assert Candidate(c, f, r0);
    assert RuleConjOk(r0, clauses);
    hide Candidate, CountPri, Preset, Record, RuleConjOk, Grows, FrontRecorded, RecordedTo, ByConjId;
    assert Recorded(r0.conj, 0, n, seen);
    RecordAll(r0, clauses, 0, n, seen);
    hide Recorded;
    var (seen', id) := Record(r0.conj, 0, n, seen);
    RecordedFront(c, f, clauses, pri, r0.conj, n, seen', id);
    forall j | 0 <= j < i + 1 && HeadPri(soft[j]) == pri && soft[j] != []
      ensures FrontRecorded(c, f, clauses, pri, soft[j][0].conj, n, seen')
    {
      if j < i {
        RecordedLater(c, f, clauses, pri, soft[j][0].conj, n, seen, seen');
      }
    }
  }

  // ---------------------------------------------------------------- all levels

  /* Removing a dead soft match loses nothing. */
  lemma PurgeOne(c: Config, f: Flow, found: Found, bound: int, i: nat)
    requires c.Ok() && Deciding(c, f, found, bound) && i < |found.soft| && Dead(found.soft[i], Pri(found.hard))
    ensures var n := |found.soft| - 1;
            Deciding(c, f, found.(soft := found.soft[i := found.soft[n]][..n]), bound)
  {
    hide Config.Ok, Candidate, Tail;
    var soft, n := found.soft, |found.soft| - 1;
    var found' := found.(soft := soft[i := soft[n]][..n]);
    forall r | Candidate(c, f, r) ensures Accounted(c, f, found', bound, r) {
      assert Accounted(c, f, found, bound, r);
      if r.priority > Pri(found.hard) && !(r.conj != [] && r.priority >= bound) {
        var j :| 0 <= j < |soft| && r in soft[j];
        BelowHead(c, f, soft[j], r);
        assert j != i;
        assert r in found'.soft[if j == n then i else j];
      }
    }
  }

  /* The rules in a tail are candidates, of lower priority than its head. */
  lemma BelowHead(c: Config, f: Flow, ch: Chain, r: Rule)
    requires c.Ok() && Tail(c, f, ch) && r in ch
    ensures Candidate(c, f, r) && r.priority <= HeadPri(ch) && (r != ch[0] ==> r.priority < HeadPri(ch))
  {
    hide Config.Ok, MatchAt;
    var whole := MatchAt(c.subs, ch[0].mask, f);
    var d := |whole| - |ch|;
    ChainFacts(c, f, ch[0].mask);
    var i :| 0 <= i < |ch| && ch[i] == r;
    assert ch[i] == whole[d + i] && ch[0] == whole[d];
  }

  lemma {:induction false} PurgeDeciding(c: Config, f: Flow, found: Found, bound: int, i: nat)
    requires c.Ok() && Deciding(c, f, found, bound) && i <= |found.soft|
    ensures Deciding(c, f, found.(soft := Purge(found.soft, i, Pri(found.hard))), bound)
    decreases |found.soft| - i
  {
    hide Config.Ok, Deciding;
    if i < |found.soft| {
      if Dead(found.soft[i], Pri(found.hard)) {
        PurgeOne(c, f, found, bound, i);
        var n := |found.soft| - 1;
        PurgeDeciding(c, f, found.(soft := found.soft[i := found.soft[n]][..n]), bound, i);
      } else {
        PurgeDeciding(c, f, found, bound, i + 1);
      }
    }
  }

  /* No conjunction is complete at a priority without soft matches. */
  lemma NothingAt(c: Config, f: Flow, clauses: ConjId -> nat, found: Found, bound: int, p: int, id: ConjId)
    requires c.Ok() && ConjOk(c, f, clauses) && Deciding(c, f, found, bound)
    requires Pri(found.hard) < p < bound && forall j :: 0 <= j < |found.soft| ==> HeadPri(found.soft[j]) < p
    ensures !Believed(c, f, clauses, p, id)
  {
    hide Config.Ok, Candidate, Tail, Complete;
    if Believed(c, f, clauses, p, id) {
      BelievedIsListed(c, f, clauses, p, id);
      var r, i :| Candidate(c, f, r) && r.priority == p && 0 <= i < |r.conj| && r.conj[i].id == id;
      assert Accounted(c, f, found, bound, r);
      var j :| 0 <= j < |found.soft| && r in found.soft[j];
      BelowHead(c, f, found.soft[j], r);
    }
  }

  lemma BelievedIsListed(c: Config, f: Flow, clauses: ConjId -> nat, pri: int, id: ConjId)
    requires ConjOk(c, f, clauses) && Believed(c, f, clauses, pri, id)
    ensures Listed(c, f, pri, id)
  {
    hide Candidate, Parts;
    if Complete(c, f, clauses, pri, id) {
      assert ClauseAt(c, f, pri, id, 0);
    }
  }

  lemma TailIsPart(c: Config, f: Flow, ch: Chain)
    requires Tail(c, f, ch) && ch != []
    ensures ch[0].conj != []
  {
  }

  /* Before a level is decided, its soft matches are all rules of that priority. */
  lemma LevelIsOk(c: Config, f: Flow, found: Found, bound: int)
    requires c.Ok() && Deciding(c, f, found, bound) && Pri(found.hard) < SoftPri(found.soft)
    ensures LevelOk(c, f, found.soft, SoftPri(found.soft))
  {
    hide Config.Ok, Candidate, Tail;
    var soft, pri := found.soft, SoftPri(found.soft);
    SoftPriIsMax(soft);
    forall j | 0 <= j < |soft| && soft[j] != [] ensures Candidate(c, f, soft[j][0]) && soft[j][0].conj != [] {
      BelowHead(c, f, soft[j], soft[j][0]);
      TailIsPart(c, f, soft[j]);
    }
    assert pri < bound by {
      assert soft != [];
    }
    forall r | Candidate(c, f, r) && r.priority == pri && r.conj != [] ensures exists j :: HeadAt(soft, j, r) {
      assert Accounted(c, f, found, bound, r);
      var j :| 0 <= j < |soft| && r in soft[j];
      BelowHead(c, f, soft[j], r);
      assert HeadAt(soft, j, r);
    }
  }

  /* What hardening does: the best of the hard match and the rules that follow soft ones. */
  lemma {:induction false} HardenFacts(soft: seq<Chain>, pri: Priority, hard: Option<Rule>)
    ensures var h := Harden(soft, pri, hard);
            && Pri(h) >= Pri(hard)
            && (h != hard ==> exists j :: 0 <= j < |soft| && Follows(soft[j], pri) && h == Some(soft[j][1]))
            && forall j :: 0 <= j < |soft| && Follows(soft[j], pri) ==> soft[j][1].priority <= Pri(h)
  {
    if soft != [] {
      var n := |soft| - 1;
      HardenFacts(soft[..n], pri, hard);
      var h := Harden(soft[..n], pri, hard);
      if h != hard {
        var j :| 0 <= j < n && Follows(soft[..n][j], pri) && h == Some(soft[..n][j][1]);
        assert Follows(soft[j], pri) && h == Some(soft[j][1]);
      }
      forall j | 0 <= j < |soft| && Follows(soft[j], pri) ensures soft[j][1].priority <= Pri(Harden(soft, pri, hard)) {
        if j < n { assert Follows(soft[..n][j], pri); }
      }
    }
  }

  predicate Follows(ch: Chain, pri: Priority)
  {
    |ch| > 1 && ch[0].priority == pri && ch[1].conj == []
  }

  lemma DescendTail(c: Config, f: Flow, ch: Chain, pri: Priority)
    requires c.Ok() && Tail(c, f, ch)
    ensures Tail(c, f, Descend(ch, pri))
    ensures Descend(ch, pri) != [] ==> ch != [] && Descend(ch, pri)[0].mask == ch[0].mask
    ensures HeadPri(ch) <= pri && ch != [] ==> HeadPri(Descend(ch, pri)) < pri || Descend(ch, pri) == []
  {
    hide Config.Ok, MatchAt;
    if |ch| > 1 {
      BelowHead(c, f, ch, ch[1]);
      var whole := MatchAt(c.subs, ch[0].mask, f);
      ChainFacts(c, f, ch[0].mask);
      var d := |whole| - |ch|;
      assert ch[1] == whole[d + 1];
      assert ch[1..] == whole[d + 1..];
      assert ch[0] == whole[d];
    }
  }

  /* A rule in a soft match stays accounted for when the soft match is replaced. */
  lemma DescendAccounts(c: Config, f: Flow, found: Found, j: nat, r: Rule)
    requires c.Ok() && j < |found.soft| && Tail(c, f, found.soft[j]) && r in found.soft[j]
    requires HeadPri(found.soft[j]) <= SoftPri(found.soft)
    ensures var pri := SoftPri(found.soft);
            Accounted(c, f, Found(Harden(found.soft, pri, found.hard), DescendAll(found.soft, pri)), pri, r)
  {
    hide Config.Ok, MatchAt;
    var ch, pri := found.soft[j], SoftPri(found.soft);
    var next := DescendAll(found.soft, pri);
    HardenFacts(found.soft, pri, found.hard);
    BelowHead(c, f, ch, r);
    if HeadPri(ch) == pri && r != ch[0] {
      assert r in ch[1..];
      if ch[1].conj == [] {
        assert Follows(ch, pri);
        SecondIsBest(c, f, ch, r);
      } else {
        assert next[j] == ch[1..];
      }
    } else if HeadPri(ch) != pri {
      assert next[j] == ch;
    }
  }

  lemma SecondIsBest(c: Config, f: Flow, ch: Chain, r: Rule)
    requires c.Ok() && Tail(c, f, ch) && |ch| > 1 && r in ch[1..]
    ensures r.priority <= ch[1].priority && Candidate(c, f, ch[1])
  {
    hide Config.Ok, MatchAt;
    var whole := MatchAt(c.subs, ch[0].mask, f);
    var d := |whole| - |ch|;
    ChainFacts(c, f, ch[0].mask);
    var i :| 1 <= i < |ch| && ch[i] == r;
    assert ch[i] == whole[d + i] && ch[1] == whole[d + 1];
  }

  /* After a level is decided, the lower ones remain. */
  lemma DescendDeciding(c: Config, f: Flow, found: Found, bound: int)
    requires c.Ok() && Deciding(c, f, found, bound) && Pri(found.hard) < SoftPri(found.soft)
    ensures var pri := SoftPri(found.soft);
            Deciding(c, f, Found(Harden(found.soft, pri, found.hard), DescendAll(found.soft, pri)), pri)
  {
    hide Config.Ok, Candidate, Tail, Harden;
    var soft, pri := found.soft, SoftPri(found.soft);
    var next := DescendAll(soft, pri);
    var found' := Found(Harden(soft, pri, found.hard), next);
    SoftPriIsMax(soft);
    HardenFacts(soft, pri, found.hard);
    HardIsCandidate(c, f, found, bound);
    assert pri < bound by {
      assert soft != [];
    }
    forall j | 0 <= j < |next| ensures Tail(c, f, next[j]) && HeadPri(next[j]) < pri {
      DescendTail(c, f, soft[j], pri);
    }
    forall i, j | 0 <= i < j < |next| && next[i] != [] && next[j] != [] ensures next[i][0].mask != next[j][0].mask {
      DescendTail(c, f, soft[i], pri);
      DescendTail(c, f, soft[j], pri);
    }
    forall r | Candidate(c, f, r) ensures Accounted(c, f, found', pri, r) {
      assert Accounted(c, f, found, bound, r);
      if j :| 0 <= j < |soft| && r in soft[j] {
        DescendAccounts(c, f, found, j, r);
      }
    }
  }

  lemma HardIsCandidate(c: Config, f: Flow, found: Found, bound: int)
    requires c.Ok() && Deciding(c, f, found, bound)
    ensures var h := Harden(found.soft, SoftPri(found.soft), found.hard);
            h.Some? ==> Candidate(c, f, h.value) && h.value.conj == []
  {
    hide Config.Ok, Candidate, Tail, SoftPri, Harden;
    var pri := SoftPri(found.soft);
    HardenFacts(found.soft, pri, found.hard);
    var h := Harden(found.soft, pri, found.hard);
    if h != found.hard {
      var j :| 0 <= j < |found.soft| && Follows(found.soft[j], pri) && h == Some(found.soft[j][1]);
      BelowHead(c, f, found.soft[j], found.soft[j][1]);
    }
  }

  /* The outcome 'r' of deciding all priorities below 'bound', at priority 'q': a best certain
     match, or the rule for a complete conjunction of a higher priority than any certain match.
     At every priority above 'q', complete conjunctions have no rule, or are shadowed.  Here and
     below, some of 64 clauses are taken for complete. */
  ghost predicate Decided(c: Config, f: Flow, clauses: ConjId -> nat, r: Option<Rule>, q: int, id: Option<ConjId>, bound: int)
  {
    && (if id.None? then HardBest(c, f, r) && q == Pri(r)
        else && r.Some? && Believed(c, f, clauses, q, id.value) && ByConjId(c.order, c.subs, f, id.value) == r
             && forall x :: Candidate(c, f, x) && x.conj == [] ==> x.priority < q)
    && forall p, other :: q < p < bound && Believed(c, f, clauses, p, other) ==> Excused(c, f, clauses, p, other)
  }

  const NO_BOUND: int := INT_MAX + 1

  lemma {:induction false} SoftMeaning(c: Config, f: Flow, clauses: ConjId -> nat, found: Found, bound: int)
    returns (q: int, id: Option<ConjId>)
    requires c.Ok() && ConjOk(c, f, clauses) && Deciding(c, f, found, bound)
    ensures Decided(c, f, clauses, SoftLoop(c.order, c.subs, f, found), q, id, bound)
    decreases Remaining(found.soft)
  {
    hide Config.Ok, Candidate, Believed, ByConjId, Excused, Purge, SoftPri, Harden, Remaining, Level, CountPri, ConjOk, Deciding;
    hide HardBest;
    var live := found.(soft := Purge(found.soft, 0, Pri(found.hard)));
    PurgeShrinks(found.soft, 0, Pri(found.hard));
    PurgeDeciding(c, f, found, bound, 0);
    if live.soft == [] {
      HardWins(c, f, live, bound);
      q, id := Pri(found.hard), None;
      forall p, other | q < p < bound ensures !Believed(c, f, clauses, p, other) {
        NothingAt(c, f, clauses, live, bound, p, other);
      }
    } else {
      var pri := SoftPri(live.soft);
      TopIsAbove(live.soft, Pri(found.hard));
      LevelIsOk(c, f, live, bound);
      LevelMeaning(c, f, clauses, live.soft, pri, 0, map[]);
      var r := Level(c.order, c.subs, f, live.soft, pri, CountPri(live.soft, pri), 0, map[]);
      forall p, other | pri < p < bound ensures !Believed(c, f, clauses, p, other) {
        TopIsAbove(live.soft, Pri(found.hard));
        NothingAt(c, f, clauses, live, bound, p, other);
      }
      if r.Some? {
        var x :| Believed(c, f, clauses, pri, x) && ByConjId(c.order, c.subs, f, x) == r;
        q, id := pri, Some(x);
        HardIsBelow(c, f, live, bound);
      } else {
        DescendShrinks(live.soft, Pri(found.hard));
        DescendDeciding(c, f, live, bound);
        var next := Found(Harden(live.soft, pri, found.hard), DescendAll(live.soft, pri));
        q, id := SoftMeaning(c, f, clauses, next, pri);
        StartOfLevel(c, f, live.soft, pri, clauses);
        assert forall p, other :: q < p < bound && Believed(c, f, clauses, p, other) ==> p <= pri;
      }
    }
  }

  lemma StartOfLevel(c: Config, f: Flow, soft: seq<Chain>, pri: Priority, clauses: ConjId -> nat)
    ensures LevelState(c, f, clauses, soft, pri, 0, map[])
  {
  }

  lemma TopIsAbove(soft: seq<Chain>, hardPri: Priority)
    requires soft != [] && forall j :: 0 <= j < |soft| ==> !Dead(soft[j], hardPri)
    ensures SoftPri(soft) > hardPri && forall j :: 0 <= j < |soft| ==> HeadPri(soft[j]) <= SoftPri(soft)
  {
    SoftPriIsMax(soft);
    assert !Dead(soft[0], hardPri);
  }

  lemma HardWins(c: Config, f: Flow, found: Found, bound: int)
    requires Deciding(c, f, found, bound) && found.soft == []
    ensures HardBest(c, f, found.hard)
  {
    hide Candidate;
    forall x | Candidate(c, f, x) && x.conj == [] ensures x.priority <= Pri(found.hard) {
      assert Accounted(c, f, found, bound, x);
    }
  }

  lemma HardIsBelow(c: Config, f: Flow, found: Found, bound: int)
    requires c.Ok() && Deciding(c, f, found, bound) && Pri(found.hard) < SoftPri(found.soft)
    ensures forall x :: Candidate(c, f, x) && x.conj == [] ==> x.priority < SoftPri(found.soft)
  {
    hide Config.Ok, Candidate;
    SoftPriIsMax(found.soft);
    forall x | Candidate(c, f, x) && x.conj == [] ensures x.priority < SoftPri(found.soft) {
      assert Accounted(c, f, found, bound, x);
      if j :| 0 <= j < |found.soft| && x in found.soft[j] {
        BelowHead(c, f, found.soft[j], x);
      }
    }
  }

  /* What classifier_lookup() decides, for every flow and all rules. */
  lemma SelectMeaning(c: Config, f: Flow, clauses: ConjId -> nat) returns (q: int, id: Option<ConjId>)
    requires c.Ok() && ConjOk(c, f, clauses)
    ensures Decided(c, f, clauses, Select(c.order, c.subs, f), q, id, NO_BOUND)
  {
    hide Config.Ok, Scan, SoftLoop, Decided, Deciding;
    var found := Scan(c.order, c.subs, f, true);
    ScanDeciding(c, f);
    if Pri(found.hard) >= SoftPri(found.soft) {
      SoftIrrelevant(c, f, found);
    }
    q, id := SoftMeaning(c, f, clauses, found, INT_MAX + 1);
  }

  lemma SoftIrrelevant(c: Config, f: Flow, found: Found)
    requires Pri(found.hard) >= SoftPri(found.soft)
    ensures SoftLoop(c.order, c.subs, f, found) == found.hard
  {
    SoftPriIsMax(found.soft);
    PurgeShrinks(found.soft, 0, Pri(found.hard));
    AllDead(found.soft, 0, Pri(found.hard));
  }

  lemma {:induction false} AllDead(soft: seq<Chain>, i: nat, hardPri: Priority)
    requires i == 0 && forall j :: 0 <= j < |soft| ==> Dead(soft[j], hardPri)
    ensures Purge(soft, i, hardPri) == []
    decreases |soft|
  {
    if soft != [] {
      AllDead(soft[0 := soft[|soft| - 1]][..|soft| - 1], 0, hardPri);
    }
  }

  /* Every matching rule is in one conjunction at most; or every conjunction that a matching rule is
     in has a rule; or, as documented, conjunctions of one priority do not overlap. */
  ghost predicate Unshadowed(c: Config, f: Flow, clauses: ConjId -> nat)
  {
    || (forall r :: Candidate(c, f, r) ==> |r.conj| <= 1)
    || (forall r, i :: Candidate(c, f, r) && 0 <= i < |r.conj| ==> ByConjId(c.order, c.subs, f, r.conj[i].id).Some?)
    || (forall p, x, y :: Believed(c, f, clauses, p, x) && Believed(c, f, clauses, p, y) ==> x == y)
  }

  /* Nothing is missed above 'q': complete conjunctions have no rule. */
  ghost predicate Exact(c: Config, f: Flow, clauses: ConjId -> nat, q: int)
  {
    forall p, id :: q < p < NO_BOUND && Believed(c, f, clauses, p, id) ==> ByConjId(c.order, c.subs, f, id).None?
  }

  lemma SelectExact(c: Config, f: Flow, clauses: ConjId -> nat, r: Option<Rule>, q: int, id: Option<ConjId>)
    requires ConjOk(c, f, clauses) && Decided(c, f, clauses, r, q, id, NO_BOUND) && Unshadowed(c, f, clauses)
    ensures Exact(c, f, clauses, q)
  {
    hide Candidate, ByConjId, Believed, Shadowed, Unshadowed, ConjOk;
    forall p, other | q < p < NO_BOUND && Believed(c, f, clauses, p, other) ensures ByConjId(c.order, c.subs, f, other).None? {
      assert Excused(c, f, clauses, p, other);
      InTheClear(c, f, clauses, p, other);
    }
  }

  lemma InTheClear(c: Config, f: Flow, clauses: ConjId -> nat, pri: int, id: ConjId)
    requires ConjOk(c, f, clauses) && Unshadowed(c, f, clauses) && Believed(c, f, clauses, pri, id)
    ensures !Shadowed(c, f, clauses, pri, id)
  {
    hide Candidate, Unshadowed, ByConjId, Behind, Parts;
    if clauses(id) == 64 {
      BelievedIsListed(c, f, clauses, pri, id);
      var r, j :| Candidate(c, f, r) && r.priority == pri && 0 <= j < |r.conj| && r.conj[j].id == id;
      ClearEntry(c, f, clauses, pri, id, r, j);
      assert RuleConjOk(r, clauses);
      assert !ClauseBehind(c, f, clauses, pri, id, r.conj[j].clause);
    } else {
      forall k | 0 <= k < clauses(id) ensures !ClauseBehind(c, f, clauses, pri, id, k) {
        assert ClauseAt(c, f, pri, id, k);
        var r :| Candidate(c, f, r) && r.priority == pri && Supplies(r, id, k);
        var j :| 0 <= j < |r.conj| && r.conj[j].id == id && r.conj[j].clause == k;
        ClearEntry(c, f, clauses, pri, id, r, j);
      }
    }
  }

  lemma ClearEntry(c: Config, f: Flow, clauses: ConjId -> nat, pri: int, id: ConjId, r: Rule, j: nat)
    requires ConjOk(c, f, clauses) && Unshadowed(c, f, clauses) && Believed(c, f, clauses, pri, id)
    requires Candidate(c, f, r) && r.priority == pri && j < |r.conj| && r.conj[j].id == id
    ensures !Behind(c, f, clauses, pri, r.conj, j)
  {
    hide Candidate, ByConjId, Believed;
    assert RuleConjOk(r, clauses);
  }

  // ---------------------------------------------------------------- the rule of a conjunction

  /* 'r' matches 'f', and no rule for the same flows has a higher priority. */
  ghost predicate Foremost(c: Config, f: Flow, r: Rule)
  {
    Candidate(c, f, r) && MatchAt(c.subs, r.mask, f)[0] == r
  }

  /* A conjunction's rule is the best rule that matches with the conjunction's id and is not
     itself a part of a conjunction, nor stands behind one that is. */
  ghost predicate ConjRule(c: Config, f: Flow, r: Option<Rule>)
  {
    && (r.Some? ==> Foremost(c, f, r.value) && r.value.conj == [])
    && forall x :: Foremost(c, f, x) && x.conj == [] ==> r.Some? && x.priority <= r.value.priority
  }

  lemma {:induction false} ScanCertain(c: Config, f: Flow, n: nat)
    requires c.Ok() && n <= |c.order|
    ensures var r := Scan(c.order[..n], c.subs, f, false).hard;
            && (r.Some? ==> Foremost(c, f, r.value) && r.value.conj == [])
            && forall i :: 0 <= i < n ==> CertainBelow(MatchAt(c.subs, c.order[i].mask, f), r)
  {
    hide Config.Ok, MatchAt, Candidate;
    if n > 0 {
      ScanCertain(c, f, n - 1);
      assert c.order[..n][..n - 1] == c.order[..n - 1];
      HeadIsForemost(c, f, c.order[n - 1].mask);
    }
  }

  predicate CertainBelow(ch: Chain, r: Option<Rule>)
  {
    ch != [] && ch[0].conj == [] ==> ch[0].priority <= Pri(r)
  }

  lemma HeadIsForemost(c: Config, f: Flow, m: Flow)
    requires c.Ok()
    ensures var ch := MatchAt(c.subs, m, f); ch != [] ==> Foremost(c, f, ch[0])
  {
    hide Config.Ok, MatchAt;
    ChainFacts(c, f, m);
  }

  lemma ScanByConjId(c: Config, f: Flow, id: ConjId)
    requires c.Ok()
    ensures ConjRule(c, WithConjId(f, id), ByConjId(c.order, c.subs, f, id))
  {
    hide Config.Ok, MatchAt, Scan, WithConjId;
    var g := WithConjId(f, id);
    var r := ByConjId(c.order, c.subs, f, id);
    assert c.order[..|c.order|] == c.order;
    ScanCertain(c, g, |c.order|);
    forall x | Foremost(c, g, x) && x.conj == [] ensures r.Some? && x.priority <= r.value.priority {
      CandidateEntry(c, g, x);
      AboveMin(c, g, x);
      var i :| 0 <= i < |c.order| && c.order[i].mask == x.mask;
      assert CertainBelow(MatchAt(c.subs, c.order[i].mask, g), r);
    }
  }

  /* The rule agrees with 'id' in the bits of the conjunction id that it matches on, and with 'f' in
     all others. */
  predicate AgreesWithId(f: Flow, id: ConjId, r: Rule)
  {
    forall i :: 0 <= i < FLOW_BITS && r.mask[i] ==>
                  r.flow[i] == if CONJ_ID_BIT <= i < CONJ_ID_BIT + 32 then id[i - CONJ_ID_BIT] else f[i]
  }

  /* The rule is certain: it is no part of a conjunction, nor is a rule for the same flows that has a
     higher priority. */
  ghost predicate Certain(c: Config, r: Rule)
  {
    && r in AllRules(c.subs) && r.conj == []
    && forall x :: x in AllRules(c.subs) && x.mask == r.mask && x.flow == r.flow ==> x.priority <= r.priority
  }

  lemma AgreesIff(f: Flow, id: ConjId, r: Rule)
    ensures AgreesWithId(f, id, r) <==> Agree(WithConjId(f, id), r.flow, r.mask)
  {
    hide WithConjId;
    ConjIdBits(f, id);
  }

  /* A rule that matches is the foremost one of its subtable if none for the same flows is better. */
  lemma ForemostIff(c: Config, f: Flow, r: Rule)
    requires c.Ok()
    ensures Foremost(c, f, r) && r.conj == [] <==> Certain(c, r) && Agree(f, r.flow, r.mask)
  {
    hide Config.Ok, AllRules, Agree, MatchAt;
    MatchesIffCandidate(c, f, r);
    if Candidate(c, f, r) {
      var ch := MatchAt(c.subs, r.mask, f);
      ChainFacts(c, f, r.mask);
      SameChain(c, f, r);
      var i :| 0 <= i < |ch| && ch[i] == r;
      MatchesIffCandidate(c, f, ch[0]);
      assert i > 0 ==> ch[0].priority > r.priority;
      forall x | x in AllRules(c.subs) && x.mask == r.mask && x.flow == r.flow ensures x in ch {
        MatchesIffCandidate(c, f, x);
      }
    }
  }

  lemma SameChain(c: Config, f: Flow, r: Rule)
    requires c.Ok() && Candidate(c, f, r)
    ensures forall x :: x in MatchAt(c.subs, r.mask, f) ==> x.flow == r.flow
  {
    SubChains(c, r.mask);
    assert ChainOk(r.mask, Masked(f, r.mask), MatchAt(c.subs, r.mask, f));
  }

  /* A conjunction's rule is a best one among the certain rules that agree with its id, and with the
     flow in all other bits. */
  lemma ConjIdMeaning(c: Config, f: Flow, id: ConjId)
    requires c.Ok()
    ensures var r := ByConjId(c.order, c.subs, f, id);
            && (r.Some? ==> Certain(c, r.value) && AgreesWithId(f, id, r.value))
            && forall x :: Certain(c, x) && AgreesWithId(f, id, x) ==> r.Some? && x.priority <= r.value.priority
  {
    hide Config.Ok, AllRules, Foremost, Certain, AgreesWithId, Agree, ByConjId, WithConjId;
    ScanByConjId(c, f, id);
    forall x ensures Foremost(c, WithConjId(f, id), x) && x.conj == [] <==> Certain(c, x) && AgreesWithId(f, id, x) {
      AgreesIff(f, id, x);
      ForemostIff(c, WithConjId(f, id), x);
    }
  }
}
