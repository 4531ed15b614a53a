/** When conjunctions are missed, and when they are found too early: a dangling one, which is complete
    but has no rule, hides those that stand behind it in the same rule, and one of 64 clauses is taken
    for complete as soon as there are 64 soft matches. */
module ConjunctionLimits {

  import opened Options
  import opened Tries
  import opened Flows
  import opened Subtables
  import opened SubtableChanges
  import opened Selection
  import opened ClassifierState
  import opened Lookups
  import opened Matching
  import opened Classifiers

  // ---------------------------------------------------------------- for any order of soft matches

  /* The n-th soft match is one of this priority, and 'e' is its entry 'j'. */
  ghost predicate EntryAt(soft: seq<Chain>, pri: Priority, n: int, j: int, e: Conjunction)
  {
    0 <= n < |soft| && soft[n] != [] && HeadPri(soft[n]) == pri && 0 <= j < |soft[n][0].conj| && soft[n][0].conj[j] == e
  }

  /* A soft match before the n-th one supplies clause 'k', and nothing dangling stands in front. */
  ghost predicate SuppliedBefore(c: Config, f: Flow, clauses: ConjId -> nat, soft: seq<Chain>, pri: Priority, n: int, id: ConjId, k: nat)
  {
    exists m, j, e :: m < n && EntryAt(soft, pri, m, j, e) && e.id == id && e.clause == k
                      && !Behind(c, f, clauses, pri, soft[m][0].conj, j)
  }

  /* The entry completes its conjunction, which has no rule. */
  ghost predicate Completes(c: Config, f: Flow, clauses: ConjId -> nat, soft: seq<Chain>, pri: Priority, n: int, e: Conjunction)
  {
    && ByConjId(c.order, c.subs, f, e.id).None?
    && (if clauses(e.id) == 64 then CountPri(soft, pri) >= 64
        else forall k :: 0 <= k < clauses(e.id) && k != e.clause ==> SuppliedBefore(c, f, clauses, soft, pri, n, e.id, k))
  }

  /* Every soft match that supplies clause 'k' of 'id' lists an entry before it that ends the
     recording; and of 64 clauses every one that supplies any. */
  ghost predicate CutOff(c: Config, f: Flow, clauses: ConjId -> nat, soft: seq<Chain>, pri: Priority, id: ConjId, k: nat)
  {
    k < clauses(id) && forall n, j, e :: EntryAt(soft, pri, n, j, e) && e.id == id && (e.clause == k || clauses(id) == 64) ==>
                         exists i, x :: i < j && EntryAt(soft, pri, n, i, x) && Completes(c, f, clauses, soft, pri, n, x)
  }

  ghost predicate Hidden(c: Config, f: Flow, clauses: ConjId -> nat, soft: seq<Chain>, pri: Priority, id: ConjId)
  {
    exists k :: CutOff(c, f, clauses, soft, pri, id, k)
  }

  /* No clause that is cut off has been recorded. */
  ghost predicate Unseen(c: Config, f: Flow, clauses: ConjId -> nat, soft: seq<Chain>, pri: Priority, seen: Seen)
  {
    forall id, k :: CutOff(c, f, clauses, soft, pri, id, k) ==> NotIn(clauses, seen, id, k)
  }

  ghost predicate NotIn(clauses: ConjId -> nat, seen: Seen, id: ConjId, k: nat)
  {
    id in seen ==> clauses(id) != 64 && k !in seen[id]
  }

  /* Recording does not go beyond an entry that completes its conjunction. */
  lemma {:induction false} RecordStops(conj: seq<Conjunction>, i: nat, max: nat, seen: Seen, x: nat, y: ConjId)
    requires i <= x < |conj| && conj[x].nClauses <= max
    requires AllButOne(conj[x], seen)
    requires forall s :: s in seen ==> seen[s] <= ALL_CLAUSES
    requires forall j :: 0 <= j < |conj| ==> conj[j].clause < 64
    requires forall j :: i <= j <= x ==> conj[j].id != y
    requires forall j, k :: 0 <= j < k < |conj| ==> conj[j].id != conj[k].id
    ensures var seen' := Record(conj, i, max, seen).0; (y in seen' <==> y in seen) && (y in seen ==> seen'[y] == seen[y])
    decreases |conj| - i
  {
    if conj[i].nClauses > max {
      RecordStops(conj, i + 1, max, seen, x, y);
    } else {
      var s := See(seen, conj[i]);
      if i == x {
        assert s == ALL_CLAUSES;
      } else if s != ALL_CLAUSES {
        RecordStops(conj, i + 1, max, seen[conj[i].id := s], x, y);
      }
    }
  }

  /* A conjunction that is not among the entries is left alone. */
  lemma {:induction false} RecordUntouched(conj: seq<Conjunction>, i: nat, max: nat, seen: Seen, y: ConjId)
    requires i <= |conj| && y !in seen && forall j :: 0 <= j < |conj| ==> conj[j].id != y
    ensures y !in Record(conj, i, max, seen).0
    decreases |conj| - i
  {
    if i < |conj| {
      RecordUntouched(conj, i + 1, max, if conj[i].nClauses > max then seen else seen[conj[i].id := See(seen, conj[i])], y);
    }
  }

  /* A clause that is not among the entries is not recorded. */
  lemma {:induction false} RecordAvoids(conj: seq<Conjunction>, clauses: ConjId -> nat, i: nat, max: nat, seen: Seen, y: ConjId, k: nat)
    requires i <= |conj| && k < clauses(y) < 64 && (y in seen ==> k !in seen[y])
    requires forall j :: 0 <= j < |conj| && conj[j].id == y ==> conj[j].clause != k && conj[j].nClauses == clauses(y)
    ensures var seen' := Record(conj, i, max, seen).0; y in seen' ==> k !in seen'[y]
    decreases |conj| - i
  {
    if i < |conj| {
      if conj[i].nClauses > max {
        RecordAvoids(conj, clauses, i + 1, max, seen, y, k);
      } else {
        var s := See(seen, conj[i]);
        if s != ALL_CLAUSES {
          RecordAvoids(conj, clauses, i + 1, max, seen[conj[i].id := s], y, k);
        }
      }
    }
  }

  /* An entry that completes its conjunction belongs to a complete one. */
  lemma CompletesIsComplete(c: Config, f: Flow, clauses: ConjId -> nat, soft: seq<Chain>, pri: Priority, n: int, i: int, x: Conjunction)
    requires LevelOk(c, f, soft, pri) && EntryAt(soft, pri, n, i, x) && Completes(c, f, clauses, soft, pri, n, x) && clauses(x.id) != 64
    ensures Complete(c, f, clauses, pri, x.id)
  {
    hide Candidate, ByConjId;
    forall k | 0 <= k < clauses(x.id) ensures ClauseAt(c, f, pri, x.id, k) {
      if k == x.clause {
        assert Candidate(c, f, soft[n][0]) && Supplies(soft[n][0], x.id, k);
      } else {
        assert SuppliedBefore(c, f, clauses, soft, pri, n, x.id, k);
        var m, j, e :| m < n && EntryAt(soft, pri, m, j, e) && e.id == x.id && e.clause == k;
        assert Candidate(c, f, soft[m][0]) && Supplies(soft[m][0], x.id, k);
      }
    }
  }

  /* The record is full for the entry's conjunction, but for its own clause. */
  ghost predicate AllButOne(x: Conjunction, seen: Seen)
  {
    ALL_CLAUSES <= (if x.id in seen then seen[x.id] else NoClauses(x.nClauses)) + {x.clause}
  }

  /* When it is reached, all clauses are there. */
  lemma CompletesAll(c: Config, f: Flow, clauses: ConjId -> nat, soft: seq<Chain>, pri: Priority, n: nat, i: int, x: Conjunction, seen: Seen)
    requires ConjOk(c, f, clauses) && LevelOk(c, f, soft, pri) && n < |soft| && LevelState(c, f, clauses, soft, pri, n, seen)
    requires EntryAt(soft, pri, n, i, x) && Completes(c, f, clauses, soft, pri, n, x) && RuleConjOk(soft[n][0], clauses)
    ensures x.nClauses <= CountPri(soft, pri) && AllButOne(x, seen)
  {
    hide Candidate, ByConjId, Complete, CountPri, ConjOk, Behind;
    assert x.nClauses == clauses(x.id);
    if clauses(x.id) == 64 {
      assert NoClauses(64) == ALL_CLAUSES;
    } else {
      CompletesIsComplete(c, f, clauses, soft, pri, n, i, x);
      EnoughMatches(c, f, clauses, soft, pri, x.id);
      OneClauseAtLeast(c, f, clauses, x.id);
      forall k | k in ALL_CLAUSES && k != x.clause ensures k in if x.id in seen then seen[x.id] else NoClauses(x.nClauses) {
        if k >= clauses(x.id) {
          assert k in NoClauses(x.nClauses);
        } else {
          SuppliedIsSeen(c, f, clauses, soft, pri, n, x.id, k, seen);
        }
      }
    }
  }

  lemma SuppliedIsSeen(c: Config, f: Flow, clauses: ConjId -> nat, soft: seq<Chain>, pri: Priority, n: nat, id: ConjId, k: nat, seen: Seen)
    requires ConjOk(c, f, clauses) && LevelOk(c, f, soft, pri) && n < |soft| && LevelState(c, f, clauses, soft, pri, n, seen)
    requires SuppliedBefore(c, f, clauses, soft, pri, n, id, k) && clauses(id) <= CountPri(soft, pri)
    ensures id in seen && k in seen[id]
  {
    hide Candidate, CountPri, ConjOk, Behind;
    var m, j, e :| m < n && EntryAt(soft, pri, m, j, e) && e.id == id && e.clause == k
                   && !Behind(c, f, clauses, pri, soft[m][0].conj, j);
    assert FrontRecorded(c, f, clauses, pri, soft[m][0].conj, CountPri(soft, pri), seen);
    HeadConjOk(c, f, clauses, soft, pri, m);
  }

  lemma OneClauseAtLeast(c: Config, f: Flow, clauses: ConjId -> nat, id: ConjId)
    requires ConjOk(c, f, clauses)
    ensures 0 < clauses(id) <= 64
  {
  }

  lemma HeadConjOk(c: Config, f: Flow, clauses: ConjId -> nat, soft: seq<Chain>, pri: Priority, m: nat)
    requires ConjOk(c, f, clauses) && LevelOk(c, f, soft, pri) && m < |soft| && soft[m] != [] && HeadPri(soft[m]) == pri
    ensures Candidate(c, f, soft[m][0]) && RuleConjOk(soft[m][0], clauses)
  {
    hide Candidate;
  }

  lemma StillUnseen(c: Config, f: Flow, clauses: ConjId -> nat, soft: seq<Chain>, pri: Priority, n: nat, seen: Seen, id: ConjId, k: nat)
    requires ConjOk(c, f, clauses) && LevelOk(c, f, soft, pri) && n < |soft| && LevelState(c, f, clauses, soft, pri, n, seen)
    requires soft[n] != [] && HeadPri(soft[n]) == pri && RuleConjOk(soft[n][0], clauses) && 0 < clauses(id) <= 64
    requires NotIn(clauses, seen, id, k) && CutOff(c, f, clauses, soft, pri, id, k)
    ensures NotIn(clauses, Record(soft[n][0].conj, 0, CountPri(soft, pri), seen).0, id, k)
  {
    hide LevelOk, LevelState, CountPri, Completes, ConjOk;
    var conj, max := soft[n][0].conj, CountPri(soft, pri);
    if j :| 0 <= j < |conj| && conj[j].id == id && (conj[j].clause == k || clauses(id) == 64) {
      assert EntryAt(soft, pri, n, j, conj[j]);
      var i, x :| i < j && EntryAt(soft, pri, n, i, x) && Completes(c, f, clauses, soft, pri, n, x);
      CompletesAll(c, f, clauses, soft, pri, n, i, x, seen);
      PresetBounds(c, f, clauses, soft, pri, n, seen);
      RecordStops(conj, 0, max, seen, i, id);
    } else if clauses(id) == 64 {
      RecordUntouched(conj, 0, max, seen, id);
    } else {
      RecordAvoids(conj, clauses, 0, max, seen, id, k);
    }
  }

  lemma PresetBounds(c: Config, f: Flow, clauses: ConjId -> nat, soft: seq<Chain>, pri: Priority, n: nat, seen: Seen)
    requires n <= |soft| && LevelState(c, f, clauses, soft, pri, n, seen)
    ensures forall y :: y in seen ==> seen[y] <= ALL_CLAUSES
  {
  }

  lemma {:induction false} ReportedInFull(conj: seq<Conjunction>, i: nat, max: nat, seen: Seen)
    requires i <= |conj|
    ensures var (seen', id) := Record(conj, i, max, seen); id.Some? ==> id.value in seen' && seen'[id.value] == ALL_CLAUSES
    decreases |conj| - i
  {
    if i < |conj| {
      ReportedInFull(conj, i + 1, max, if conj[i].nClauses > max then seen else seen[conj[i].id := See(seen, conj[i])]);
    }
  }

  lemma CutOffClause(c: Config, f: Flow, clauses: ConjId -> nat, soft: seq<Chain>, pri: Priority, id: ConjId, k: nat, seen: Seen)
    requires ConjOk(c, f, clauses) && CutOff(c, f, clauses, soft, pri, id, k) && NotIn(clauses, seen, id, k)
    ensures !(id in seen && seen[id] == ALL_CLAUSES)
  {
  }

  /* If all conjunctions of a priority that are taken for complete and have a rule are hidden, the
     level finds nothing. */
  lemma {:induction false} LevelMisses(c: Config, f: Flow, clauses: ConjId -> nat, soft: seq<Chain>, pri: Priority, n: nat, seen: Seen)
    requires c.Ok() && ConjOk(c, f, clauses) && LevelOk(c, f, soft, pri) && n <= |soft|
    requires SeenSound(c, f, clauses, pri, seen) && LevelState(c, f, clauses, soft, pri, n, seen)
    requires Unseen(c, f, clauses, soft, pri, seen)
    requires forall id :: Believed(c, f, clauses, pri, id) && ByConjId(c.order, c.subs, f, id).Some? ==> Hidden(c, f, clauses, soft, pri, id)
    ensures Level(c.order, c.subs, f, soft, pri, CountPri(soft, pri), n, seen).None?
    decreases |soft| - n
  {
    hide Config.Ok, Candidate, Believed, ByConjId, SeenSound, Record, CountPri, CutOff, LevelState, LevelOk, RuleConjOk, Parts, NotIn;
    if n < |soft| {
      if HeadPri(soft[n]) != pri || soft[n] == [] {
        SkipState(c, f, clauses, soft, pri, n, seen);
        LevelMisses(c, f, clauses, soft, pri, n + 1, seen);
      } else {
        var r0 := soft[n][0];
        HeadConjOk(c, f, clauses, soft, pri, n);
        var (seen', id) := Record(r0.conj, 0, CountPri(soft, pri), seen);
        PartsCounted(c, f, soft, pri);
        RecordSound(c, f, clauses, pri, r0, 0, CountPri(soft, pri), seen);
        forall y, k | CutOff(c, f, clauses, soft, pri, y, k) ensures NotIn(clauses, seen', y, k) {
          OneClauseAtLeast(c, f, clauses, y);
          StillUnseen(c, f, clauses, soft, pri, n, seen, y, k);
        }
        ReportedInFull(r0.conj, 0, CountPri(soft, pri), seen);
        assert id.Some? ==> ByConjId(c.order, c.subs, f, id.value).None? by {
          if id.Some? && ByConjId(c.order, c.subs, f, id.value).Some? {
            var k :| CutOff(c, f, clauses, soft, pri, id.value, k);
            CutOffClause(c, f, clauses, soft, pri, id.value, k, seen');
          }
        }
        RecordLevel(c, f, clauses, soft, pri, n, seen);
        LevelMisses(c, f, clauses, soft, pri, n + 1, seen');
      }
    }
  }

  // ---------------------------------------------------------------- for every order

  /* The conjunction is hidden, whatever the order of the soft matches. */
  ghost predicate AlwaysHidden(c: Config, f: Flow, clauses: ConjId -> nat, pri: Priority, id: ConjId)
  {
    forall soft :: LevelOk(c, f, soft, pri) ==> Hidden(c, f, clauses, soft, pri, id)
  }

  ghost predicate AllHidden(c: Config, f: Flow, clauses: ConjId -> nat)
  {
    forall pri: Priority, id :: Believed(c, f, clauses, pri, id) && ByConjId(c.order, c.subs, f, id).Some?
                                ==> AlwaysHidden(c, f, clauses, pri, id)
  }

  lemma LevelAlwaysMisses(c: Config, f: Flow, clauses: ConjId -> nat, soft: seq<Chain>, pri: Priority)
    requires c.Ok() && ConjOk(c, f, clauses) && LevelOk(c, f, soft, pri) && AllHidden(c, f, clauses)
    ensures Level(c.order, c.subs, f, soft, pri, CountPri(soft, pri), 0, map[]).None?
  {
    hide Config.Ok, Believed, ByConjId, LevelOk, Hidden, LevelState, ConjOk, CountPri, Level;
    StartOfLevel(c, f, soft, pri, clauses);
    LevelMisses(c, f, clauses, soft, pri, 0, map[]);
  }

  lemma {:induction false} SoftMisses(c: Config, f: Flow, clauses: ConjId -> nat, found: Found, bound: int)
    requires c.Ok() && ConjOk(c, f, clauses) && Deciding(c, f, found, bound) && AllHidden(c, f, clauses)
    ensures HardBest(c, f, SoftLoop(c.order, c.subs, f, found))
    decreases Remaining(found.soft)
  {
    hide Config.Ok, Candidate, Purge, SoftPri, Harden, Remaining, Level, CountPri, ConjOk, Deciding, HardBest, AllHidden;
    var live := found.(soft := Purge(found.soft, 0, Pri(found.hard)));
    PurgeShrinks(found.soft, 0, Pri(found.hard));
    PurgeDeciding(c, f, found, bound, 0);
    if live.soft == [] {
      HardWins(c, f, live, bound);
    } else {
      var pri := SoftPri(live.soft);
      TopIsAbove(live.soft, Pri(found.hard));
      LevelIsOk(c, f, live, bound);
      LevelAlwaysMisses(c, f, clauses, live.soft, pri);
      DescendShrinks(live.soft, Pri(found.hard));
      DescendDeciding(c, f, live, bound);
      SoftMisses(c, f, clauses, Found(Harden(live.soft, pri, found.hard), DescendAll(live.soft, pri)), pri);
    }
  }

  /* If all of them are hidden, a lookup finds a best certain match, or nothing, as if there were no
     conjunctions. */
  lemma SelectMisses(c: Config, f: Flow, clauses: ConjId -> nat)
    requires c.Ok() && ConjOk(c, f, clauses) && AllHidden(c, f, clauses)
    ensures HardBest(c, f, Select(c.order, c.subs, f))
  {
    hide Config.Ok, Scan, SoftLoop, HardBest, Deciding, AllHidden, ConjOk;
    var found := Scan(c.order, c.subs, f, true);
    ScanDeciding(c, f);
    if Pri(found.hard) >= SoftPri(found.soft) {
      SoftIrrelevant(c, f, found);
    }
    SoftMisses(c, f, clauses, found, INT_MAX + 1);
  }

  // ---------------------------------------------------------------- a classifier that misses one

  /* The parts of two conjunctions of two clauses each, and the rule of the second one. */
  ghost predicate ThreeRules(c: Config, f: Flow, a: Rule, b: Rule, r2: Rule, first: ConjId, second: ConjId)
  {
    && c.Ok() && AllRules(c.subs) == {a, b, r2} && a.priority == b.priority && r2.conj == [] && first != second
    && a.mask != b.mask && r2.mask != a.mask && r2.mask != b.mask
    && a.conj == [Conjunction(first, 0, 2), Conjunction(second, 0, 2)]
    && b.conj == [Conjunction(first, 1, 2), Conjunction(second, 1, 2)]
    && Agree(f, a.flow, a.mask) && Agree(f, b.flow, b.mask) && !Agree(f, r2.flow, r2.mask)
    && !Agree(WithConjId(f, first), r2.flow, r2.mask) && Agree(WithConjId(f, second), r2.flow, r2.mask)
  }

  /* Exactly the rules that agree are candidates. */
  lemma CandidatesAre(c: Config, f: Flow)
    requires c.Ok()
    ensures forall x :: Candidate(c, f, x) <==> x in AllRules(c.subs) && Agree(f, x.flow, x.mask)
  {
    hide Config.Ok, AllRules, Candidate, Agree;
    forall x ensures Candidate(c, f, x) <==> x in AllRules(c.subs) && Agree(f, x.flow, x.mask) {
      MatchesIffCandidate(c, f, x);
    }
  }

  /* The only rule without conjunctions is that of the ids with which it matches. */
  lemma OneHasRule(c: Config, f: Flow, r: Rule, id: ConjId)
    requires c.Ok() && r in AllRules(c.subs) && r.conj == []
    requires forall x :: x in AllRules(c.subs) && x != r ==> x.conj != [] && x.mask != r.mask
    ensures ByConjId(c.order, c.subs, f, id) == if Agree(WithConjId(f, id), r.flow, r.mask) then Some(r) else None
  {
    hide Config.Ok, AllRules, Candidate, Agree, ByConjId, WithConjId, MatchAt;
    var g := WithConjId(f, id);
    ScanByConjId(c, f, id);
    CandidatesAre(c, g);
    if Agree(g, r.flow, r.mask) {
      ChainFacts(c, g, r.mask);
      InItsChain(c, g, r);
      assert Foremost(c, g, r);
    }
  }

  lemma InItsChain(c: Config, f: Flow, x: Rule)
    requires Candidate(c, f, x)
    ensures MatchAt(c.subs, x.mask, f) != []
  {
  }

  function Pair(id: ConjId): nat { 2 }

  /* What is known of the flow and the rules. */
  ghost predicate BothParts(c: Config, f: Flow, a: Rule, b: Rule, first: ConjId, second: ConjId)
  {
    && (forall x :: Candidate(c, f, x) <==> x == a || x == b) && a.priority == b.priority && a.mask != b.mask && first != second
    && a.conj == [Conjunction(first, 0, 2), Conjunction(second, 0, 2)]
    && b.conj == [Conjunction(first, 1, 2), Conjunction(second, 1, 2)]
    && ByConjId(c.order, c.subs, f, first).None? && ByConjId(c.order, c.subs, f, second).Some?
  }

  lemma PartsOfBoth(c: Config, f: Flow, a: Rule, b: Rule, r2: Rule, first: ConjId, second: ConjId)
    requires ThreeRules(c, f, a, b, r2, first, second)
    ensures BothParts(c, f, a, b, first, second)
  {
    hide Config.Ok, AllRules, Candidate, Agree, ByConjId, WithConjId;
    CandidatesAre(c, f);
    OneHasRule(c, f, r2, first);
    OneHasRule(c, f, r2, second);
  }

  lemma BothComplete(c: Config, f: Flow, a: Rule, b: Rule, first: ConjId, second: ConjId)
    requires BothParts(c, f, a, b, first, second)
    ensures ConjOk(c, f, Pair) && Complete(c, f, Pair, a.priority, second)
  {
    hide Candidate, ByConjId;
    assert a.conj[1].id == second && Supplies(a, second, 0);
    assert b.conj[1].id == second && Supplies(b, second, 1);
    assert ClauseAt(c, f, a.priority, second, 0) && ClauseAt(c, f, a.priority, second, 1);
  }

  /* With 'x' before 'y', the first conjunction is complete before the second entry of 'y'. */
  lemma HiddenInOrder(c: Config, f: Flow, soft: seq<Chain>, x: Rule, y: Rule, first: ConjId, second: ConjId, m: nat, n: nat, k: nat)
    requires LevelOk(c, f, soft, x.priority) && (forall r :: Candidate(c, f, r) <==> r == x || r == y) && x.priority == y.priority
    requires k < 2 && first != second && ByConjId(c.order, c.subs, f, first).None?
    requires x.conj == [Conjunction(first, 1 - k, 2), Conjunction(second, 1 - k, 2)]
    requires y.conj == [Conjunction(first, k, 2), Conjunction(second, k, 2)]
    requires m < n && HeadAt(soft, m, x) && HeadAt(soft, n, y)
    ensures Hidden(c, f, Pair, soft, x.priority, second)
  {
    hide Candidate, ByConjId;
    var pri := x.priority;
    assert EntryAt(soft, pri, m, 0, x.conj[0]) && EntryAt(soft, pri, n, 0, y.conj[0]);
    assert !Behind(c, f, Pair, pri, soft[m][0].conj, 0);
    assert SuppliedBefore(c, f, Pair, soft, pri, n, first, 1 - k);
    assert Completes(c, f, Pair, soft, pri, n, y.conj[0]);
    assert CutOff(c, f, Pair, soft, pri, second, k) by {
      forall i, j, e | EntryAt(soft, pri, i, j, e) && e.id == second && e.clause == k ensures i == n && j == 1 {
        assert Candidate(c, f, soft[i][0]);
      }
    }
  }

  lemma SecondHidden(c: Config, f: Flow, a: Rule, b: Rule, first: ConjId, second: ConjId)
    requires BothParts(c, f, a, b, first, second)
    ensures AlwaysHidden(c, f, Pair, a.priority, second)
  {
    hide Candidate, ByConjId, Hidden;
    forall soft | LevelOk(c, f, soft, a.priority) ensures Hidden(c, f, Pair, soft, a.priority, second) {
      assert Candidate(c, f, a) && Candidate(c, f, b);
      var m :| HeadAt(soft, m, a);
      var n :| HeadAt(soft, n, b);
      if m < n {
        HiddenInOrder(c, f, soft, a, b, first, second, m, n, 1);
      } else {
        HiddenInOrder(c, f, soft, b, a, first, second, n, m, 0);
      }
    }
  }

  lemma OnlySecondRuled(c: Config, f: Flow, a: Rule, b: Rule, first: ConjId, second: ConjId)
    requires BothParts(c, f, a, b, first, second)
    ensures AllHidden(c, f, Pair)
  {
    hide Candidate, ByConjId, Complete, AlwaysHidden;
    BothComplete(c, f, a, b, first, second);
    SecondHidden(c, f, a, b, first, second);
    forall pri: Priority, id | Believed(c, f, Pair, pri, id) && ByConjId(c.order, c.subs, f, id).Some? ensures pri == a.priority && id == second {
      BelievedIsListed(c, f, Pair, pri, id);
    }
  }

  /* A lookup of 'f' finds nothing, although a conjunction is complete and has a rule. */
  ghost predicate Misses(c: Config, f: Flow, clauses: ConjId -> nat, pri: Priority, id: ConjId)
  {
    && ConjOk(c, f, clauses) && Complete(c, f, clauses, pri, id) && ByConjId(c.order, c.subs, f, id).Some?
    && Select(c.order, c.subs, f).None?
  }

  lemma HiddenConjunction(c: Config, f: Flow, a: Rule, b: Rule, r2: Rule, first: ConjId, second: ConjId)
    requires ThreeRules(c, f, a, b, r2, first, second)
    ensures Misses(c, f, Pair, a.priority, second)
  {
    hide Config.Ok, AllRules, Agree, WithConjId, ByConjId, ConjOk, Complete, Candidate, Select, AllHidden;
    PartsOfBoth(c, f, a, b, r2, first, second);
    BothComplete(c, f, a, b, first, second);
    OnlySecondRuled(c, f, a, b, first, second);
    SelectMisses(c, f, Pair);
  }

  // ---------------------------------------------------------------- a classifier that finds one too early

  /* Whatever has been recorded, an entry of 64 clauses is reported when it is reached. */
  lemma LargeAtOnce(conj: seq<Conjunction>, clauses: ConjId -> nat, i: nat, max: nat, seen: Seen)
    requires i < |conj| && conj[i].nClauses == clauses(conj[i].id) == 64 <= max && conj[i].clause < 64 && Preset(clauses, seen)
    ensures Record(conj, i, max, seen).1 == Some(conj[i].id)
  {
    assert NoClauses(64) == ALL_CLAUSES;
    assert See(seen, conj[i]) == ALL_CLAUSES;
  }

  /* 64 parts of a conjunction of 64 clauses, all for the same clause, and its rule. */
  ghost predicate Crowd(c: Config, f: Flow, parts: set<Rule>, r: Rule, pri: Priority, id: ConjId)
  {
    && c.Ok() && AllRules(c.subs) == parts + {r} && |parts| == 64 && r.conj == [] && pri > INT_MIN
    && (forall x :: x in parts ==> && x.priority == pri && x.mask != r.mask && x.conj == [Conjunction(id, 0, 64)]
                                   && Agree(f, x.flow, x.mask))
    && !Agree(f, r.flow, r.mask) && Agree(WithConjId(f, id), r.flow, r.mask)
  }

  function SixtyFour(id: ConjId): nat { 64 }

  lemma CrowdIsBelieved(c: Config, f: Flow, parts: set<Rule>, r: Rule, pri: Priority, id: ConjId)
    requires Crowd(c, f, parts, r, pri, id)
    ensures ConjOk(c, f, SixtyFour) && Premature(c, f, SixtyFour, pri, id) && !Complete(c, f, SixtyFour, pri, id)
    ensures !Shadowed(c, f, SixtyFour, pri, id)
    ensures forall x :: Candidate(c, f, x) <==> x in parts
    ensures ByConjId(c.order, c.subs, f, id) == Some(r)
  {
    hide Config.Ok, AllRules, Candidate, Agree, ByConjId, WithConjId;
    CandidatesAre(c, f);
    OneHasRule(c, f, r, id);
    assert Parts(c, f, pri) == parts;
    var x :| x in parts;
    assert x.conj[0].id == id && !Behind(c, f, SixtyFour, pri, x.conj, 0);
    assert !ClauseBehind(c, f, SixtyFour, pri, id, 0);
    assert Listed(c, f, pri, id);
    assert !ClauseAt(c, f, pri, id, 1);
  }

  /* The lookup finds the rule, although only one of the clauses matches. */
  lemma EarlyConjunction(c: Config, f: Flow, parts: set<Rule>, r: Rule, pri: Priority, id: ConjId)
    requires Crowd(c, f, parts, r, pri, id)
    ensures ConjOk(c, f, SixtyFour) && !Complete(c, f, SixtyFour, pri, id) && Select(c.order, c.subs, f) == Some(r)
  {
    hide Config.Ok, AllRules, Candidate, Agree, ByConjId, WithConjId, Select, ConjOk, Complete, Premature, Shadowed;
    CrowdIsBelieved(c, f, parts, r, pri, id);
    var q, y := SelectMeaning(c, f, SixtyFour);
    NotCertain(c, f, parts, r, pri, id, Select(c.order, c.subs, f), q);
    BelievedIsListed(c, f, SixtyFour, q, y.value);
  }

  /* No certain match decides, as there is none and the conjunction is not excused. */
  lemma NotCertain(c: Config, f: Flow, parts: set<Rule>, r: Rule, pri: Priority, id: ConjId, result: Option<Rule>, q: int)
    requires Crowd(c, f, parts, r, pri, id)
    ensures !Decided(c, f, SixtyFour, result, q, None, NO_BOUND)
  {
    hide Config.Ok, AllRules, Candidate, Agree, ByConjId, WithConjId, ConjOk, Complete, Premature, Shadowed;
    CrowdIsBelieved(c, f, parts, r, pri, id);
    assert Believed(c, f, SixtyFour, pri, id) && !Excused(c, f, SixtyFour, pri, id);
  }

  // ---------------------------------------------------------------- their rules

  function Zeros(): Flow { seq(FLOW_BITS, _ => false) }

  function OneBit(b: nat): Flow
    requires b < FLOW_BITS
  {
    Zeros()[b := true]
  }

  function One(): ConjId { seq(32, i => i == 31) }

  function Two(): ConjId { seq(32, i => i == 30) }

  function IdMask(): Flow { WithConjId(Zeros(), seq(32, _ => true)) }

  /* Rules for flows without the bit 'b', and the rule of a conjunction. */
  function PartRule(b: nat, conj: seq<Conjunction>): Rule
    requires b < 64
  {
    Subtables.Rule(b, 10, Zeros(), OneBit(b), conj)
  }

  function RuleOf(id: ConjId): Rule { Subtables.Rule(64, 5, WithConjId(Zeros(), id), IdMask(), []) }

  lemma PartRuleOk(b: nat, conj: seq<Conjunction>)
    requires b < 64
    ensures RuleOk(PartRule(b, conj)) && Agree(Zeros(), PartRule(b, conj).flow, OneBit(b)) && OneBit(b) != IdMask()
    ensures forall x: nat :: x < b ==> OneBit(x) != OneBit(b)
  {
    assert Masked(Zeros(), OneBit(b)) == Zeros();
    assert OneBit(b)[b] && !IdMask()[b];
    forall x: nat | x < b ensures OneBit(x) != OneBit(b) {
      assert !OneBit(x)[b];
    }
  }

  lemma RuleOfOk(id: ConjId, other: ConjId, i: nat)
    requires i < 32 && id[i] && !other[i]
    ensures RuleOk(RuleOf(id)) && !Agree(WithConjId(Zeros(), other), RuleOf(id).flow, IdMask())
    ensures !Agree(Zeros(), RuleOf(id).flow, IdMask()) && Agree(WithConjId(Zeros(), id), RuleOf(id).flow, IdMask())
  {
    var f, mask, key, b := Zeros(), IdMask(), RuleOf(id).flow, CONJ_ID_BIT + i;
    assert key[b] && mask[b] && !f[b] && !WithConjId(f, other)[b];
    assert Masked(key, mask) == key;
  }

  function FirstPart(): Rule { PartRule(0, [Conjunction(One(), 0, 2), Conjunction(Two(), 0, 2)]) }

  function SecondPart(): Rule { PartRule(1, [Conjunction(One(), 1, 2), Conjunction(Two(), 1, 2)]) }

  /* A valid classifier with these rules, in which conjunction 2 is missed. */
  ghost predicate MissesTwo(cls: Classifier)
    reads cls
  {
    && cls.Valid() && cls.Rules() == {FirstPart(), SecondPart(), RuleOf(Two())}
    && Misses(cls.View(), Zeros(), Pair, FirstPart().priority, Two())
  }

  /* Such a classifier, built and searched with its own operations. */
  method MissedConjunction(hs: Hasher, segments: seq<nat>, tagSeed: Flow -> nat) returns (cls: Classifier, result: Option<Rule>)
    requires SegmentsOk(segments)
    ensures result.None? && MissesTwo(cls)
  {
    hide Zeros, One, Two, FirstPart, SecondPart, RuleOf, AllRules, Misses, ConjOk, Decided, Select, RuleOk, Classifier.Valid, Frugal,
         Best, Config.Sound, Alike;
    cls := MissingExample(hs, segments, tagSeed);
    var wc;
    result, wc := cls.Lookup(Zeros(), Zeros());
    ExampleMisses(cls);
  }

  method MissingExample(hs: Hasher, segments: seq<nat>, tagSeed: Flow -> nat) returns (cls: Classifier)
    requires SegmentsOk(segments)
    ensures cls.Valid() && cls.Rules() == {FirstPart(), SecondPart(), RuleOf(Two())}
  {
    hide Zeros, One, Two, FirstPart, SecondPart, RuleOf, AllRules, RuleOk, Classifier.Valid, Identical;
    ExampleRules();
    cls := new Classifier(hs, segments, tagSeed, []);
    var d := cls.Replace(FirstPart());
    d := cls.Replace(SecondPart());
    d := cls.Replace(RuleOf(Two()));
  }

  lemma ExampleRules()
    ensures RuleOk(FirstPart()) && RuleOk(SecondPart()) && RuleOk(RuleOf(Two()))
    ensures FirstPart() != SecondPart() && FirstPart() != RuleOf(Two()) && SecondPart() != RuleOf(Two())
    ensures !Identical(FirstPart(), SecondPart()) && !Identical(FirstPart(), RuleOf(Two())) && !Identical(SecondPart(), RuleOf(Two()))
  {
    hide RuleOk, WithConjId, Zeros, One, Two, IdMask, OneBit;
    PartRuleOk(0, FirstPart().conj);
    PartRuleOk(1, SecondPart().conj);
    IdsDiffer();
    RuleOfOk(Two(), One(), 30);
  }

  lemma IdsDiffer()
    ensures Two()[30] && !One()[30] && One()[31] && !Two()[31]
  {
  }

  lemma ExampleMisses(cls: Classifier)
    requires cls.Valid() && cls.Rules() == {FirstPart(), SecondPart(), RuleOf(Two())}
    ensures Misses(cls.View(), Zeros(), Pair, FirstPart().priority, Two())
    ensures Select(cls.order, cls.subtables, Zeros()).None?
  {
    hide Zeros, One, Two, IdMask, OneBit, WithConjId, Agree, AllRules, Misses, Select, RuleOk, Classifier.Valid;
    ViewOk(cls);
    PartRuleOk(0, FirstPart().conj);
    PartRuleOk(1, SecondPart().conj);
    IdsDiffer();
    RuleOfOk(Two(), One(), 30);
    HiddenConjunction(cls.View(), Zeros(), FirstPart(), SecondPart(), RuleOf(Two()), One(), Two());
    NoneSelected(cls.View(), Zeros(), Pair, FirstPart().priority, Two());
  }

  lemma ViewOk(cls: Classifier)
    requires cls.Valid()
    ensures cls.View().Ok()
  {
  }

  lemma NoneSelected(c: Config, f: Flow, clauses: ConjId -> nat, pri: Priority, id: ConjId)
    requires Misses(c, f, clauses, pri, id)
    ensures Select(c.order, c.subs, f).None?
  {
  }

  function LargePart(b: nat): Rule
    requires b < 64
  {
    PartRule(b, [Conjunction(One(), 0, 64)])
  }

  ghost function LargeParts(n: nat): set<Rule>
    requires n <= 64
  {
    set b | 0 <= b < n :: LargePart(b)
  }

  lemma {:induction false} LargePartsAre(n: nat)
    requires n <= 64
    ensures |LargeParts(n)| == n && (n < 64 ==> LargePart(n) !in LargeParts(n) && LargeParts(n + 1) == LargeParts(n) + {LargePart(n)})
  {
    if n == 0 {
      assert LargeParts(0) == {};
    } else {
      LargePartsAre(n - 1);
    }
    if n < 64 {
      assert forall b :: 0 <= b < n ==> LargePart(b).name == b;
      forall x | x in LargeParts(n + 1) ensures x in LargeParts(n) || x == LargePart(n) {
        var b :| 0 <= b < n + 1 && x == LargePart(b);
      }
    }
  }

  /* 64 rules for one clause of conjunction 1 are found to match it, as it has 64 clauses. */
  method EarlyMatch(hs: Hasher, segments: seq<nat>, tagSeed: Flow -> nat) returns (cls: Classifier, result: Option<Rule>)
    requires SegmentsOk(segments)
    ensures cls.Valid() && cls.Rules() == LargeParts(64) + {RuleOf(One())} && result == Some(RuleOf(One()))
    ensures ConjOk(cls.View(), Zeros(), SixtyFour) && !Complete(cls.View(), Zeros(), SixtyFour, 10, One())
  {
    hide Zeros, One, LargeParts, LargePart, RuleOf, AllRules, ConjOk, Complete, Decided, Select, RuleOk, Classifier.Valid, Frugal,
         Best, Config.Sound, Alike;
    cls := LargeExample(hs, segments, tagSeed);
    var wc;
    result, wc := cls.Lookup(Zeros(), Zeros());
    ExampleEarly(cls);
  }

  method LargeExample(hs: Hasher, segments: seq<nat>, tagSeed: Flow -> nat) returns (cls: Classifier)
    requires SegmentsOk(segments)
    ensures cls.Valid() && cls.Rules() == LargeParts(64) + {RuleOf(One())}
  {
    hide Zeros, One, LargeParts, LargePart, RuleOf, AllRules, RuleOk, Classifier.Valid, Identical;
    cls := new Classifier(hs, segments, tagSeed, []);
    LargePartsAre(0);
    NoParts();
    for n := 0 to 64
      invariant cls.Valid() && cls.Rules() == LargeParts(n)
      invariant fresh(cls)
    {
      LargePartsAre(n);
      LargeRule(n);
      var d := cls.Replace(LargePart(n));
    }
    LargeLast();
    var d := cls.Replace(RuleOf(One()));
  }

  lemma NoParts()
    ensures LargeParts(0) == {}
  {
  }

  lemma LargeRule(n: nat)
    requires n < 64
    ensures RuleOk(LargePart(n)) && forall r :: r in LargeParts(n) ==> !Identical(r, LargePart(n))
  {
    hide RuleOk, OneBit, Zeros;
    PartRuleOk(n, LargePart(n).conj);
    assert forall b :: 0 <= b < n ==> LargePart(b).mask == OneBit(b);
  }

  lemma LargeLast()
    ensures RuleOk(RuleOf(One())) && RuleOf(One()) !in LargeParts(64) && forall r :: r in LargeParts(64) ==> !Identical(r, RuleOf(One()))
  {
    hide RuleOk, OneBit, Zeros, IdMask, WithConjId, One, Two;
    IdsDiffer();
    RuleOfOk(One(), Two(), 31);
    forall r | r in LargeParts(64) ensures r.mask != IdMask() {
      var b :| 0 <= b < 64 && r == LargePart(b);
      PartRuleOk(b, r.conj);
    }
  }

  lemma ExampleEarly(cls: Classifier)
    requires cls.Valid() && cls.Rules() == LargeParts(64) + {RuleOf(One())}
    ensures ConjOk(cls.View(), Zeros(), SixtyFour) && !Complete(cls.View(), Zeros(), SixtyFour, 10, One())
    ensures Select(cls.order, cls.subtables, Zeros()) == Some(RuleOf(One()))
  {
    hide Zeros, One, Two, IdMask, OneBit, WithConjId, Agree, AllRules, Select, RuleOk, Classifier.Valid, ConjOk, Complete;
    ViewOk(cls);
    LargePartsAre(64);
    IdsDiffer();
    RuleOfOk(One(), Two(), 31);
    forall x | x in LargeParts(64)
      ensures x.priority == 10 && x.mask != IdMask() && x.conj == [Conjunction(One(), 0, 64)] && Agree(Zeros(), x.flow, x.mask)
    {
      var b :| 0 <= b < 64 && x == LargePart(b);
      PartRuleOk(b, x.conj);
    }
    EarlyConjunction(cls.View(), Zeros(), LargeParts(64), RuleOf(One()), 10, One());
  }
}
