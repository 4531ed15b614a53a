/** classifier_lookup__(): the scan of the subtables and the soft match loop, with the wildcards
    that they leave. */
module Lookups {

  import opened Options
  import opened Tries
  import opened Flows
  import opened Subtables
  import opened SubtableChanges
  import opened Selection
  import opened ClassifierState

  /* What a lookup reads. */
  datatype Config = Config(
    hs: Hasher, tagSeed: Flow -> nat,
    order: seq<Entry>, subs: Tables, parts: Partitions, tries: seq<ClsTrie>)
  {
    ghost predicate Ok()
    {
      && SubsOk(hs, subs, tries) && OrderOk(order, Pris(subs))
      && TriesOk(HeadsOf(subs), tries) && PartsOk(HeadsOf(subs), parts)
    }

    /* The conditions under which the wildcards for 'f' are good: no stage hash of 'f' collides
       with that of a rule, and no subtable matches bits behind the ports. */
    ghost predicate SoundAt(f: Flow)
    {
      forall m :: m in subs ==> PortsLast(m) && StagesOk(subs[m].stages) && NoCollision(hs, subs[m], f)
    }

    /* The same with the ids of all conjunctions that the soft matches, or rules behind them, are in;
       without soft matches there are none. */
    ghost predicate SoundFor(f: Flow, soft: seq<Chain>)
    {
      forall ch, x, e :: ch in soft && x in ch && e in x.conj ==> SoundAt(WithConjId(f, e.id))
    }

    ghost predicate Sound(f: Flow)
    {
      SoundAt(f) && SoundFor(f, Scan(order, subs, f, true).soft)
    }
  }

  /* The flows for which a lookup of 'f' speaks: 'f' itself, and all flows alike if it is sound. */
  ghost predicate Kin(sound: bool, f: Flow, g: Flow, wc: Flow)
  {
    g == f || (sound && Alike(f, g, wc))
  }

  lemma KinCovers(sound: bool, f: Flow, g: Flow, wc: Flow, less: Flow)
    requires Kin(sound, f, g, wc) && Covers(wc, less)
    ensures Kin(sound, f, g, less)
  {
    if g != f {
      CoversAgree(f, g, wc, less);
    }
  }

  // ---------------------------------------------------------------- scan

  /* All kin have 'found' after the first 'n' subtables. */
  ghost predicate Scanned(c: Config, sound: bool, f: Flow, wc: Flow, n: nat, conjunctive: bool, found: Found)
    requires n <= |c.order|
  {
    forall g :: Kin(sound, f, g, wc) ==> Scan(c.order[..n], c.subs, g, conjunctive) == found
  }

  lemma ScanStep(c: Config, sound: bool, f: Flow, wc: Flow, wc2: Flow, n: nat, conjunctive: bool, found: Found, chain: Chain)
    requires n < |c.order| && Scanned(c, sound, f, wc, n, conjunctive, found) && Covers(wc2, wc)
    requires forall g :: Kin(sound, f, g, wc2) ==> MatchAt(c.subs, c.order[n].mask, g) == chain
    ensures Scanned(c, sound, f, wc2, n + 1, conjunctive, Consider(found, chain, conjunctive))
  {
    hide Kin, MatchAt;
    forall g | Kin(sound, f, g, wc2)
      ensures Scan(c.order[..n + 1], c.subs, g, conjunctive) == Consider(found, chain, conjunctive)
    {
      KinCovers(sound, f, g, wc2, wc);
      assert c.order[..n + 1][..n] == c.order[..n];
    }
  }

  /* Subtables that cannot have a match above the hard one change nothing. */
  lemma {:induction false} RestIsIrrelevant(c: Config, g: Flow, n: nat, conjunctive: bool)
    requires c.Ok() && n <= |c.order|
    requires n < |c.order| ==> c.order[n].priority <= Pri(Scan(c.order[..n], c.subs, g, conjunctive).hard)
    ensures Scan(c.order, c.subs, g, conjunctive) == Scan(c.order[..n], c.subs, g, conjunctive)
    decreases |c.order| - n
  {
    hide Config.Ok, MatchAt;
    if n == |c.order| {
      assert c.order[..n] == c.order;
    } else {
      assert c.order[..n + 1][..n] == c.order[..n];
      MatchBelowEntry(c, n, g);
      RestIsIrrelevant(c, g, n + 1, conjunctive);
    }
  }

  lemma EntryOf(c: Config, n: nat)
    requires c.Ok() && n < |c.order|
    ensures c.order[n].mask in c.subs && c.subs[c.order[n].mask].maxPriority == c.order[n].priority
    ensures c.subs[c.order[n].mask].mask == c.order[n].mask
    ensures MaxOk(c.subs[c.order[n].mask])
  {
    hide TriesOk, PartsOk, HeadsOf;
    assert c.order[n] in c.order;
    var m := c.order[n].mask;
    assert SubOk(c.hs, c.subs[m], c.tries, m);
  }

  lemma MatchBelowEntry(c: Config, n: nat, g: Flow)
    requires c.Ok() && n < |c.order|
    ensures HeadPri(MatchAt(c.subs, c.order[n].mask, g)) <= c.order[n].priority
    ensures n + 1 < |c.order| ==> c.order[n + 1].priority <= c.order[n].priority
  {
    hide SubsOk, TriesOk, PartsOk, HeadsOf, Pris;
    EntryOf(c, n);
  }

  /* One subtable that is searched: all kin have the chain that 'f' has. */
  lemma SearchedKin(c: Config, sound: bool, f: Flow, wc: Flow, m: Flow)
    requires m in c.subs && (sound ==> Settled(c.subs[m], f, wc))
    ensures forall g :: Kin(sound, f, g, wc) ==> MatchAt(c.subs, m, g) == MatchIn(c.subs[m], f)
  {
  }

  lemma KinMetadata(sound: bool, f: Flow, g: Flow, wc: Flow)
    requires Kin(sound, f, g, wc)
    ensures Metadata(f) == Metadata(g)
  {
  }

  /* One that is skipped: none has a match. */
  lemma SkippedKin(c: Config, sound: bool, f: Flow, wc: Flow, n: nat)
    requires c.Ok() && n < |c.order|
    requires !TagsIntersect(TagsFor(c.tagSeed, c.parts, f), TagOf(c.tagSeed, c.order[n].mask))
    ensures forall g :: Kin(sound, f, g, wc) ==> MatchAt(c.subs, c.order[n].mask, g) == []
  {
    hide PartsOk, SubsOk, OrderOk, TriesOk, HeadsOf, Kin, TagOf, TagsIntersect, MatchIn;
    EntryOf(c, n);
    var m := c.order[n].mask;
    forall g | Kin(sound, f, g, wc) ensures MatchAt(c.subs, m, g) == [] {
      KinMetadata(sound, f, g, wc);
      SkippedHasNoMatch(c.tagSeed, c.subs, c.parts, m, g);
    }
  }

  /* Only bits that some subtable matches on have been added to the wildcards. */
  ghost predicate Frugal(subs: Tables, wc0: Flow, wc: Flow)
  {
    forall i :: 0 <= i < FLOW_BITS && wc[i] ==> wc0[i] || exists m :: m in subs && m[i]
  }

  lemma FrugalAlso(subs: Tables, wc0: Flow, wc: Flow, m: Flow, wc2: Flow)
    requires Frugal(subs, wc0, wc) && m in subs && Within(m, wc, wc2)
    ensures Frugal(subs, wc0, wc2)
  {
  }

  lemma FrugalTwice(subs: Tables, wc0: Flow, wc: Flow, wc2: Flow)
    requires Frugal(subs, wc0, wc) && Frugal(subs, wc, wc2)
    ensures Frugal(subs, wc0, wc2)
  {
  }

  lemma FrugalSelf(subs: Tables, wc: Flow)
    ensures Frugal(subs, wc, wc)
  {
  }

  /* The main loop of classifier_lookup__(). */
  method ScanSubtables(c: Config, f: Flow, wc0: Flow, conjunctive: bool, ghost sound: bool)
    returns (found: Found, wc: Flow)
    requires c.Ok() && (sound ==> c.SoundAt(f))
    ensures Covers(wc, wc0) && Frugal(c.subs, wc0, wc)
    ensures Scanned(c, sound, f, wc, |c.order|, conjunctive, found)
  {
    hide Config.Ok, Config.SoundAt, Scanned, TagsFor, TagOf, TagsIntersect, CtxsOk, Searchable, Settled;
    hide NoCollision, PortsLast, MatchIn, MatchAt, Kin, StagesOk, Frugal, Within;
    FrugalSelf(c.subs, wc0);
    var tags := TagsFor(c.tagSeed, c.parts, f);
    var ctxs := seq(|c.tries|, _ => TrieCtx(false, 0, []));
    found, wc := Found(None, []), wc0;
    StartScan(c, sound, f, wc, conjunctive);
    var n := 0;
    while n < |c.order| && c.order[n].priority > Pri(found.hard)
      invariant n <= |c.order| && Covers(wc, wc0) && Frugal(c.subs, wc0, wc)
      invariant CtxsOk(c.tries, ctxs, f)
      invariant Scanned(c, sound, f, wc, n, conjunctive, found)
    {
      var m := c.order[n].mask;
      ghost var before := wc;
      if TagsIntersect(tags, TagOf(c.tagSeed, m)) {
        PrepareSearch(c, n, f, sound);
        var chain;
        chain, ctxs, wc := FindMatchWc(c.hs, c.subs[m], c.tries, f, ctxs, wc);
        FrugalAlso(c.subs, wc0, before, m, wc);
        SearchedKin(c, sound, f, wc, m);
        ScanStep(c, sound, f, before, wc, n, conjunctive, found, chain);
        found := Consider(found, chain, conjunctive);
      } else {
        SkippedKin(c, sound, f, wc, n);
        ScanStep(c, sound, f, wc, wc, n, conjunctive, found, []);
      }
      n := n + 1;
    }
    EndScan(c, sound, f, wc, n, conjunctive, found);
  }

  lemma StartScan(c: Config, sound: bool, f: Flow, wc: Flow, conjunctive: bool)
    requires c.Ok()
    ensures Scanned(c, sound, f, wc, 0, conjunctive, Found(None, []))
    ensures CtxsOk(c.tries, seq(|c.tries|, _ => TrieCtx(false, 0, [])), f)
  {
    forall j | 0 <= j < |c.tries| ensures c.tries[j].field.Ok() {
      assert TrieCounts(HeadsOf(c.subs), c.tries[j]);
    }
  }

  lemma PrepareSearch(c: Config, n: nat, f: Flow, sound: bool)
    requires c.Ok() && n < |c.order| && (sound ==> c.SoundAt(f))
    ensures c.order[n].mask in c.subs && Searchable(c.hs, c.subs[c.order[n].mask], c.tries)
    ensures c.subs[c.order[n].mask].mask == c.order[n].mask
    ensures StagesOk(c.subs[c.order[n].mask].stages)
    ensures sound ==> PortsLast(c.order[n].mask) && NoCollision(c.hs, c.subs[c.order[n].mask], f)
  {
    EntryOf(c, n);
    hide SubsOk, OrderOk, TriesOk, PartsOk, HeadsOf;
    AllSearchable(c.hs, c.subs, c.tries, c.order[n].mask);
  }

  lemma EndScan(c: Config, sound: bool, f: Flow, wc: Flow, n: nat, conjunctive: bool, found: Found)
    requires c.Ok() && n <= |c.order| && Scanned(c, sound, f, wc, n, conjunctive, found)
    requires n == |c.order| || c.order[n].priority <= Pri(found.hard)
    ensures Scanned(c, sound, f, wc, |c.order|, conjunctive, found)
  {
    hide Config.Ok, Kin;
    forall g | Kin(sound, f, g, wc)
      ensures Scan(c.order[..|c.order|], c.subs, g, conjunctive) == found
    {
      RestIsIrrelevant(c, g, n, conjunctive);
      assert c.order[..|c.order|] == c.order;
    }
  }

  // ---------------------------------------------------------------- soft matches

  function MinClauses(conj: seq<Conjunction>): (n: nat)
    requires conj != []
    ensures forall i :: 0 <= i < |conj| ==> n <= conj[i].nClauses
  {
    if |conj| == 1 then conj[0].nClauses
    else
      var n := MinClauses(conj[1..]);
      assert forall i :: 1 <= i < |conj| ==> conj[i] == conj[1..][i - 1];
      if conj[0].nClauses < n then conj[0].nClauses else n
  }

  lemma {:induction false} TooManyClauses(conj: seq<Conjunction>, i: nat, max: nat, seen: Seen)
    requires i <= |conj| && forall j :: 0 <= j < |conj| ==> conj[j].nClauses > max
    ensures Record(conj, i, max, seen) == (seen, None)
    decreases |conj| - i
  {
    if i < |conj| {
      TooManyClauses(conj, i + 1, max, seen);
    }
  }

  /* find_conjunctive_match() */
  method FindConjunctiveMatch(conj: seq<Conjunction>, max: nat, seen0: Seen) returns (seen: Seen, id: Option<ConjId>)
    requires conj != []
    ensures (seen, id) == Record(conj, 0, max, seen0)
    ensures id.Some? ==> exists e :: e in conj && e.id == id.value
  {
    seen := seen0;
    if max < MinClauses(conj) {
      TooManyClauses(conj, 0, max, seen);
      return seen, None;
    }
    var i := 0;
    while i < |conj|
      invariant 0 <= i <= |conj|
      invariant Record(conj, 0, max, seen0) == Record(conj, i, max, seen)
    {
      if conj[i].nClauses <= max {
        var s := See(seen, conj[i]);
        seen := seen[conj[i].id := s];
        if s == ALL_CLAUSES {
          return seen, Some(conj[i].id);
        }
      }
      i := i + 1;
    }
    id := None;
  }

  /* Exactly the dead ones go. */
  lemma {:induction false} PurgeExact(soft: seq<Chain>, i: nat, hardPri: Priority)
    requires i <= |soft| && forall j :: 0 <= j < i ==> !Dead(soft[j], hardPri)
    ensures forall x: Chain :: multiset(Purge(soft, i, hardPri))[x] == if Dead(x, hardPri) then 0 else multiset(soft)[x]
    decreases |soft| - i
  {
    hide Dead;
    if i < |soft| {
      if Dead(soft[i], hardPri) {
        LastIntoGap(soft, i);
        PurgeExact(soft[i := soft[|soft| - 1]][..|soft| - 1], i, hardPri);
      } else {
        PurgeExact(soft, i + 1, hardPri);
      }
    } else {
      forall x | x in multiset(soft) ensures !Dead(x, hardPri) {
        assert x in soft;
      }
    }
  }

  lemma LastIntoGap<T>(s: seq<T>, i: nat)
    requires i < |s|
    ensures multiset(s[i := s[|s| - 1]][..|s| - 1]) == multiset(s) - multiset{s[i]}
  {
    var n := |s| - 1;
    GapSlices(s, i);
    if i < n {
      Moved(s[..i], s[i], s[i + 1..n], s[n]);
    }
  }

  lemma GapSlices<T>(s: seq<T>, i: nat)
    requires i < |s|
    ensures var n := |s| - 1;
            if i == n then s[i := s[n]][..n] == s[..n] && s == s[..n] + [s[n]]
            else s[i := s[n]][..n] == s[..i] + [s[n]] + s[i + 1..n] && s == s[..i] + [s[i]] + s[i + 1..n] + [s[n]]
  {
  }

  lemma Moved<T>(a: seq<T>, x: T, b: seq<T>, y: T)
    ensures multiset(a + [y] + b) == multiset(a + [x] + b + [y]) - multiset{x}
  {
  }

  /* The loop that deletes dead soft matches. */
  method PurgeSoft(soft0: seq<Chain>, hardPri: Priority) returns (soft: seq<Chain>)
    ensures soft == Purge(soft0, 0, hardPri)
    ensures forall x: Chain :: multiset(soft)[x] == if Dead(x, hardPri) then 0 else multiset(soft0)[x]
  {
    PurgeExact(soft0, 0, hardPri);
    soft := soft0;
    var i := 0;
    while i < |soft|
      invariant 0 <= i <= |soft| && Purge(soft, i, hardPri) == Purge(soft0, 0, hardPri)
      decreases |soft| - i
    {
      if Dead(soft[i], hardPri) {
        soft := soft[i := soft[|soft| - 1]][..|soft| - 1];
      } else {
        i := i + 1;
      }
    }
  }

  /* The loop that counts the soft matches of the top priority. */
  method TopPriority(soft: seq<Chain>) returns (pri: Priority, n: nat)
    requires forall j :: 0 <= j < |soft| ==> HeadPri(soft[j]) > INT_MIN
    ensures pri == SoftPri(soft) && n == CountPri(soft, pri)
  {
    pri, n := INT_MIN, 0;
    for i := 0 to |soft|
      invariant pri == SoftPri(soft[..i]) && n == CountPri(soft[..i], pri)
      invariant forall j :: 0 <= j < i ==> HeadPri(soft[j]) <= pri
    {
      assert soft[..i + 1][..i] == soft[..i];
      if HeadPri(soft[i]) > pri {
        NoneAbove(soft[..i], HeadPri(soft[i]));
        pri, n := HeadPri(soft[i]), 1;
      } else if HeadPri(soft[i]) == pri {
        n := n + 1;
      }
    }
    assert soft[..|soft|] == soft;
  }

  lemma {:induction false} NoneAbove(soft: seq<Chain>, pri: Priority)
    requires forall j :: 0 <= j < |soft| ==> HeadPri(soft[j]) < pri
    ensures CountPri(soft, pri) == 0
  {
    if soft != [] {
      NoneAbove(soft[..|soft| - 1], pri);
    }
  }

  /* The loop that puts the next-lower-priority rules in place of the soft matches. */
  method NextLower(soft: seq<Chain>, pri: Priority, hard0: Option<Rule>) returns (next: seq<Chain>, hard: Option<Rule>)
    ensures next == DescendAll(soft, pri) && hard == Harden(soft, pri, hard0)
  {
    next, hard := soft, hard0;
    for i := 0 to |soft|
      invariant |next| == |soft| && hard == Harden(soft[..i], pri, hard0)
      invariant forall j :: 0 <= j < |soft| ==> next[j] == if j < i then Descend(soft[j], pri) else soft[j]
    {
      assert soft[..i + 1][..i] == soft[..i];
      var c := soft[i];
      if c != [] && c[0].priority == pri {
        next := next[i := Descend(c, pri)];
        if |c| > 1 && c[1].conj == [] && c[1].priority > Pri(hard) {
          hard := Some(c[1]);
        }
      }
    }
    assert soft[..|soft|] == soft;
  }

  lemma WithIdKeeps(f: Flow, id: ConjId)
    ensures Metadata(WithConjId(f, id)) == Metadata(f) && DlType(WithConjId(f, id)) == DlType(f)
  {
  }

  /* Flows alike stay alike when both get the same conjunction id. */
  lemma KinWithId(sound: bool, f: Flow, g: Flow, wc: Flow, id: ConjId)
    requires Kin(sound, f, g, wc)
    ensures Kin(sound, WithConjId(f, id), WithConjId(g, id), wc)
  {
    if g != f {
      assert Agree(WithConjId(f, id), WithConjId(g, id), wc);
      WithIdKeeps(f, id);
      WithIdKeeps(g, id);
    }
  }

  /* All kin have 'r' at this level. */
  ghost predicate Leveled(c: Config, sound: bool, f: Flow, wc: Flow, soft: seq<Chain>, pri: Priority, n: nat,
                          i: nat, seen: Seen, r: Option<Rule>)
    requires i <= |soft|
  {
    forall g :: Kin(sound, f, g, wc) ==> Level(c.order, c.subs, g, soft, pri, n, i, seen) == r
  }

  /* The rest of a level is what all of it comes down to, for all kin. */
  ghost predicate LevelReached(c: Config, sound: bool, f: Flow, wc: Flow, soft: seq<Chain>, pri: Priority, n: nat,
                               i: nat, seen: Seen)
    requires i <= |soft|
  {
    forall g :: Kin(sound, f, g, wc) ==>
                  Level(c.order, c.subs, g, soft, pri, n, 0, map[]) == Level(c.order, c.subs, g, soft, pri, n, i, seen)
  }

  /* One soft match of a level: 'r' is what its reported id leads to, for all kin. */
  lemma LevelStep(c: Config, sound: bool, f: Flow, wc: Flow, wc2: Flow, soft: seq<Chain>, pri: Priority, n: nat,
                  i: nat, seen: Seen, r: Option<Rule>)
    requires i < |soft| && soft[i] != [] && HeadPri(soft[i]) == pri && Covers(wc2, wc)
    requires LevelReached(c, sound, f, wc, soft, pri, n, i, seen)
    requires var id := Record(soft[i][0].conj, 0, n, seen).1;
             if id.Some? then forall g :: Kin(sound, f, g, wc2) ==> ByConjId(c.order, c.subs, g, id.value) == r
             else r == None
    ensures r.None? ==> LevelReached(c, sound, f, wc2, soft, pri, n, i + 1, Record(soft[i][0].conj, 0, n, seen).0)
    ensures r.Some? ==> Leveled(c, sound, f, wc2, soft, pri, n, 0, map[], r)
  {
    hide Kin, ByConjId, Record, Covers;
    forall g | Kin(sound, f, g, wc2)
      ensures Level(c.order, c.subs, g, soft, pri, n, 0, map[])
           == if r.Some? then r else Level(c.order, c.subs, g, soft, pri, n, i + 1, Record(soft[i][0].conj, 0, n, seen).0)
    {
      KinCovers(sound, f, g, wc2, wc);
    }
  }

  /* A nested lookup with a conjunction id speaks for all kin. */
  lemma NestedKin(c: Config, sound: bool, f: Flow, wc: Flow, id: ConjId, found: Found)
    requires Scanned(c, sound, WithConjId(f, id), wc, |c.order|, false, found)
    ensures forall g :: Kin(sound, f, g, wc) ==> ByConjId(c.order, c.subs, g, id) == found.hard
  {
    hide Kin;
    assert c.order[..|c.order|] == c.order;
    forall g | Kin(sound, f, g, wc) ensures ByConjId(c.order, c.subs, g, id) == found.hard {
      KinWithId(sound, f, g, wc, id);
    }
  }

  /* The loop over the soft matches of one priority. */
  method MatchLevel(c: Config, f: Flow, wc0: Flow, soft: seq<Chain>, pri: Priority, n: nat, ghost sound: bool)
    returns (r: Option<Rule>, wc: Flow)
    requires c.Ok() && (sound ==> c.SoundFor(f, soft))
    requires forall j :: 0 <= j < |soft| ==> soft[j] != [] && soft[j][0].conj != []
    ensures Covers(wc, wc0) && Leveled(c, sound, f, wc, soft, pri, n, 0, map[], r)
    ensures Frugal(c.subs, wc0, wc)
  {
    hide Config.Ok, Config.SoundAt, Kin, Level, Record, ByConjId, Frugal;
    FrugalSelf(c.subs, wc0);
    wc := wc0;
    var seen: Seen := map[];
    for i := 0 to |soft|
      invariant Covers(wc, wc0) && LevelReached(c, sound, f, wc, soft, pri, n, i, seen)
      invariant Frugal(c.subs, wc0, wc)
    {
      if HeadPri(soft[i]) == pri {
        ghost var before, was := wc, seen;
        var id;
        seen, id := FindConjunctiveMatch(soft[i][0].conj, n, seen);
        r := None;
        if id.Some? {
          ghost var e :| e in soft[i][0].conj && e.id == id.value;
          assert soft[i] in soft && soft[i][0] in soft[i];
          var found;
          found, wc := ScanSubtables(c, WithConjId(f, id.value), wc, false, sound);
          NestedKin(c, sound, f, wc, id.value, found);
          FrugalTwice(c.subs, wc0, before, wc);
          r := found.hard;
        }
        LevelStep(c, sound, f, before, wc, soft, pri, n, i, was, r);
        if r.Some? {
          return;
        }
      } else {
        LevelSkip(c, sound, f, wc, soft, pri, n, i, seen);
      }
    }
    r := None;
    LevelEnd(c, sound, f, wc, soft, pri, n, seen);
  }

  lemma LevelSkip(c: Config, sound: bool, f: Flow, wc: Flow, soft: seq<Chain>, pri: Priority, n: nat, i: nat, seen: Seen)
    requires i < |soft| && HeadPri(soft[i]) != pri && LevelReached(c, sound, f, wc, soft, pri, n, i, seen)
    ensures LevelReached(c, sound, f, wc, soft, pri, n, i + 1, seen)
  {
    hide Kin, Record, ByConjId;
  }

  lemma LevelEnd(c: Config, sound: bool, f: Flow, wc: Flow, soft: seq<Chain>, pri: Priority, n: nat, seen: Seen)
    requires LevelReached(c, sound, f, wc, soft, pri, n, |soft|, seen)
    ensures Leveled(c, sound, f, wc, soft, pri, n, 0, map[], None)
  {
    hide Kin, Record, ByConjId;
  }

  /* All kin have 'r' after the soft match loop from 'found'. */
  ghost predicate Softened(c: Config, sound: bool, f: Flow, wc: Flow, found: Found, r: Option<Rule>)
  {
    forall g :: Kin(sound, f, g, wc) ==> SoftLoop(c.order, c.subs, g, found) == r
  }

  /* The soft match loop from 'found' comes down to that from 'now', for all kin. */
  ghost predicate SoftReached(c: Config, sound: bool, f: Flow, wc: Flow, found: Found, now: Found)
  {
    forall g :: Kin(sound, f, g, wc) ==> SoftLoop(c.order, c.subs, g, found) == SoftLoop(c.order, c.subs, g, now)
  }

  /* Soft matches are chains whose head is part of a conjunction, or null. */
  ghost predicate SoftOk(soft: seq<Chain>)
  {
    forall j :: 0 <= j < |soft| && soft[j] != [] ==> soft[j][0].conj != []
  }

  lemma {:induction false} PurgeKeeps(soft: seq<Chain>, i: nat, hardPri: Priority)
    requires i <= |soft| && SoftOk(soft)
    ensures SoftOk(Purge(soft, i, hardPri))
    decreases |soft| - i
  {
    if i < |soft| {
      if Dead(soft[i], hardPri) {
        PurgeKeeps(soft[i := soft[|soft| - 1]][..|soft| - 1], i, hardPri);
      } else {
        PurgeKeeps(soft, i + 1, hardPri);
      }
    }
  }

  lemma SoftEnd(c: Config, sound: bool, f: Flow, wc: Flow, found: Found, now: Found)
    requires SoftReached(c, sound, f, wc, found, now) && Purge(now.soft, 0, Pri(now.hard)) == []
    ensures Softened(c, sound, f, wc, found, now.hard)
  {
    hide Kin, Level;
  }

  /* One round of the loop. */
  lemma SoftRound(c: Config, sound: bool, f: Flow, wc: Flow, wc2: Flow, found: Found, now: Found, soft: seq<Chain>,
                  r: Option<Rule>)
    requires SoftReached(c, sound, f, wc, found, now) && Covers(wc2, wc)
    requires soft == Purge(now.soft, 0, Pri(now.hard)) != []
    requires Leveled(c, sound, f, wc2, soft, SoftPri(soft), CountPri(soft, SoftPri(soft)), 0, map[], r)
    ensures r.Some? ==> Softened(c, sound, f, wc2, found, r)
    ensures r.None? ==> SoftReached(c, sound, f, wc2, found,
                                    Found(Harden(soft, SoftPri(soft), now.hard), DescendAll(soft, SoftPri(soft))))
  {
    hide Kin, Level, Covers, Purge, SoftPri, CountPri, Harden;
    forall g | Kin(sound, f, g, wc2)
      ensures SoftLoop(c.order, c.subs, g, found)
           == if r.Some? then r
              else SoftLoop(c.order, c.subs, g, Found(Harden(soft, SoftPri(soft), now.hard), DescendAll(soft, SoftPri(soft))))
    {
      KinCovers(sound, f, g, wc2, wc);
    }
  }

  /* The soft match loop.  It terminates because each round shortens some chain. */
  method MatchSoft(c: Config, f: Flow, wc0: Flow, found: Found, ghost sound: bool) returns (r: Option<Rule>, wc: Flow)
    requires c.Ok() && (sound ==> c.SoundFor(f, found.soft)) && SoftOk(found.soft)
    ensures Covers(wc, wc0) && Softened(c, sound, f, wc, found, r)
    ensures Frugal(c.subs, wc0, wc)
  {
    hide Config.Ok, Config.SoundFor, Kin, SoftLoop, Level, Purge, SoftPri, CountPri, Harden, Remaining, Frugal;
    FrugalSelf(c.subs, wc0);
    wc := wc0;
    var now := found;
    while true
      invariant Covers(wc, wc0) && SoftOk(now.soft) && SoftReached(c, sound, f, wc, found, now)
      invariant sound ==> c.SoundFor(f, now.soft)
      invariant Frugal(c.subs, wc0, wc)
      decreases Remaining(now.soft)
    {
      var soft := PurgeSoft(now.soft, Pri(now.hard));
      PurgeShrinks(now.soft, 0, Pri(now.hard));
      PurgeKeeps(now.soft, 0, Pri(now.hard));
      PurgeSound(c, f, now.soft, soft, Pri(now.hard));
      if soft == [] {
        SoftEnd(c, sound, f, wc, found, now);
        return now.hard, wc;
      }
      LiveHeads(soft, Pri(now.hard));
      var pri, n := TopPriority(soft);
      ghost var before := wc;
      r, wc := MatchLevel(c, f, wc, soft, pri, n, sound);
      SoftRound(c, sound, f, before, wc, found, now, soft, r);
      FrugalTwice(c.subs, wc0, before, wc);
      if r.Some? {
        return;
      }
      DescendShrinks(soft, Pri(now.hard));
      var next, hard := NextLower(soft, pri, now.hard);
      DescendSound(c, f, soft, pri);
      now := Found(hard, next);
    }
  }

  lemma PurgeSound(c: Config, f: Flow, before: seq<Chain>, soft: seq<Chain>, hardPri: Priority)
    requires forall x: Chain :: multiset(soft)[x] == if Dead(x, hardPri) then 0 else multiset(before)[x]
    ensures c.SoundFor(f, before) ==> c.SoundFor(f, soft)
  {
    hide Config.SoundAt, Dead;
    forall ch | ch in soft ensures ch in before {
      assert ch in multiset(soft);
      assert ch in multiset(before);
    }
  }

  lemma DescendSound(c: Config, f: Flow, soft: seq<Chain>, pri: Priority)
    ensures c.SoundFor(f, soft) ==> c.SoundFor(f, DescendAll(soft, pri))
  {
    hide Config.SoundAt;
    if c.SoundFor(f, soft) {
      forall ch, x, e | ch in DescendAll(soft, pri) && x in ch && e in x.conj ensures c.SoundAt(WithConjId(f, e.id)) {
        var j :| 0 <= j < |soft| && Descend(soft[j], pri) == ch;
        assert soft[j] in soft && x in soft[j];
      }
    }
  }

  lemma LiveHeads(soft: seq<Chain>, hardPri: Priority)
    requires SoftOk(soft) && forall j :: 0 <= j < |soft| ==> !Dead(soft[j], hardPri)
    ensures forall j :: 0 <= j < |soft| ==> HeadPri(soft[j]) > INT_MIN && soft[j] != [] && soft[j][0].conj != []
  {
    forall j | 0 <= j < |soft| ensures HeadPri(soft[j]) > INT_MIN && soft[j] != [] && soft[j][0].conj != [] {
      assert !Dead(soft[j], hardPri);
    }
  }

  lemma {:induction false} ScanSoftOk(order: seq<Entry>, subs: Tables, f: Flow, conjunctive: bool)
    ensures SoftOk(Scan(order, subs, f, conjunctive).soft)
  {
    if order != [] {
      ScanSoftOk(order[..|order| - 1], subs, f, conjunctive);
    }
  }

  /* classifier_lookup() with wildcards: finds what Select() describes, and when the lookup is
     sound, finds the same for every flow that agrees on the un-wildcarded bits. */
  method Lookup(c: Config, f: Flow, wc0: Flow) returns (r: Option<Rule>, wc: Flow)
    requires c.Ok()
    ensures Covers(wc, wc0) && Frugal(c.subs, wc0, wc)
    ensures r == Select(c.order, c.subs, f)
    ensures c.Sound(f) ==> forall g :: Alike(f, g, wc) ==> Select(c.order, c.subs, g) == r
  {
    ghost var sound := c.Sound(f);
    hide Config.Ok, Config.SoundAt, Config.SoundFor, Scan, SoftLoop, SoftPri, Frugal;
    var found;
    found, wc := ScanSubtables(c, f, wc0, true, sound);
    assert c.order[..|c.order|] == c.order;
    ScanSoftOk(c.order, c.subs, f, true);
    if Pri(found.hard) >= SoftPri(found.soft) {
      return found.hard, wc;
    }
    ghost var before := wc;
    r, wc := MatchSoft(c, f, wc, found, sound);
    FrugalTwice(c.subs, wc0, before, wc);
    forall g | Kin(sound, f, g, wc) ensures Select(c.order, c.subs, g) == r {
      KinCovers(sound, f, g, wc, before);
    }
  }
}
