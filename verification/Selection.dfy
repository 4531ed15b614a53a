/** What classifier_lookup() selects, in terms of the chains that a flow matches: the scan of
    the subtables in priority order, and the "soft match" loop that decides conjunctive matches
    priority by priority. */
module Selection {

  import opened Options
  import opened Tries
  import opened Flows
  import opened Subtables

  /* An entry of the subtables' pvector. */
  datatype Entry = Entry(mask: Flow, priority: Priority)

  type Tables = map<Flow, Subtable>

  function MatchAt(subs: Tables, mask: Flow, f: Flow): Chain
  {
    if mask in subs then MatchIn(subs[mask], f) else []
  }

  function Pri(r: Option<Rule>): Priority
  {
    if r.Some? then r.value.priority else INT_MIN
  }

  /* The best certain match so far, and the chains whose head is part of a conjunction. */
  datatype Found = Found(hard: Option<Rule>, soft: seq<Chain>)

  function Consider(acc: Found, c: Chain, conjunctive: bool): Found
  {
    if c == [] || c[0].priority <= Pri(acc.hard) then acc
    else if c[0].conj == [] then acc.(hard := Some(c[0]))
    else if conjunctive then acc.(soft := acc.soft + [c])
    else acc
  }

  /* The main loop over all subtables. */
  function Scan(order: seq<Entry>, subs: Tables, f: Flow, conjunctive: bool): Found
  {
    if order == [] then Found(None, [])
    else
      var n := |order| - 1;
      Consider(Scan(order[..n], subs, f, conjunctive), MatchAt(subs, order[n].mask, f), conjunctive)
  }

  /* The highest priority among the heads of 'soft'. */
  function SoftPri(soft: seq<Chain>): Priority
  {
    if soft == [] then INT_MIN
    else
      var n := |soft| - 1;
      var rest := SoftPri(soft[..n]);
      if HeadPri(soft[n]) > rest then HeadPri(soft[n]) else rest
  }

  function CountPri(soft: seq<Chain>, pri: Priority): nat
  {
    if soft == [] then 0
    else
      var n := |soft| - 1;
      CountPri(soft[..n], pri) + if HeadPri(soft[n]) == pri then 1 else 0
  }

  /* Soft matches that are null, or no better than the hard match. */
  predicate Dead(c: Chain, hardPri: Priority)
  {
    HeadPri(c) <= hardPri
  }

  /* Deletes dead soft matches at or after 'i', moving the last one into the gap. */
  function Purge(soft: seq<Chain>, i: nat, hardPri: Priority): (r: seq<Chain>)
    requires i <= |soft|
    ensures |r| <= |soft|
    decreases |soft| - i
  {
    if i == |soft| then soft
    else
      var n := |soft| - 1;
      if Dead(soft[i], hardPri) then Purge(soft[i := soft[n]][..n], i, hardPri)
      else Purge(soft, i + 1, hardPri)
  }

  // ---------------------------------------------------------------- conjunctions

  const ALL_CLAUSES: set<nat> := set i: nat | i < 64

  /* struct conjunctive_match: the clauses seen for an id, as the set of 1-bits of a 64-bit
     word in which the bits that stand for no clause are preset. */
  type Seen = map<ConjId, set<nat>>

  /* UINT64_MAX << (n_clauses & 63) */
  function NoClauses(nClauses: nat): set<nat>
  {
    set i | i in ALL_CLAUSES && nClauses % 64 <= i
  }

  function See(seen: Seen, c: Conjunction): set<nat>
  {
    (if c.id in seen then seen[c.id] else NoClauses(c.nClauses)) + {c.clause}
  }

  /* find_conjunctive_match() over conj[i..]: records the clauses of a soft match, and reports
     the first id of which all clauses are there. */
  function Record(conj: seq<Conjunction>, i: nat, maxClauses: nat, seen: Seen): (Seen, Option<ConjId>)
    requires i <= |conj|
    decreases |conj| - i
  {
    if i == |conj| then (seen, None)
    else if conj[i].nClauses > maxClauses then Record(conj, i + 1, maxClauses, seen)
    else
      var s := See(seen, conj[i]);
      var seen' := seen[conj[i].id := s];
      if s == ALL_CLAUSES then (seen', Some(conj[i].id))
      else Record(conj, i + 1, maxClauses, seen')
  }

  /* A complete conjunction is looked up with its id. */
  function ByConjId(order: seq<Entry>, subs: Tables, f: Flow, id: ConjId): Option<Rule>
  {
    Scan(order, subs, WithConjId(f, id), false).hard
  }

  /* The real match among the soft matches soft[i..] of priority 'pri', if any. */
  function Level(order: seq<Entry>, subs: Tables, f: Flow, soft: seq<Chain>, pri: Priority, n: nat, i: nat, seen: Seen)
    : Option<Rule>
    requires i <= |soft|
    decreases |soft| - i
  {
    if i == |soft| then None
    else if HeadPri(soft[i]) != pri || soft[i] == [] then Level(order, subs, f, soft, pri, n, i + 1, seen)
    else
      var (seen', id) := Record(soft[i][0].conj, 0, n, seen);
      var r := if id.Some? then ByConjId(order, subs, f, id.value) else None;
      if r.Some? then r else Level(order, subs, f, soft, pri, n, i + 1, seen')
  }

  /* The next-lower-priority rule takes the place of each soft match of priority 'pri'. */
  function Descend(c: Chain, pri: Priority): Chain
  {
    if HeadPri(c) != pri || c == [] then c
    else if |c| == 1 || c[1].conj == [] then []
    else c[1..]
  }

  function DescendAll(soft: seq<Chain>, pri: Priority): (r: seq<Chain>)
    ensures |r| == |soft|
  {
    seq(|soft|, i requires 0 <= i < |soft| => Descend(soft[i], pri))
  }

  /* ... and is a hard match if it is not part of a conjunction. */
  function Harden(soft: seq<Chain>, pri: Priority, hard: Option<Rule>): Option<Rule>
  {
    if soft == [] then hard
    else
      var n := |soft| - 1;
      var h, c := Harden(soft[..n], pri, hard), soft[n];
      if |c| > 1 && c[0].priority == pri && c[1].conj == [] && c[1].priority > Pri(h) then Some(c[1]) else h
  }

  /* What is left of all soft matches. */
  function Remaining(soft: seq<Chain>): nat
  {
    if soft == [] then 0 else Remaining(soft[..|soft| - 1]) + |soft[|soft| - 1]|
  }

  /* The soft match loop. */
  function SoftLoop(order: seq<Entry>, subs: Tables, f: Flow, found: Found): Option<Rule>
    decreases Remaining(found.soft)
  {
    var soft := Purge(found.soft, 0, Pri(found.hard));
    if soft == [] then found.hard
    else
      var pri := SoftPri(soft);
      var r := Level(order, subs, f, soft, pri, CountPri(soft, pri), 0, map[]);
      if r.Some? then r
      else
        PurgeShrinks(found.soft, 0, Pri(found.hard));
        DescendShrinks(soft, Pri(found.hard));
        SoftLoop(order, subs, f, Found(Harden(soft, pri, found.hard), DescendAll(soft, pri)))
  }

  /* classifier_lookup() */
  function Select(order: seq<Entry>, subs: Tables, f: Flow): Option<Rule>
  {
    var found := Scan(order, subs, f, true);
    if Pri(found.hard) >= SoftPri(found.soft) then found.hard else SoftLoop(order, subs, f, found)
  }

  // ---------------------------------------------------------------- termination

  lemma {:induction false} RemainingReplace(soft: seq<Chain>, i: nat, c: Chain)
    requires i < |soft|
    ensures Remaining(soft[i := c]) == Remaining(soft) - |soft[i]| + |c|
  {
    var n := |soft| - 1;
    if i == n {
      assert soft[i := c][..n] == soft[..n];
    } else {
      RemainingReplace(soft[..n], i, c);
      assert soft[i := c][..n] == soft[..n][i := c];
    }
  }

  lemma {:induction false} PurgeShrinks(soft: seq<Chain>, i: nat, hardPri: Priority)
    requires i <= |soft|
    requires forall j :: 0 <= j < i ==> !Dead(soft[j], hardPri)
    ensures Remaining(Purge(soft, i, hardPri)) <= Remaining(soft)
    ensures forall j :: 0 <= j < |Purge(soft, i, hardPri)| ==> !Dead(Purge(soft, i, hardPri)[j], hardPri)
    decreases |soft| - i
  {
    if i < |soft| {
      var n := |soft| - 1;
      if Dead(soft[i], hardPri) {
        var shorter := soft[i := soft[n]][..n];
        if i < n {
          RemainingReplace(soft[..n], i, soft[n]);
          assert shorter == soft[..n][i := soft[n]];
        } else {
          assert shorter == soft[..n];
        }
        PurgeShrinks(shorter, i, hardPri);
      } else {
        PurgeShrinks(soft, i + 1, hardPri);
      }
    }
  }

  lemma {:induction false} SoftPriIsMax(soft: seq<Chain>)
    ensures forall j :: 0 <= j < |soft| ==> HeadPri(soft[j]) <= SoftPri(soft)
    ensures soft != [] ==> exists j :: 0 <= j < |soft| && HeadPri(soft[j]) == SoftPri(soft)
  {
    if soft != [] {
      var n := |soft| - 1;
      SoftPriIsMax(soft[..n]);
      forall j | 0 <= j < |soft| ensures HeadPri(soft[j]) <= SoftPri(soft) {
        if j < n { assert soft[..n][j] == soft[j]; }
      }
      if SoftPri(soft) != HeadPri(soft[n]) {
        var j :| 0 <= j < n && HeadPri(soft[..n][j]) == SoftPri(soft[..n]);
        assert HeadPri(soft[j]) == SoftPri(soft);
      }
    }
  }

  lemma {:induction false} DescendAllShrinks(soft: seq<Chain>, pri: Priority)
    ensures Remaining(DescendAll(soft, pri)) <= Remaining(soft)
    ensures (exists j :: 0 <= j < |soft| && soft[j] != [] && HeadPri(soft[j]) == pri)
            ==> Remaining(DescendAll(soft, pri)) < Remaining(soft)
  {
    if soft != [] {
      var n := |soft| - 1;
      DescendAllShrinks(soft[..n], pri);
      assert DescendAll(soft, pri)[..n] == DescendAll(soft[..n], pri);
      if j :| 0 <= j < |soft| && soft[j] != [] && HeadPri(soft[j]) == pri {
        if j < n { assert soft[..n][j] == soft[j]; }
      }
    }
  }

  /* Each round of the soft loop shortens some chain. */
  lemma DescendShrinks(soft: seq<Chain>, hardPri: Priority)
    requires soft != []
    requires forall j :: 0 <= j < |soft| ==> !Dead(soft[j], hardPri)
    ensures Remaining(DescendAll(soft, SoftPri(soft))) < Remaining(soft)
  {
    SoftPriIsMax(soft);
    var j :| 0 <= j < |soft| && HeadPri(soft[j]) == SoftPri(soft);
    assert !Dead(soft[j], hardPri);
    DescendAllShrinks(soft, SoftPri(soft));
  }
}
