/** What executing a list of actions comes to: a list is executed one part after the other, and
    without failures and packets that come back, every action does its own thing in list order. */
module ActionLaws {

  import opened Options
  import opened ActionSpecs

  // ---------------------------------------------------------------- one part after the other

  /* The packet and its key after the actions, unless one of them fails. */
  function Contents(dp: Datapath, pkt: Packet, key: Key, xs: seq<Action>): Option<(Packet, Key)>
  {
    if xs == [] then Some((pkt, key))
    else
      var n := |xs| - 1;
      var before := Contents(dp, pkt, key, xs[..n]);
      if before.None? then None else ContentsAfter(dp, before.value.0, before.value.1, xs[n])
  }

  /* Only modifications change the packet; a recirculation makes an invalid key valid. */
  function ContentsAfter(dp: Datapath, pkt: Packet, key: Key, action: Action): Option<(Packet, Key)>
  {
    if action.Modify? then dp.change(action.op, pkt, key)
    else if action.Recirc? && !key.valid then
      var updated := dp.update(pkt, key);
      if updated.None? then None else Some((pkt, updated.value))
    else Some((pkt, key))
  }

  /* All actions are executed: none fails, in particular no upcall of a sample. */
  ghost predicate Completes(dp: Datapath, w: World, pkt: Packet, key: Key, xs: seq<Action>)
    requires Ok(w)
  {
    && Contents(dp, pkt, key, xs).Some?
    && forall i :: 0 <= i < |xs| && xs[i].Sample? ==> !SampleFails(dp, Run(dp, w, pkt, key, xs[..i]), xs[i].actions)
  }

  lemma CompletesBefore(dp: Datapath, w: World, pkt: Packet, key: Key, xs: seq<Action>)
    requires Ok(w) && xs != [] && Completes(dp, w, pkt, key, xs)
    ensures Completes(dp, w, pkt, key, xs[..|xs| - 1])
  {
    hide Run, SampleFails, ContentsAfter;
    var n := |xs| - 1;
    forall i | 0 <= i < n && xs[i].Sample? ensures !SampleFails(dp, Run(dp, w, pkt, key, xs[..n][..i]), xs[i].actions) {
      assert xs[..n][..i] == xs[..i];
    }
  }

  lemma RunNothing(dp: Datapath, w: World, pkt: Packet, key: Key)
    requires Ok(w)
    ensures Run(dp, w, pkt, key, []) == w
  {
  }

  /* What one action that is executed makes of the world. */
  function Step(dp: Datapath, w: World, pkt: Packet, key: Key, x: Action): (w': World)
    requires Ok(w) && ContentsAfter(dp, pkt, key, x).Some?
    ensures Ok(w')
  {
    match x
    case Output(port) => Send(dp, w, port, pkt)
    case Userspace(u) => Logged(w, Upcall(u, pkt))
    case Modify(_) => w
    case Recirc(id) => Defer(w, Deferred(pkt, dp.recirc(ContentsAfter(dp, pkt, key, x).value.1, id), None))
    case Sample(nested) => Sampled(dp, w, pkt, key, nested)
  }

  lemma RunStep(dp: Datapath, w: World, pkt: Packet, key: Key, x: Action, ys: seq<Action>)
    requires Ok(w) && ContentsAfter(dp, pkt, key, x).Some? && (x.Sample? ==> !SampleFails(dp, w, x.actions))
    ensures var (p, k) := ContentsAfter(dp, pkt, key, x).value;
            Run(dp, w, pkt, key, [x] + ys) == Run(dp, Step(dp, w, pkt, key, x), p, k, ys)
  {
    hide Send, Sampled, Defer, SampleFails;
    assert ([x] + ys)[1..] == ys;
  }

  /* One action that is executed, and the rest. */
  lemma RunFirst(dp: Datapath, w: World, pkt: Packet, key: Key, x: Action, ys: seq<Action>)
    requires Ok(w) && ContentsAfter(dp, pkt, key, x).Some? && (x.Sample? ==> !SampleFails(dp, w, x.actions))
    ensures var (p, k) := ContentsAfter(dp, pkt, key, x).value;
            Run(dp, w, pkt, key, [x] + ys) == Run(dp, Run(dp, w, pkt, key, [x]), p, k, ys)
  {
    hide Run, Step, ContentsAfter, SampleFails;
    var (p, k) := ContentsAfter(dp, pkt, key, x).value;
    RunStep(dp, w, pkt, key, x, ys);
    RunStep(dp, w, pkt, key, x, []);
    assert [x] + [] == [x];
    RunNothing(dp, Step(dp, w, pkt, key, x), p, k);
  }

  /* The last action of a list. */
  lemma LastContents(dp: Datapath, w: World, pkt: Packet, key: Key, xs: seq<Action>)
    requires Ok(w) && xs != [] && Completes(dp, w, pkt, key, xs)
    ensures var n := |xs| - 1;
            && Contents(dp, pkt, key, xs[..n]).Some? && Contents(dp, pkt, key, xs).Some?
            && var (p, k) := Contents(dp, pkt, key, xs[..n]).value;
               && ContentsAfter(dp, p, k, xs[n]) == Contents(dp, pkt, key, xs)
               && (xs[n].Sample? ==> !SampleFails(dp, Run(dp, w, pkt, key, xs[..n]), xs[n].actions))
  {
    hide Run, SampleFails, ContentsAfter;
  }

  /* A list that is executed to its end, and then the next one. */
  lemma {:induction false} RunAppend(dp: Datapath, w: World, pkt: Packet, key: Key, xs: seq<Action>, ys: seq<Action>)
    requires Ok(w) && Completes(dp, w, pkt, key, xs)
    ensures var (p, k) := Contents(dp, pkt, key, xs).value;
            Run(dp, w, pkt, key, xs + ys) == Run(dp, Run(dp, w, pkt, key, xs), p, k, ys)
    decreases |xs|
  {
    hide Run, SampleFails, ContentsAfter, Completes;
    if xs == [] {
      assert xs + ys == ys;
      RunNothing(dp, w, pkt, key);
    } else {
      var n := |xs| - 1;
      CompletesBefore(dp, w, pkt, key, xs);
      LastContents(dp, w, pkt, key, xs);
      var (p, k) := Contents(dp, pkt, key, xs[..n]).value;
      assert xs[..n] + [xs[n]] == xs && xs[..n] + ([xs[n]] + ys) == xs + ys;
      RunAppend(dp, w, pkt, key, xs[..n], [xs[n]]);
      RunAppend(dp, w, pkt, key, xs[..n], [xs[n]] + ys);
      RunFirst(dp, Run(dp, w, pkt, key, xs[..n]), p, k, xs[n], ys);
    }
  }

  // ---------------------------------------------------------------- what each action does

  predicate UpcallOnly(xs: seq<Action>) { |xs| == 1 && xs[0].Userspace? }

  /* What an action shows of the packet: it is sent to a port that exists, or to user space.  'draw' is
     the number of the random choice, if it is a sample. */
  function Shows(dp: Datapath, draw: nat, pkt: Packet, a: Action): seq<Event>
  {
    if a.Output? && dp.hasPort(a.port) then [Sent(a.port, pkt)]
    else if a.Userspace? then [Upcall(a.userdata, pkt)]
    else if a.Sample? && dp.sampled(draw) && UpcallOnly(a.actions) then [Upcall(a.actions[0].userdata, pkt)]
    else []
  }

  /* What it queues: the packet with a valid key for a recirculation, or with the actions of a sample. */
  function Queues(dp: Datapath, draw: nat, pkt: Packet, key: Key, a: Action): seq<Deferred>
  {
    if a.Recirc? then
      var valid := if key.valid then Some(key) else dp.update(pkt, key);
      if valid.None? then [] else [Deferred(pkt, dp.recirc(valid.value, a.id), None)]
    else if a.Sample? && dp.sampled(draw) && a.actions != [] && !UpcallOnly(a.actions) then [Deferred(pkt, key, Some(a.actions))]
    else []
  }

  function Samples(xs: seq<Action>): nat
  {
    if xs == [] then 0 else Samples(xs[..|xs| - 1]) + if xs[|xs| - 1].Sample? then 1 else 0
  }

  /* All that is shown and queued, in the order of the list. */
  function AllShown(dp: Datapath, draws: nat, pkt: Packet, key: Key, xs: seq<Action>): seq<Event>
    requires Contents(dp, pkt, key, xs).Some?
  {
    if xs == [] then []
    else
      var n := |xs| - 1;
      AllShown(dp, draws, pkt, key, xs[..n]) + Shows(dp, draws + Samples(xs[..n]), Contents(dp, pkt, key, xs[..n]).value.0, xs[n])
  }

  function AllQueued(dp: Datapath, draws: nat, pkt: Packet, key: Key, xs: seq<Action>): seq<Deferred>
    requires Contents(dp, pkt, key, xs).Some?
  {
    if xs == [] then []
    else
      var n := |xs| - 1;
      var (p, k) := Contents(dp, pkt, key, xs[..n]).value;
      AllQueued(dp, draws, pkt, key, xs[..n]) + Queues(dp, draws + Samples(xs[..n]), p, k, xs[n])
  }

  /* Nothing comes back from the port. */
  ghost predicate Silent(dp: Datapath, port: Port)
  {
    forall pkt :: dp.loops(port, pkt) == []
  }

  lemma OneAction(dp: Datapath, w: World, pkt: Packet, key: Key, a: Action)
    requires Ok(w) && ContentsAfter(dp, pkt, key, a).Some? && (a.Sample? ==> !SampleFails(dp, w, a.actions))
    requires a.Output? ==> Silent(dp, a.port)
    requires |w.fifo| + |Queues(dp, w.draws, pkt, key, a)| <= FIFO_MAX
    ensures Run(dp, w, pkt, key, [a]) == w.(log := w.log + Shows(dp, w.draws, pkt, a), fifo := w.fifo + Queues(dp, w.draws, pkt, key, a),
                                            draws := w.draws + if a.Sample? then 1 else 0)
  {
    hide Run, ContentsAfter;
    var (p, k) := ContentsAfter(dp, pkt, key, a).value;
    RunStep(dp, w, pkt, key, a, []);
    assert [a] + [] == [a];
    RunNothing(dp, Step(dp, w, pkt, key, a), p, k);
    StepMeaning(dp, w, pkt, key, a);
  }

  lemma StepMeaning(dp: Datapath, w: World, pkt: Packet, key: Key, a: Action)
    requires Ok(w) && ContentsAfter(dp, pkt, key, a).Some? && (a.Output? ==> Silent(dp, a.port))
    requires |w.fifo| + |Queues(dp, w.draws, pkt, key, a)| <= FIFO_MAX
    ensures Step(dp, w, pkt, key, a) == w.(log := w.log + Shows(dp, w.draws, pkt, a), fifo := w.fifo + Queues(dp, w.draws, pkt, key, a),
                                           draws := w.draws + if a.Sample? then 1 else 0)
  {
    assert w.log + [] == w.log && w.fifo + [] == w.fifo;
    if a.Output? && dp.hasPort(a.port) {
      var w1 := Logged(w, Sent(a.port, pkt));
      assert dp.loops(a.port, pkt) == [];
      assert Reenter(dp, w1, []) == w1;
    }
  }

  /* A list without failing actions, on ports that nothing comes back from, and with room in the FIFO:
     every action does its own thing, on the packet as it is after the actions before. */
  lemma {:induction false} ListMeaning(dp: Datapath, w: World, pkt: Packet, key: Key, xs: seq<Action>)
    requires Ok(w) && Completes(dp, w, pkt, key, xs) && (forall i :: 0 <= i < |xs| && xs[i].Output? ==> Silent(dp, xs[i].port))
    requires |w.fifo| + |AllQueued(dp, w.draws, pkt, key, xs)| <= FIFO_MAX
    ensures Run(dp, w, pkt, key, xs) ==
            w.(log := w.log + AllShown(dp, w.draws, pkt, key, xs), fifo := w.fifo + AllQueued(dp, w.draws, pkt, key, xs),
               draws := w.draws + Samples(xs))
    decreases |xs|
  {
    hide Run, SampleFails, ContentsAfter, Completes, Shows, Queues, Silent;
    if xs == [] {
      RunNothing(dp, w, pkt, key);
      assert w.log + [] == w.log && w.fifo + [] == w.fifo;
    } else {
      var n := |xs| - 1;
      CompletesBefore(dp, w, pkt, key, xs);
      LastContents(dp, w, pkt, key, xs);
      ListMeaning(dp, w, pkt, key, xs[..n]);
      var (p, k) := Contents(dp, pkt, key, xs[..n]).value;
      var w1 := Run(dp, w, pkt, key, xs[..n]);
      assert xs[..n] + [xs[n]] == xs;
      RunAppend(dp, w, pkt, key, xs[..n], [xs[n]]);
      OneAction(dp, w1, p, k, xs[n]);
      Assoc(w.log, AllShown(dp, w.draws, pkt, key, xs[..n]), Shows(dp, w1.draws, p, xs[n]));
      Assoc(w.fifo, AllQueued(dp, w.draws, pkt, key, xs[..n]), Queues(dp, w1.draws, p, k, xs[n]));
    }
  }

  lemma Assoc<T>(a: seq<T>, b: seq<T>, c: seq<T>)
    ensures (a + b) + c == a + (b + c)
  {
  }

  // ---------------------------------------------------------------- failures

  /* An action that fails ends the list: a modification, a key that cannot be updated, or the upcall of
     a sample.  Nothing behind it is executed. */
  lemma FailureStops(dp: Datapath, w: World, pkt: Packet, key: Key, xs: seq<Action>, a: Action, ys: seq<Action>)
    requires Ok(w) && Completes(dp, w, pkt, key, xs)
    ensures var (p, k) := Contents(dp, pkt, key, xs).value;
            var w1 := Run(dp, w, pkt, key, xs);
            && (ContentsAfter(dp, p, k, a).None? ==>
                  Run(dp, w, pkt, key, xs + [a] + ys) == Logged(w1, if a.Modify? then ModifyFailed else UpdateFailed(ys == [])))
            && (a.Sample? && SampleFails(dp, w1, a.actions) ==>
                  Run(dp, w, pkt, key, xs + [a] + ys) == w1.(log := w1.log + [Upcall(a.actions[0].userdata, p)], draws := w1.draws + 1))
  {
    hide Contents, Completes;
    assert xs + [a] + ys == xs + ([a] + ys);
    RunAppend(dp, w, pkt, key, xs, [a] + ys);
    assert ([a] + ys)[1..] == ys;
  }

  // ---------------------------------------------------------------- packets that come back

  /* A list that neither fails nor queues anything, nor has a packet come back. */
  ghost predicate Plain(dp: Datapath, pkt: Packet, key: Key, xs: seq<Action>)
  {
    && Contents(dp, pkt, key, xs).Some?
    && forall i :: 0 <= i < |xs| ==> !xs[i].Sample? && !xs[i].Recirc? && (xs[i].Output? ==> Silent(dp, xs[i].port))
  }

  lemma {:induction false} PlainQueuesNothing(dp: Datapath, draws: nat, pkt: Packet, key: Key, xs: seq<Action>)
    requires Plain(dp, pkt, key, xs)
    ensures AllQueued(dp, draws, pkt, key, xs) == [] && Samples(xs) == 0
  {
    hide Silent, ContentsAfter;
    if xs != [] {
      PlainQueuesNothing(dp, draws, pkt, key, xs[..|xs| - 1]);
    }
  }

  lemma PlainMeaning(dp: Datapath, w: World, pkt: Packet, key: Key, xs: seq<Action>)
    requires Ok(w) && Plain(dp, pkt, key, xs)
    ensures Run(dp, w, pkt, key, xs) == w.(log := w.log + AllShown(dp, w.draws, pkt, key, xs))
  {
    hide Run, AllShown, AllQueued, Contents;
    PlainQueuesNothing(dp, w.draws, pkt, key, xs);
    ListMeaning(dp, w, pkt, key, xs);
    assert w.fifo + [] == w.fifo;
  }

  /* One level deeper, too, but not beyond the limit. */
  lemma PlainNested(dp: Datapath, w: World, pkt: Packet, key: Key, xs: seq<Action>)
    requires Ok(w) && Plain(dp, pkt, key, xs)
    ensures Nested(dp, w, pkt, key, xs) ==
            w.(log := w.log + if w.level < LEVEL_LIMIT then AllShown(dp, w.draws, pkt, key, xs) else [LoopDropped])
  {
    hide Run, AllShown, Plain;
    if w.level < LEVEL_LIMIT {
      PlainMeaning(dp, w.(level := w.level + 1), pkt, key, xs);
    }
  }

  /* What a packet that comes back shows, at nesting level 'level'. */
  ghost function BackShown(dp: Datapath, level: nat, draws: nat, pkt: Packet): seq<Event>
    requires PlainBack(dp, pkt)
  {
    var key := dp.extract(pkt);
    if key.None? then []
    else if dp.lookup(key.value).None? then [Miss(pkt)]
    else if level == LEVEL_LIMIT then [LoopDropped]
    else AllShown(dp, draws, pkt, key.value, dp.lookup(key.value).value)
  }

  ghost predicate PlainBack(dp: Datapath, pkt: Packet)
  {
    var key := dp.extract(pkt);
    key.Some? && dp.lookup(key.value).Some? ==> Plain(dp, pkt, key.value, dp.lookup(key.value).value)
  }

  ghost function AllBackShown(dp: Datapath, level: nat, draws: nat, pkts: seq<Packet>): seq<Event>
    requires forall i :: 0 <= i < |pkts| ==> PlainBack(dp, pkts[i])
  {
    if pkts == [] then [] else BackShown(dp, level, draws, pkts[0]) + AllBackShown(dp, level, draws, pkts[1..])
  }

  lemma ReceiveMeaning(dp: Datapath, w: World, pkt: Packet)
    requires Ok(w) && PlainBack(dp, pkt)
    ensures Receive(dp, w, pkt) == w.(log := w.log + BackShown(dp, w.level, w.draws, pkt))
  {
    hide Nested, AllShown, Plain;
    var key := dp.extract(pkt);
    if key.Some? && dp.lookup(key.value).Some? {
      PlainNested(dp, w, pkt, key.value, dp.lookup(key.value).value);
    }
    assert w.log + [] == w.log;
  }

  lemma {:induction false} ReenterMeaning(dp: Datapath, w: World, pkts: seq<Packet>)
    requires Ok(w) && forall i :: 0 <= i < |pkts| ==> PlainBack(dp, pkts[i])
    ensures Reenter(dp, w, pkts) == w.(log := w.log + AllBackShown(dp, w.level, w.draws, pkts))
    decreases |pkts|
  {
    hide Receive, BackShown, PlainBack;
    if pkts == [] {
      assert w.log + [] == w.log;
    } else {
      ReceiveMeaning(dp, w, pkts[0]);
      ReenterMeaning(dp, Receive(dp, w, pkts[0]), pkts[1..]);
      Assoc(w.log, BackShown(dp, w.level, w.draws, pkts[0]), AllBackShown(dp, w.level, w.draws, pkts[1..]));
    }
  }

  /* An output: the packet is sent, and what comes back is executed before the next action, in order. */
  lemma OutputMeaning(dp: Datapath, w: World, pkt: Packet, key: Key, port: Port, ys: seq<Action>)
    requires Ok(w) && dp.hasPort(port)
    requires forall i :: 0 <= i < |dp.loops(port, pkt)| ==> PlainBack(dp, dp.loops(port, pkt)[i])
    ensures var w1 := w.(log := w.log + [Sent(port, pkt)] + AllBackShown(dp, w.level, w.draws, dp.loops(port, pkt)));
            Run(dp, w, pkt, key, [Output(port)] + ys) == Run(dp, w1, pkt, key, ys)
  {
    hide Run, Reenter, AllBackShown, PlainBack;
    RunStep(dp, w, pkt, key, Output(port), ys);
    ReenterMeaning(dp, Logged(w, Sent(port, pkt)), dp.loops(port, pkt));
  }

  // ---------------------------------------------------------------- loops

  /* Everything sent to the port comes back, and is sent to it again. */
  ghost predicate Loops(dp: Datapath, port: Port)
  {
    dp.hasPort(port) && forall pkt: Packet :: dp.loops(port, pkt) == [pkt] && dp.extract(pkt).Some?
                                      && dp.lookup(dp.extract(pkt).value) == Some([Output(port)])
  }

  function Repeated(e: Event, n: nat): seq<Event>
  {
    seq(n, _ => e)
  }

  /* At nesting level 'w.level', the loop goes around until the limit is reached. */
  lemma {:induction false} LoopFrom(dp: Datapath, w: World, pkt: Packet, key: Key, port: Port)
    requires Ok(w) && Loops(dp, port)
    ensures Run(dp, w, pkt, key, [Output(port)]) ==
            w.(log := w.log + Repeated(Sent(port, pkt), LEVEL_LIMIT + 1 - w.level) + [LoopDropped])
    decreases LEVEL_LIMIT - w.level
  {
    var w1 := Logged(w, Sent(port, pkt));
    var k := dp.extract(pkt).value;
    assert dp.loops(port, pkt) == [pkt] && [pkt][1..] == [] && [Output(port)][1..] == [];
    OneComesBack(dp, w, pkt, key, port);
    assert Repeated(Sent(port, pkt), 1) == [Sent(port, pkt)];
    if w.level < LEVEL_LIMIT {
      var w2 := w1.(level := w.level + 1);
      LoopFrom(dp, w2, pkt, k, port);
      var n := LEVEL_LIMIT - w.level;
      assert Repeated(Sent(port, pkt), n + 1) == [Sent(port, pkt)] + Repeated(Sent(port, pkt), n);
      assert w1.log + Repeated(Sent(port, pkt), n) + [LoopDropped] == w.log + Repeated(Sent(port, pkt), n + 1) + [LoopDropped];
    }
  }

  /* The packet is sent, and what it comes back as is executed before anything else. */
  lemma OneComesBack(dp: Datapath, w: World, pkt: Packet, key: Key, port: Port)
    requires Ok(w) && Loops(dp, port)
    ensures Run(dp, w, pkt, key, [Output(port)]) == Nested(dp, Logged(w, Sent(port, pkt)), pkt, dp.extract(pkt).value, [Output(port)])
  {
    hide Nested;
    var w1, k := Logged(w, Sent(port, pkt)), dp.extract(pkt).value;
    assert dp.loops(port, pkt) == [pkt] && [pkt][1..] == [] && [Output(port)][1..] == [];
    var w2 := Nested(dp, w1, pkt, k, [Output(port)]);
    assert Reenter(dp, w1, [pkt]) == Reenter(dp, Receive(dp, w1, pkt), []) == w2;
    assert Send(dp, w, port, pkt) == w2;
    RunNothing(dp, w2, pkt, key);
  }

  /* A packet that goes around in a loop is sent four times, and then dropped. */
  lemma LoopIsBroken(dp: Datapath, w: World, pkt: Packet, key: Key, port: Port)
    requires Idling(w) && Loops(dp, port)
    ensures var s := Sent(port, pkt);
            TopLevel(dp, w, pkt, key, [Output(port)]) == w.(log := w.log + [s, s, s, s, LoopDropped])
  {
    hide Run, Loops;
    var s := Sent(port, pkt);
    LoopFrom(dp, w.(level := 1), pkt, key, port);
    assert Repeated(s, 4) == [s, s, s, s];
    assert [s, s, s, s] + [LoopDropped] == [s, s, s, s, LoopDropped];
    Assoc(w.log, [s, s, s, s], [LoopDropped]);
  }

  // ---------------------------------------------------------------- deferred actions

  /* The actions that a deferred entry stands for: its own, or those of the flow table for its key. */
  function ActionsOf(dp: Datapath, d: Deferred): Option<seq<Action>>
  {
    if d.actions.Some? then Some(dp.nested(d.actions.value)) else dp.lookup(d.key)
  }

  ghost predicate PlainEntry(dp: Datapath, d: Deferred)
  {
    ActionsOf(dp, d).Some? ==> Plain(dp, d.pkt, d.key, ActionsOf(dp, d).value)
  }

  /* What executing an entry shows; without a flow for its key the packet is a miss. */
  ghost function EntryShown(dp: Datapath, draws: nat, d: Deferred): seq<Event>
    requires PlainEntry(dp, d)
  {
    if ActionsOf(dp, d).None? then [Miss(d.pkt)] else AllShown(dp, draws, d.pkt, d.key, ActionsOf(dp, d).value)
  }

  ghost function EntriesShown(dp: Datapath, draws: nat, ds: seq<Deferred>): seq<Event>
    requires forall i :: 0 <= i < |ds| ==> PlainEntry(dp, ds[i])
  {
    if ds == [] then [] else EntryShown(dp, draws, ds[0]) + EntriesShown(dp, draws, ds[1..])
  }

  /* Executing the entry at the tail. */
  ghost function Executed(dp: Datapath, w: World, d: Deferred): World
    requires Ok(w)
  {
    if d.actions.Some? then Run(dp, w, d.pkt, d.key, dp.nested(d.actions.value)) else Process(dp, w, d.pkt, d.key)
  }

  lemma EntryMeaning(dp: Datapath, w: World, d: Deferred)
    requires Ok(w) && w.level == 1 && PlainEntry(dp, d)
    ensures Executed(dp, w, d) == w.(log := w.log + EntryShown(dp, w.draws, d))
  {
    hide Run, AllShown, Plain;
    if ActionsOf(dp, d).Some? {
      var xs := ActionsOf(dp, d).value;
      PlainMeaning(dp, w, d.pkt, d.key, xs);
      PlainNested(dp, w, d.pkt, d.key, xs);
    }
  }

  /* The deferred actions are executed one after the other, in the order in which they were queued. */
  lemma {:induction false} DrainMeaning(dp: Datapath, w: World)
    requires Ok(w) && w.level == 1 && forall i :: w.tail <= i < |w.fifo| ==> PlainEntry(dp, w.fifo[i])
    ensures Drain(dp, w) == w.(log := w.log + EntriesShown(dp, w.draws, w.fifo[w.tail..]), fifo := [], tail := 0,
                               ran := w.ran + |w.fifo| - w.tail)
    decreases |w.fifo| - w.tail
  {
    hide Run, Process, EntryShown, PlainEntry;
    var ds := w.fifo[w.tail..];
    if ds == [] {
      assert w.log + [] == w.log;
    } else {
      var d, w1 := ds[0], w.(tail := w.tail + 1, ran := w.ran + 1);
      EntryMeaning(dp, w1, d);
      var w2 := w1.(log := w1.log + EntryShown(dp, w.draws, d));
      assert Drain(dp, w) == Drain(dp, w2);
      DrainMeaning(dp, w2);
      assert w2.fifo[w2.tail..] == ds[1..];
      Assoc(w.log, EntryShown(dp, w.draws, d), EntriesShown(dp, w.draws, ds[1..]));
    }
  }

  /* A packet: its actions, and then those that they deferred, in order. */
  lemma PacketMeaning(dp: Datapath, w: World, pkt: Packet, key: Key, xs: seq<Action>)
    requires Idling(w) && Completes(dp, w.(level := 1), pkt, key, xs)
    requires forall i :: 0 <= i < |xs| && xs[i].Output? ==> Silent(dp, xs[i].port)
    requires var ds := AllQueued(dp, w.draws, pkt, key, xs);
             |ds| <= FIFO_MAX && forall i :: 0 <= i < |ds| ==> PlainEntry(dp, ds[i])
    ensures var ds, draws := AllQueued(dp, w.draws, pkt, key, xs), w.draws + Samples(xs);
            TopLevel(dp, w, pkt, key, xs) ==
            w.(log := w.log + AllShown(dp, w.draws, pkt, key, xs) + EntriesShown(dp, draws, ds), draws := draws, ran := w.ran + |ds|)
  {
    hide Run, Drain, AllShown, AllQueued, EntriesShown, Completes, Contents, Silent, PlainEntry;
    CompletesContents(dp, w.(level := 1), pkt, key, xs);
    var ds := AllQueued(dp, w.draws, pkt, key, xs);
    ListMeaning(dp, w.(level := 1), pkt, key, xs);
    assert w.fifo + ds == ds;
    assert ds[0..] == ds;
    DrainMeaning(dp, Run(dp, w.(level := 1), pkt, key, xs));
  }

  lemma CompletesContents(dp: Datapath, w: World, pkt: Packet, key: Key, xs: seq<Action>)
    requires Ok(w) && Completes(dp, w, pkt, key, xs)
    ensures Contents(dp, pkt, key, xs).Some?
  {
  }
}
