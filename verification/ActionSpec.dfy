/** What executing actions means, with a clone of the packet for every output.  The datapath
    around it is arbitrary: any flow table, any packets that come back when a packet is sent. */
module ActionSpecs {

  import opened Options

  type Packet = nat            /* the contents of a packet */
  type Port = p: nat | p < 0x1_0000_0000

  /* struct sw_flow_key: it is invalid after some packet modifications. */
  datatype Key = Key(valid: bool, fields: nat)

  /* Keys are valid when they have been extracted or updated. */
  type SoundKey = k: Key | k.valid witness Key(true, 0)

  datatype Action =
    | Output(port: Port)
    | Userspace(userdata: nat)
    | Modify(op: nat)                    /* hash, set, push and pop actions */
    | Recirc(id: nat)
    | Sample(actions: seq<Action>)

  /* The datapath: its ports, which are fewer than 2^16; the packets that re-enter it when one is
     sent; extraction of keys; the flow table; packet modifications, which can fail; the update
     of an invalid key, which can fail; the recirculation id of a key; the random choices of
     sample actions, by the number of earlier ones; whether an upcall succeeds, by the number of
     earlier events; and what a queued list of nested actions is executed as. */
  datatype Datapath = Datapath(
    hasPort: Port -> bool,
    loops: (Port, Packet) -> seq<Packet>,
    extract: Packet -> Option<SoundKey>,
    lookup: Key -> Option<seq<Action>>,
    change: (nat, Packet, Key) -> Option<(Packet, Key)>,
    update: (Packet, Key) -> Option<SoundKey>,
    recirc: (SoundKey, nat) -> SoundKey,
    sampled: nat -> bool,
    delivered: nat -> bool,
    nested: seq<Action> -> seq<Action>)

  /* struct deferred_action; no actions means that the packet is looked up again. */
  datatype Deferred = Deferred(pkt: Packet, key: Key, actions: Option<seq<Action>>)

  datatype Event =
    | Sent(port: Port, pkt: Packet)
    | Upcall(userdata: nat, pkt: Packet)
    | Miss(pkt: Packet)
    | LoopDropped
    | DeferDropped
    | ModifyFailed
    | UpdateFailed(last: bool)

  const FIFO_MAX: nat := 9        /* DEFERRED_ACTION_FIFO_SIZE - 1 */
  const LEVEL_LIMIT: nat := 4     /* EXEC_ACTIONS_LEVEL_LIMIT */

  /* The state of a CPU: the nesting level, the FIFO up to its head, its tail, what has happened,
     how many deferred actions have been executed, and how many random choices made. */
  datatype World = World(level: nat, fifo: seq<Deferred>, tail: nat, log: seq<Event>, ran: nat, draws: nat)

  ghost predicate Ok(w: World)
  {
    0 < w.level <= LEVEL_LIMIT && w.tail <= |w.fifo| <= FIFO_MAX
  }

  /* Whatever happens, the entries of the FIFO so far, the tail and the level stay as they are. */
  ghost predicate Grows(w: World, w': World)
  {
    w'.level == w.level && w.fifo <= w'.fifo && w'.tail == w.tail && w.log <= w'.log && w'.ran == w.ran && Ok(w')
  }

  function Logged(w: World, e: Event): (w': World)
  {
    w.(log := w.log + [e])
  }

  /* add_deferred_actions() */
  function Defer(w: World, d: Deferred): (w': World)
    requires Ok(w)
    ensures Grows(w, w')
    ensures if |w.fifo| < FIFO_MAX then w'.fifo == w.fifo + [d] && w'.log == w.log
            else w'.fifo == w.fifo && w'.log == w.log + [DeferDropped]
  {
    if |w.fifo| >= FIFO_MAX then Logged(w, DeferDropped) else w.(fifo := w.fifo + [d])
  }

  /* The key that recirculation uses. */
  function ValidKey(dp: Datapath, pkt: Packet, key: Key): Option<SoundKey>
  {
    if key.valid then Some(key) else dp.update(pkt, key)
  }

  // ---------------------------------------------------------------- execution

  /* do_output() */
  function Send(dp: Datapath, w: World, port: Port, pkt: Packet): (w': World)
    requires Ok(w)
    ensures Grows(w, w')
    decreases 5 - w.level, 4
  {
    if dp.hasPort(port) then Reenter(dp, Logged(w, Sent(port, pkt)), dp.loops(port, pkt)) else w
  }

  function Reenter(dp: Datapath, w: World, pkts: seq<Packet>): (w': World)
    requires Ok(w)
    ensures Grows(w, w')
    decreases 5 - w.level, 3, |pkts|
  {
    if pkts == [] then w else Reenter(dp, Receive(dp, w, pkts[0]), pkts[1..])
  }

  function Receive(dp: Datapath, w: World, pkt: Packet): (w': World)
    requires Ok(w)
    ensures Grows(w, w')
    decreases 5 - w.level, 2
  {
    match dp.extract(pkt)
    case None => w
    case Some(key) => Process(dp, w, pkt, key)
  }

  /* ovs_dp_process_packet() */
  function Process(dp: Datapath, w: World, pkt: Packet, key: Key): (w': World)
    requires Ok(w)
    ensures Grows(w, w')
    decreases 5 - w.level, 1
  {
    match dp.lookup(key)
    case None => Logged(w, Miss(pkt))
    case Some(actions) => Nested(dp, w, pkt, key, actions)
  }

  /* ovs_execute_actions() inside of another one. */
  function Nested(dp: Datapath, w: World, pkt: Packet, key: Key, actions: seq<Action>): (w': World)
    requires Ok(w)
    ensures Grows(w, w')
    decreases 5 - w.level, 0
  {
    if w.level >= LEVEL_LIMIT then Logged(w, LoopDropped)
    else Run(dp, w.(level := w.level + 1), pkt, key, actions).(level := w.level)
  }

  /* do_execute_actions(), with a clone for every output. */
  function Run(dp: Datapath, w: World, pkt: Packet, key: Key, actions: seq<Action>): (w': World)
    requires Ok(w)
    ensures Grows(w, w')
    decreases 5 - w.level, 5, |actions|
  {
    if actions == [] then w else RunOne(dp, w, pkt, key, actions[0], actions[1..])
  }

  /* One action, and the rest of the list. */
  function RunOne(dp: Datapath, w: World, pkt: Packet, key: Key, action: Action, rest: seq<Action>): (w': World)
    requires Ok(w)
    ensures Grows(w, w')
    decreases 5 - w.level, 5, |rest| + 1, 0
  {
    match action
    case Output(port) => Run(dp, Send(dp, w, port, pkt), pkt, key, rest)
    case Userspace(u) => Run(dp, Logged(w, Upcall(u, pkt)), pkt, key, rest)
    case Modify(op) =>
      var changed := dp.change(op, pkt, key);
      if changed.None? then Logged(w, ModifyFailed) else Run(dp, w, changed.value.0, changed.value.1, rest)
    case Recirc(id) =>
      var valid := ValidKey(dp, pkt, key);
      if valid.None? then Logged(w, UpdateFailed(rest == []))
      else Run(dp, Defer(w, Deferred(pkt, dp.recirc(valid.value, id), None)), pkt, valid.value, rest)
    case Sample(nested) =>
      var w1 := Sampled(dp, w, pkt, key, nested);
      if SampleFails(dp, w, nested) then w1 else Run(dp, w1, pkt, key, rest)
  }

  predicate OnlyUserspace(nested: seq<Action>)
  {
    |nested| == 1 && nested[0].Userspace?
  }

  /* sample() returns the error of an upcall. */
  predicate SampleFails(dp: Datapath, w: World, nested: seq<Action>)
  {
    dp.sampled(w.draws) && OnlyUserspace(nested) && !dp.delivered(|w.log|)
  }

  /* sample() */
  function Sampled(dp: Datapath, w: World, pkt: Packet, key: Key, nested: seq<Action>): (w': World)
    requires Ok(w)
    ensures Grows(w, w')
  {
    var w1 := w.(draws := w.draws + 1);
    if !dp.sampled(w.draws) || nested == [] then w1
    else if OnlyUserspace(nested) then Logged(w1, Upcall(nested[0].userdata, pkt))
    else Defer(w1, Deferred(pkt, key, Some(nested)))
  }

  /* process_deferred_actions() */
  function Drain(dp: Datapath, w: World): (w': World)
    requires Ok(w)
    ensures w'.fifo == [] && w'.tail == 0 && w'.level == w.level && w.ran <= w'.ran <= w.ran + FIFO_MAX - w.tail
    decreases FIFO_MAX - w.tail
  {
    if w.tail == |w.fifo| then w.(fifo := [], tail := 0)
    else
      var d := w.fifo[w.tail];
      var w1 := w.(tail := w.tail + 1, ran := w.ran + 1);
      var w2 := if d.actions.Some? then Run(dp, w1, d.pkt, d.key, dp.nested(d.actions.value)) else Process(dp, w1, d.pkt, d.key);
      Drain(dp, w2)
  }

  /* ovs_execute_actions() for a packet that does not come from another one's actions. */
  function TopLevel(dp: Datapath, w: World, pkt: Packet, key: Key, actions: seq<Action>): (w': World)
    requires w.level == 0 && w.fifo == [] && w.tail == 0
    ensures w'.level == 0 && w'.fifo == [] && w'.tail == 0 && w'.ran <= w.ran + FIFO_MAX
  {
    Drain(dp, Run(dp, w.(level := 1), pkt, key, actions)).(level := 0)
  }

  // ---------------------------------------------------------------- lost packets

  /* The number of packets that a failed key update has lost. */
  function Lost(log: seq<Event>): nat
  {
    if log == [] then 0
    else
      var n := |log| - 1;
      Lost(log[..n]) + if log[n] == UpdateFailed(true) then 1 else 0
  }

  lemma LostMore(log: seq<Event>, e: Event)
    ensures Lost(log + [e]) == Lost(log) + if e == UpdateFailed(true) then 1 else 0
  {
    assert (log + [e])[..|log|] == log;
  }

  /* A packet and its key after some modifications. */
  function Modified(dp: Datapath, pkt: Packet, key: Key, ops: seq<nat>): Option<(Packet, Key)>
    decreases |ops|
  {
    if ops == [] then Some((pkt, key))
    else
      var changed := dp.change(ops[0], pkt, key);
      if changed.None? then None else Modified(dp, changed.value.0, changed.value.1, ops[1..])
  }

  /* Modifications of a packet with a valid key lead to this packet and key. */
  ghost predicate Reachable(dp: Datapath, pkt: Packet, key: Key)
  {
    exists p: Packet, k: SoundKey, ops :: Modified(dp, p, k, ops) == Some((pkt, key))
  }

  /* Every invalid key that modifications lead to can be updated. */
  ghost predicate KeysUpdate(dp: Datapath)
  {
    forall pkt, key: Key :: Reachable(dp, pkt, key) && !key.valid ==> dp.update(pkt, key).Some?
  }

  lemma ValidIsReachable(dp: Datapath, pkt: Packet, key: SoundKey)
    ensures Reachable(dp, pkt, key)
  {
    assert Modified(dp, pkt, key, []) == Some((pkt, key));
  }

  lemma {:induction false} ModifiedMore(dp: Datapath, pkt: Packet, key: Key, ops: seq<nat>, op: nat)
    requires Modified(dp, pkt, key, ops).Some?
    ensures var (p, k) := Modified(dp, pkt, key, ops).value; Modified(dp, pkt, key, ops + [op]) == dp.change(op, p, k)
    decreases |ops|
  {
    if ops == [] {
      assert [op][1..] == [];
    } else {
      var changed := dp.change(ops[0], pkt, key).value;
      ModifiedMore(dp, changed.0, changed.1, ops[1..], op);
      assert (ops + [op])[1..] == ops[1..] + [op];
    }
  }

  lemma ChangedIsReachable(dp: Datapath, pkt: Packet, key: Key, op: nat)
    requires Reachable(dp, pkt, key) && dp.change(op, pkt, key).Some?
    ensures var changed := dp.change(op, pkt, key).value; Reachable(dp, changed.0, changed.1)
  {
    var p: Packet, k: SoundKey, ops :| Modified(dp, p, k, ops) == Some((pkt, key));
    ModifiedMore(dp, p, k, ops, op);
  }

  /* All that is queued is reachable. */
  ghost predicate QueueOk(dp: Datapath, w: World)
  {
    forall i :: 0 <= i < |w.fifo| ==> Reachable(dp, w.fifo[i].pkt, w.fifo[i].key)
  }

  /* No packet has been lost, and nothing has been queued that is not reachable. */
  ghost predicate NoneLost(dp: Datapath, w: World, w': World)
  {
    Lost(w'.log) == Lost(w.log) && (QueueOk(dp, w) ==> QueueOk(dp, w'))
  }

  lemma {:induction false} SendLosesNone(dp: Datapath, w: World, port: Port, pkt: Packet)
    requires Ok(w) && KeysUpdate(dp)
    ensures NoneLost(dp, w, Send(dp, w, port, pkt))
    decreases 5 - w.level, 4
  {
    hide Reenter, Lost, Reachable, KeysUpdate;
    if dp.hasPort(port) {
      LostMore(w.log, Sent(port, pkt));
      ReenterLosesNone(dp, Logged(w, Sent(port, pkt)), dp.loops(port, pkt));
    }
  }

  lemma {:induction false} ReenterLosesNone(dp: Datapath, w: World, pkts: seq<Packet>)
    requires Ok(w) && KeysUpdate(dp)
    ensures NoneLost(dp, w, Reenter(dp, w, pkts))
    decreases 5 - w.level, 3, |pkts|
  {
    hide Lost, Process, Reachable, KeysUpdate, QueueOk;
    if pkts != [] {
      var key := dp.extract(pkts[0]);
      if key.Some? {
        ValidIsReachable(dp, pkts[0], key.value);
        ProcessLosesNone(dp, w, pkts[0], key.value);
      }
      ReenterLosesNone(dp, Receive(dp, w, pkts[0]), pkts[1..]);
    }
  }

  lemma {:induction false} ProcessLosesNone(dp: Datapath, w: World, pkt: Packet, key: Key)
    requires Ok(w) && KeysUpdate(dp) && Reachable(dp, pkt, key)
    ensures NoneLost(dp, w, Process(dp, w, pkt, key))
    decreases 5 - w.level, 1
  {
    hide Lost, Nested, Reachable, KeysUpdate;
    LostMore(w.log, Miss(pkt));
    var actions := dp.lookup(key);
    if actions.Some? {
      NestedLosesNone(dp, w, pkt, key, actions.value);
    }
  }

  lemma {:induction false} NestedLosesNone(dp: Datapath, w: World, pkt: Packet, key: Key, actions: seq<Action>)
    requires Ok(w) && KeysUpdate(dp) && Reachable(dp, pkt, key)
    ensures NoneLost(dp, w, Nested(dp, w, pkt, key, actions))
    decreases 5 - w.level, 0
  {
    hide Lost, Run, Reachable, KeysUpdate;
    LostMore(w.log, LoopDropped);
    if w.level < LEVEL_LIMIT {
      RunLosesNone(dp, w.(level := w.level + 1), pkt, key, actions);
    }
  }

  lemma {:induction false} RunLosesNone(dp: Datapath, w: World, pkt: Packet, key: Key, actions: seq<Action>)
    requires Ok(w) && KeysUpdate(dp) && Reachable(dp, pkt, key)
    ensures NoneLost(dp, w, Run(dp, w, pkt, key, actions))
    decreases 5 - w.level, 5, |actions|
  {
    hide Lost, Send, Sampled, Reachable, KeysUpdate, QueueOk, ValidKey, Defer;
    if actions != [] {
      var rest := actions[1..];
      match actions[0]
      case Output(port) =>
        SendLosesNone(dp, w, port, pkt);
        RunLosesNone(dp, Send(dp, w, port, pkt), pkt, key, rest);
      case Userspace(u) =>
        LoggedLosesNone(dp, w, Upcall(u, pkt));
        RunLosesNone(dp, Logged(w, Upcall(u, pkt)), pkt, key, rest);
      case Modify(op) =>
        LoggedLosesNone(dp, w, ModifyFailed);
        var changed := dp.change(op, pkt, key);
        if changed.Some? {
          ChangedIsReachable(dp, pkt, key, op);
          RunLosesNone(dp, w, changed.value.0, changed.value.1, rest);
        }
      case Recirc(id) =>
        KeyIsUpdated(dp, pkt, key);
        var valid := ValidKey(dp, pkt, key).value;
        var d := Deferred(pkt, dp.recirc(valid, id), None);
        ValidIsReachable(dp, pkt, valid);
        ValidIsReachable(dp, pkt, d.key);
        DeferLosesNone(dp, w, d);
        RunLosesNone(dp, Defer(w, d), pkt, valid, rest);
      case Sample(nested) =>
        SampleLosesNone(dp, w, pkt, key, nested);
        RunLosesNone(dp, Sampled(dp, w, pkt, key, nested), pkt, key, rest);
    }
  }

  lemma KeyIsUpdated(dp: Datapath, pkt: Packet, key: Key)
    requires KeysUpdate(dp) && Reachable(dp, pkt, key)
    ensures ValidKey(dp, pkt, key).Some?
  {
  }

  lemma LoggedLosesNone(dp: Datapath, w: World, e: Event)
    requires e != UpdateFailed(true)
    ensures NoneLost(dp, w, Logged(w, e))
  {
    hide Lost, Reachable;
    LostMore(w.log, e);
  }

  lemma DeferLosesNone(dp: Datapath, w: World, d: Deferred)
    requires Ok(w) && Reachable(dp, d.pkt, d.key)
    ensures NoneLost(dp, w, Defer(w, d))
  {
    hide Lost, Reachable;
    LostMore(w.log, DeferDropped);
  }

  lemma SampleLosesNone(dp: Datapath, w: World, pkt: Packet, key: Key, nested: seq<Action>)
    requires Ok(w) && Reachable(dp, pkt, key)
    ensures NoneLost(dp, w, Sampled(dp, w, pkt, key, nested))
  {
    hide Lost, Reachable, Defer;
    var w1 := w.(draws := w.draws + 1);
    DeferLosesNone(dp, w1, Deferred(pkt, key, Some(nested)));
    if OnlyUserspace(nested) {
      LoggedLosesNone(dp, w1, Upcall(nested[0].userdata, pkt));
    }
  }

  lemma {:induction false} DrainLosesNone(dp: Datapath, w: World)
    requires Ok(w) && KeysUpdate(dp) && QueueOk(dp, w)
    ensures Lost(Drain(dp, w).log) == Lost(w.log)
    decreases FIFO_MAX - w.tail
  {
    hide Lost, Run, Process, Reachable, KeysUpdate;
    if w.tail < |w.fifo| {
      var d := w.fifo[w.tail];
      var w1 := w.(tail := w.tail + 1, ran := w.ran + 1);
      if d.actions.Some? {
        RunLosesNone(dp, w1, d.pkt, d.key, dp.nested(d.actions.value));
        DrainLosesNone(dp, Run(dp, w1, d.pkt, d.key, dp.nested(d.actions.value)));
      } else {
        ProcessLosesNone(dp, w1, d.pkt, d.key);
        DrainLosesNone(dp, Process(dp, w1, d.pkt, d.key));
      }
    }
  }

  ghost predicate Idling(w: World) { w.level == 0 && w.fifo == [] && w.tail == 0 }

  lemma TopLosesNone(dp: Datapath, w: World, pkt: Packet, key: Key, actions: seq<Action>)
    requires Idling(w) && KeysUpdate(dp) && Reachable(dp, pkt, key)
    ensures Lost(TopLevel(dp, w, pkt, key, actions).log) == Lost(w.log)
  {
    hide Lost, Run, Drain, Reachable, KeysUpdate;
    RunLosesNone(dp, w.(level := 1), pkt, key, actions);
    DrainLosesNone(dp, Run(dp, w.(level := 1), pkt, key, actions));
  }

  /* Modifications, and a recirculation. */
  function ModifyAndRecirc(ops: seq<nat>): seq<Action>
  {
    if ops == [] then [Recirc(0)] else [Modify(ops[0])] + ModifyAndRecirc(ops[1..])
  }

  lemma {:induction false} RunLoses(dp: Datapath, w: World, pkt: Packet, key: Key, ops: seq<nat>)
    requires Ok(w) && Modified(dp, pkt, key, ops).Some?
    requires var (p, k) := Modified(dp, pkt, key, ops).value; !k.valid && dp.update(p, k).None?
    ensures Run(dp, w, pkt, key, ModifyAndRecirc(ops)) == Logged(w, UpdateFailed(true))
    decreases |ops|
  {
    if ops == [] {
      assert [Recirc(0)][1..] == [];
    } else {
      var changed := dp.change(ops[0], pkt, key).value;
      RunLoses(dp, w, changed.0, changed.1, ops[1..]);
      assert ModifyAndRecirc(ops)[1..] == ModifyAndRecirc(ops[1..]);
    }
  }

  /* Recirculation after modifications of a packet with a valid key loses the packet, if the key has
     become invalid and cannot be updated. */
  lemma RecircLoses(dp: Datapath, w: World, pkt: Packet, key: SoundKey, ops: seq<nat>)
    requires Idling(w) && Modified(dp, pkt, key, ops).Some?
    requires var (p, k) := Modified(dp, pkt, key, ops).value; !k.valid && dp.update(p, k).None?
    ensures Lost(TopLevel(dp, w, pkt, key, ModifyAndRecirc(ops)).log) == Lost(w.log) + 1
  {
    hide Run, Lost;
    RunLoses(dp, w.(level := 1), pkt, key, ops);
    LostMore(w.log, UpdateFailed(true));
  }

  /* No packet with a valid key is ever lost, whatever the actions, if and only if every invalid key
     that modifications lead to can be updated. */
  lemma LossExact(dp: Datapath)
    ensures KeysUpdate(dp) <==>
            forall w, pkt, key: SoundKey, actions :: Idling(w) ==> Lost(TopLevel(dp, w, pkt, key, actions).log) == Lost(w.log)
  {
    hide Lost, Run, Drain, TopLevel, Modified;
    if KeysUpdate(dp) {
      forall w, pkt, key: SoundKey, actions | Idling(w) ensures Lost(TopLevel(dp, w, pkt, key, actions).log) == Lost(w.log) {
        ValidIsReachable(dp, pkt, key);
        TopLosesNone(dp, w, pkt, key, actions);
      }
    } else {
      var p: Packet, k: Key :| Reachable(dp, p, k) && !k.valid && dp.update(p, k).None?;
      var pkt: Packet, key: SoundKey, ops :| Modified(dp, pkt, key, ops) == Some((p, k));
      var w := World(0, [], 0, [], 0, 0);
      RecircLoses(dp, w, pkt, key, ops);
      assert Idling(w) && Lost(TopLevel(dp, w, pkt, key, ModifyAndRecirc(ops)).log) != Lost(w.log);
    }
  }
}
