/** Executing actions on a CPU as the kernel does it: with delayed output, and with packets that
    are sent, freed, consumed or queued exactly once. */
module ActionExecution {

  import opened Options
  import opened ActionSpecs

  /* struct sk_buff, as far as ownership goes. */
  type Skb = nat

  datatype FifoSlot = FifoSlot(skb: Skb, d: Deferred)

  function Entries(s: seq<FifoSlot>): (r: seq<Deferred>)
    ensures |r| == |s| && forall i :: 0 <= i < |s| ==> r[i] == s[i].d
  {
    seq(|s|, i requires 0 <= i < |s| => s[i].d)
  }

  /* The packets that are in a part of the FIFO. */
  ghost function Skbs(s: seq<FifoSlot>): set<Skb>
  {
    set i | 0 <= i < |s| :: s[i].skb
  }

  ghost predicate Unique(s: seq<FifoSlot>)
  {
    forall i, j :: 0 <= i < j < |s| ==> s[i].skb != s[j].skb
  }

  /* The datapath has fewer than 2^16 ports. */
  ghost predicate PortsOk(dp: Datapath)
  {
    forall p: Port :: p >= 0x1_0000 ==> !dp.hasPort(p)
  }

  /* One action of a list. */
  lemma RunAt(dp: Datapath, w: World, pkt: Packet, key: Key, actions: seq<Action>, i: nat)
    requires Ok(w) && i < |actions|
    ensures Run(dp, w, pkt, key, actions[i..]) == RunOne(dp, w, pkt, key, actions[i], actions[i + 1..])
  {
    assert actions[i..][1..] == actions[i + 1..];
  }

  /* An output that has been put off. */
  ghost function Pending(dp: Datapath, w: World, prev: int, pkt: Packet): (w': World)
    requires Ok(w) && -1 <= prev < 0xffff_ffff
    ensures Ok(w')
  {
    if prev == -1 then w else Send(dp, w, prev, pkt)
  }

  class Cpu {
    const dp: Datapath
    const fifo: array<FifoSlot>
    var level: nat
    var head: nat
    var tail: nat
    var log: seq<Event>
    var nextSkb: Skb
    var draws: nat
    ghost var ran: nat
    ghost var live: set<Skb>        /* packets that exist */
    ghost var leaked: set<Skb>      /* packets that nobody will ever free */

    ghost function View(): World
      reads this, fifo
    {
      World(level, Entries(if head <= fifo.Length then fifo[..head] else []), tail, log, ran, draws)
    }

    /* The part of the FIFO that is in use. */
    ghost function InUse(): seq<FifoSlot>
      reads this, fifo
    {
      if tail <= head <= fifo.Length then fifo[tail..head] else []
    }

    /* The packets that are alive and not queued. */
    ghost function Loose(): set<Skb>
      reads this, fifo
    {
      live - Skbs(InUse())
    }

    ghost predicate Sound()
      reads this, fifo
    {
      && PortsOk(dp) && fifo.Length == FIFO_MAX + 1 && tail <= head <= FIFO_MAX
      && Skbs(InUse()) <= live && Unique(InUse())
      && (forall s :: s in live ==> s < nextSkb) && leaked !! live && (forall s :: s in leaked ==> s < nextSkb)
      && |leaked| == Lost(log)
    }

    ghost predicate Valid()
      reads this, fifo
    {
      Sound() && Ok(View())
    }

    /* Between packets, no action is deferred. */
    ghost predicate Idle()
      reads this, fifo
    {
      Sound() && level == 0 && head == tail == 0
    }

    /* A CPU before its first packet. */
    constructor (dp: Datapath)
      requires PortsOk(dp)
      ensures Idle() && live == {} && leaked == {} && log == [] && this.dp == dp
    {
      this.dp := dp;
      fifo := new FifoSlot[FIFO_MAX + 1](_ => FifoSlot(0, Deferred(0, Key(false, 0), None)));
      level, head, tail, log, nextSkb, draws := 0, 0, 0, [], 0, 0;
      ran, live, leaked := 0, {}, {};
    }

    /* A new packet, or skb_clone(). */
    method Clone() returns (skb: Skb)
      requires Sound()
      modifies this`nextSkb, this`live
      ensures Sound() && View() == old(View()) && skb !in old(Loose()) && Loose() == old(Loose()) + {skb}
    {
      skb := nextSkb;
      nextSkb := nextSkb + 1;
      live := live + {skb};
    }

    /* kfree_skb() and consume_skb() */
    method Free(skb: Skb)
      requires Valid() && skb in Loose()
      modifies this`live
      ensures Valid() && View() == old(View()) && Loose() == old(Loose()) - {skb}
    {
      live := live - {skb};
    }

    method Log(e: Event)
      requires Valid() && e != UpdateFailed(true)
      modifies this`log
      ensures Valid() && View() == Logged(old(View()), e) && Loose() == old(Loose())
    {
      hide Skbs, Unique, Entries, Lost, PortsOk;
      LostMore(log, e);
      log := log + [e];
    }

    /* Nobody frees 'skb' after a failed key update for a last action. */
    method Leak(skb: Skb)
      requires Valid() && skb in Loose()
      modifies this`log, this`live, this`leaked
      ensures Valid() && View() == Logged(old(View()), UpdateFailed(true)) && Loose() == old(Loose()) - {skb}
      ensures leaked == old(leaked) + {skb}
    {
      hide Skbs, Unique, Entries, Lost, PortsOk;
      LostMore(log, UpdateFailed(true));
      log := log + [UpdateFailed(true)];
      live := live - {skb};
      leaked := leaked + {skb};
    }

    /* add_deferred_actions(), with the FIFO entry that action_fifo_put() gives; if it gives none
       then the caller frees the packet. */
    method AddDeferred(skb: Skb, d: Deferred)
      requires Valid() && skb in Loose()
      modifies this`head, this`live, this`log, fifo
      ensures Valid() && View() == Defer(old(View()), d) && Loose() == old(Loose()) - {skb}
      ensures forall i :: 0 <= i < old(head) ==> fifo[i] == old(fifo[i])
    {
      hide Skbs, Unique, Lost, PortsOk;
      if head >= FIFO_MAX {
        Free(skb);
        Log(DeferDropped);
      } else {
        ghost var before := fifo[..head];
        ghost var queued := fifo[tail..head];
        fifo[head] := FifoSlot(skb, d);
        head := head + 1;
        assert fifo[..head] == before + [FifoSlot(skb, d)];
        assert Entries(fifo[..head]) == Entries(before) + [d];
        assert InUse() == queued + [FifoSlot(skb, d)];
        SkbsMore(queued, FifoSlot(skb, d));
      }
    }

    /* do_output() */
    method DoOutput(skb: Skb, port: Port, pkt: Packet)
      requires Valid() && skb in Loose()
      modifies this, fifo
      ensures Valid() && View() == Send(dp, old(View()), port, pkt) && Loose() == old(Loose()) - {skb}
      ensures level == old(level) && old(leaked) <= leaked
      decreases 5 - level, 4
    {
      hide Nested, Process, Receive, Cpu.Sound, Cpu.Loose, Cpu.View;
      Free(skb);
      if dp.hasPort(port) {
        Log(Sent(port, pkt));
        var pkts := dp.loops(port, pkt);
        ghost var w := View();
        for i := 0 to |pkts|
          invariant Valid() && level == old(level) && old(leaked) <= leaked && Loose() == old(Loose()) - {skb}
          invariant Reenter(dp, w, pkts) == Reenter(dp, View(), pkts[i..])
        {
          var incoming := Clone();
          ReceivePacket(incoming, pkts[i]);
          assert pkts[i..][1..] == pkts[i + 1..];
        }
      }
    }

    /* A packet comes in. */
    method ReceivePacket(skb: Skb, pkt: Packet)
      requires Valid() && skb in Loose()
      modifies this, fifo
      ensures Valid() && View() == Receive(dp, old(View()), pkt) && Loose() == old(Loose()) - {skb}
      ensures level == old(level) && old(leaked) <= leaked
      decreases 5 - level, 2
    {
      hide Process, Cpu.Sound, Cpu.Loose, Cpu.View;
      match dp.extract(pkt)
      case None => Free(skb);
      case Some(key) => ProcessPacket(skb, pkt, key);
    }

    /* ovs_dp_process_packet() */
    method ProcessPacket(skb: Skb, pkt: Packet, key: Key)
      requires Valid() && skb in Loose()
      modifies this, fifo
      ensures Valid() && View() == Process(dp, old(View()), pkt, key) && Loose() == old(Loose()) - {skb}
      ensures level == old(level) && old(leaked) <= leaked
      decreases 5 - level, 1
    {
      hide Nested, Cpu.Sound, Cpu.Loose, Cpu.View;
      ViewLevel();
      match dp.lookup(key)
      case None =>
        Log(Miss(pkt));
        Free(skb);
      case Some(actions) =>
        ExecuteActions(skb, pkt, key, actions);
    }

    /* ovs_execute_actions() */
    method ExecuteActions(skb: Skb, pkt: Packet, key: Key, actions: seq<Action>)
      requires Valid() || Idle()
      requires skb in Loose()
      modifies this, fifo
      ensures Loose() == old(Loose()) - {skb} && level == old(level) && old(leaked) <= leaked
      ensures KeysUpdate(dp) && Reachable(dp, pkt, key) ==> leaked == old(leaked)
      ensures old(Idle()) ==> live == old(live) - {skb}
      ensures old(Valid()) ==> Valid() && View() == Nested(dp, old(View()), pkt, key, actions)
      ensures old(Idle()) ==> Idle() && View() == TopLevel(dp, old(View()), pkt, key, actions)
      decreases 5 - level, 0
    {
      hide Run, Drain, Nested, TopLevel, Lost, KeysUpdate, Reachable, QueueOk, Cpu.Sound, Cpu.Loose, Cpu.View;
      ghost var w := View();
      IdleLoose();
      LeakCount();
      if KeysUpdate(dp) && Reachable(dp, pkt, key) {
        if Valid() { NestedLosesNone(dp, w, pkt, key, actions); }
        if Idle() { IdleView(); TopLosesNone(dp, w, pkt, key, actions); }
      }
      Execute(skb, pkt, key, actions);
      IdleLoose();
      LeakCount();
      if Lost(View().log) == Lost(w.log) {
        SameSize(old(leaked), leaked);
      }
    }

    method Execute(skb: Skb, pkt: Packet, key: Key, actions: seq<Action>)
      requires Valid() || Idle()
      requires skb in Loose()
      modifies this, fifo
      ensures Loose() == old(Loose()) - {skb} && level == old(level) && old(leaked) <= leaked
      ensures old(Valid()) ==> Valid() && View() == Nested(dp, old(View()), pkt, key, actions)
      ensures old(Idle()) ==> Idle() && View() == TopLevel(dp, old(View()), pkt, key, actions)
      decreases 5 - level, 0, 0
    {
      hide Run, Drain, Cpu.Sound, Cpu.Loose, Cpu.View;
      var level0 := level;
      IdleView();
      if level >= LEVEL_LIMIT {
        Free(skb);
        Log(LoopDropped);
        return;
      }
      SetLevel(level + 1);
      DoExecuteActions(skb, pkt, key, actions);
      ViewLevel();
      if level0 == 0 {
        ProcessDeferred();
      }
      SetLevel(level - 1);
    }

    lemma IdleLoose()
      ensures Idle() ==> Loose() == live
    {
    }

    lemma LeakCount()
      requires Sound()
      ensures |leaked| == Lost(View().log)
    {
    }

    method SetLevel(n: nat)
      requires Sound()
      modifies this`level
      ensures Sound() && level == n && View() == old(View()).(level := n) && Loose() == old(Loose())
    {
      level := n;
    }

    lemma IdleView()
      ensures Sound() ==> View().level == level && |View().fifo| == head && View().tail == tail && tail <= head <= FIFO_MAX
    {
    }

    /* execute_recirc(): hands over the packet, or a clone of it if more actions follow. */
    method ExecuteRecirc(skb: Skb, pkt: Packet, key: Key, id: nat, last: bool) returns (err: bool, key': Key)
      requires Valid() && skb in Loose()
      modifies this, fifo
      ensures Valid() && level == old(level) && leaked == old(leaked) && err == ValidKey(dp, pkt, key).None?
      ensures err ==> View() == old(View()) && Loose() == old(Loose())
      ensures !err ==> && key' == ValidKey(dp, pkt, key).value && Loose() == old(Loose()) - (if last then {skb} else {})
                       && View() == Defer(old(View()), Deferred(pkt, dp.recirc(key', id), None))
    {
      hide Defer, Cpu.Sound, Cpu.Loose, Cpu.View;
      key' := key;
      if !key.valid {
        var updated := dp.update(pkt, key);
        if updated.None? {
          return true, key;
        }
        key' := updated.value;
      }
      var out := skb;
      if !last {
        out := Clone();
      }
      AddDeferred(out, Deferred(pkt, dp.recirc(key', id), None));
      return false, key';
    }

    /* sample() */
    method ExecuteSample(skb: Skb, pkt: Packet, key: Key, nested: seq<Action>) returns (err: bool)
      requires Valid() && skb in Loose()
      modifies this, fifo
      ensures Valid() && View() == Sampled(dp, old(View()), pkt, key, nested) && Loose() == old(Loose())
      ensures level == old(level) && leaked == old(leaked) && err == SampleFails(dp, old(View()), nested)
    {
      hide Defer, Cpu.Sound, Cpu.Loose, Cpu.View;
      ViewLevel();
      var draw := Draw();
      if !dp.sampled(draw) || nested == [] {
        return false;
      }
      if OnlyUserspace(nested) {
        var ok := dp.delivered(|log|);
        Log(Upcall(nested[0].userdata, pkt));
        return !ok;
      }
      var out := Clone();
      AddDeferred(out, Deferred(pkt, key, Some(nested)));
      return false;
    }

    /* A random choice. */
    method Draw() returns (n: nat)
      requires Valid()
      modifies this`draws
      ensures Valid() && n == old(View()).draws && View() == old(View()).(draws := n + 1) && Loose() == old(Loose())
      ensures log == View().log
    {
      n := draws;
      draws := draws + 1;
    }

    /* do_execute_actions() */
    method DoExecuteActions(skb: Skb, pkt0: Packet, key0: Key, actions: seq<Action>)
      requires Valid() && skb in Loose()
      modifies this, fifo
      ensures Valid() && View() == Run(dp, old(View()), pkt0, key0, actions) && Loose() == old(Loose()) - {skb}
      ensures level == old(level) && old(leaked) <= leaked
      decreases 5 - level, 5
    {
      hide Run, Send, Defer, Sampled, SampleFails, Cpu.Sound, Cpu.Loose, Cpu.View, PortsOk;
      var prev: int := -1;
      var pkt, key := pkt0, key0;
      assert actions[0..] == actions;
      ghost var result := Run(dp, View(), pkt0, key0, actions);
      for i := 0 to |actions|
        invariant Valid() && level == old(level) && old(leaked) <= leaked && -1 <= prev < 0xffff_ffff && Loose() == old(Loose())
        invariant Run(dp, Pending(dp, View(), prev, pkt), pkt, key, actions[i..]) == result
      {
        if prev != -1 {
          var out := Clone();
          DoOutput(out, prev, pkt);
          prev := -1;
        }
        RunAt(dp, View(), pkt, key, actions, i);
        match actions[i]
        case Output(port) =>
          if port != 0xffff_ffff {
            prev := port;
          } else {
            NoSuchPort(port, pkt);
          }
        case Userspace(u) =>
          Log(Upcall(u, pkt));
        case Modify(op) =>
          var changed := dp.change(op, pkt, key);
          if changed.None? {
            Log(ModifyFailed);
            Free(skb);
            return;
          }
          pkt, key := changed.value.0, changed.value.1;
        case Recirc(id) =>
          var last := i + 1 == |actions|;
          var err;
          err, key := ExecuteRecirc(skb, pkt, key, id, last);
          if last {
            if err {
              Leak(skb);
            } else {
              RunEnd(dp, View(), pkt, key, actions);
            }
            return;
          }
          if err {
            Log(UpdateFailed(false));
            Free(skb);
            return;
          }
        case Sample(nested) =>
          var err := ExecuteSample(skb, pkt, key, nested);
          if err {
            Free(skb);
            return;
          }
      }
      RunEnd(dp, Pending(dp, View(), prev, pkt), pkt, key, actions);
      if prev != -1 {
        DoOutput(skb, prev, pkt);
      } else {
        Free(skb);
      }
    }

    /* process_deferred_actions() */
    method ProcessDeferred()
      requires Valid() && tail == 0
      modifies this, fifo
      ensures Valid() && head == tail == 0 && View() == Drain(dp, old(View())) && Loose() == old(Loose()) && level == old(level)
      ensures old(leaked) <= leaked
      decreases 5 - level, 6
    {
      hide Run, Process, Drain, Cpu.Sound, Cpu.Loose, Cpu.View;
      ghost var result := Drain(dp, View());
      while tail != head
        invariant Valid() && level == old(level) && old(leaked) <= leaked && Loose() == old(Loose()) && Drain(dp, View()) == result
        decreases FIFO_MAX - View().tail
      {
        ViewLevel();
        DrainStep(dp, View());
        var slot := Take();
        if slot.d.actions.Some? {
          DoExecuteActions(slot.skb, slot.d.pkt, slot.d.key, dp.nested(slot.d.actions.value));
        } else {
          ProcessPacket(slot.skb, slot.d.pkt, slot.d.key);
        }
      }
      ViewLevel();
      DrainStep(dp, View());
      Reset();
    }

    /* action_fifo_get() */
    method Take() returns (slot: FifoSlot)
      requires Valid() && tail != head
      modifies this`tail, this`ran
      ensures Valid() && View() == old(View()).(tail := old(View()).tail + 1, ran := old(View()).ran + 1)
      ensures slot.d == old(View()).fifo[old(View()).tail] && slot.skb in Loose() && Loose() == old(Loose()) + {slot.skb}
      ensures slot.skb !in old(Loose()) && level == old(level)
    {
      hide Skbs, Unique, Lost, PortsOk;
      slot := fifo[tail];
      ghost var before := InUse();
      tail := tail + 1;
      ran := ran + 1;
      assert InUse() == before[1..];
      SkbsLess(before);
    }

    /* action_fifo_init() */
    method Reset()
      requires Valid() && tail == head
      modifies this`tail, this`head
      ensures Valid() && View() == old(View()).(fifo := [], tail := 0) && Loose() == old(Loose()) && head == tail == 0
    {
      assert InUse() == [];
      head, tail := 0, 0;
      assert InUse() == [] && fifo[..head] == [];
    }

    lemma ViewLevel()
      requires Valid()
      ensures View().level == level && View().log == log && View().tail == tail && |View().fifo| == head
      ensures 0 < level <= LEVEL_LIMIT && tail <= head <= FIFO_MAX
    {
    }

    lemma NoSuchPort(port: Port, pkt: Packet)
      requires Valid() && port >= 0x1_0000
      ensures Send(dp, View(), port, pkt) == View()
    {
      NoPort(dp, View(), port, pkt);
    }
  }

  lemma SameSize<T>(a: set<T>, b: set<T>)
    requires a <= b && |a| == |b|
    ensures a == b
  {
    assert |b| == |a| + |b - a|;
  }

  lemma DrainStep(dp: Datapath, w: World)
    requires Ok(w)
    ensures w.tail == |w.fifo| ==> Drain(dp, w) == w.(fifo := [], tail := 0)
    ensures w.tail < |w.fifo| ==>
            var d := w.fifo[w.tail];
            var w1 := w.(tail := w.tail + 1, ran := w.ran + 1);
            var w2 := if d.actions.Some? then Run(dp, w1, d.pkt, d.key, dp.nested(d.actions.value)) else Process(dp, w1, d.pkt, d.key);
            Drain(dp, w) == Drain(dp, w2)
  {
  }

  lemma NoPort(dp: Datapath, w: World, port: Port, pkt: Packet)
    requires Ok(w) && PortsOk(dp) && port >= 0x1_0000
    ensures Send(dp, w, port, pkt) == w
  {
  }

  lemma RunEnd(dp: Datapath, w: World, pkt: Packet, key: Key, actions: seq<Action>)
    requires Ok(w)
    ensures Run(dp, w, pkt, key, actions[|actions|..]) == w
  {
  }

  lemma SkbsLess(s: seq<FifoSlot>)
    requires Unique(s) && s != []
    ensures Unique(s[1..]) && Skbs(s[1..]) == Skbs(s) - {s[0].skb} && s[0].skb in Skbs(s)
  {
    var t := s[1..];
    forall k | k in Skbs(s) && k != s[0].skb ensures k in Skbs(t) {
      var i :| 0 <= i < |s| && s[i].skb == k;
      assert t[i - 1].skb == k;
    }
    forall k | k in Skbs(t) ensures k in Skbs(s) && k != s[0].skb {
      var i :| 0 <= i < |t| && t[i].skb == k;
      assert s[i + 1].skb == k;
    }
  }

  lemma SkbsMore(s: seq<FifoSlot>, x: FifoSlot)
    requires Unique(s) && x.skb !in Skbs(s)
    ensures Skbs(s + [x]) == Skbs(s) + {x.skb} && Unique(s + [x])
  {
    var t := s + [x];
    assert t[|s|] == x;
    forall k | k in Skbs(s) ensures k in Skbs(t) {
      var i :| 0 <= i < |s| && s[i].skb == k;
      assert t[i].skb == k;
    }
    forall i | 0 <= i < |s| ensures s[i].skb != x.skb {
      assert s[i].skb in Skbs(s);
    }
  }
}
