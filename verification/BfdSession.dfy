/** The BFD session object (struct bfd) and its operations in place.  Each of them is proved to do what
    the value-level model says, and to keep and promise what follows for a caller. */
module BfdObjects {

  import opened Options
  import opened BfdSessions
  import opened BfdRules

  class Bfd {
    const disc: U32
    const mult: nat := 3
    var cpathDown: bool
    var state: State
    var diag: Diag
    var poll: bool                /* FLAG_POLL */
    var final: bool               /* FLAG_FINAL */
    var rmt: Remote
    var cfg: Rates                /* cfg_min_tx, cfg_min_rx */
    var polled: Rates             /* poll_min_tx, poll_min_rx */
    var min: Rates                /* min_tx, min_rx */
    var lastTx: int
    var nextTx: int
    var detectTime: int
    var inDecay: bool
    var decayMinRx: I32

    function View(): Session
      reads this
    {
      Session(disc, mult, cpathDown, state, diag, poll, final, rmt, cfg, polled, min, lastTx, nextTx, detectTime,
              inDecay, decayMinRx)
    }

    ghost predicate Valid()
      reads this
    {
      SessionOk(View())
    }

    /* bfd_configure() without a session. */
    constructor (disc: U32, c: Config)
      requires disc != 0
      ensures Valid() && View() == Configured(Created(disc), c)
      ensures this.disc == disc && state.Down? && rmt == UNKNOWN && !poll && !final && cfg == min == Wanted(c)
    {
      this.disc, cpathDown, poll, final := disc, false, false, false;
      cfg, polled, min := Rates(0, 0), Rates(0, 0), Rates(1000, 0);
      lastTx, nextTx, detectTime, inDecay, decayMinRx := 0, 0, 0, false, 0;
      state, diag, rmt := AdminDown, DIAG_NONE, Remote(AdminDown, 0, 0, 0, 0);
      new;
      ChangeState(Down, DIAG_NONE);
      Reconfigure(c);
      CreatedOk(disc, c);
    }

    /* bfd_set_state() */
    method ChangeState(state': State, diag0: Diag)
      modifies this
      ensures View() == SetState(old(View()), state', diag0)
    {
      var diag' := if cpathDown then DIAG_CPATH_DOWN else diag0;
      if state != state' || diag != diag' {
        state, diag := state', diag';
        if !AboveDown(state) {
          rmt := UNKNOWN;
          if inDecay {
            min := Rates(min.tx, cfg.rx);
            inDecay := false;
          }
        }
      }
    }

    /* bfd_poll() */
    method BeginPoll()
      modifies this`polled, this`poll, this`nextTx
      ensures View() == StartPoll(old(View()))
    {
      if AboveDown(state) && !poll && !final {
        polled := Rates(cfg.tx, if inDecay then decayMinRx else cfg.rx);
        poll := true;
        nextTx := 0;
      }
    }

    /* bfd_set_next_tx() */
    method ScheduleTx(e: Env)
      requires Valid()
      modifies this`nextTx
      ensures Valid() && View() == SetNextTx(old(View()), e)
      ensures Scheduled(View(), nextTx, lastTx) && Jitters(state.Up?, min.tx, rmt.minRx, e.jitter, nextTx - lastTx)
    {
      ScheduleRule(View(), e);
      var interval := TxInterval(View());
      interval := interval - interval * e.jitter / 100;
      nextTx := lastTx + interval;
    }

    /* bfd_configure() with a session. */
    method Configure(c: Config)
      requires Valid()
      modifies this
      ensures Valid() && View() == Configured(old(View()), c)
      ensures Reconfigured(old(View()), c, View())
    {
      ConfigureRule(View(), c);
      Reconfigure(c);
    }

    method Reconfigure(c: Config)
      modifies this
      ensures View() == Configured(old(View()), c)
    {
      hide SetState, StartPoll, ConfiguredTx, ConfiguredRx, ConfiguredDecay, ConfiguredPath;
      var tx, rx := Max(c.minTx, 1), Max(c.minRx, 1);
      ConfigKeeps(View(), tx, rx, c.decayMinRx);
      var txChanged := ConfigureTx(tx);
      var rxChanged := ConfigureRx(rx);
      var decayChanged := ConfigureDecay(c.decayMinRx, rxChanged);
      var pathChanged := ConfigurePath(c.cpathDown);
      if txChanged || rxChanged || decayChanged || pathChanged {
        BeginPoll();
      }
    }

    method ConfigureDecay(decayMinRx': I32, rxChanged: bool) returns (changed: bool)
      modifies this`decayMinRx, this`inDecay
      ensures View() == ConfiguredDecay(old(View()), decayMinRx', rxChanged)
      ensures changed == (old(decayMinRx) != decayMinRx' || rxChanged)
    {
      changed := decayMinRx != decayMinRx' || rxChanged;
      if changed {
        decayMinRx := if decayMinRx' > 0 && decayMinRx' < cfg.rx then 0 else decayMinRx';
        inDecay := false;
      }
    }

    method ConfigurePath(cpathDown': bool) returns (changed: bool)
      modifies this
      ensures View() == ConfiguredPath(old(View()), cpathDown') && changed == (old(cpathDown) != cpathDown')
    {
      hide SetState;
      changed := cpathDown != cpathDown';
      if changed {
        cpathDown := cpathDown';
        ChangeState(state, DIAG_NONE);
      }
    }

    method ConfigureTx(tx: int) returns (changed: bool)
      modifies this`cfg, this`min
      ensures View() == ConfiguredTx(old(View()), tx) && changed == (old(cfg.tx) != tx)
    {
      changed := cfg.tx != tx;
      if changed {
        cfg := Rates(tx, cfg.rx);
        if !state.Up? || (!poll && cfg.tx < min.tx) {
          min := Rates(cfg.tx, min.rx);
        }
      }
    }

    method ConfigureRx(rx: int) returns (changed: bool)
      modifies this`cfg, this`min
      ensures View() == ConfiguredRx(old(View()), rx) && changed == (old(cfg.rx) != rx)
    {
      changed := cfg.rx != rx;
      if changed {
        cfg := Rates(cfg.tx, rx);
        if !state.Up? || (!poll && cfg.rx > min.rx) {
          min := Rates(min.tx, cfg.rx);
        }
      }
    }

    /* bfd_run() */
    method Run(e: Env)
      requires Valid()
      modifies this
      ensures Valid() && View() == Ran(old(View()), e)
      ensures Elapsed(old(View()), e, View())
    {
      RunRule(View(), e);
      hide SetState, StartPoll;
      var wasInDecay := inDecay;
      if AboveDown(state) && e.now >= detectTime {
        ChangeState(Down, DIAG_EXPIRED);
      }
      if state.Up? && decayMinRx > 0 && e.decay.Some? {
        inDecay := e.decay.value;
      }
      if min.tx != cfg.tx || (min.rx != cfg.rx && min.rx != decayMinRx) || inDecay != wasInDecay {
        BeginPoll();
      }
    }

    /* bfd_put_packet() */
    method PutPacket(e: Env) returns (m: Msg)
      requires Valid()
      modifies this`final, this`lastTx, this`nextTx
      ensures Valid() && m == Packet(old(View())) && View() == Sent(old(View()), e)
      ensures Flag(m.flags, POLL) == poll && Flag(m.flags, FINAL) == old(final) && !(poll && old(final)) && !final
      ensures forall peer :: Accepts(peer, 255, m) <==> rmt.disc == 0 || rmt.disc == peer.disc
      ensures Announces(old(View()), m) && Scheduled(View(), nextTx, e.now) && Jitters(state.Up?, min.tx, rmt.minRx, e.jitter, nextTx - e.now)
    {
      hide Flag, StateOf;
      assert !poll || !final;
      PacketFlags(View());
      PacketFormat(View());
      SendRule(View(), e);
      forall peer ensures Accepts(peer, 255, Packet(View())) <==> rmt.disc == 0 || rmt.disc == peer.disc {
        AcceptedIff(View(), peer);
      }
      var flags := StateBits(state) + (if poll then POLL else 0) + (if final then FINAL else 0);
      var tx, rx := MinTx(View()), min.rx;
      if poll {
        tx, rx := polled.tx, polled.rx;
      }
      m := Msg((BFD_VERSION * 32 + diag) % 256, flags, mult % 256, BFD_PACKET_LEN, disc, rmt.disc,
               tx * 1000 % 0x1_0000_0000, rx * 1000 % 0x1_0000_0000);
      final := false;
      lastTx := e.now;
      ScheduleTx(e);
    }

    /* bfd_process_packet(), on the UDP payload of a packet. */
    method ProcessPacket(ttl: nat, msg: Option<Msg>, e: Env)
      requires Valid()
      modifies this
      ensures Valid() && View() == Processed(old(View()), ttl, msg, e)
      ensures if msg.Some? && Accepts(old(View()), ttl, msg.value) then Heard(old(View()), msg.value, e, View())
              else View() == old(View())
    {
      if msg.Some? && Accepts(View(), ttl, msg.value) {
        ReceiveRule(View(), ttl, msg.value, e);
      }
      hide SetState, Learned, Flag, StateOf;
      if ttl != 255 || msg.None? {
        return;
      }
      var m := msg.value;
      if m.versDiag / 32 != BFD_VERSION || Flag(m.flags, AUTH) || m.length < BFD_PACKET_LEN || m.mult == 0
         || Flag(m.flags, MULTIPOINT) || m.myDisc == 0 {
        return;
      }
      var rmtState := StateOf(m.flags);
      if m.yourDisc != 0 {
        if m.yourDisc != disc {
          return;
        }
      } else if AboveDown(rmtState) {
        return;
      }
      Learn(m, e);
      if state.AdminDown? {
        return;
      }
      if rmtState.AdminDown? {
        if !state.Down? {
          ChangeState(Down, DIAG_RMT_DOWN);
        }
      } else {
        match state
        case Down =>
          if rmtState.Down? {
            ChangeState(Init, diag);
          } else if rmtState.Init? {
            ChangeState(Up, diag);
          }
        case Init =>
          if AboveDown(rmtState) {
            ChangeState(Up, diag);
          }
        case Up =>
          if !AboveDown(rmtState) {
            ChangeState(Down, DIAG_RMT_DOWN);
          }
      }
    }

    /* The part of bfd_process_packet() before the session state changes. */
    method Learn(m: Msg, e: Env)
      requires Valid() && m.myDisc != 0
      modifies this`rmt, this`min, this`poll, this`final, this`nextTx, this`detectTime
      ensures Valid() && View() == Learned(old(View()), m, e)
      ensures min == if Flag(m.flags, FINAL) && old(poll) then polled else old(min)
      ensures poll == (old(poll) && !Flag(m.flags, POLL) && !Flag(m.flags, FINAL)) && final == (old(final) || Flag(m.flags, POLL))
      ensures detectTime == e.now + mult * Max(min.rx, Max(m.minTx / 1000, 1))
    {
      hide Flag, StateOf, Timed, Answered, SessionOk;
      KnownRule(View(), m);
      rmt := rmt.(disc := m.myDisc, state := StateOf(m.flags), diag := m.versDiag % 32);
      AnsweredRule(View(), m);
      Answer(m);
      TimedRule(View(), m, e);
      Retime(m, e);
    }

    method Answer(m: Msg)
      modifies this`min, this`poll, this`final
      ensures View() == Answered(old(View()), m)
    {
      hide Flag;
      if Flag(m.flags, FINAL) && poll {
        min := polled;
        poll := false;
      }
      if Flag(m.flags, POLL) {
        poll := false;
        final := true;
      }
    }

    method Retime(m: Msg, e: Env)
      requires Valid()
      modifies this`rmt, this`nextTx, this`detectTime
      ensures View() == Timed(old(View()), m, e)
    {
      hide TxInterval;
      var minRx := Max(m.minRx / 1000, 1);
      if rmt.minRx != minRx {
        rmt := rmt.(minRx := minRx);
        if nextTx != 0 {
          ScheduleTx(e);
        }
      }
      rmt := rmt.(minTx := Max(m.minTx / 1000, 1));
      detectTime := RxInterval(View()) * mult + e.now;
    }
  }

  lemma ConfigKeeps(s: Session, tx: int, rx: int, decayMinRx: I32)
    ensures var s1 := ConfiguredTx(s, tx);
            var s2 := ConfiguredRx(s1, rx);
            && s1.cfg.rx == s.cfg.rx && s2.decayMinRx == s.decayMinRx
            && forall changed :: ConfiguredDecay(s2, decayMinRx, changed).cpathDown == s.cpathDown
  {
  }
}
