/** Two BFD sessions on a network that can lose, duplicate and reorder packets. */
module BfdNetworks {

  import opened Options
  import opened BfdSessions
  import opened BfdRules

  /* One end: its session, everything that it has sent, and everything that it has accepted. */
  datatype End = End(session: Session, sent: set<Msg>, accepted: set<Msg>)

  datatype Event = Configure(c: Config)
                 | Run(e: Env)
                 | Send(e: Env)
                 | Receive(ttl: nat, m: Msg, e: Env)
                 | Restart(disc: U32, c: Config)

  /* A packet of the peer can arrive at any time and any number of times.  A new session has a
     discriminator that has not been used before. */
  predicate Possible(x: End, peer: End, ev: Event)
  {
    match ev
    case Receive(_, m, _) => m in peer.sent
    case Restart(disc, _) => disc != 0 && forall m :: m in x.sent ==> m.myDisc != disc
    case _ => true
  }

  function After(x: End, ev: Event): End
  {
    match ev
    case Configure(c) => x.(session := Configured(x.session, c))
    case Run(e) => x.(session := Ran(x.session, e))
    case Send(e) => End(Sent(x.session, e), x.sent + {Packet(x.session)}, x.accepted)
    case Receive(ttl, m, e) =>
      End(Processed(x.session, ttl, Some(m), e), x.sent, x.accepted + if Accepts(x.session, ttl, m) then {m} else {})
    case Restart(disc, c) => x.(session := Configured(Created(disc), c))
  }

  datatype World = World(a: End, b: End)

  predicate Step(w: World, w': World, atA: bool, ev: Event)
  {
    if atA then Possible(w.a, w.b, ev) && w' == World(After(w.a, ev), w.b)
    else Possible(w.b, w.a, ev) && w' == World(w.a, After(w.b, ev))
  }

  /* An end with a new session, which is configured at once. */
  ghost predicate New(x: End)
  {
    exists disc, c :: disc != 0 && x == End(Configured(Created(disc), c), {}, {})
  }

  ghost predicate Initial(w: World)
  {
    New(w.a) && New(w.b)
  }

  /* A run of the two ends: worlds, and the events between them. */
  ghost predicate IsRun(ws: seq<World>, evs: seq<(bool, Event)>)
  {
    && |ws| == |evs| + 1 && Initial(ws[0])
    && forall i :: 0 <= i < |evs| ==> Step(ws[i], ws[i + 1], evs[i].0, evs[i].1)
  }

  // ---------------------------------------------------------------- invariants

  /* A packet from a session with this discriminator has been accepted. */
  ghost predicate Knew(accepted: set<Msg>, disc: U32)
  {
    exists m :: m in accepted && m.myDisc == disc
  }

  ghost predicate SentOk(x: End, m: Msg)
  {
    && m.myDisc != 0 && (m.yourDisc != 0 ==> Knew(x.accepted, m.yourDisc))
    && !(Flag(m.flags, POLL) && Flag(m.flags, FINAL)) && !StateOf(m.flags).AdminDown?
  }

  ghost predicate EndOk(x: End, peer: End)
  {
    && SessionOk(x.session) && x.accepted <= peer.sent
    && (forall m :: m in x.sent ==> SentOk(x, m))
    && (x.session.rmt.disc != 0 ==> Knew(x.accepted, x.session.rmt.disc))
    && (x.session.state.Up? ==> Knew(peer.accepted, x.session.disc))
  }

  ghost predicate WorldOk(w: World)
  {
    EndOk(w.a, w.b) && EndOk(w.b, w.a)
  }

  // ---------------------------------------------------------------- one event

  /* An accepted packet from a session that is above Down was sent to this session. */
  lemma AcceptedForUs(s: Session, ttl: nat, m: Msg)
    requires Accepts(s, ttl, m) && AboveDown(StateOf(m.flags))
    ensures m.yourDisc == s.disc && m.yourDisc != 0
  {
  }

  lemma ProcessedFacts(s: Session, ttl: nat, m: Msg, e: Env)
    requires SessionOk(s) && Accepts(s, ttl, m)
    ensures var s' := Processed(s, ttl, Some(m), e);
            && SessionOk(s') && s'.disc == s.disc
            && (s'.rmt.disc == m.myDisc || s'.rmt.disc == 0)
            && (s'.state.Up? ==> s.state.Up? || AboveDown(StateOf(m.flags)))
  {
    hide Flag, StateOf, Processed, SessionOk, Accepts;
    ReceiveRule(s, ttl, m, e);
  }

  /* Local events keep the discriminators, and lower the state at most. */
  lemma LocalFacts(x: End, ev: Event)
    requires SessionOk(x.session) && (ev.Configure? || ev.Run? || ev.Send?)
    ensures var s, s' := x.session, After(x, ev).session;
            && SessionOk(s') && s'.disc == s.disc && (s'.rmt.disc == s.rmt.disc || s'.rmt.disc == 0)
            && (s'.state.Up? ==> s.state.Up?)
  {
    hide Packet, Sent, Configured, Ran, SessionOk;
    match ev
    case Configure(c) => ConfigureRule(x.session, c);
    case Run(e) => RunRule(x.session, e);
    case Send(e) => SendRule(x.session, e);
  }

  /* The end that the event is at. */
  lemma EndStep(x: End, peer: End, ev: Event)
    requires EndOk(x, peer) && EndOk(peer, x) && Possible(x, peer, ev)
    ensures EndOk(After(x, ev), peer)
  {
    hide Configured, Ran, Sent, Processed, Packet, Accepts, Flag, StateOf, Knew;
    var x' := After(x, ev);
    match ev
    case Receive(ttl, m, e) =>
      if Accepts(x.session, ttl, m) {
        ProcessedFacts(x.session, ttl, m, e);
        assert SentOk(peer, m);
        if AboveDown(StateOf(m.flags)) {
          AcceptedForUs(x.session, ttl, m);
        }
        KnewOne(x'.accepted, m);
        SentStillOk(x, x');
      } else {
        NotAccepted(x.session, ttl, m, e);
        assert x'.accepted == x.accepted;
      }
    case Restart(disc, c) =>
      CreatedOk(disc, c);
    case Send(e) =>
      LocalFacts(x, ev);
      PacketFlags(x.session);
      PacketDisc(x.session);
    case _ =>
      LocalFacts(x, ev);
  }

  lemma KnewOne(accepted: set<Msg>, m: Msg)
    requires m in accepted
    ensures Knew(accepted, m.myDisc)
  {
  }

  lemma SentStillOk(x: End, x': End)
    requires x.accepted <= x'.accepted && x.sent == x'.sent && forall m :: m in x.sent ==> SentOk(x, m)
    ensures forall m :: m in x'.sent ==> SentOk(x', m)
  {
    hide Flag, StateOf;
    forall m | m in x'.sent ensures SentOk(x', m) {
      assert SentOk(x, m);
    }
  }

  lemma NotAccepted(s: Session, ttl: nat, m: Msg, e: Env)
    requires !Accepts(s, ttl, m)
    ensures Processed(s, ttl, Some(m), e) == s
  {
  }

  /* The other end. */
  lemma PeerStep(x: End, peer: End, ev: Event)
    requires EndOk(x, peer) && EndOk(peer, x)
    ensures EndOk(peer, After(x, ev))
  {
    hide Configured, Ran, Sent, Processed, Packet, Accepts, Flag, StateOf, SentOk;
    var x' := After(x, ev);
    assert x.sent <= x'.sent && x.accepted <= x'.accepted;
  }

  // ---------------------------------------------------------------- whole runs

  lemma {:induction false} RunOk(ws: seq<World>, evs: seq<(bool, Event)>, i: nat)
    requires IsRun(ws, evs) && i < |ws|
    ensures WorldOk(ws[i])
  {
    hide EndOk, After, Possible, Created;
    if i == 0 {
      StartOk(ws[0]);
    } else {
      RunOk(ws, evs, i - 1);
      var w, ev := ws[i - 1], evs[i - 1].1;
      assert Step(ws[i - 1], ws[i], evs[i - 1].0, evs[i - 1].1);
      if evs[i - 1].0 {
        EndStep(w.a, w.b, ev);
        PeerStep(w.a, w.b, ev);
      } else {
        EndStep(w.b, w.a, ev);
        PeerStep(w.b, w.a, ev);
      }
    }
  }

  lemma StartOk(w: World)
    requires Initial(w)
    ensures WorldOk(w)
  {
    hide Configured, Created;
    NewOk(w.a, w.b);
    NewOk(w.b, w.a);
  }

  lemma NewOk(x: End, peer: End)
    requires New(x)
    ensures EndOk(x, peer)
  {
    hide Configured, Created, Knew;
    var disc, c :| disc != 0 && x == End(Configured(Created(disc), c), {}, {});
    CreatedOk(disc, c);
  }

  /* In every world of every run: an end is Up only if its peer has accepted one of the packets
     that it has sent with its present discriminator; an end above Down knows the other one's
     discriminator; and no end is administratively down, nor polls and answers a poll at once. */
  lemma TwoPartySafety(ws: seq<World>, evs: seq<(bool, Event)>, i: nat)
    requires IsRun(ws, evs) && i < |ws|
    ensures var a, b := ws[i].a, ws[i].b;
            && (a.session.state.Up? ==> exists m :: m in b.accepted && m in a.sent && m.myDisc == a.session.disc)
            && (b.session.state.Up? ==> exists m :: m in a.accepted && m in b.sent && m.myDisc == b.session.disc)
            && SessionOk(a.session) && SessionOk(b.session)
  {
    hide IsRun, SentOk, SessionOk;
    RunOk(ws, evs, i);
    var a, b := ws[i].a, ws[i].b;
    if a.session.state.Up? {
      var m :| m in b.accepted && m.myDisc == a.session.disc;
      assert m in a.sent;
    }
    if b.session.state.Up? {
      var m :| m in a.accepted && m.myDisc == b.session.disc;
      assert m in b.sent;
    }
  }

  // ---------------------------------------------------------------- rates

  /* The event changes the rates in a surprising way only if it is a Final that ends a poll
     sequence, and then they are the ones that the poll sequence began with. */
  ghost predicate Disciplined(s: Session, ev: Event, s': Session)
  {
    && KeepsPoll(s, s')
    && (Surprising(s, s') ==> && ev.Receive? && Accepts(s, ev.ttl, ev.m) && Flag(ev.m.flags, FINAL)
                              && s.poll && s'.min == s.polled)
  }

  /* In every run, while a session stays Up. */
  lemma RateDiscipline(ws: seq<World>, evs: seq<(bool, Event)>, i: nat)
    requires IsRun(ws, evs) && i < |evs|
    ensures var (atA, ev) := evs[i];
            var s := if atA then ws[i].a.session else ws[i].b.session;
            var s' := if atA then ws[i + 1].a.session else ws[i + 1].b.session;
            s.state.Up? && s'.state.Up? ==> Disciplined(s, ev, s') && (if atA then ws[i + 1].b == ws[i].b else ws[i + 1].a == ws[i].a)
  {
    hide After, Possible, Disciplined, SentOk, SessionOk;
    RunOk(ws, evs, i);
    assert Step(ws[i], ws[i + 1], evs[i].0, evs[i].1);
    var x := if evs[i].0 then ws[i].a else ws[i].b;
    if x.session.state.Up? && After(x, evs[i].1).session.state.Up? {
      EventDiscipline(x, evs[i].1);
    }
  }

  lemma EventDiscipline(x: End, ev: Event)
    requires SessionOk(x.session) && x.session.state.Up? && After(x, ev).session.state.Up?
    ensures Disciplined(x.session, ev, After(x, ev).session)
  {
    hide Configured, Ran, Sent, Processed, Accepts, Flag, StateOf, Packet, Created, SessionOk;
    match ev
    case Configure(c) => ConfigureRule(x.session, c);
    case Run(e) => RunRule(x.session, e);
    case Send(e) => SendRule(x.session, e);
    case Receive(ttl, m, e) =>
      if Accepts(x.session, ttl, m) {
        ReceiveRule(x.session, ttl, m, e);
      } else {
        NotAccepted(x.session, ttl, m, e);
      }
    case Restart(disc, c) =>
      RestartIsDown(disc, c);
  }

  lemma RestartIsDown(disc: U32, c: Config)
    ensures Configured(Created(disc), c).state.Down?
  {
  }

  /* So the rates in use have been advertised in every packet of the poll sequence: as long as it
     lasts, packets have the Poll flag and its rates, as far as they fit into 32 bits. */
  lemma PollAdvertises(s: Session, peer: Session, e: Env)
    requires SessionOk(s) && s.poll
    ensures Flag(Packet(s).flags, POLL)
    ensures Learned(peer, Packet(s), e).rmt.minTx == s.polled.tx <==> s.polled.tx <= MAX_RATE
    ensures Learned(peer, Packet(s), e).rmt.minRx == s.polled.rx <==> s.polled.rx <= MAX_RATE
  {
    hide Learned, Packet, SessionOk, Flag;
    PacketFlags(s);
    RoundTrip(s, peer, e);
  }

  // ---------------------------------------------------------------- slow when not Up

  const SECOND: int := 1_000_000
  const WRAP: int := 0x1_0000_0000

  /* An interval in ms is not within a second after a multiple of 2^32 us, such as 0. */
  ghost predicate Slow(rate: int)
  {
    forall k: nat :: !(k * WRAP <= 1000 * rate < k * WRAP + SECOND)
  }

  /* Section 6.8.3 of RFC 5880 asks for at least one second when the session is not Up.  That is
     what is sent if and only if the rate of the poll sequence, if there is one, or else the one in
     use is slow enough and does not wrap around to a fast one. */
  lemma SlowUnlessUp(s: Session)
    requires SessionOk(s) && !s.state.Up?
    ensures Packet(s).minTx >= SECOND <==> Slow(if s.poll then s.polled.tx else Max(s.min.tx, 1000))
  {
    SlowExact(if s.poll then s.polled.tx else Max(s.min.tx, 1000));
  }

  lemma SlowExact(rate: int)
    requires rate >= 1
    ensures rate * 1000 % WRAP >= SECOND <==> Slow(rate)
  {
    var k := rate * 1000 / WRAP;
    assert 1000 * rate == k * WRAP + rate * 1000 % WRAP;
    if Slow(rate) {
      assert !(k * WRAP <= 1000 * rate < k * WRAP + SECOND);
    } else {
      var j: nat :| j * WRAP <= 1000 * rate < j * WRAP + SECOND;
      Quotient(1000 * rate, j, k);
    }
  }

  lemma Quotient(x: int, j: nat, k: nat)
    requires j * WRAP <= x < (j + 1) * WRAP && k * WRAP <= x < (k + 1) * WRAP
    ensures j == k
  {
  }

  /* For rates that fit into 32 bits, it is the poll sequence alone. */
  lemma SlowUnlessPolling(s: Session)
    requires SessionOk(s) && !s.state.Up? && Max(s.min.tx, s.polled.tx) <= MAX_RATE
    ensures Packet(s).minTx >= SECOND <==> !s.poll || s.polled.tx >= 1000
  {
  }

  /* A run in which a session in state Init, reconfigured to 200 ms, advertises that. */
  lemma FastInInit() returns (ws: seq<World>, evs: seq<(bool, Event)>)
    ensures IsRun(ws, evs)
    ensures exists m :: m in ws[|evs|].a.sent && StateOf(m.flags).Init? && m.minTx == 200_000
  {
    hide Configured, Processed, Packet, Accepts, Created, Sent, StateOf, SessionOk;
    var e, c0, c := Env(0, 0, None), Config(100, 1000, 0, false), Config(200, 1000, 0, false);
    var a0, b0 := End(Configured(Created(1), c0), {}, {}), End(Configured(Created(2), c0), {}, {});
    var hello := Packet(b0.session);
    var b1 := After(b0, Send(e));
    var a1 := After(a0, Receive(255, hello, e));
    var a2 := After(a1, Configure(c));
    var a3 := After(a2, Send(e));
    CreatedOk(1, c0);
    CreatedOk(2, c0);
    DeliveredRule(b0.session, a0.session, e);
    HelloRates(b0.session, a0.session, e);
    ConfigureRule(a1.session, c);
    PacketFlags(a2.session);
    PolledRate(a2.session);
    assert Packet(a2.session) in a3.sent;
    ws := [World(a0, b0), World(a0, b1), World(a1, b1), World(a2, b1), World(a3, b1)];
    evs := [(false, Send(e)), (true, Receive(255, hello, e)), (true, Configure(c)), (true, Send(e))];
    assert Step(ws[0], ws[1], false, Send(e)) && Step(ws[1], ws[2], true, Receive(255, hello, e));
    assert Step(ws[2], ws[3], true, Configure(c)) && Step(ws[3], ws[4], true, Send(e));
    assert New(a0) && New(b0);
  }

  lemma HelloRates(s: Session, peer: Session, e: Env)
    requires SessionOk(s) && SessionOk(peer) && s.state.Down? && peer.state.Down? && s.rmt.disc == 0
    requires !s.poll && !s.final && !peer.poll && !peer.final
    ensures var peer' := Delivered(s, peer, e); peer'.cfg == peer.cfg && !peer'.poll && !peer'.final
  {
    hide SessionOk, Packet, StateOf, Flag, Processed, Accepts;
    AcceptedIff(s, peer);
    PacketFlags(s);
    ReceiveRule(peer, 255, Packet(s), e);
  }

  lemma PolledRate(s: Session)
    requires s.poll && s.polled.tx == 200
    ensures Packet(s).minTx == 200_000
  {
  }

  /* A run in which a new session, configured for 71.6 minutes, advertises 0.7 ms. */
  lemma FastByTruncation() returns (ws: seq<World>, evs: seq<(bool, Event)>)
    ensures IsRun(ws, evs)
    ensures exists m :: m in ws[|evs|].a.sent && StateOf(m.flags).Down? && m.minTx == 704
  {
    hide Configured, Packet, Created, Sent, StateOf, SessionOk;
    var e, c := Env(0, 0, None), Config(4_294_968, 1000, 0, false);
    var a, b := End(Configured(Created(1), c), {}, {}), End(Configured(Created(2), c), {}, {});
    var a1 := After(a, Send(e));
    CreatedOk(1, c);
    PacketFlags(a.session);
    TruncatedRate(a.session);
    assert Packet(a.session) in a1.sent;
    ws, evs := [World(a, b), World(a1, b)], [(true, Send(e))];
    assert Step(ws[0], ws[1], true, Send(e));
    assert New(a) && New(b);
  }

  lemma TruncatedRate(s: Session)
    requires !s.poll && s.state.Down? && s.min.tx == 4_294_968
    ensures Packet(s).minTx == 704
  {
  }
}
