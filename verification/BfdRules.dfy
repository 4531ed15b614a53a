/** What every event of a BFD session keeps and promises. */
module BfdRules {

  import opened Options
  import opened BfdSessions

  predicate RatesOk(r: Rates)
  {
    1 <= r.tx < 0x8000_0000 && 1 <= r.rx < 0x8000_0000
  }

  /* A session above Down knows its peer; none is administratively down; a packet never has both
     Poll and Final; decay is for sessions that are Up, and slower than the configured rate. */
  predicate SessionOk(s: Session)
  {
    && s.disc != 0 && s.mult == 3 && !s.state.AdminDown? && (AboveDown(s.state) ==> s.rmt.disc != 0) && !(s.poll && s.final)
    && RatesOk(s.cfg) && RatesOk(s.min) && (s.poll ==> RatesOk(s.polled)) && s.rmt.minRx >= 1
    && (s.inDecay ==> s.state.Up? && s.decayMinRx > 0) && (s.decayMinRx > 0 ==> s.decayMinRx >= s.cfg.rx)
  }

  /* The rates in use have become slower to send, or faster to receive. */
  predicate Surprising(s: Session, s': Session)
  {
    s'.min.tx > s.min.tx || s'.min.rx < s.min.rx
  }

  /* A poll sequence stays as it is while it lasts. */
  predicate KeepsPoll(s: Session, s': Session)
  {
    s.poll && s'.poll ==> s'.polled == s.polled
  }

  // ---------------------------------------------------------------- configuration

  function Wanted(c: Config): Rates { Rates(Max(c.minTx, 1), Max(c.minRx, 1)) }

  /* A new session is Down, knows nothing of its peer, and uses the configured rates. */
  lemma CreatedOk(disc: U32, c: Config)
    requires disc != 0
    ensures var s := Configured(Created(disc), c);
            && SessionOk(s) && s.disc == disc && s.state.Down? && s.rmt == UNKNOWN == Remote(Down, 0, 0, 1, 0) && !s.poll && !s.final
            && s.cfg == s.min == Wanted(c) && s.mult == 3 && s.lastTx == s.nextTx == s.detectTime == 0 && !s.inDecay
            && s.cpathDown == c.cpathDown && s.diag == (if c.cpathDown then DIAG_CPATH_DOWN else DIAG_NONE)
            && s.decayMinRx == if 0 < c.decayMinRx < s.cfg.rx then 0 else c.decayMinRx
  {
  }

  /* A poll sequence begins: it is about the configured rates, or the slower one of decay, and its first
     packet is due at once.  Otherwise the current one, if any, goes on. */
  predicate Polls(s: Session, begins: bool, s': Session)
  {
    && s'.poll == (s.poll || begins)
    && s'.polled == (if begins then Rates(s'.cfg.tx, if s'.inDecay then s'.decayMinRx else s'.cfg.rx) else s.polled)
    && s'.nextTx == if begins then 0 else s.nextTx
  }

  /* A poll sequence can begin only above Down, and not during another one, nor while one is to be answered. */
  predicate CanPoll(s: Session) { AboveDown(s.state) && !s.poll && !s.final }

  /* The configured rates.  A session that is Up uses a new one at once only if that is faster to send, or
     slower to receive, and no poll sequence is about another one. */
  predicate RatesSet(s: Session, r: Rates, s': Session)
  {
    && s'.cfg == r
    && s'.min.tx == (if r.tx != s.cfg.tx && (!s.state.Up? || (!s.poll && r.tx < s.min.tx)) then r.tx else s.min.tx)
    && s'.min.rx == (if r.rx != s.cfg.rx && (!s.state.Up? || (!s.poll && r.rx > s.min.rx)) then r.rx else s.min.rx)
  }

  /* The rate of decay, which has to be slower than the configured one.  A change ends decay. */
  predicate DecaySet(s: Session, c: Config, s': Session)
  {
    var changed := s.decayMinRx != c.decayMinRx || s.cfg.rx != Wanted(c).rx;
    && s'.decayMinRx == (if !changed then s.decayMinRx else if 0 < c.decayMinRx < Wanted(c).rx then 0 else c.decayMinRx)
    && s'.inDecay == (s.inDecay && !changed)
  }

  /* Whether the forwarding path is down.  A change shows in the diagnostic, and a session that is Down then
     forgets its peer. */
  predicate PathSet(s: Session, c: Config, s': Session)
  {
    && s'.cpathDown == c.cpathDown
    && s'.diag == (if c.cpathDown == s.cpathDown then s.diag else if c.cpathDown then DIAG_CPATH_DOWN else DIAG_NONE)
    && s'.rmt == if s.state.Down? && s'.diag != s.diag then UNKNOWN else s.rmt
  }

  /* Configuring sets what is configured and neither the state nor the times.  A session that is Up is not
     surprising, goes on with a poll sequence, and otherwise begins one for the new configuration, unless it
     has to answer one first. */
  predicate Reconfigured(s: Session, c: Config, s': Session)
  {
    && s'.state == s.state && s'.disc == s.disc && s'.mult == s.mult && s'.final == s.final
    && s'.lastTx == s.lastTx && s'.detectTime == s.detectTime
    && RatesSet(s, Wanted(c), s') && DecaySet(s, c, s') && PathSet(s, c, s')
    && Polls(s, CanPoll(s) && (s.cfg != Wanted(c) || s.decayMinRx != c.decayMinRx || s.cpathDown != c.cpathDown), s')
    && (s.state.Up? ==> !Surprising(s, s')) && KeepsPoll(s, s')
  }

  lemma ConfigureRule(s: Session, c: Config)
    requires SessionOk(s)
    ensures SessionOk(Configured(s, c)) && Reconfigured(s, c, Configured(s, c))
  {
    hide SetState, StartPoll, ConfiguredTx, ConfiguredRx, ConfiguredDecay, SessionOk;
    var rates := Wanted(c);
    var s1 := ConfiguredDecay(ConfiguredRx(ConfiguredTx(s, rates.tx), rates.rx), c.decayMinRx, s.cfg.rx != rates.rx);
    RatesRule(s, c);
    PathRule(s1.(cpathDown := c.cpathDown));
    PollRule(ConfiguredPath(s1, c.cpathDown));
  }

  /* The new rates are used at once only if that is not surprising. */
  lemma RatesRule(s: Session, c: Config)
    requires SessionOk(s)
    ensures var s' := ConfiguredDecay(ConfiguredRx(ConfiguredTx(s, Wanted(c).tx), Wanted(c).rx), c.decayMinRx, s.cfg.rx != Wanted(c).rx);
            && SessionOk(s') && s' == s.(cfg := s'.cfg, min := s'.min, decayMinRx := s'.decayMinRx, inDecay := s'.inDecay)
            && RatesSet(s, Wanted(c), s') && DecaySet(s, c, s')
  {
  }

  lemma PathRule(s: Session)
    requires SessionOk(s)
    ensures var s', diag := SetState(s, s.state, DIAG_NONE), if s.cpathDown then DIAG_CPATH_DOWN else DIAG_NONE;
            SessionOk(s') && s' == s.(diag := diag, rmt := if s.state.Down? && diag != s.diag then UNKNOWN else s.rmt)
  {
  }

  lemma PollRule(s: Session)
    requires SessionOk(s)
    ensures var s' := StartPoll(s);
            && SessionOk(s') && s' == s.(poll := s'.poll, polled := s'.polled, nextTx := s'.nextTx) && Polls(s, CanPoll(s), s')
  {
  }

  // ---------------------------------------------------------------- time

  /* Some configured rates are not used yet. */
  predicate Outdated(s: Session)
  {
    s.min.tx != s.cfg.tx || (s.min.rx != s.cfg.rx && s.min.rx != s.decayMinRx)
  }

  /* When the detection time has passed, the session is Down, has forgotten its peer, and receives at the
     configured rate again if it was in decay.  Otherwise it keeps its state and its rates, and only decay can
     begin or end.  Above Down it polls for rates that it does not use yet, and when decay has begun or ended. */
  predicate Elapsed(s: Session, e: Env, s': Session)
  {
    && s'.disc == s.disc && s'.mult == s.mult && s'.cpathDown == s.cpathDown && s'.cfg == s.cfg && s'.final == s.final
    && s'.lastTx == s.lastTx && s'.detectTime == s.detectTime && s'.decayMinRx == s.decayMinRx
    && (if AboveDown(s.state) && e.now >= s.detectTime
        then && s'.state.Down? && s'.rmt == UNKNOWN && s'.diag == (if s.cpathDown then DIAG_CPATH_DOWN else DIAG_EXPIRED)
             && s'.min == Rates(s.min.tx, if s.inDecay then s.cfg.rx else s.min.rx) && !s'.inDecay
        else && s'.state == s.state && s'.rmt == s.rmt && s'.diag == s.diag && s'.min == s.min
             && s'.inDecay == if s.state.Up? && s.decayMinRx > 0 && e.decay.Some? then e.decay.value else s.inDecay)
    && Polls(s, AboveDown(s'.state) && CanPoll(s) && (Outdated(s') || s'.inDecay != s.inDecay), s')
  }

  lemma ExpiredRule(s: Session, e: Env)
    requires SessionOk(s)
    ensures var s', diag := Expired(s, e), if s.cpathDown then DIAG_CPATH_DOWN else DIAG_EXPIRED;
            && SessionOk(s') && SessionOk(Decayed(s', e))
            && s' == if AboveDown(s.state) && e.now >= s.detectTime
                     then s.(state := Down, diag := diag, rmt := UNKNOWN,
                             min := Rates(s.min.tx, if s.inDecay then s.cfg.rx else s.min.rx), inDecay := false)
                     else s
  {
  }

  lemma RunRule(s: Session, e: Env)
    requires SessionOk(s)
    ensures SessionOk(Ran(s, e)) && Elapsed(s, e, Ran(s, e))
  {
    hide StartPoll, SetState, SessionOk;
    ExpiredRule(s, e);
    PollRule(Decayed(Expired(s, e), e));
  }

  // ---------------------------------------------------------------- sending

  /* Until the next packet, three quarters of the slower of the rate in use and the one that the
     remote system asks for pass, at least, and the whole at most.  A session that is not Up sends
     no faster than one packet a second. */
  predicate Scheduled(s: Session, nextTx: int, lastTx: int)
  {
    var gap := nextTx - lastTx;
    && 4 * gap >= 3 * s.min.tx && 4 * gap >= 3 * s.rmt.minRx && (!s.state.Up? ==> 4 * gap >= 3 * 1000)
    && (gap <= s.min.tx || gap <= s.rmt.minRx || (!s.state.Up? && gap <= 1000))
  }

  /* The same for a given percentage of jitter: what remains of the slowest of them passes, rounded up.
     'minTx' is the rate in use, and 'minRx' the one that the remote system asks for. */
  predicate Jitters(up: bool, minTx: int, minRx: int, jitter: Jitter, gap: int)
  {
    var p := 100 - jitter;
    && p * minTx <= 100 * gap && p * minRx <= 100 * gap && (!up ==> p * 1000 <= 100 * gap)
    && (100 * gap < p * minTx + 100 || 100 * gap < p * minRx + 100 || (!up && 100 * gap < p * 1000 + 100))
  }

  lemma ScheduleRule(s: Session, e: Env)
    requires SessionOk(s)
    ensures SetNextTx(s, e) == s.(nextTx := SetNextTx(s, e).nextTx)
    ensures Scheduled(s, SetNextTx(s, e).nextTx, s.lastTx) && Jitters(s.state.Up?, s.min.tx, s.rmt.minRx, e.jitter, SetNextTx(s, e).nextTx - s.lastTx)
  {
    var interval := TxInterval(s);
    Jittered(interval, e.jitter);
    Remains(interval, e.jitter);
    Monotonic(s.min.tx, interval, 100 - e.jitter);
    Monotonic(s.rmt.minRx, interval, 100 - e.jitter);
    Monotonic(1000, interval, 100 - e.jitter);
  }

  lemma Remains(interval: int, jitter: Jitter)
    ensures var gap := interval - interval * jitter / 100;
            (100 - jitter) * interval <= 100 * gap < (100 - jitter) * interval + 100
  {
    assert (100 - jitter) * interval == 100 * interval - interval * jitter;
  }

  lemma Monotonic(a: int, b: int, p: nat)
    ensures a <= b ==> p * a <= p * b
  {
  }

  lemma Jittered(interval: int, jitter: Jitter)
    requires interval >= 1
    ensures 0 <= interval * jitter / 100 && 4 * (interval * jitter / 100) <= interval
  {
    assert 0 <= interval * jitter <= interval * 25;
  }

  lemma SendRule(s: Session, e: Env)
    requires SessionOk(s)
    ensures var s' := Sent(s, e);
            && SessionOk(s') && s' == s.(final := false, lastTx := e.now, nextTx := s'.nextTx)
            && Scheduled(s, s'.nextTx, e.now) && Jitters(s.state.Up?, s.min.tx, s.rmt.minRx, e.jitter, s'.nextTx - e.now)
  {
    ScheduleRule(s.(final := false, lastTx := e.now), e);
  }

  lemma PacketFlags(s: Session)
    ensures Flag(Packet(s).flags, POLL) == s.poll && Flag(Packet(s).flags, FINAL) == s.final
    ensures !Flag(Packet(s).flags, AUTH) && !Flag(Packet(s).flags, MULTIPOINT) && StateOf(Packet(s).flags) == s.state
  {
    match s.state case AdminDown => case Down => case Init => case Up =>
  }

  /* The rates that a session advertises, in ms: those of the poll sequence, or else those in use, and
     no less than a second for sending if it is not Up. */
  function RateOut(s: Session): Rates
  {
    if s.poll then s.polled else if s.state.Up? || s.min.tx >= 1000 then s.min else Rates(1000, s.min.rx)
  }

  /* The number of a state in section 4.1 of RFC 5880. */
  function StateNumber(s: State): nat
  {
    match s case AdminDown => 0 case Down => 1 case Init => 2 case Up => 3
  }

  /* A packet as section 4.1 of RFC 5880 lays it out, with rates in microseconds. */
  predicate Announces(s: Session, m: Msg)
  {
    && m.versDiag == 1 * 32 + s.diag && m.flags == StateNumber(s.state) * 64 + (if s.poll then 32 else 0) + (if s.final then 16 else 0)
    && m.mult == 3 && m.length == 24 && m.myDisc == s.disc && m.yourDisc == s.rmt.disc
    && m.minTx == RateOut(s).tx * 1000 % 0x1_0000_0000 && m.minRx == RateOut(s).rx * 1000 % 0x1_0000_0000
  }

  lemma PacketFormat(s: Session)
    requires SessionOk(s)
    ensures Announces(s, Packet(s)) && Advertised(s) == RateOut(s)
  {
  }

  /* The checks of section 6.8.6 of RFC 5880, on that layout. */
  lemma ChecksMeaning(s: Session, ttl: nat, m: Msg)
    ensures Accepts(s, ttl, m) <==>
            && ttl == 255 && m.versDiag / 32 == 1 && m.length >= 24 && m.mult > 0 && m.myDisc != 0
            && m.flags / 4 % 2 == 0 && m.flags % 2 == 0
            && (m.yourDisc == s.disc || (m.yourDisc == 0 && m.flags / 64 <= 1)) && (m.yourDisc == 0 ==> m.flags / 64 <= 1)
  {
  }

  /* A packet passes the checks of exactly those sessions that it is meant for: the one that the
     sender knows as its peer, and any session while the sender knows none. */
  lemma AcceptedIff(s: Session, peer: Session)
    requires SessionOk(s)
    ensures Accepts(peer, 255, Packet(s)) <==> s.rmt.disc == 0 || s.rmt.disc == peer.disc
  {
    hide Flag, StateOf;
    PacketFlags(s);
  }

  const MAX_RATE: int := 4_294_967   /* the longest interval in ms that fits 32 bits in us */

  /* What is read from a packet is what its sender is and advertises, and the rates are read
     correctly if and only if they fit into 32 bits. */
  lemma RoundTrip(s: Session, peer: Session, e: Env)
    requires SessionOk(s)
    ensures var rmt, rates := Learned(peer, Packet(s), e).rmt, RateOut(s);
            && rmt.disc == s.disc && rmt.state == s.state && rmt.diag == s.diag
            && (rmt.minTx == rates.tx <==> rates.tx <= MAX_RATE) && (rmt.minRx == rates.rx <==> rates.rx <= MAX_RATE)
  {
    hide TxInterval, RxInterval, Flag, StateOf, Packet;
    PacketFlags(s);
    PacketFormat(s);
    Truncated(RateOut(s).tx);
    Truncated(RateOut(s).rx);
  }

  lemma Truncated(rate: int)
    requires 1 <= rate
    ensures Max(rate * 1000 % 0x1_0000_0000 / 1000, 1) == rate <==> rate <= MAX_RATE
  {
  }

  // ---------------------------------------------------------------- receiving

  /* The state machine of section 6.2 of RFC 5880. */
  function StateAfter(local: State, remote: State): State
  {
    match remote
    case AdminDown => Down
    case Down => if local.Up? then Down else Init
    case Init => Up
    case Up => if local.Down? then Down else Up
  }

  /* What a packet says of its sender, with rates in ms. */
  function Told(m: Msg): Remote
  {
    Remote(StateOf(m.flags), m.versDiag % 32, m.myDisc, Max(m.minRx / 1000, 1), Max(m.minTx / 1000, 1))
  }

  /* The next packet is due as before, unless the remote system now asks for another rate. */
  predicate Rescheduled(s: Session, rmt: Remote, min: Rates, e: Env, nextTx: int)
  {
    if s.rmt.minRx == rmt.minRx || s.nextTx == 0 then nextTx == s.nextTx
    else Jitters(s.state.Up?, min.tx, rmt.minRx, e.jitter, nextTx - s.lastTx)
  }

  /* The diagnostic: a peer that is down, if that took the session down, and else the one of before. */
  function DiagAfter(s: Session, state: State): Diag
  {
    if state == s.state then s.diag else if s.cpathDown then DIAG_CPATH_DOWN else if state.Down? then DIAG_RMT_DOWN else s.diag
  }

  /* What an accepted packet does.  The rates change only when a Final ends a poll sequence, and then
     they are the ones that it was about, and when the session goes down in decay. */
  predicate Heard(s: Session, m: Msg, e: Env, s': Session)
  {
    var min := if s.poll && Flag(m.flags, FINAL) then s.polled else s.min;
    var down := s'.state.Down? && !s.state.Down?;
    && s'.disc == s.disc && s'.mult == s.mult && s'.cpathDown == s.cpathDown && s'.cfg == s.cfg && s'.polled == s.polled
    && s'.lastTx == s.lastTx && s'.decayMinRx == s.decayMinRx
    && s'.state == StateAfter(s.state, StateOf(m.flags)) && s'.diag == DiagAfter(s, s'.state)
    && s'.poll == (s.poll && !Flag(m.flags, POLL) && !Flag(m.flags, FINAL)) && s'.final == (s.final || Flag(m.flags, POLL))
    && s'.rmt == (if down then UNKNOWN else Told(m))
    && s'.min == (if down && s.inDecay then Rates(min.tx, s.cfg.rx) else min) && s'.inDecay == (s.inDecay && !down)
    && s'.detectTime == e.now + s.mult * Max(min.rx, Told(m).minTx) && Rescheduled(s, Told(m), min, e, s'.nextTx)
  }

  lemma TimedRule(s: Session, m: Msg, e: Env)
    requires SessionOk(s)
    ensures var s', rmt := Timed(s, m, e), s.rmt.(minRx := Told(m).minRx, minTx := Told(m).minTx);
            && s' == s.(rmt := rmt, nextTx := s'.nextTx, detectTime := s'.detectTime)
            && s'.detectTime == e.now + s.mult * Max(s.min.rx, rmt.minTx) && SessionOk(s')
            && Rescheduled(s, rmt, s.min, e, s'.nextTx)
  {
    hide TxInterval, SetNextTx, StateOf;
    ScheduleRule(s.(rmt := s.rmt.(minRx := Told(m).minRx)), e);
  }

  lemma AnsweredRule(s: Session, m: Msg)
    requires SessionOk(s)
    ensures var s' := Answered(s, m);
            && SessionOk(s') && s' == s.(poll := s'.poll, final := s'.final, min := s'.min)
            && s'.poll == (s.poll && !Flag(m.flags, POLL) && !Flag(m.flags, FINAL)) && s'.final == (s.final || Flag(m.flags, POLL))
            && s'.min == (if s.poll && Flag(m.flags, FINAL) then s.polled else s.min)
  {
    hide Flag;
  }

  lemma TransitionRule(s: Session, remote: State)
    requires SessionOk(s) && s.rmt.disc != 0
    ensures var s' := Transition(s, remote);
            && SessionOk(s') && s'.state == StateAfter(s.state, remote)
            && if s'.state.Down? && !s.state.Down?
               then s' == s.(state := Down, diag := DiagAfter(s, Down), rmt := UNKNOWN,
                             min := Rates(s.min.tx, if s.inDecay then s.cfg.rx else s.min.rx), inDecay := false)
               else s' == s.(state := s'.state, diag := DiagAfter(s, s'.state))
  {
  }

  lemma ReceiveRule(s: Session, ttl: nat, m: Msg, e: Env)
    requires SessionOk(s) && Accepts(s, ttl, m)
    ensures SessionOk(Processed(s, ttl, Some(m), e)) && Heard(s, m, e, Processed(s, ttl, Some(m), e))
  {
    hide SessionOk, Answered, Timed, Transition, Flag, StateOf, StateAfter, RxInterval, Jitters;
    var s1 := s.(rmt := s.rmt.(disc := m.myDisc, state := StateOf(m.flags), diag := m.versDiag % 32));
    KnownRule(s, m);
    AnsweredRule(s1, m);
    TimedRule(Answered(s1, m), m, e);
    TransitionRule(Learned(s, m, e), StateOf(m.flags));
    assert !s.state.AdminDown? by { StateOk(s); }
  }

  lemma StateOk(s: Session)
    requires SessionOk(s)
    ensures !s.state.AdminDown?
  {
  }

  lemma KnownRule(s: Session, m: Msg)
    requires SessionOk(s) && m.myDisc != 0
    ensures SessionOk(s.(rmt := s.rmt.(disc := m.myDisc, state := StateOf(m.flags), diag := m.versDiag % 32)))
  {
    hide Flag, StateOf;
  }

  // ---------------------------------------------------------------- coming up

  /* 'peer' receives what 's' sends. */
  function Delivered(s: Session, peer: Session, e: Env): Session { Processed(peer, 255, Some(Packet(s)), e) }

  lemma DeliveredRule(s: Session, peer: Session, e: Env)
    requires SessionOk(s) && SessionOk(peer) && (s.rmt.disc == 0 || s.rmt.disc == peer.disc)
    ensures var peer' := Delivered(s, peer, e);
            && SessionOk(peer') && peer'.disc == peer.disc && peer'.state == StateAfter(peer.state, s.state)
            && (AboveDown(peer'.state) ==> peer'.rmt.disc == s.disc)
  {
    hide SessionOk, Packet, StateOf, Flag, Processed, Accepts;
    AcceptedIff(s, peer);
    PacketFlags(s);
    PacketDisc(s);
    ReceiveRule(peer, 255, Packet(s), e);
  }

  lemma PacketDisc(s: Session)
    ensures Packet(s).myDisc == s.disc && Packet(s).yourDisc == s.rmt.disc
  {
  }

  /* Three packets bring up two sessions that are Down, if neither takes the other for a third one. */
  lemma Handshake(a: Session, b: Session, e: Env)
    requires SessionOk(a) && SessionOk(b) && a.state.Down? && b.state.Down?
    requires a.rmt.disc in {0, b.disc} && b.rmt.disc in {0, a.disc}
    ensures var b1 := Delivered(a, b, e);
            var a1 := Delivered(b1, a, e);
            var b2 := Delivered(a1, b1, e);
            b1.state.Init? && a1.state.Up? && b2.state.Up? && a1.rmt.disc == b.disc && b2.rmt.disc == a.disc
  {
    hide SessionOk, Delivered;
    var b1 := Delivered(a, b, e);
    DeliveredRule(a, b, e);
    var a1 := Delivered(b1, a, e);
    DeliveredRule(b1, a, e);
    DeliveredRule(a1, b1, e);
  }
}
