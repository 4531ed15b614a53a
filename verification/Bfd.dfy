/** The state of a BFD session (struct bfd) as a value, and what every event makes of it: the state
    machine of RFC 5880. */
module BfdSessions {

  import opened Options

  type Byte = b: nat | b < 0x100
  type U32 = n: nat | n < 0x1_0000_0000
  type I32 = n: int | -0x8000_0000 <= n < 0x8000_0000
  type Diag = d: nat | d < 32

  datatype State = AdminDown | Down | Init | Up

  predicate AboveDown(s: State) { s.Init? || s.Up? }

  /* The 2-bit state field, in the high bits of the flags. */
  function StateBits(s: State): Byte
  {
    match s case AdminDown => 0 case Down => 64 case Init => 128 case Up => 192
  }

  function StateOf(flags: Byte): State
  {
    if flags < 64 then AdminDown else if flags < 128 then Down else if flags < 192 then Init else Up
  }

  const MULTIPOINT: nat := 1
  const AUTH: nat := 4
  const FINAL: nat := 16
  const POLL: nat := 32

  predicate Flag(flags: Byte, f: nat)
    requires f > 0
  {
    flags / f % 2 == 1
  }

  const DIAG_NONE: Diag := 0
  const DIAG_EXPIRED: Diag := 1
  const DIAG_RMT_DOWN: Diag := 3
  const DIAG_CPATH_DOWN: Diag := 6

  const BFD_VERSION: nat := 1
  const BFD_PACKET_LEN: nat := 24

  /* struct msg */
  datatype Msg = Msg(versDiag: Byte, flags: Byte, mult: Byte, length: Byte,
                     myDisc: U32, yourDisc: U32, minTx: U32, minRx: U32)

  /* The clock, a random percentage, and whether bfd_try_decay() is due and what it finds. */
  datatype Env = Env(now: int, jitter: Jitter, decay: Option<bool>)

  type Jitter = n: nat | n <= 25

  /* The configuration, with the defaults applied. */
  datatype Config = Config(minTx: I32, minRx: I32, decayMinRx: I32, cpathDown: bool)

  /* Minimum TX and RX intervals, in milliseconds. */
  datatype Rates = Rates(tx: int, rx: int)

  /* What is known of the remote system: the fields rmt_*. */
  datatype Remote = Remote(state: State, diag: Diag, disc: U32, minRx: int, minTx: int)

  const UNKNOWN: Remote := Remote(Down, DIAG_NONE, 0, 1, 0)

  /* The fields of a session: configured rates, those of a poll sequence, and those in use. */
  datatype Session = Session(
    disc: U32, mult: nat, cpathDown: bool, state: State, diag: Diag, poll: bool, final: bool, rmt: Remote,
    cfg: Rates, polled: Rates, min: Rates, lastTx: int, nextTx: int, detectTime: int, inDecay: bool, decayMinRx: I32)

  function Max(a: int, b: int): (m: int)
    ensures m >= a && m >= b && (m == a || m == b)
  {
    if a > b then a else b
  }

  // ---------------------------------------------------------------- intervals

  function MinTx(s: Session): int
  {
    if s.state.Up? then s.min.tx else Max(s.min.tx, 1000)
  }

  function TxInterval(s: Session): int { Max(MinTx(s), s.rmt.minRx) }

  function RxInterval(s: Session): int { Max(s.min.rx, s.rmt.minTx) }

  function SetNextTx(s: Session, e: Env): Session
  {
    var interval := TxInterval(s);
    s.(nextTx := s.lastTx + (interval - interval * e.jitter / 100))
  }

  // ---------------------------------------------------------------- specification

  function SetState(s: Session, state: State, diag0: Diag): Session
  {
    var diag := if s.cpathDown then DIAG_CPATH_DOWN else diag0;
    if s.state == state && s.diag == diag then s
    else if AboveDown(state) then s.(state := state, diag := diag)
    else
      s.(state := state, diag := diag, rmt := UNKNOWN,
         min := Rates(s.min.tx, if s.inDecay then s.cfg.rx else s.min.rx), inDecay := false)
  }

  function StartPoll(s: Session): Session
  {
    if AboveDown(s.state) && !s.poll && !s.final
    then s.(polled := Rates(s.cfg.tx, if s.inDecay then s.decayMinRx else s.cfg.rx), poll := true, nextTx := 0)
    else s
  }

  /* A new session: xzalloc(), and what bfd_configure() sets. */
  function Zeroed(disc: U32): Session
  {
    Session(disc, 3, false, AdminDown, DIAG_NONE, false, false, Remote(AdminDown, 0, 0, 0, 0),
            Rates(0, 0), Rates(0, 0), Rates(1000, 0), 0, 0, 0, false, 0)
  }

  function Created(disc: U32): Session
  {
    SetState(Zeroed(disc), Down, DIAG_NONE)
  }

  /* The new rates are used at once if that cannot surprise the remote system. */
  function ConfiguredTx(s: Session, tx: int): Session
  {
    if s.cfg.tx == tx then s
    else
      var min := if !s.state.Up? || (!s.poll && tx < s.min.tx) then Rates(tx, s.min.rx) else s.min;
      s.(cfg := Rates(tx, s.cfg.rx), min := min)
  }

  function ConfiguredRx(s: Session, rx: int): Session
  {
    if s.cfg.rx == rx then s
    else
      var min := if !s.state.Up? || (!s.poll && rx > s.min.rx) then Rates(s.min.tx, rx) else s.min;
      s.(cfg := Rates(s.cfg.tx, rx), min := min)
  }

  function ConfiguredDecay(s: Session, decayMinRx: I32, rxChanged: bool): Session
  {
    if s.decayMinRx == decayMinRx && !rxChanged then s
    else s.(decayMinRx := if 0 < decayMinRx < s.cfg.rx then 0 else decayMinRx, inDecay := false)
  }

  function ConfiguredPath(s: Session, cpathDown: bool): Session
  {
    if s.cpathDown == cpathDown then s else SetState(s.(cpathDown := cpathDown), s.state, DIAG_NONE)
  }

  function Configured(s: Session, c: Config): Session
  {
    var tx, rx := Max(c.minTx, 1), Max(c.minRx, 1);
    var s1 := ConfiguredDecay(ConfiguredRx(ConfiguredTx(s, tx), rx), c.decayMinRx, s.cfg.rx != rx);
    var s2 := ConfiguredPath(s1, c.cpathDown);
    if s.cfg != Rates(tx, rx) || s.decayMinRx != c.decayMinRx || s.cpathDown != c.cpathDown then StartPoll(s2) else s2
  }

  function Expired(s: Session, e: Env): Session
  {
    if AboveDown(s.state) && e.now >= s.detectTime then SetState(s, Down, DIAG_EXPIRED) else s
  }

  function Decayed(s: Session, e: Env): Session
  {
    if s.state.Up? && s.decayMinRx > 0 && e.decay.Some? then s.(inDecay := e.decay.value) else s
  }

  function Ran(s: Session, e: Env): Session
  {
    var s2 := Decayed(Expired(s, e), e);
    if s2.min.tx != s2.cfg.tx || (s2.min.rx != s2.cfg.rx && s2.min.rx != s2.decayMinRx) || s2.inDecay != s.inDecay
    then StartPoll(s2) else s2
  }

  function Advertised(s: Session): Rates
  {
    if s.poll then s.polled else Rates(MinTx(s), s.min.rx)
  }

  /* What is sent.  Rates are in microseconds, in 32 bits. */
  function Packet(s: Session): Msg
  {
    Msg((BFD_VERSION * 32 + s.diag) % 256,
        StateBits(s.state) + (if s.poll then POLL else 0) + (if s.final then FINAL else 0),
        s.mult % 256, BFD_PACKET_LEN, s.disc, s.rmt.disc,
        Advertised(s).tx * 1000 % 0x1_0000_0000, Advertised(s).rx * 1000 % 0x1_0000_0000)
  }

  function Sent(s: Session, e: Env): Session
  {
    SetNextTx(s.(final := false, lastTx := e.now), e)
  }

  /* The checks of section 6.8.6 of RFC 5880. */
  predicate Accepts(s: Session, ttl: nat, m: Msg)
  {
    && ttl == 255 && m.versDiag / 32 == BFD_VERSION && !Flag(m.flags, AUTH) && m.length >= BFD_PACKET_LEN && m.mult != 0
    && !Flag(m.flags, MULTIPOINT) && m.myDisc != 0
    && (if m.yourDisc != 0 then m.yourDisc == s.disc else !AboveDown(StateOf(m.flags)))
  }

  /* A Final ends a poll sequence, and a Poll is answered by a Final. */
  function Answered(s: Session, m: Msg): Session
  {
    var s1 := if Flag(m.flags, FINAL) && s.poll then s.(min := s.polled, poll := false) else s;
    if Flag(m.flags, POLL) then s1.(poll := false, final := true) else s1
  }

  function Timed(s: Session, m: Msg, e: Env): Session
  {
    var minRx := Max(m.minRx / 1000, 1);
    var s1 := if s.rmt.minRx == minRx then s
              else
                var x := s.(rmt := s.rmt.(minRx := minRx));
                if x.nextTx != 0 then SetNextTx(x, e) else x;
    var s2 := s1.(rmt := s1.rmt.(minTx := Max(m.minTx / 1000, 1)));
    s2.(detectTime := RxInterval(s2) * s2.mult + e.now)
  }

  /* What an accepted packet says. */
  function Learned(s: Session, m: Msg, e: Env): Session
  {
    var rmt := s.rmt.(disc := m.myDisc, state := StateOf(m.flags), diag := m.versDiag % 32);
    Timed(Answered(s.(rmt := rmt), m), m, e)
  }

  function Transition(s: Session, rmt: State): Session
  {
    match s.state
    case AdminDown => s
    case Down =>
      if rmt.Down? then SetState(s, Init, s.diag) else if rmt.Init? then SetState(s, Up, s.diag) else s
    case Init =>
      if rmt.AdminDown? then SetState(s, Down, DIAG_RMT_DOWN) else if AboveDown(rmt) then SetState(s, Up, s.diag) else s
    case Up =>
      if AboveDown(rmt) then s else SetState(s, Down, DIAG_RMT_DOWN)
  }

  /* A received packet; None is one that is too short. */
  function Processed(s: Session, ttl: nat, m: Option<Msg>, e: Env): Session
  {
    if m.None? || !Accepts(s, ttl, m.value) then s
    else Transition(Learned(s, m.value, e), StateOf(m.value.flags))
  }
}
