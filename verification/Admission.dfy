/** Admission control (internal/udpst/server.go): one setup in flight at a time, any number of
    sessions ending meanwhile. Each section the source runs under its lock, and each atomic counter
    update, is one step. */
module Admission {
  import opened Words
  import opened Messages

  const BAD_VERSION: u8 := 2
  const BAD_JUMBO: u8 := 3
  const AUTH_NC: u8 := 4
  const AUTH_REQ: u8 := 5
  const AUTH_INV: u8 := 6
  const AUTH_FAIL: u8 := 7
  const AUTH_TIME: u8 := 8
  const NO_MAX_BW: u8 := 9
  const CAP_EXC: u8 := 10
  const BAD_TMTU: u8 := 11
  const MC_INV_PAR: u8 := 12
  const CONN_FAIL: u8 := 13

  const UPSTREAM_BIT: u16 := 0x8000

  /** A limit of 0 sessions has already been replaced by the default of 256. */
  datatype Config = Config(maxBandwidth: int, haveKeys: bool, jumbo: bool, trad: bool, maxSessions: int,
                           portMin: int, portMax: int)
  {
    predicate Ranged() { portMin > 0 && portMax >= portMin }
    predicate InRange(port: int) { portMin <= port <= portMax }
    function Span(): int { portMax - portMin + 1 }
  }

  /** What the digest and time window checks of an authenticated request found. */
  datatype AuthCheck = Verified | Failed | Stale

  /** The server's shared variables. */
  datatype Ledger = Ledger(usedUS: int, usedDS: int, sessions: int, nextPort: int, closed: bool, accepts: u64, rejects: u64)

  function FreshLedger(cfg: Config): Ledger { Ledger(0, 0, 0, cfg.portMin, false, 0, 0) }

  function Used(l: Ledger, upstream: bool): int { if upstream then l.usedUS else l.usedDS }

  // ---------------------------------------------------------------------------
  // The atomic sections
  // ---------------------------------------------------------------------------

  function AddUsed(l: Ledger, upstream: bool, mbw: int): Ledger {
    if upstream then l.(usedUS := l.usedUS + mbw) else l.(usedDS := l.usedDS + mbw)
  }

  predicate Fits(cfg: Config, l: Ledger, upstream: bool, mbw: int) { Used(l, upstream) + mbw <= cfg.maxBandwidth }

  predicate SlotFree(cfg: Config, l: Ledger) { !l.closed && l.sessions < cfg.maxSessions }

  function PortAfter(cfg: Config, port: int): int { if port + 1 > cfg.portMax then cfg.portMin else port + 1 }

  // ---------------------------------------------------------------------------
  // The test port search
  // ---------------------------------------------------------------------------

  /** The i-th port tried, going round the range from start. */
  function PortAt(cfg: Config, start: int, i: nat): int
    requires cfg.Ranged()
  {
    cfg.portMin + (start - cfg.portMin + i) % cfg.Span()
  }

  /** The first port from the i-th on that can be bound. */
  function Scan(cfg: Config, start: int, free: int -> bool, i: nat): Option<int>
    requires cfg.Ranged() && i <= cfg.Span()
    decreases cfg.Span() - i
  {
    if i == cfg.Span() then None
    else if free(PortAt(cfg, start, i)) then Some(PortAt(cfg, start, i))
    else Scan(cfg, start, free, i + 1)
  }

  /** Where in the search a port comes up. */
  function Turn(cfg: Config, start: int, port: int): nat
    requires cfg.Ranged()
  {
    (port - start) % cfg.Span()
  }

  /** The search tries every port of the range exactly once. */
  lemma {:induction false} EachPortOnce(cfg: Config, start: int, port: int, i: nat)
    requires cfg.Ranged() && cfg.InRange(start) && cfg.InRange(port) && i < cfg.Span()
    ensures Turn(cfg, start, port) < cfg.Span()
    ensures PortAt(cfg, start, i) == port <==> i == Turn(cfg, start, port)
    ensures cfg.InRange(PortAt(cfg, start, i))
  {
    var n := cfg.Span();
    Wrapped(start - cfg.portMin + i, n);
    Wrapped(port - start, n);
  }

  /** Remainders of numbers less than one span out of range. */
  lemma {:induction false} Wrapped(x: int, n: int)
    requires n > 0 && -n < x < 2 * n
    ensures x % n == if x < 0 then x + n else if x < n then x else x - n
  {
  }

  /** A search from the i-th port on fails only if all those ports are taken, and otherwise finds the
      earliest free one, in range. */
  lemma {:induction false} ScanFindsFirst(cfg: Config, start: int, free: int -> bool, i: nat)
    requires cfg.Ranged() && cfg.InRange(start) && i <= cfg.Span()
    ensures match Scan(cfg, start, free, i)
            case None => forall port | cfg.InRange(port) && free(port) :: Turn(cfg, start, port) < i
            case Some(found) =>
              && cfg.InRange(found) && free(found)
              && forall port | cfg.InRange(port) && free(port) && i <= Turn(cfg, start, port) ::
                   Turn(cfg, start, found) <= Turn(cfg, start, port)
    decreases cfg.Span() - i
  {
    forall port | cfg.InRange(port) ensures Turn(cfg, start, port) < cfg.Span() {
      EachPortOnce(cfg, start, port, 0);
    }
    if i < cfg.Span() {
      ScanFindsFirst(cfg, start, free, i + 1);
      var here := PortAt(cfg, start, i);
      EachPortOnce(cfg, start, start, i);
      EachPortOnce(cfg, start, here, i);
      forall port | cfg.InRange(port) && Turn(cfg, start, port) == i ensures port == here {
        EachPortOnce(cfg, start, port, i);
      }
    }
  }

  lemma {:induction false} NextRemainder(x: nat, n: nat)
    requires n > 0
    ensures (x + 1) % n == if x % n + 1 == n then 0 else x % n + 1
  {
    var q, r := x / n, x % n;
    assert x == q * n + r;
    MulStep(q, n);
    if r + 1 == n { DivMod(q + 1, 0, n); } else { DivMod(q, r + 1, n); }
  }

  /** The next search starts behind the port found, so that with every port free the sessions go round
      the range. */
  lemma {:induction false} RoundRobin(cfg: Config, start: int, i: nat)
    requires cfg.Ranged() && cfg.InRange(start)
    ensures PortAfter(cfg, PortAt(cfg, start, i)) == PortAt(cfg, start, i + 1)
  {
    NextRemainder(start - cfg.portMin + i, cfg.Span());
  }

  // ---------------------------------------------------------------------------
  // The decision
  // ---------------------------------------------------------------------------

  function Upstream(req: SetupPDU): bool { req.maxBandwidth >= UPSTREAM_BIT }

  function Mbps(req: SetupPDU): nat { if Upstream(req) then req.maxBandwidth - UPSTREAM_BIT else req.maxBandwidth }

  /** What a session is charged: nothing when there is no budget. */
  function Charge(cfg: Config, req: SetupPDU): nat { if cfg.maxBandwidth > 0 then Mbps(req) else 0 }

  /** The first check before any reservation that fails, in the source's order; 0 if none does. */
  function Screen(cfg: Config, req: SetupPDU, auth: AuthCheck): u8 {
    if req.auth.authMode == 1 && cfg.haveKeys && auth != Verified then (if auth == Failed then AUTH_FAIL else AUTH_TIME)
    else if !(11 <= req.protocolVer <= 20) then BAD_VERSION
    else if !(req.mcIndex < req.mcCount <= 24) then MC_INV_PAR
    else if cfg.jumbo != (req.modifiers % 2 == 1) then BAD_JUMBO
    else if cfg.trad != (req.modifiers / 2 % 2 == 1) then BAD_TMTU
    else if cfg.maxBandwidth > 0 && Mbps(req) == 0 then NO_MAX_BW
    else 0
  }

  /** The check of the authentication mode, made with the reservation in hand; 0 passes. */
  function ModeCode(cfg: Config, mode: u8): u8 {
    if mode == 1 && !cfg.haveKeys then AUTH_NC
    else if mode == 0 && cfg.haveKeys then AUTH_REQ
    else if mode > 1 then AUTH_INV
    else 0
  }

  /** The socket a session would get: a port of the range, or the kernel's choice. */
  function Socket(cfg: Config, l: Ledger, free: int -> bool, ephemeral: Option<int>): Option<int> {
    if !SlotFree(cfg, l) then None
    else if cfg.Ranged() then Scan(cfg, l.nextPort, free, 0)
    else ephemeral
  }

  /** When a setup is to be accepted. */
  predicate Admissible(cfg: Config, l: Ledger, req: SetupPDU, auth: AuthCheck, socket: Option<int>) {
    && (if cfg.haveKeys then req.auth.authMode == 1 && auth == Verified else req.auth.authMode == 0)
    && 11 <= req.protocolVer <= 20
    && req.mcIndex < req.mcCount <= 24
    && cfg.jumbo == (req.modifiers % 2 == 1) && cfg.trad == (req.modifiers / 2 % 2 == 1)
    && (cfg.maxBandwidth > 0 ==> Mbps(req) > 0 && Fits(cfg, l, Upstream(req), Mbps(req)))
    && socket.Some?
  }

  /** The answer once the checks before any reservation have passed. */
  function AllocationCode(cfg: Config, l: Ledger, req: SetupPDU, socket: Option<int>): u8 {
    if cfg.maxBandwidth > 0 && !Fits(cfg, l, Upstream(req), Mbps(req)) then CAP_EXC
    else if ModeCode(cfg, req.auth.authMode) != 0 then ModeCode(cfg, req.auth.authMode)
    else if socket.None? then CONN_FAIL
    else ACK_OK
  }

  /** The answer to a setup handled with nothing in between: the first check that fails. */
  function Code(cfg: Config, l: Ledger, req: SetupPDU, auth: AuthCheck, socket: Option<int>): u8 {
    if Screen(cfg, req, auth) != 0 then Screen(cfg, req, auth) else AllocationCode(cfg, l, req, socket)
  }

  lemma {:induction false} AcceptedIffAdmissible(cfg: Config, l: Ledger, req: SetupPDU, auth: AuthCheck,
                                                 socket: Option<int>)
    ensures Code(cfg, l, req, auth, socket) == ACK_OK <==> Admissible(cfg, l, req, auth, socket)
  {
  }

  /** Whether a setup is open to the objection that a code stands for. */
  predicate Defect(cfg: Config, l: Ledger, req: SetupPDU, auth: AuthCheck, socket: Option<int>, code: u8) {
    var mode, budget, mbps := req.auth.authMode, cfg.maxBandwidth, req.maxBandwidth % 0x8000;
    if code == AUTH_FAIL then mode == 1 && cfg.haveKeys && auth == Failed
    else if code == AUTH_TIME then mode == 1 && cfg.haveKeys && auth == Stale
    else if code == BAD_VERSION then req.protocolVer < 11 || req.protocolVer > 20
    else if code == MC_INV_PAR then req.mcCount == 0 || req.mcCount > 24 || req.mcIndex >= req.mcCount
    else if code == BAD_JUMBO then (req.modifiers % 2 == 1) != cfg.jumbo
    else if code == BAD_TMTU then (req.modifiers / 2 % 2 == 1) != cfg.trad
    else if code == NO_MAX_BW then budget > 0 && mbps == 0
    else if code == CAP_EXC then
      budget > 0 && mbps > 0 && (if req.maxBandwidth / 0x8000 == 1 then l.usedUS else l.usedDS) + mbps > budget
    else if code == AUTH_NC then mode == 1 && !cfg.haveKeys
    else if code == AUTH_REQ then mode == 0 && cfg.haveKeys
    else if code == AUTH_INV then mode > 1
    else code == CONN_FAIL && socket.None?
  }

  /** A setup is refused with a code that applies to it, and accepted exactly if none does. */
  lemma {:induction false} RefusedForADefect(cfg: Config, l: Ledger, req: SetupPDU, auth: AuthCheck, socket: Option<int>)
    ensures var code := Code(cfg, l, req, auth, socket);
            if code == ACK_OK then forall d: u8 :: !Defect(cfg, l, req, auth, socket, d)
            else Defect(cfg, l, req, auth, socket, code)
  {
  }

  /** So a setup with one defect is answered with the code of that defect. */
  lemma {:induction false} OnlyDefectNamed(cfg: Config, l: Ledger, req: SetupPDU, auth: AuthCheck,
                                           socket: Option<int>, d: u8)
    requires Defect(cfg, l, req, auth, socket, d)
    requires forall other: u8 :: Defect(cfg, l, req, auth, socket, other) ==> other == d
    ensures Code(cfg, l, req, auth, socket) == d
  {
    RefusedForADefect(cfg, l, req, auth, socket);
  }

  /** Setups of this mode and authentication outcome all get the same answer, whatever they ask for,
      whatever is reserved and whatever can be bound. */
  ghost predicate RevealsNothing(cfg: Config, mode: u8, auth: AuthCheck) {
    forall l, l', req: SetupPDU, req': SetupPDU, socket, socket' | req.auth.authMode == req'.auth.authMode == mode ::
      Code(cfg, l, req, auth, socket) == Code(cfg, l', req', auth, socket')
  }

  /** The answer to one such setup does not depend on what others hold. */
  ghost predicate HidesLoad(cfg: Config, mode: u8, auth: AuthCheck) {
    forall l, l', req: SetupPDU, socket, socket' | req.auth.authMode == mode ::
      Code(cfg, l, req, auth, socket) == Code(cfg, l', req, auth, socket')
  }

  /** A setup request with nothing to object to but its authentication mode. */
  function Plain(cfg: Config, mode: u8): SetupPDU {
    SetupPDU(11, 0, 1, 0, 1, 0, 1, 0, (if cfg.jumbo then 1 else 0) + (if cfg.trad then 2 else 0), NoAuth().(authMode := mode))
  }

  /** With keys, an unauthenticated peer learns nothing from the answer if and only if it claims to be
      authenticated: any other mode is looked at only after the version, options and bandwidth. */
  lemma {:induction false} RevealsNothingIff(cfg: Config, mode: u8, auth: AuthCheck)
    requires cfg.haveKeys && !(mode == 1 && auth == Verified)
    ensures RevealsNothing(cfg, mode, auth) <==> mode == 1
  {
    var l, bad, worse := FreshLedger(cfg), Plain(cfg, mode).(protocolVer := 0), Plain(cfg, mode).(mcCount := 0);
    if mode != 1 {
      assert Code(cfg, l, bad, auth, None) == BAD_VERSION && Code(cfg, l, worse, auth, None) == MC_INV_PAR;
    }
  }

  /** And the answer is independent of what others hold if and only if it claims to be authenticated
      or there is no budget. */
  lemma {:induction false} HidesLoadIff(cfg: Config, mode: u8, auth: AuthCheck)
    requires cfg.haveKeys && !(mode == 1 && auth == Verified)
    ensures HidesLoad(cfg, mode, auth) <==> mode == 1 || cfg.maxBandwidth <= 0
  {
    if mode != 1 && cfg.maxBandwidth > 0 { AnswerFollowsLoad(cfg, mode, auth); }
  }

  /** An idle and a full server answer the same unauthenticated request differently. */
  lemma {:induction false} AnswerFollowsLoad(cfg: Config, mode: u8, auth: AuthCheck)
    requires cfg.haveKeys && cfg.maxBandwidth > 0 && mode != 1
    ensures var idle := FreshLedger(cfg);
            var full := idle.(usedDS := cfg.maxBandwidth);
            && Code(cfg, idle, Plain(cfg, mode), auth, None) == (if mode == 0 then AUTH_REQ else AUTH_INV)
            && Code(cfg, full, Plain(cfg, mode), auth, None) == CAP_EXC
  {
  }

  /** The shared variables after an accepted setup. */
  function Charged(cfg: Config, l: Ledger, req: SetupPDU, port: int): Ledger {
    AddUsed(l, Upstream(req), Charge(cfg, req)).(
      sessions := l.sessions + 1,
      nextPort := if cfg.Ranged() then PortAfter(cfg, port) else l.nextPort,
      accepts := Wrap64(l.accepts + 1))
  }

  // ---------------------------------------------------------------------------
  // The server object
  // ---------------------------------------------------------------------------

  class Server {
    const cfg: Config
    var usedUS: int
    var usedDS: int
    var sessions: int
    var nextPort: int
    var closed: bool
    var accepts: u64
    var rejects: u64

    ghost function View(): Ledger
      reads this
    {
      Ledger(usedUS, usedDS, sessions, nextPort, closed, accepts, rejects)
    }

    constructor (c: Config)
      ensures cfg == c && View() == FreshLedger(c)
    {
      cfg := c;
      usedUS, usedDS, sessions, nextPort, closed, accepts, rejects := 0, 0, 0, c.portMin, false, 0, 0;
    }

    method ReserveBandwidth(upstream: bool, mbw: int) returns (ok: bool)
      modifies this`usedUS, this`usedDS
      ensures ok <==> old(Fits(cfg, View(), upstream, mbw))
      ensures View() == if ok then AddUsed(old(View()), upstream, mbw) else old(View())
    {
      var used := if upstream then usedUS else usedDS;
      if used + mbw > cfg.maxBandwidth { return false; }
      if upstream { usedUS := usedUS + mbw; } else { usedDS := usedDS + mbw; }
      return true;
    }

    method ReleaseBandwidth(upstream: bool, mbw: int)
      modifies this`usedUS, this`usedDS
      ensures View() == AddUsed(old(View()), upstream, -mbw)
    {
      if upstream { usedUS := usedUS - mbw; } else { usedDS := usedDS - mbw; }
    }

    method SessionDone()
      modifies this`sessions
      ensures View() == old(View()).(sessions := old(sessions) - 1)
    {
      sessions := sessions - 1;
    }

    method ScanPorts(start: int, free: int -> bool) returns (port: Option<int>)
      requires cfg.Ranged()
      ensures port == Scan(cfg, start, free, 0)
    {
      var span, i := cfg.Span(), 0;
      while i < span
        invariant 0 <= i <= span
        invariant Scan(cfg, start, free, 0) == Scan(cfg, start, free, i)
      {
        var p := cfg.portMin + (start - cfg.portMin + i) % span;
        if free(p) { return Some(p); }
        i := i + 1;
      }
      return None;
    }

    /** A session slot and a bound socket; when no port can be bound the slot is given back. */
    method NewSessionSocket(free: int -> bool, ephemeral: Option<int>) returns (port: Option<int>)
      requires cfg.Ranged() ==> cfg.InRange(nextPort)
      modifies this`sessions, this`nextPort
      ensures port == Socket(cfg, old(View()), free, ephemeral)
      ensures port.None? ==> View() == old(View())
      ensures port.Some? ==>
                View() == old(View()).(sessions := old(sessions) + 1,
                                       nextPort := if cfg.Ranged() then PortAfter(cfg, port.value) else old(nextPort))
      ensures cfg.Ranged() ==> cfg.InRange(nextPort)
    {
      if closed || sessions >= cfg.maxSessions { return None; }
      sessions := sessions + 1;
      if cfg.portMin > 0 && cfg.portMax >= cfg.portMin {
        port := ScanPorts(nextPort, free);
        if port.None? { SessionDone(); return; }
        ScanFindsFirst(cfg, nextPort, free, 0);
        nextPort := port.value + 1;
        if nextPort > cfg.portMax { nextPort := cfg.portMin; }
        return;
      }
      if ephemeral.None? { SessionDone(); }
      return ephemeral;
    }

    method Respond(code: u8)
      modifies this`accepts, this`rejects
      ensures View() == if code == ACK_OK then old(View()).(accepts := Wrap64(old(accepts) + 1))
                        else old(View()).(rejects := Wrap64(old(rejects) + 1))
    {
      if code == ACK_OK { accepts := Wrap64(accepts + 1); } else { rejects := Wrap64(rejects + 1); }
    }

    /** A setup handled with nothing in between: accepted exactly when admissible, and a rejected one
        leaves nothing behind but the count of rejections. */
    method HandleSetup(req: SetupPDU, auth: AuthCheck, free: int -> bool, ephemeral: Option<int>) returns (code: u8)
      requires cfg.Ranged() ==> cfg.InRange(nextPort)
      modifies this
      ensures cfg.Ranged() ==> cfg.InRange(nextPort)
      ensures var socket := Socket(cfg, old(View()), free, ephemeral);
              && code == Code(cfg, old(View()), req, auth, socket)
              && (code == ACK_OK <==> Admissible(cfg, old(View()), req, auth, socket))
              && (code == ACK_OK ==> View() == Charged(cfg, old(View()), req, socket.value))
      ensures code != ACK_OK ==> View() == old(View()).(rejects := Wrap64(old(rejects) + 1))
    {
      AcceptedIffAdmissible(cfg, View(), req, auth, Socket(cfg, View(), free, ephemeral));
      code := Check(req, auth);
      if code == 0 { code := Allocate(req, free, ephemeral); }
      Respond(code);
    }

    /** The first check that fails decides the code. */
    method Check(req: SetupPDU, auth: AuthCheck) returns (code: u8)
      ensures code == Screen(cfg, req, auth)
    {
      if req.auth.authMode == 1 && cfg.haveKeys {
        if auth == Failed { return AUTH_FAIL; }
        if auth == Stale { return AUTH_TIME; }
      }
      if req.protocolVer < 11 || req.protocolVer > 20 { return BAD_VERSION; }
      if req.mcCount == 0 || req.mcCount > 24 || req.mcIndex >= req.mcCount { return MC_INV_PAR; }
      if (req.modifiers % 2 == 1) != cfg.jumbo { return BAD_JUMBO; }
      if (req.modifiers / 2 % 2 == 1) != cfg.trad { return BAD_TMTU; }
      if cfg.maxBandwidth > 0 && Mbps(req) == 0 { return NO_MAX_BW; }
      return 0;
    }

    method CheckMode(mode: u8) returns (code: u8)
      ensures code == ModeCode(cfg, mode)
    {
      if mode == 1 && !cfg.haveKeys { return AUTH_NC; }
      if mode == 0 && cfg.haveKeys { return AUTH_REQ; }
      if mode > 1 { return AUTH_INV; }
      return 0;
    }

    /** Reserves bandwidth, checks the authentication mode and binds a socket; undoes what it did on failure. */
    method Allocate(req: SetupPDU, free: int -> bool, ephemeral: Option<int>) returns (code: u8)
      requires cfg.Ranged() ==> cfg.InRange(nextPort)
      modifies this`usedUS, this`usedDS, this`sessions, this`nextPort
      ensures cfg.Ranged() ==> cfg.InRange(nextPort)
      ensures code == AllocationCode(cfg, old(View()), req, Socket(cfg, old(View()), free, ephemeral))
      ensures code == ACK_OK ==>
              View() == Charged(cfg, old(View()), req, Socket(cfg, old(View()), free, ephemeral).value).(accepts := old(accepts))
      ensures code != ACK_OK ==> View() == old(View())
    {
      var upstream, mbw: int := Upstream(req), 0;
      if cfg.maxBandwidth > 0 {
        mbw := Mbps(req);
        var ok := ReserveBandwidth(upstream, mbw);
        if !ok { return CAP_EXC; }
      }
      code := CheckMode(req.auth.authMode);
      if code == 0 {
        var port := NewSessionSocket(free, ephemeral);
        code := if port.None? then CONN_FAIL else ACK_OK;
      }
      if code != ACK_OK && mbw > 0 { ReleaseBandwidth(upstream, mbw); }
    }
  }

  // ---------------------------------------------------------------------------
  // Interleavings
  // ---------------------------------------------------------------------------

  /** Where the setup in flight is, with what it holds. */
  datatype Setup =
    | Idle
    | Screened(up: bool, mbw: nat, mode: u8)
    | Reserved(up: bool, mbw: nat, mode: u8)
    | WantsSlot(up: bool, mbw: nat)
    | HasSlot(up: bool, mbw: nat)
    | Scanning(up: bool, mbw: nat, start: int)
    | Bound(up: bool, mbw: nat)
    | Answered(up: bool, mbw: nat)
    | GivesBack(up: bool, mbw: nat)
    | Undoes(up: bool, mbw: nat, code: u8)
    | Refuses(code: u8)

  /** A live session; once its bandwidth is released only its slot is left. */
  datatype Session = Session(up: bool, mbw: nat, released: bool)

  /** arrived, accepted and rejected count setup requests; they are not variables of the source. */
  datatype State = State(l: Ledger, setup: Setup, live: seq<Session>, arrived: nat, accepted: nat, rejected: nat)

  datatype Event =
    | Arrive(req: SetupPDU, auth: AuthCheck)
    | Proceed(free: int -> bool, ephemeral: Option<int>)
    | Release(i: nat)
    | Done(i: nat)
    | Close

  /** The next atomic step of the setup in flight. */
  function Advance(cfg: Config, s: State, free: int -> bool, ephemeral: Option<int>): State
  {
    match s.setup
    case Idle => s
    case Screened(up, mbw, mode) =>
      if cfg.maxBandwidth <= 0 then s.(setup := Reserved(up, 0, mode))
      else if Fits(cfg, s.l, up, mbw) then s.(l := AddUsed(s.l, up, mbw), setup := Reserved(up, mbw, mode))
      else s.(setup := Refuses(CAP_EXC))
    case Reserved(up, mbw, mode) =>
      s.(setup := if ModeCode(cfg, mode) != 0 then Undoes(up, mbw, ModeCode(cfg, mode)) else WantsSlot(up, mbw))
    case WantsSlot(up, mbw) =>
      if SlotFree(cfg, s.l) then s.(l := s.l.(sessions := s.l.sessions + 1), setup := HasSlot(up, mbw))
      else s.(setup := Undoes(up, mbw, CONN_FAIL))
    case HasSlot(up, mbw) =>
      if cfg.Ranged() then s.(setup := Scanning(up, mbw, s.l.nextPort))
      else s.(setup := if ephemeral.Some? then Bound(up, mbw) else GivesBack(up, mbw))
    case Scanning(up, mbw, start) =>
      if !cfg.Ranged() then s
      else
        var found := Scan(cfg, start, free, 0);
        if found.None? then s.(setup := GivesBack(up, mbw))
        else s.(l := s.l.(nextPort := PortAfter(cfg, found.value)), setup := Bound(up, mbw))
    case Bound(up, mbw) =>
      s.(l := s.l.(accepts := Wrap64(s.l.accepts + 1)), accepted := s.accepted + 1, setup := Answered(up, mbw))
    case Answered(up, mbw) => s.(live := s.live + [Session(up, mbw, false)], setup := Idle)
    case GivesBack(up, mbw) => s.(l := s.l.(sessions := s.l.sessions - 1), setup := Undoes(up, mbw, CONN_FAIL))
    case Undoes(up, mbw, code) =>
      s.(l := if mbw > 0 then AddUsed(s.l, up, 0 - mbw) else s.l, setup := Refuses(code))
    case Refuses(_) =>
      s.(l := s.l.(rejects := Wrap64(s.l.rejects + 1)), rejected := s.rejected + 1, setup := Idle)
  }

  /** One atomic step of the server; an event that cannot happen now changes nothing. */
  function Next(cfg: Config, s: State, e: Event): State
  {
    match e
    case Arrive(req, auth) =>
      if !s.setup.Idle? then s
      else
        var code := Screen(cfg, req, auth);
        s.(arrived := s.arrived + 1,
           setup := if code != 0 then Refuses(code) else Screened(Upstream(req), Mbps(req), req.auth.authMode))
    case Proceed(free, ephemeral) => Advance(cfg, s, free, ephemeral)
    case Release(i) =>
      if i >= |s.live| || s.live[i].released then s
      else
        var d := s.live[i];
        s.(l := if d.mbw > 0 then AddUsed(s.l, d.up, 0 - d.mbw) else s.l, live := s.live[i := d.(released := true)])
    case Done(i) =>
      if i >= |s.live| || !s.live[i].released then s
      else s.(l := s.l.(sessions := s.l.sessions - 1), live := s.live[..i] + s.live[i + 1..])
    case Close => s.(l := s.l.(closed := true))
  }

  // ---------------------------------------------------------------------------
  // Conservation
  // ---------------------------------------------------------------------------

  function HeldBy(d: Session, up: bool): nat { if d.up == up && !d.released then d.mbw else 0 }

  function HeldLive(live: seq<Session>, up: bool): nat {
    if live == [] then 0 else HeldBy(live[0], up) + HeldLive(live[1..], up)
  }

  /** What the setup in flight has reserved, and whether it holds a slot. */
  function HeldSetup(p: Setup, up: bool): nat {
    if p.Idle? || p.Refuses? || p.Screened? then 0 else if p.up == up then p.mbw else 0
  }

  function SlotSetup(p: Setup): nat {
    if p.HasSlot? || p.Scanning? || p.Bound? || p.Answered? || p.GivesBack? then 1 else 0
  }

  ghost predicate Balanced(s: State, up: bool) { Used(s.l, up) == HeldLive(s.live, up) + HeldSetup(s.setup, up) }

  /** Bandwidth: what is allocated is what is held, within the budget if there is one. */
  ghost predicate BudgetKept(cfg: Config, s: State) {
    && Balanced(s, true) && Balanced(s, false)
    && s.l.usedUS <= Max(cfg.maxBandwidth, 0) && s.l.usedDS <= Max(cfg.maxBandwidth, 0)
  }

  /** Slots: one for each live session and one for the setup in flight from HasSlot on. */
  ghost predicate SlotsKept(cfg: Config, s: State) {
    s.l.sessions == |s.live| + SlotSetup(s.setup) <= Max(cfg.maxSessions, 0)
  }

  /** Answers: every setup that arrived has been counted once, unless it is still in flight. */
  ghost predicate AnswersKept(s: State) {
    && s.l.accepts == Wrap64(s.accepted) && s.l.rejects == Wrap64(s.rejected)
    && s.arrived == s.accepted + s.rejected + if s.setup.Idle? || s.setup.Answered? then 0 else 1
  }

  ghost predicate PortsKept(cfg: Config, s: State) {
    && (cfg.Ranged() ==> cfg.InRange(s.l.nextPort))
    && (s.setup.Scanning? ==> cfg.Ranged() && cfg.InRange(s.setup.start))
  }

  ghost predicate Inv(cfg: Config, s: State) {
    BudgetKept(cfg, s) && SlotsKept(cfg, s) && AnswersKept(s) && PortsKept(cfg, s)
  }

  lemma {:induction false} HeldUpdate(live: seq<Session>, i: nat, d: Session, up: bool)
    requires i < |live|
    ensures HeldLive(live[i := d], up) == HeldLive(live, up) - HeldBy(live[i], up) + HeldBy(d, up)
  {
    var live' := live[i := d];
    if i == 0 {
      assert live'[1..] == live[1..];
    } else {
      HeldUpdate(live[1..], i - 1, d, up);
      assert live'[1..] == live[1..][i - 1 := d];
    }
  }

  lemma {:induction false} HeldRemove(live: seq<Session>, i: nat, up: bool)
    requires i < |live|
    ensures HeldLive(live[..i] + live[i + 1..], up) == HeldLive(live, up) - HeldBy(live[i], up)
  {
    var live' := live[..i] + live[i + 1..];
    if i == 0 {
      assert live' == live[1..];
    } else {
      HeldRemove(live[1..], i - 1, up);
      assert live'[1..] == live[1..][..i - 1] + live[1..][i..];
    }
  }

  lemma {:induction false} HeldAppend(live: seq<Session>, d: Session, up: bool)
    ensures HeldLive(live + [d], up) == HeldLive(live, up) + HeldBy(d, up)
  {
    if live != [] {
      HeldAppend(live[1..], d, up);
      assert (live + [d])[1..] == live[1..] + [d];
    }
  }

  lemma {:induction false} BudgetAdvance(cfg: Config, s: State, free: int -> bool, ephemeral: Option<int>)
    requires BudgetKept(cfg, s)
    ensures BudgetKept(cfg, Advance(cfg, s, free, ephemeral))
  {
    if s.setup.Answered? {
      HeldAppend(s.live, Session(s.setup.up, s.setup.mbw, false), true);
      HeldAppend(s.live, Session(s.setup.up, s.setup.mbw, false), false);
    }
  }

  lemma {:induction false} BudgetStep(cfg: Config, s: State, e: Event)
    requires BudgetKept(cfg, s)
    ensures BudgetKept(cfg, Next(cfg, s, e))
  {
    match e
    case Proceed(free, ephemeral) => BudgetAdvance(cfg, s, free, ephemeral);
    case Release(i) =>
      if i < |s.live| {
        HeldUpdate(s.live, i, s.live[i].(released := true), true);
        HeldUpdate(s.live, i, s.live[i].(released := true), false);
      }
    case Done(i) =>
      if i < |s.live| {
        HeldRemove(s.live, i, true);
        HeldRemove(s.live, i, false);
      }
    case _ =>
  }

  lemma {:induction false} SlotsStep(cfg: Config, s: State, e: Event)
    requires SlotsKept(cfg, s)
    ensures SlotsKept(cfg, Next(cfg, s, e))
  {
  }

  lemma {:induction false} AnswersStep(cfg: Config, s: State, e: Event)
    requires AnswersKept(s)
    ensures AnswersKept(Next(cfg, s, e))
  {
    WrapSum64(s.accepted, 1);
    WrapSum64(s.rejected, 1);
  }

  lemma {:induction false} PortsStep(cfg: Config, s: State, e: Event)
    requires PortsKept(cfg, s)
    ensures PortsKept(cfg, Next(cfg, s, e))
  {
    if s.setup.Scanning? && e.Proceed? { ScanFindsFirst(cfg, s.setup.start, e.free, 0); }
  }

  /** Every step, of the setup in flight or of any session, keeps the books. */
  lemma {:induction false} NextKeeps(cfg: Config, s: State, e: Event)
    requires Inv(cfg, s)
    ensures Inv(cfg, Next(cfg, s, e))
  {
    BudgetStep(cfg, s, e);
    SlotsStep(cfg, s, e);
    AnswersStep(cfg, s, e);
    PortsStep(cfg, s, e);
  }

  function Start(cfg: Config): State { State(FreshLedger(cfg), Idle, [], 0, 0, 0) }

  /** The server after a run of events, in whatever order they come. */
  function Run(cfg: Config, s: State, es: seq<Event>): State
    decreases |es|
  {
    if es == [] then s else Run(cfg, Next(cfg, s, es[0]), es[1..])
  }

  lemma {:induction false} RunKeeps(cfg: Config, s: State, es: seq<Event>)
    requires Inv(cfg, s)
    ensures Inv(cfg, Run(cfg, s, es))
    decreases |es|
  {
    if es != [] {
      NextKeeps(cfg, s, es[0]);
      RunKeeps(cfg, Next(cfg, s, es[0]), es[1..]);
    }
  }

  /** Admission is safe under every interleaving: what is allocated is what live sessions and the
      setup in flight hold, never more than the budget; sessions stay within their limit; every
      setup that arrived is answered once; and with nothing live or in flight everything is back
      at zero. */
  lemma {:induction false} AdmissionSafe(cfg: Config, es: seq<Event>)
    ensures var s := Run(cfg, Start(cfg), es);
            && s.l.usedUS == HeldLive(s.live, true) + HeldSetup(s.setup, true)
            && s.l.usedDS == HeldLive(s.live, false) + HeldSetup(s.setup, false)
            && 0 <= s.l.usedUS <= Max(cfg.maxBandwidth, 0) && 0 <= s.l.usedDS <= Max(cfg.maxBandwidth, 0)
            && |s.live| <= s.l.sessions <= Max(cfg.maxSessions, 0)
            && s.l.accepts == Wrap64(s.accepted) && s.l.rejects == Wrap64(s.rejected)
            && (s.setup.Idle? ==> s.accepted + s.rejected == s.arrived)
            && (cfg.Ranged() ==> cfg.InRange(s.l.nextPort))
            && (s.live == [] && s.setup == Idle ==> s.l.usedUS == s.l.usedDS == s.l.sessions == 0)
  {
    RunKeeps(cfg, Start(cfg), es);
  }

  /** How many steps a setup in flight has left at most. */
  function Left(p: Setup): nat {
    match p
    case Idle => 0
    case Refuses(_) | Answered(_, _) => 1
    case Undoes(_, _, _) | Bound(_, _) => 2
    case GivesBack(_, _) => 3
    case Scanning(_, _, _) => 4
    case HasSlot(_, _) => 5
    case WantsSlot(_, _) => 6
    case Reserved(_, _, _) => 7
    case Screened(_, _, _) => 8
  }

  lemma {:induction false} SetupEnds(cfg: Config, s: State, free: int -> bool, ephemeral: Option<int>)
    requires !s.setup.Idle? && PortsKept(cfg, s)
    ensures Left(Advance(cfg, s, free, ephemeral).setup) < Left(s.setup)
  {
  }

  /** From any reachable state the setup in flight and then the sessions, oldest first, can end, and
      nothing is left allocated. */
  lemma {:induction false} Drains(cfg: Config, s: State) returns (es: seq<Event>)
    requires Inv(cfg, s)
    ensures var t := Run(cfg, s, es); t.setup == Idle && t.live == [] && t.l.usedUS == t.l.usedDS == t.l.sessions == 0
    decreases Left(s.setup), |s.live|
  {
    if !s.setup.Idle? {
      var e := Proceed(_ => false, None);
      SetupEnds(cfg, s, e.free, None);
      NextKeeps(cfg, s, e);
      var rest := Drains(cfg, Next(cfg, s, e));
      es := [e] + rest;
      assert es[1..] == rest;
    } else if s.live == [] {
      es := [];
    } else {
      var s1 := Next(cfg, s, Release(0));
      NextKeeps(cfg, s, Release(0));
      var s2 := Next(cfg, s1, Done(0));
      NextKeeps(cfg, s1, Done(0));
      var rest := Drains(cfg, s2);
      es := [Release(0)] + ([Done(0)] + rest);
      assert es[1..] == [Done(0)] + rest && ([Done(0)] + rest)[1..] == rest;
      assert Run(cfg, s, es) == Run(cfg, s1, [Done(0)] + rest) == Run(cfg, s2, rest);
    }
  }

  // ---------------------------------------------------------------------------
  // A setup that nothing interrupts
  // ---------------------------------------------------------------------------

  function Proceeds(cfg: Config, s: State, free: int -> bool, ephemeral: Option<int>, n: nat): State
    decreases n
  {
    if n == 0 then s else Proceeds(cfg, Advance(cfg, s, free, ephemeral), free, ephemeral, n - 1)
  }

  function Refused(s: State): State {
    s.(setup := Idle, rejected := s.rejected + 1, l := s.l.(rejects := Wrap64(s.l.rejects + 1)))
  }

  function Admitted(cfg: Config, s: State, up: bool, mbw: nat, port: int): State {
    s.(setup := Idle, live := s.live + [Session(up, mbw, false)], accepted := s.accepted + 1,
       l := s.l.(sessions := s.l.sessions + 1, accepts := Wrap64(s.l.accepts + 1),
                 nextPort := if cfg.Ranged() then PortAfter(cfg, port) else s.l.nextPort))
  }

  lemma {:induction false} RefusalEnds(cfg: Config, s: State, free: int -> bool, ephemeral: Option<int>, n: nat)
    requires s.setup.Idle? || (s.setup.Refuses? && n > 0)
    ensures Proceeds(cfg, s, free, ephemeral, n)
            == if s.setup.Idle? then s else Refused(s)
    decreases n
  {
    if n > 0 { RefusalEnds(cfg, Advance(cfg, s, free, ephemeral), free, ephemeral, n - 1); }
  }

  lemma {:induction false} UndoEnds(cfg: Config, s: State, free: int -> bool, ephemeral: Option<int>, n: nat)
    requires s.setup.Undoes? && n >= 2
    ensures Proceeds(cfg, s, free, ephemeral, n)
            == Refused(s.(l := AddUsed(s.l, s.setup.up, 0 - s.setup.mbw)))
  {
    RefusalEnds(cfg, Advance(cfg, s, free, ephemeral), free, ephemeral, n - 1);
  }

  lemma {:induction false} GiveBackEnds(cfg: Config, s: State, free: int -> bool, ephemeral: Option<int>, n: nat)
    requires s.setup.GivesBack? && n >= 3
    ensures Proceeds(cfg, s, free, ephemeral, n)
            == Refused(s.(l := AddUsed(s.l, s.setup.up, 0 - s.setup.mbw).(sessions := s.l.sessions - 1)))
  {
    UndoEnds(cfg, Advance(cfg, s, free, ephemeral), free, ephemeral, n - 1);
  }

  lemma {:induction false} BoundEnds(cfg: Config, s: State, free: int -> bool, ephemeral: Option<int>, n: nat)
    requires s.setup.Bound? && n >= 2
    ensures Proceeds(cfg, s, free, ephemeral, n)
            == s.(setup := Idle, live := s.live + [Session(s.setup.up, s.setup.mbw, false)], accepted := s.accepted + 1,
                  l := s.l.(accepts := Wrap64(s.l.accepts + 1)))
  {
    var s1 := Advance(cfg, s, free, ephemeral);
    var s2 := Advance(cfg, s1, free, ephemeral);
    assert Proceeds(cfg, s, free, ephemeral, n) == Proceeds(cfg, s1, free, ephemeral, n - 1) == Proceeds(cfg, s2, free, ephemeral, n - 2);
    RefusalEnds(cfg, s2, free, ephemeral, n - 2);
  }

  /** With a slot in hand: live if a socket can be bound, else everything is undone. */
  lemma {:induction false} PortEnds(cfg: Config, s: State, free: int -> bool, ephemeral: Option<int>, n: nat)
    requires s.setup.HasSlot? && n >= 5
    ensures var up, mbw := s.setup.up, s.setup.mbw;
            var socket := if cfg.Ranged() then Scan(cfg, s.l.nextPort, free, 0) else ephemeral;
            var back := s.(l := s.l.(sessions := s.l.sessions - 1));
            Proceeds(cfg, s, free, ephemeral, n)
            == if socket.Some? then Admitted(cfg, back, up, mbw, socket.value)
               else Refused(back.(l := AddUsed(back.l, up, 0 - mbw)))
  {
    var s1 := Advance(cfg, s, free, ephemeral);
    if cfg.Ranged() {
      var s2 := Advance(cfg, s1, free, ephemeral);
      assert Proceeds(cfg, s1, free, ephemeral, n - 1) == Proceeds(cfg, s2, free, ephemeral, n - 2);
      SocketEnds(cfg, s2, free, ephemeral, n - 2);
    } else {
      SocketEnds(cfg, s1, free, ephemeral, n - 1);
    }
  }

  lemma {:induction false} SocketEnds(cfg: Config, s: State, free: int -> bool, ephemeral: Option<int>, n: nat)
    requires (s.setup.GivesBack? || s.setup.Bound?) && n >= 3
    ensures var up, mbw := s.setup.up, s.setup.mbw;
            Proceeds(cfg, s, free, ephemeral, n)
            == if s.setup.Bound? then
                 s.(setup := Idle, live := s.live + [Session(up, mbw, false)], accepted := s.accepted + 1,
                    l := s.l.(accepts := Wrap64(s.l.accepts + 1)))
               else Refused(s.(l := AddUsed(s.l, up, 0 - mbw).(sessions := s.l.sessions - 1)))
  {
    if s.setup.GivesBack? { GiveBackEnds(cfg, s, free, ephemeral, n); } else { BoundEnds(cfg, s, free, ephemeral, n); }
  }

  lemma {:induction false} SlotEnds(cfg: Config, s: State, free: int -> bool, ephemeral: Option<int>, n: nat)
    requires s.setup.WantsSlot? && n >= 6
    ensures var socket, up, mbw := Socket(cfg, s.l, free, ephemeral), s.setup.up, s.setup.mbw;
            Proceeds(cfg, s, free, ephemeral, n)
            == if socket.Some? then Admitted(cfg, s, up, mbw, socket.value) else Refused(s.(l := AddUsed(s.l, up, 0 - mbw)))
  {
    var s1 := Advance(cfg, s, free, ephemeral);
    if SlotFree(cfg, s.l) { PortEnds(cfg, s1, free, ephemeral, n - 1); } else { UndoEnds(cfg, s1, free, ephemeral, n - 1); }
  }

  /** With the reservation in hand. */
  lemma {:induction false} ReservedEnds(cfg: Config, s: State, free: int -> bool, ephemeral: Option<int>, n: nat)
    requires s.setup.Reserved? && n >= 7
    ensures var socket, up, mbw := Socket(cfg, s.l, free, ephemeral), s.setup.up, s.setup.mbw;
            Proceeds(cfg, s, free, ephemeral, n)
            == if ModeCode(cfg, s.setup.mode) == 0 && socket.Some? then Admitted(cfg, s, up, mbw, socket.value)
               else Refused(s.(l := AddUsed(s.l, up, 0 - mbw)))
  {
    var s1 := Advance(cfg, s, free, ephemeral);
    if s1.setup.Undoes? { UndoEnds(cfg, s1, free, ephemeral, n - 1); } else { SlotEnds(cfg, s1, free, ephemeral, n - 1); }
  }

  lemma {:induction false} ScreenedEnds(cfg: Config, s: State, free: int -> bool, ephemeral: Option<int>, n: nat)
    requires s.setup.Screened? && n >= 8
    ensures var socket, up := Socket(cfg, s.l, free, ephemeral), s.setup.up;
            var charge := if cfg.maxBandwidth > 0 then s.setup.mbw else 0;
            var fits := cfg.maxBandwidth > 0 ==> Fits(cfg, s.l, up, s.setup.mbw);
            Proceeds(cfg, s, free, ephemeral, n)
            == if fits && ModeCode(cfg, s.setup.mode) == 0 && socket.Some?
               then Admitted(cfg, s.(l := AddUsed(s.l, up, charge)), up, charge, socket.value)
               else Refused(s)
  {
    var s1 := Advance(cfg, s, free, ephemeral);
    if s1.setup.Refuses? {
      RefusalEnds(cfg, s1, free, ephemeral, n - 1);
    } else {
      ReservedEnds(cfg, s1, free, ephemeral, n - 1);
    }
  }

  /** A setup that nothing interrupts ends as HandleSetup does, within eight steps: live if it was
      admissible, and otherwise without a trace but one more rejection. */
  lemma {:induction false} UninterruptedSetup(cfg: Config, s: State, req: SetupPDU, auth: AuthCheck,
                                              free: int -> bool, ephemeral: Option<int>, n: nat)
    requires s.setup.Idle? && n >= 8
    ensures var socket := Socket(cfg, s.l, free, ephemeral);
            Proceeds(cfg, Next(cfg, s, Arrive(req, auth)), free, ephemeral, n)
            == if Admissible(cfg, s.l, req, auth, socket) then
                 s.(arrived := s.arrived + 1, accepted := s.accepted + 1, l := Charged(cfg, s.l, req, socket.value),
                    live := s.live + [Session(Upstream(req), Charge(cfg, req), false)])
               else
                 s.(arrived := s.arrived + 1, rejected := s.rejected + 1, l := s.l.(rejects := Wrap64(s.l.rejects + 1)))
  {
    var s1 := Next(cfg, s, Arrive(req, auth));
    if s1.setup.Refuses? {
      RefusalEnds(cfg, s1, free, ephemeral, n);
    } else {
      ScreenedEnds(cfg, s1, free, ephemeral, n);
    }
  }
}
