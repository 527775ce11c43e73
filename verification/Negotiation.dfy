/** Parameter policing and the answer to a test activation (internal/udpst/session.go): the server
    never rejects, it clamps and echoes. */
module Negotiation {
  import opened Words
  import opened Messages
  import opened Clock
  import opened Codec
  import opened RateTable
  import opened RateSearch

  const PROTOCOL_VER: u16 := 20
  const SR_INDEX_AUTO: u16 := 0xFFFF
  const DOWNSTREAM: u8 := 2

  /** The negotiated parameters; durations are in nanoseconds. */
  datatype Params = Params(
    lowThresh: int, upperThresh: int, trialInt: nat, duration: nat, subInt: nat, dscpEcn: u8,
    srIndexConf: int, indexIsStart: bool, useOwDelVar: bool, highSpeedDelta: int, slowAdjThresh: int,
    seqErrThresh: int, ignoreOooDup: bool, randPayload: bool, algo: u8, ecnCEThresh: int, srAdjSupp: u16)

  /** The session's protocol version, the server's limit on test length, and which traffic classes
      the socket accepts. */
  datatype Env = Env(pver: u16, maxTestSeconds: int, tcOk: u8 -> bool) {
    predicate Current() { pver >= PROTOCOL_VER }
  }

  /** x if it is within bounds, else a default. */
  function Within(x: int, lo: int, hi: int, default: int): int {
    if lo <= x <= hi then x else default
  }

  predicate StartBit(modifiers: u8) { modifiers % 2 == 1 }
  predicate RandomBit(modifiers: u8) { modifiers / 2 % 2 == 1 }

  /** ECT(0) or ECT(1), the markings that CE thresholding needs. */
  predicate EcnCapable(dscpEcn: u8) { dscpEcn % 4 == 1 || dscpEcn % 4 == 2 }

  // ---------------------------------------------------------------------------
  // What policing means, parameter by parameter
  // ---------------------------------------------------------------------------

  function Thresholds(low: u16, upper: u16): (int, int) {
    var lt, ut := Within(low, 1, 10000, 30), Within(upper, 1, 10000, 90);
    if lt > ut then (30, 90) else (lt, ut)
  }

  function DurationSec(e: Env, requested: u16): (s: int)
    ensures 1 <= s <= 3600
  {
    Min(Within(requested, 5, 3600, 10), Within(e.maxTestSeconds, 1, 3600, 3600))
  }

  function RequestedSubMs(e: Env, req: TestActPDU): int {
    if e.Current() then req.subIntPeriod else req.legacySubIntSec * 1000
  }

  function SubIntMs(e: Env, req: TestActPDU): (ms: int)
    ensures 100 <= ms <= 10000
  {
    Min(Within(RequestedSubMs(e, req), 100, 10000, 1000), DurationSec(e, req.testIntTime) * 1000)
  }

  function SuppressCount(e: Env, req: TestActPDU): u16 {
    if e.Current() && req.srAdjSuppCount < DurationSec(e, req.testIntTime) * 1000 / SubIntMs(e, req)
    then req.srAdjSuppCount else 0
  }

  function PoliceSpec(e: Env, req: TestActPDU): Params {
    Params(
      Thresholds(req.lowThresh, req.upperThresh).0, Thresholds(req.lowThresh, req.upperThresh).1,
      Within(req.trialInt, 5, 250, 50) * MS,
      DurationSec(e, req.testIntTime) * SECOND,
      SubIntMs(e, req) * MS,
      if e.tcOk(req.dscpEcn) then req.dscpEcn else 0,
      if req.srIndexConf < MAX_SENDING_RATES then req.srIndexConf else -1,
      StartBit(req.modifiers), req.useOwDelVar == 1,
      if req.highSpeedDelta == 0 then 10 else req.highSpeedDelta,
      if req.slowAdjThresh == 0 then 3 else req.slowAdjThresh,
      req.seqErrThresh, req.ignoreOooDup != 0, RandomBit(req.modifiers),
      if req.rateAdjAlgo > 1 then 0 else req.rateAdjAlgo,
      if EcnCapable(req.dscpEcn) then req.ecnCEThresh else 0,
      SuppressCount(e, req))
  }

  function InitialIndex(p: Params): (i: int)
    ensures p.srIndexConf < MAX_SENDING_RATES ==> 0 <= i < MAX_SENDING_RATES
  {
    if p.srIndexConf >= 0 then p.srIndexConf else 0
  }

  /** The row the answer carries: the client of an upstream test transmits what it is told. */
  function AnswerRow(rows: seq<Rate>, req: TestActPDU, p: Params): Rate
    requires |rows| == MAX_SENDING_RATES && p.srIndexConf < MAX_SENDING_RATES
  {
    if req.cmdRequest == DOWNSTREAM then Rate(0, 0, 0, 0, 0, 0, 0) else rows[InitialIndex(p)]
  }

  // ---------------------------------------------------------------------------
  // The session object
  // ---------------------------------------------------------------------------

  class Session {
    const e: Env
    /** The setup was authenticated. */
    const keyed: bool
    var p: Params

    constructor (env: Env, authenticated: bool, initial: Params)
      ensures e == env && keyed == authenticated && p == initial
    {
      e, keyed, p := env, authenticated, initial;
    }

    /** Fills the session's parameters from a request, replacing what is out of range. */
    method Police(req: TestActPDU)
      modifies this`p
      ensures p == PoliceSpec(e, req)
    {
      var lt, ut, ti := PoliceThresholds(req);
      var dur, subMs, supp := PoliceTimes(req);
      var srIndexConf: int := -1;
      if req.srIndexConf != SR_INDEX_AUTO && req.srIndexConf < MAX_SENDING_RATES { srIndexConf := req.srIndexConf; }
      var delta: int := req.highSpeedDelta;
      if delta < 1 { delta := 10; }
      var slow: int := req.slowAdjThresh;
      if slow < 1 { slow := 3; }
      var algo := req.rateAdjAlgo;
      if algo > 1 { algo := 0; }
      var ce: int := req.ecnCEThresh;
      if req.dscpEcn % 4 != 1 && req.dscpEcn % 4 != 2 { ce := 0; }
      var dscpEcn := req.dscpEcn;
      if dscpEcn != 0 && !e.tcOk(dscpEcn) { dscpEcn := 0; }

      p := Params(lt, ut, ti * MS, dur * SECOND, subMs * MS, dscpEcn, srIndexConf,
                  req.modifiers % 2 == 1, req.useOwDelVar == 1, delta, slow, req.seqErrThresh,
                  req.ignoreOooDup != 0, req.modifiers / 2 % 2 == 1, algo, ce, supp);
    }

    /** A datagram on a session that waits for its activation. Anything but a request from the setup's
        peer is ignored, and so is one with a wrong digest on an authenticated session of the current
        version. A request is policed and answered, and over the wire the client can read the very
        parameters the server will use, for current and legacy versions and both PDU sizes, if and only
        if the answer does not drop a marking whose CE threshold it keeps. */
    method Activate(rows: seq<Rate>, request: seq<u8>, fromPeer: bool, verified: bool, auth: AuthTrailer)
      returns (ok: bool, answer: array<u8>)
      requires |rows| == MAX_SENDING_RATES
      modifies this`p
      ensures fresh(answer)
      ensures ok <==> fromPeer && Activates(request) && (e.Current() && keyed ==> verified)
      ensures !ok ==> p == old(p) && answer.Length == 0
      ensures ok ==> Answered(rows, e, ParseTestAct(request).value, p, ParseTestAct(answer[..]))
    {
      answer := new u8[0];
      if !fromPeer { return false, answer; }
      var parsed := ParseTestAct(request);
      if parsed == Malformed || parsed.value.cmdResponse != 0 { return false, answer; }
      if e.pver >= PROTOCOL_VER && keyed && !verified { return false, answer; }
      var req := parsed.value;
      TestActExact(request, req);
      Police(req);
      var sr := AnswerRow(rows, req, p);
      answer := MarshalTestAct(Answer(e, req, p, sr, auth));
      AnswerIsRead(e, req, sr, auth, answer[..]);
      return true, answer;
    }

    method PoliceThresholds(req: TestActPDU) returns (lt: int, ut: int, ti: int)
      ensures (lt, ut) == Thresholds(req.lowThresh, req.upperThresh) && ti == Within(req.trialInt, 5, 250, 50)
    {
      lt, ut, ti := req.lowThresh, req.upperThresh, req.trialInt;
      if lt < 1 || lt > 10000 { lt := 30; }
      if ut < 1 || ut > 10000 { ut := 90; }
      if lt > ut { lt, ut := 30, 90; }
      if ti < 5 || ti > 250 { ti := 50; }
    }

    method PoliceTimes(req: TestActPDU) returns (dur: int, subMs: int, supp: u16)
      ensures dur == DurationSec(e, req.testIntTime) && subMs == SubIntMs(e, req) && supp == SuppressCount(e, req)
    {
      dur := req.testIntTime;
      if dur < 5 || dur > 3600 { dur := 10; }
      var maxDur := e.maxTestSeconds;
      if maxDur <= 0 || maxDur > 3600 { maxDur := 3600; }
      if dur > maxDur { dur := maxDur; }

      if e.pver >= PROTOCOL_VER { subMs := req.subIntPeriod; } else { subMs := req.legacySubIntSec * 1000; }
      if subMs < 100 || subMs > 10000 { subMs := 1000; }
      if subMs > dur * 1000 { subMs := dur * 1000; }

      supp := 0;
      if e.pver >= PROTOCOL_VER {
        var numSub := dur * 1000 / subMs;
        if req.srAdjSuppCount < numSub { supp := req.srAdjSuppCount; }
      }
    }
  }

  // ---------------------------------------------------------------------------
  // The answer
  // ---------------------------------------------------------------------------

  function Narrow8(x: int): u8 { x % 0x100 }

  /** The activation response: the request with the policed values written over it, each narrowed
      to its field. */
  function Answer(e: Env, req: TestActPDU, p: Params, sr: Rate, auth: AuthTrailer): TestActPDU {
    req.(cmdResponse := ACK_OK,
         lowThresh := Wrap16(p.lowThresh), upperThresh := Wrap16(p.upperThresh),
         trialInt := Wrap16(p.trialInt / MS), testIntTime := Wrap16(p.duration / SECOND),
         dscpEcn := p.dscpEcn,
         srIndexConf := if p.srIndexConf < 0 then SR_INDEX_AUTO else Wrap16(p.srIndexConf),
         useOwDelVar := BoolByte(p.useOwDelVar), highSpeedDelta := Narrow8(p.highSpeedDelta),
         slowAdjThresh := Wrap16(p.slowAdjThresh), seqErrThresh := Wrap16(p.seqErrThresh),
         ignoreOooDup := BoolByte(p.ignoreOooDup), rateAdjAlgo := p.algo, ecnCEThresh := Narrow8(p.ecnCEThresh),
         srAdjSuppCount := p.srAdjSupp,
         subIntPeriod := if e.Current() then Wrap16(p.subInt / MS) else req.subIntPeriod,
         legacySubIntSec := if e.Current() then req.legacySubIntSec else Narrow8(p.subInt / SECOND),
         sr := sr, auth := auth)
  }

  /** No narrowing in the answer loses anything: each field stands for the policed value, and what is not
      negotiated comes back as it was. */
  lemma {:induction false} AnswerFaithful(e: Env, req: TestActPDU, sr: Rate, auth: AuthTrailer)
    ensures var p := PoliceSpec(e, req);
            var a := Answer(e, req, p, sr, auth);
            && a.lowThresh == p.lowThresh && a.upperThresh == p.upperThresh
            && a.trialInt * MS == p.trialInt && a.testIntTime * SECOND == p.duration
            && RequestedSubMs(e, a) * MS == p.subInt
            && (p.srIndexConf >= 0 ==> a.srIndexConf == p.srIndexConf != SR_INDEX_AUTO)
            && a.highSpeedDelta == p.highSpeedDelta && a.slowAdjThresh == p.slowAdjThresh
            && a.seqErrThresh == p.seqErrThresh && a.ecnCEThresh == p.ecnCEThresh
            && (p.srIndexConf < 0 ==> a.srIndexConf == 0xFFFF) && a.dscpEcn == p.dscpEcn && a.rateAdjAlgo == p.algo
            && a.useOwDelVar <= 1 && (a.useOwDelVar == 1 <==> p.useOwDelVar)
            && a.ignoreOooDup <= 1 && (a.ignoreOooDup == 1 <==> p.ignoreOooDup) && a.srAdjSuppCount == p.srAdjSupp
            && a.protocolVer == req.protocolVer && a.cmdRequest == req.cmdRequest && a.modifiers == req.modifiers
            && a.cmdResponse == ACK_OK && a.legacy == req.legacy
  {
    ScaleBack(Within(req.trialInt, 5, 250, 50), MS);
    ScaleBack(DurationSec(e, req.testIntTime), SECOND);
    ScaleBack(SubIntMs(e, req), MS);
    LegacySubIntWhole(e, req);
  }

  lemma {:induction false} ScaleBack(x: int, unit: int)
    requires 0 <= x < 0x1_0000 && unit > 0
    ensures Wrap16(x * unit / unit) == x
  {
    DivMod(x, 0, unit);
  }

  /** A legacy sub-interval is a whole number of seconds, so its 8-bit field can hold it. */
  lemma {:induction false} LegacySubIntWhole(e: Env, req: TestActPDU)
    ensures !e.Current() ==> Narrow8(SubIntMs(e, req) * MS / SECOND) * 1000 == SubIntMs(e, req)
  {
    if !e.Current() {
      var sec := Min(Within(req.legacySubIntSec, 1, 10, 1), DurationSec(e, req.testIntTime));
      assert SubIntMs(e, req) == sec * 1000;
      assert SubIntMs(e, req) * MS == sec * SECOND;
      DivMod(sec, 0, SECOND);
    }
  }

  /** The client reads an acknowledgement with the row to start from, and arrives at the server's
      parameters p unless the answer misstates them. */
  predicate Answered(rows: seq<Rate>, e: Env, req: TestActPDU, p: Params, read: Result<TestActPDU>)
    requires |rows| == MAX_SENDING_RATES
  {
    && p == PoliceSpec(e, req)
    && read.Ok? && read.value.cmdResponse == ACK_OK && read.value.sr == AnswerRow(rows, req, p)
    && (PoliceSpec(e, read.value) == p <==> !KeepsThresholdWithoutMarking(e, req))
  }

  /** The one way in which the answer misstates the negotiation: the traffic class could not be set,
      so the answer says 0, but the CE threshold it came with was kept. */
  predicate KeepsThresholdWithoutMarking(e: Env, req: TestActPDU) {
    !e.tcOk(req.dscpEcn) && EcnCapable(req.dscpEcn) && req.ecnCEThresh != 0
  }

  lemma {:induction false} AnswerTimesFixed(e: Env, req: TestActPDU, sr: Rate, auth: AuthTrailer)
    ensures var a := Answer(e, req, PoliceSpec(e, req), sr, auth);
            && Within(a.trialInt, 5, 250, 50) == Within(req.trialInt, 5, 250, 50)
            && DurationSec(e, a.testIntTime) == DurationSec(e, req.testIntTime)
            && SubIntMs(e, a) == SubIntMs(e, req)
  {
    AnswerFaithful(e, req, sr, auth);
  }

  /** Policing its own answer changes nothing, except in that one case. */
  lemma {:induction false} AnswerIsFixedPoint(e: Env, req: TestActPDU, sr: Rate, auth: AuthTrailer)
    ensures var p := PoliceSpec(e, req);
            PoliceSpec(e, Answer(e, req, p, sr, auth)) == p <==> !KeepsThresholdWithoutMarking(e, req)
  {
    AnswerFaithful(e, req, sr, auth);
    AnswerTimesFixed(e, req, sr, auth);
  }

  /** A request for ECT(1) with a CE threshold, to a server that cannot set the marking: the server
      searches with the threshold, and a client that polices the answer without. */
  lemma {:induction false} RefusedMarkingMisstated(sr: Rate, auth: AuthTrailer)
    ensures var e := Env(20, 60, _ => false);
            var req := TestActPDU(20, DOWNSTREAM, 0, 30, 90, 50, 10, 0, 1, SR_INDEX_AUTO, 0, 10, 3, 10, 0, 0, 0, 5,
                                  Rate(0, 0, 0, 0, 0, 0, 0), 1000, 0, NoAuth(), false);
            var p := PoliceSpec(e, req);
            p.ecnCEThresh == 5 && PoliceSpec(e, Answer(e, req, p, sr, auth)).ecnCEThresh == 0
  {
  }

  /** A datagram that a waiting session takes for its test activation. */
  predicate Activates(b: seq<u8>) { ParseTestAct(b).Ok? && ParseTestAct(b).value.cmdResponse == 0 }

  /** What the parser can have produced: the short form carries no suppression count and no trailer. */
  predicate Parsed(req: TestActPDU) {
    1 <= req.cmdRequest <= 2 && (req.legacy ==> req.srAdjSuppCount == 0 && req.auth == NoAuth())
  }

  /** The client reads the answer as the server meant it, up to a trailer that the form cannot carry,
      and would police it to the server's parameters exactly if the traffic class problem does not
      arise. */
  lemma {:induction false} AnswerIsRead(e: Env, req: TestActPDU, sr: Rate, auth: AuthTrailer, b: seq<u8>)
    requires Parsed(req)
    requires var a := Answer(e, req, PoliceSpec(e, req), sr, auth); |b| == TestActSize(a) && TestActAt(b, a)
    ensures var p, carried := PoliceSpec(e, req), if req.legacy then NoAuth() else auth;
            && ParseTestAct(b) == Ok(Answer(e, req, p, sr, carried))
            && (PoliceSpec(e, ParseTestAct(b).value) == p <==> !KeepsThresholdWithoutMarking(e, req))
  {
    var carried := if req.legacy then NoAuth() else auth;
    var a := Answer(e, req, PoliceSpec(e, req), sr, carried);
    assert TestActAt(b, a);
    TestActExact(b, a);
    AnswerIsFixedPoint(e, req, sr, carried);
  }

  // ---------------------------------------------------------------------------
  // Policing against the request
  // ---------------------------------------------------------------------------

  /** The server limits the length of tests; without a limit of its own, to the hour of the protocol. */
  predicate WithinLimit(e: Env, seconds: int) { seconds <= 3600 && (1 <= e.maxTestSeconds <= 3600 ==> seconds <= e.maxTestSeconds) }

  /** A request with nothing to object to. */
  predicate Acceptable(e: Env, req: TestActPDU) {
    var subMs := if e.pver >= 20 then req.subIntPeriod else req.legacySubIntSec as int * 1000;
    && 1 <= req.lowThresh <= req.upperThresh <= 10000
    && 5 <= req.trialInt <= 250
    && 5 <= req.testIntTime && WithinLimit(e, req.testIntTime)
    && 100 <= subMs <= 10000 && subMs <= req.testIntTime * 1000
    && (req.srIndexConf < 1153 || req.srIndexConf == 0xFFFF)
    && req.highSpeedDelta >= 1 && req.slowAdjThresh >= 1 && req.rateAdjAlgo <= 1
    && (req.dscpEcn == 0 || e.tcOk(req.dscpEcn))
    && (req.ecnCEThresh > 0 ==> req.dscpEcn % 4 == 1 || req.dscpEcn % 4 == 2)
    && (if e.pver >= 20 then (req.srAdjSuppCount + 1) * (subMs * MS) <= req.testIntTime * SECOND else req.srAdjSuppCount == 0)
  }

  /** Such a request is taken at its word, field by field. */
  lemma {:induction false} AcceptableIsKept(e: Env, req: TestActPDU)
    requires Acceptable(e, req)
    ensures var p := PoliceSpec(e, req);
            && p.lowThresh == req.lowThresh && p.upperThresh == req.upperThresh
            && p.trialInt == req.trialInt * MS && p.duration == req.testIntTime * SECOND
            && p.subInt == (if e.pver >= 20 then req.subIntPeriod * MS else req.legacySubIntSec * SECOND)
            && p.dscpEcn == req.dscpEcn
            && p.srIndexConf == (if req.srIndexConf == 0xFFFF then -1 else req.srIndexConf)
            && (p.indexIsStart <==> req.modifiers as bv8 & 0x01 != 0) && (p.randPayload <==> req.modifiers as bv8 & 0x02 != 0)
            && (p.useOwDelVar <==> req.useOwDelVar == 1) && (p.ignoreOooDup <==> req.ignoreOooDup != 0)
            && p.highSpeedDelta == req.highSpeedDelta && p.slowAdjThresh == req.slowAdjThresh
            && p.seqErrThresh == req.seqErrThresh && p.algo == req.rateAdjAlgo
            && p.ecnCEThresh == req.ecnCEThresh && p.srAdjSupp == req.srAdjSuppCount
  {
    SuppressionIff(e, req);
    LimitKept(e, req);
    SubIntervalDefault(e, req);
  }

  /** A field that is out of range gets its default, whatever the other fields are: thresholds of 30 and
      90 ms, also when they are the wrong way round, trials of 50 ms, the search instead of an unknown
      row, fast steps of 10 rows, 3 bad trials, algorithm B, no marking, no CE threshold without one. */
  lemma {:induction false} DefaultsApply(e: Env, req: TestActPDU)
    ensures var p := PoliceSpec(e, req);
            && (!(1 <= req.lowThresh <= 10000) ==> p.lowThresh == 30)
            && (!(1 <= req.upperThresh <= 10000) ==> p.upperThresh == 90)
            && (1 <= req.upperThresh < req.lowThresh <= 10000 ==> p.lowThresh == 30 && p.upperThresh == 90)
            && (!(5 <= req.trialInt <= 250) ==> p.trialInt == 50 * MS)
            && (req.srIndexConf >= 1153 ==> p.srIndexConf == -1)
            && (req.highSpeedDelta == 0 ==> p.highSpeedDelta == 10) && (req.slowAdjThresh == 0 ==> p.slowAdjThresh == 3)
            && (req.rateAdjAlgo > 1 ==> p.algo == 0)
            && (req.dscpEcn != 0 && !e.tcOk(req.dscpEcn) ==> p.dscpEcn == 0)
            && (req.dscpEcn % 4 == 0 || req.dscpEcn % 4 == 3 ==> p.ecnCEThresh == 0)
  {
  }

  /** No test is longer than the server allows. One lasts as long as asked for, or 10 s if that is out of
      range, or as long as is allowed if that is less. */
  lemma {:induction false} LimitKept(e: Env, req: TestActPDU)
    ensures var p, asked := PoliceSpec(e, req), if 5 <= req.testIntTime <= 3600 then req.testIntTime else 10;
            && (1 <= e.maxTestSeconds <= 3600 ==> p.duration <= e.maxTestSeconds * SECOND)
            && p.duration == if WithinLimit(e, asked) then asked * SECOND else e.maxTestSeconds * SECOND
  {
  }

  /** A sub-interval out of range is a second, or the whole test if that is shorter. */
  lemma {:induction false} SubIntervalDefault(e: Env, req: TestActPDU)
    ensures var p, subMs := PoliceSpec(e, req), if e.pver >= 20 then req.subIntPeriod else req.legacySubIntSec as int * 1000;
            && (!(100 <= subMs <= 10000) ==> p.subInt == Min(1000 * MS, p.duration))
            && (100 <= subMs <= 10000 ==> p.subInt == Min(subMs * MS, p.duration))
  {
  }

  lemma {:induction false} CountIff(count: nat, sub: nat, total: nat)
    requires sub > 0
    ensures count < total / sub <==> (count + 1) * (sub * MS) <= total * MS
  {
    DivBounds(total, sub);
    assert (count + 1) * (sub * MS) == ((count + 1) * sub) * MS;
    if count < total / sub { MulMono(sub, count + 1, total / sub); } else { MulMono(sub, total / sub + 1, count + 1); }
  }

  /** Adjustment is suppressed for as many sub-intervals as asked for if a whole one is left after them,
      and otherwise not at all; a client of an older version cannot ask. */
  lemma {:induction false} SuppressionIff(e: Env, req: TestActPDU)
    ensures var p := PoliceSpec(e, req);
            p.srAdjSupp == if e.pver >= 20 && (req.srAdjSuppCount + 1) * p.subInt <= p.duration then req.srAdjSuppCount else 0
  {
    CountIff(req.srAdjSuppCount, SubIntMs(e, req), DurationSec(e, req.testIntTime) * 1000);
  }

  // ---------------------------------------------------------------------------
  // The controller a session creates
  // ---------------------------------------------------------------------------

  function NewConfig(t: Table, p: Params): Config {
    Config(t.highSpeedThresh, |t.rows| - 1, p.algo, p.srIndexConf, p.indexIsStart, p.highSpeedDelta, p.slowAdjThresh,
           p.seqErrThresh, p.lowThresh, p.upperThresh, p.useOwDelVar, p.ignoreOooDup, p.ecnCEThresh, p.srAdjSupp)
  }

  /** The suppressed sub-intervals end before the test does. */
  lemma {:induction false} SuppressionEnds(e: Env, req: TestActPDU)
    ensures var p := PoliceSpec(e, req); p.srAdjSupp == 0 || p.srAdjSupp * p.subInt < p.duration
  {
    SuppressionIff(e, req);
    MulStep(PoliceSpec(e, req).srAdjSupp, PoliceSpec(e, req).subInt);
  }

  /** Whatever is requested, policing establishes what the search relies on. */
  lemma {:induction false} PolicedConfigValid(e: Env, req: TestActPDU, jumbo: bool, trad: bool)
    ensures var p := PoliceSpec(e, req);
            var c := NewConfig(RateTableFor(jumbo, trad), p);
            && c.Valid() && 0 <= InitialIndex(p) <= c.maxIdx
            && 1 <= p.lowThresh <= p.upperThresh <= 10000
            && 5 * MS <= p.trialInt <= 250 * MS
            && 1 * SECOND <= p.duration <= 3600 * SECOND
            && 100 * MS <= p.subInt <= Min(10 * SECOND, p.duration)
            && (p.srAdjSupp == 0 || p.srAdjSupp * p.subInt < p.duration)
  {
    SuppressionEnds(e, req);
  }

  /** The search of an acceptable request runs as was asked, field by field. */
  lemma {:induction false} SearchedAsAsked(e: Env, req: TestActPDU, jumbo: bool, trad: bool)
    requires Acceptable(e, req)
    ensures var c := NewConfig(RateTableFor(jumbo, trad), PoliceSpec(e, req));
            && c.hst == 1000 && c.maxIdx == 1152 && c.algo == req.rateAdjAlgo
            && c.lowThresh == req.lowThresh && c.upperThresh == req.upperThresh && c.seqErrThresh == req.seqErrThresh
            && c.highSpeedDelta == req.highSpeedDelta && c.slowAdjThresh == req.slowAdjThresh
            && (c.useOwDelVar <==> req.useOwDelVar == 1) && (c.ignoreOooDup <==> req.ignoreOooDup != 0)
            && c.ecnCEThresh == req.ecnCEThresh && c.srAdjSupp == req.srAdjSuppCount
            && (c.Static() <==> req.srIndexConf != 0xFFFF && req.modifiers % 2 == 0)
            && (req.srIndexConf != 0xFFFF ==> c.srIndexConf == req.srIndexConf)
  {
    AcceptableIsKept(e, req);
  }

  /** The answer to an upstream request names the row that the search starts from: the one asked for, or
      row 0 where there is no such row or none was asked for. A downstream answer names none. */
  lemma {:induction false} AnswerNamesTheStart(e: Env, req: TestActPDU, rows: seq<Rate>, auth: AuthTrailer)
    requires |rows| == MAX_SENDING_RATES
    ensures var p := PoliceSpec(e, req);
            var a := Answer(e, req, p, AnswerRow(rows, req, p), auth);
            && (req.cmdRequest == DOWNSTREAM ==> a.sr == Rate(0, 0, 0, 0, 0, 0, 0))
            && (req.cmdRequest != DOWNSTREAM && req.srIndexConf < 1153 ==> a.sr == rows[req.srIndexConf] && InitialIndex(p) == req.srIndexConf)
            && (req.cmdRequest != DOWNSTREAM && req.srIndexConf >= 1153 ==> a.sr == rows[0] && InitialIndex(p) == 0)
  {
  }
}
