/** Receiver accounting (internal/udpst/accounting.go): one stream of load datagrams counted into
    two independent partitions, trial intervals and sub-intervals. */
module Accounting {
  import opened Words
  import opened Messages
  import opened Clock
  import opened SequenceTracking
  import opened RateSearch

  datatype DelayStats = DelayStats(min: u32, max: u32, sum: u32, cnt: u32)

  const NO_DELAYS := DelayStats(NO_DELAY, 0, 0, 0)

  datatype Trial = Trial(rxDatagrams: u32, rxBytes: u32, errs: SeqErrs, delay: DelayStats, ce: u32)

  const EMPTY_TRIAL := Trial(0, 0, NO_ERRS, NO_DELAYS, 0)

  const EMPTY_SUB := SubIntStats(0, 0, 0, 0, 0, 0, NO_DELAY, 0, 0, 0, NO_DELAY, 0, 0)

  /** The running minimum of receive time minus send time. */
  datatype Offset = Offset(deltaMin: int, known: bool, updated: bool)

  datatype Rtt = Rtt(min: u32, varSample: u32, echoSec: u32, echoNsec: u32)

  datatype Acct = Acct(
    win: Window, offset: Offset, rtt: Rtt, trial: Trial,
    sub: SubIntStats, subCE: u32, subStart: int, accumMs: u32,
    saved: SubIntStats, savedCE: u32, subIntSeq: u32, rolled: bool)
  {
    predicate Valid() { win.Valid() }
  }

  function SubErrs(s: SubIntStats): SeqErrs { SeqErrs(s.seqErrLoss, s.seqErrOoo, s.seqErrDup) }

  function SubDelay(s: SubIntStats): DelayStats {
    DelayStats(s.delayVarMin, s.delayVarMax, s.delayVarSum, s.delayVarCnt)
  }

  function FreshAcct(now: int): (a: Acct)
    ensures a.Valid()
  {
    Acct(FreshWindow(), Offset(0, false, false), Rtt(NO_DELAY, NO_DELAY, 0, 0), EMPTY_TRIAL,
         EMPTY_SUB, 0, now, 0, SubIntStats(0, 0, 0, 0, 0, 0, 0, 0, 0, 0, 0, 0, 0), 0, 0, false)
  }

  function NoteDelay(d: DelayStats, dv: u32): DelayStats {
    DelayStats(if d.min == NO_DELAY || dv < d.min then dv else d.min,
               if dv > d.max then dv else d.max,
               Wrap32(d.sum + dv), Wrap32(d.cnt + 1))
  }

  function NoteOffset(o: Offset, delta: int): Offset {
    if !o.known || delta < o.deltaMin then Offset(delta, true, true) else o
  }

  /** The datagram echoes a status message that was not echoed before. */
  predicate EchoesNew(r: Rtt, h: LoadPDU) {
    && (h.spduTimeSec != 0 || h.spduTimeNsec != 0)
    && (h.spduTimeSec != r.echoSec || h.spduTimeNsec != r.echoNsec)
  }

  /** The round trip of an echo, with the client's response delay taken out. */
  function RoundTrip(rx: Wall, h: LoadPDU): u32 {
    Wrap32(Max(0, WallDiffMs(rx, h.spduTimeSec, h.spduTimeNsec) - h.rttRespDelay))
  }

  function NoteRtt(r: Rtt, rx: Wall, h: LoadPDU): Rtt {
    var rtt := RoundTrip(rx, h);
    var min := if r.min == NO_DELAY || rtt < r.min then rtt else r.min;
    Rtt(min, Wrap32(rtt - min), h.spduTimeSec, h.spduTimeNsec)
  }

  function CountDatagram(a: Acct, payload: u16): Acct {
    a.(trial := a.trial.(rxDatagrams := Wrap32(a.trial.rxDatagrams + 1),
                         rxBytes := Wrap32(a.trial.rxBytes + payload)),
       sub := a.sub.(rxDatagrams := Wrap32(a.sub.rxDatagrams + 1),
                     rxBytes := Wrap64(a.sub.rxBytes + payload)))
  }

  function RecordSeqSpec(a: Acct, x: u32): (a': Acct)
    requires a.Valid()
    ensures a'.Valid()
  {
    var kind := Classify(a.win, x);
    var errs := Tally(SubErrs(a.sub), kind);
    a.(win := Track(a.win, x),
       trial := a.trial.(errs := Tally(a.trial.errs, kind)),
       sub := a.sub.(seqErrLoss := errs.loss, seqErrOoo := errs.ooo, seqErrDup := errs.dup))
  }

  function RecordDelay(a: Acct, rx: Wall, h: LoadPDU): Acct {
    var delta := WallDiffMs(rx, h.timeSec, h.timeNsec);
    var offset := NoteOffset(a.offset, delta);
    var dv := Wrap32(delta - offset.deltaMin);
    var d := NoteDelay(SubDelay(a.sub), dv);
    a.(offset := offset,
       trial := a.trial.(delay := NoteDelay(a.trial.delay, dv)),
       sub := a.sub.(delayVarMin := d.min, delayVarMax := d.max, delayVarSum := d.sum, delayVarCnt := d.cnt))
  }

  function RecordRtt(a: Acct, rx: Wall, h: LoadPDU): Acct {
    if !EchoesNew(a.rtt, h) then a
    else
      var rtt := NoteRtt(a.rtt, rx, h);
      a.(rtt := rtt,
         sub := a.sub.(rttVarMin := if a.sub.rttVarMin == NO_DELAY || rtt.varSample < a.sub.rttVarMin
                                    then rtt.varSample else a.sub.rttVarMin,
                       rttVarMax := if rtt.varSample > a.sub.rttVarMax then rtt.varSample else a.sub.rttVarMax))
  }

  /** The whole effect of one load datagram; only advancing ones carry delay information. */
  function RecordLoadSpec(a: Acct, rx: Wall, h: LoadPDU): (a': Acct)
    requires a.Valid()
    ensures a'.Valid()
  {
    var b := RecordSeqSpec(CountDatagram(a, h.udpPayload), h.seqNo);
    if Classify(a.win, h.seqNo).Advance? then RecordRtt(RecordDelay(b, rx, h), rx, h) else b
  }

  /** Whether the active sub-interval is closed; subInt == 0 asks for the final partial one. */
  predicate Rolls(a: Acct, now: int, subInt: nat, trialInt: nat) {
    && (subInt > 0 ==> now - a.subStart > subInt - trialInt / 2)
    && (subInt == 0 ==> a.sub.rxDatagrams != 0)
  }

  /** The sub-interval's counters are saved. */
  function SaveSub(a: Acct, elapsed: int): (a': Acct)
    requires a.Valid()
    ensures a'.Valid()
  {
    var accumMs := Wrap32(a.accumMs + Wrap32(TruncDiv(elapsed, MS)));
    a.(accumMs := accumMs, saved := a.sub.(deltaTime := Wrap32(TruncDiv(elapsed, US)), accumTime := accumMs),
       savedCE := a.subCE, subIntSeq := Wrap32(a.subIntSeq + 1), rolled := true)
  }

  function RollSpec(a: Acct, now: int): (a': Acct)
    requires a.Valid()
    ensures a'.Valid()
  {
    SaveSub(a, now - a.subStart).(sub := EMPTY_SUB, subCE := 0, subStart := now)
  }

  function MaybeRollSpec(a: Acct, now: int, subInt: nat, trialInt: nat): (a': Acct)
    requires a.Valid()
    ensures a'.Valid()
  {
    if Rolls(a, now, subInt, trialInt) then RollSpec(a, now) else a
  }

  function ResetTrialSpec(a: Acct): (a': Acct)
    requires a.Valid()
    ensures a'.Valid()
  {
    a.(trial := EMPTY_TRIAL, offset := a.offset.(updated := false))
  }

  const ZERO_RATE := Rate(0, 0, 0, 0, 0, 0, 0)

  /** The counters as a status message; action, sequence number, rate row and version come from the caller. */
  function StatusOf(a: Acct, now: int, lastStatus: int, wall: Wall): StatusPDU {
    StatusPDU(0, 0, 0, ZERO_RATE, a.subIntSeq, a.saved,
              a.trial.errs.loss, a.trial.errs.ooo, a.trial.errs.dup, Wrap32(a.offset.deltaMin),
              a.trial.delay.min, a.trial.delay.max, a.trial.delay.sum, a.trial.delay.cnt,
              a.rtt.min, a.rtt.varSample, BoolByte(a.offset.updated),
              Wrap32(TruncDiv(now - lastStatus, US)), a.trial.rxDatagrams, a.trial.rxBytes,
              Wrap32(wall.sec), Wrap32(wall.nsec), 0, a.trial.ce, a.savedCE, 0, false)
  }

  /** The trial counters as the rate search takes them. */
  function TrialInputOf(a: Acct): TrialInput {
    TrialInput(a.trial.errs.loss, a.trial.errs.ooo, a.trial.errs.dup, a.trial.delay.sum, a.trial.delay.cnt,
               a.rtt.varSample, a.trial.rxDatagrams, a.trial.ce, a.subIntSeq)
  }

  // ---------------------------------------------------------------------------
  // The accounting object
  // ---------------------------------------------------------------------------

  /** The fields of the source's object; the trial counters, the clock offset and the round trip
      state are each kept as one record, as the source keeps the sub-interval. */
  class RxAccounting {
    var seqNo: u32
    const history: array<u32>
    var histIdx: nat
    var offset: Offset
    var rtt: Rtt
    var trial: Trial
    var sub: SubIntStats
    var subCE: u32
    var subStart: int
    var accumMs: u32
    var saved: SubIntStats
    var savedCE: u32
    var subIntSeq: u32
    var rolled: bool

    ghost predicate Valid()
      reads this
    {
      history.Length == HISTORY && histIdx < HISTORY
    }

    ghost function View(): Acct
      reads this, history
    {
      Acct(Window(seqNo, history[..], histIdx), offset, rtt, trial,
           sub, subCE, subStart, accumMs, saved, savedCE, subIntSeq, rolled)
    }

    constructor (now: int)
      ensures Valid() && fresh(history)
      ensures View() == FreshAcct(now)
    {
      seqNo, histIdx := 0, 0;
      history := new u32[HISTORY](_ => 0);
      offset := Offset(0, false, false);
      rtt := Rtt(NO_DELAY, NO_DELAY, 0, 0);
      trial := EMPTY_TRIAL;
      sub := EMPTY_SUB;
      subCE, subStart, accumMs, savedCE, subIntSeq, rolled := 0, now, 0, 0, 0, false;
      saved := SubIntStats(0, 0, 0, 0, 0, 0, 0, 0, 0, 0, 0, 0, 0);
      new;
      assert history[..] == FreshWindow().ring;
    }

    method PushHistory(x: u32)
      requires Valid()
      modifies this`histIdx, history
      ensures Valid()
      ensures View() == old(View()).(win := Push(old(View()).win, x))
    {
      history[histIdx] := x;
      histIdx := (histIdx + 1) % HISTORY;
    }

    method InHistory(x: u32) returns (found: bool)
      requires Valid()
      ensures found <==> x in history[..]
    {
      for i := 0 to history.Length
        invariant x !in history[..i]
      {
        if history[i] == x { return true; }
      }
      assert history[..history.Length] == history[..];
      return false;
    }

    method RecordSeq(x: u32) returns (advances: bool)
      requires Valid()
      modifies this`seqNo, this`histIdx, this`trial, this`sub, history
      ensures Valid()
      ensures View() == RecordSeqSpec(old(View()), x)
      ensures advances <==> Classify(old(View()).win, x).Advance?
    {
      var errs := trial.errs;
      if x >= Wrap32(seqNo + 1) {
        var gap := Wrap32(x - seqNo - 1);
        trial := trial.(errs := errs.(loss := Wrap32(errs.loss + gap)));
        sub := sub.(seqErrLoss := Wrap32(sub.seqErrLoss + gap));
        seqNo := x;
        PushHistory(x);
        return true;
      }
      var known := InHistory(x);
      if known {
        trial := trial.(errs := errs.(dup := Wrap32(errs.dup + 1)));
        sub := sub.(seqErrDup := Wrap32(sub.seqErrDup + 1));
        return false;
      }
      errs := errs.(ooo := Wrap32(errs.ooo + 1));
      sub := sub.(seqErrOoo := Wrap32(sub.seqErrOoo + 1));
      if errs.loss > 0 { errs := errs.(loss := errs.loss - 1); }
      if sub.seqErrLoss > 0 { sub := sub.(seqErrLoss := sub.seqErrLoss - 1); }
      trial := trial.(errs := errs);
      PushHistory(x);
      return false;
    }

    method RecordLoad(rx: Wall, h: LoadPDU)
      requires Valid()
      modifies this, history
      ensures Valid()
      ensures View() == RecordLoadSpec(old(View()), rx, h)
    {
      trial := trial.(rxDatagrams := Wrap32(trial.rxDatagrams + 1), rxBytes := Wrap32(trial.rxBytes + h.udpPayload));
      sub := sub.(rxDatagrams := Wrap32(sub.rxDatagrams + 1), rxBytes := Wrap64(sub.rxBytes + h.udpPayload));
      var advances := RecordSeq(h.seqNo);
      if advances {
        TakeDelay(rx, h);
        TakeRtt(rx, h);
      }
    }

    method TakeDelay(rx: Wall, h: LoadPDU)
      requires Valid()
      modifies this`offset, this`trial, this`sub
      ensures Valid()
      ensures View() == RecordDelay(old(View()), rx, h)
    {
      var delta := WallDiffMs(rx, h.timeSec, h.timeNsec);
      var o := offset;
      if !o.known || delta < o.deltaMin { o := Offset(delta, true, true); }
      offset := o;
      var dv := Wrap32(delta - o.deltaMin);
      var d := trial.delay;
      if d.min == NO_DELAY || dv < d.min { d := d.(min := dv); }
      if dv > d.max { d := d.(max := dv); }
      trial := trial.(delay := d.(sum := Wrap32(d.sum + dv), cnt := Wrap32(d.cnt + 1)));
      var s := sub;
      if s.delayVarMin == NO_DELAY || dv < s.delayVarMin { s := s.(delayVarMin := dv); }
      if dv > s.delayVarMax { s := s.(delayVarMax := dv); }
      sub := s.(delayVarSum := Wrap32(s.delayVarSum + dv), delayVarCnt := Wrap32(s.delayVarCnt + 1));
    }

    method TakeRtt(rx: Wall, h: LoadPDU)
      requires Valid()
      modifies this`rtt, this`sub
      ensures Valid()
      ensures View() == RecordRtt(old(View()), rx, h)
    {
      if h.spduTimeSec == 0 && h.spduTimeNsec == 0 { return; }
      if h.spduTimeSec == rtt.echoSec && h.spduTimeNsec == rtt.echoNsec { return; }
      var sample := WallDiffMs(rx, h.spduTimeSec, h.spduTimeNsec) - h.rttRespDelay;
      if sample < 0 { sample := 0; }
      var r := Wrap32(sample);
      var min := rtt.min;
      if min == NO_DELAY || r < min { min := r; }
      var v := Wrap32(r - min);
      rtt := Rtt(min, v, h.spduTimeSec, h.spduTimeNsec);
      var s := sub;
      if s.rttVarMin == NO_DELAY || v < s.rttVarMin { s := s.(rttVarMin := v); }
      if v > s.rttVarMax { s := s.(rttVarMax := v); }
      sub := s;
    }

    method Snapshot() returns (x: TrialInput)
      requires Valid()
      ensures x == TrialInputOf(View())
    {
      x := TrialInput(trial.errs.loss, trial.errs.ooo, trial.errs.dup, trial.delay.sum, trial.delay.cnt,
                      rtt.varSample, trial.rxDatagrams, trial.ce, subIntSeq);
    }

    method MaybeRoll(now: int, subInt: nat, trialInt: nat)
      requires Valid()
      modifies this`sub, this`subCE, this`subStart, this`accumMs, this`saved, this`savedCE, this`subIntSeq, this`rolled
      ensures Valid()
      ensures View() == MaybeRollSpec(old(View()), now, subInt, trialInt)
    {
      var elapsed := now - subStart;
      if subInt > 0 && elapsed <= subInt - trialInt / 2 { return; }
      if sub.rxDatagrams == 0 && subInt == 0 { return; }
      Save(elapsed);
      sub := EMPTY_SUB;
      subCE := 0;
      subStart := now;
    }

    method Save(elapsed: int)
      requires Valid()
      modifies this`accumMs, this`saved, this`savedCE, this`subIntSeq, this`rolled
      ensures Valid()
      ensures View() == SaveSub(old(View()), elapsed)
    {
      accumMs := Wrap32(accumMs + Wrap32(TruncDiv(elapsed, MS)));
      saved := sub.(deltaTime := Wrap32(TruncDiv(elapsed, US)), accumTime := accumMs);
      savedCE := subCE;
      subIntSeq := Wrap32(subIntSeq + 1);
      rolled := true;
    }

    method BuildStatus(now: int, lastStatus: int, wall: Wall) returns (st: StatusPDU)
      requires Valid()
      ensures st == StatusOf(View(), now, lastStatus, wall)
    {
      st := StatusPDU(0, 0, 0, ZERO_RATE, subIntSeq, saved,
                      trial.errs.loss, trial.errs.ooo, trial.errs.dup, Wrap32(offset.deltaMin),
                      trial.delay.min, trial.delay.max, trial.delay.sum, trial.delay.cnt,
                      rtt.min, rtt.varSample, BoolByte(offset.updated),
                      Wrap32(TruncDiv(now - lastStatus, US)), trial.rxDatagrams, trial.rxBytes,
                      Wrap32(wall.sec), Wrap32(wall.nsec), 0, trial.ce, savedCE, 0, false);
    }

    method ResetTrial()
      requires Valid()
      modifies this`trial, this`offset
      ensures Valid()
      ensures View() == ResetTrialSpec(old(View()))
    {
      trial := EMPTY_TRIAL;
      offset := offset.(updated := false);
    }
  }
}
