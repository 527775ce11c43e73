/** The sending rate search (internal/udpst/algo.go): algorithms B and C of TR-471, the load rate
    adjustment of RFC 9097 section 8.1, as one branching state machine. */
module RateSearch {
  import opened Words
  import opened Messages

  datatype TrialInput = TrialInput(
    seqErrLoss: u32, seqErrOoo: u32, seqErrDup: u32, delayVarSum: u32, delayVarCnt: u32,
    rttVarSample: u32, rxDatagrams: u32, ceCount: u32, subIntSeqNo: u32)

  datatype Config = Config(
    hst: int, maxIdx: int, algo: u8, srIndexConf: int, indexIsStart: bool,
    highSpeedDelta: int, slowAdjThresh: int, seqErrThresh: int, lowThresh: int, upperThresh: int,
    useOwDelVar: bool, ignoreOooDup: bool, ecnCEThresh: int, srAdjSupp: u32)
  {
    /** What the search relies on; policing establishes it for every request. */
    predicate Valid() {
      && 2 <= hst <= maxIdx
      && -1 <= srIndexConf <= maxIdx
      && highSpeedDelta >= 1 && slowAdjThresh >= 1
      && lowThresh <= upperThresh
    }

    predicate Static() { srIndexConf >= 0 && !indexIsStart }
  }

  datatype Search = Search(index: int, slow: int, retryCount: int, retryThresh: int, update: bool) {
    predicate Valid(c: Config) { 0 <= index <= c.maxIdx && slow >= 0 && retryCount >= 0 && retryThresh >= 0 }
  }

  datatype Verdict = Good | Bad | Hold

  // ---------------------------------------------------------------------------
  // Judging a trial
  // ---------------------------------------------------------------------------

  function SeqErr(c: Config, x: TrialInput): nat {
    x.seqErrLoss + if c.ignoreOooDup then 0 else Wrap32(x.seqErrOoo + x.seqErrDup)
  }

  /** The delay compared with the thresholds; without data it is the lower one. */
  function Delay(c: Config, x: TrialInput): int {
    if c.useOwDelVar then
      if x.delayVarCnt > 0 then MeanDelay(x.delayVarSum, x.delayVarCnt) else c.lowThresh
    else if x.rttVarSample != NO_DELAY then x.rttVarSample
    else c.lowThresh
  }

  /** The 32-bit expression (sum*10/cnt + 5) / 10. */
  function MeanDelay(sum: u32, cnt: u32): u32
    requires cnt > 0
  {
    TenthsMean(Wrap32(sum * 10), cnt)
  }

  function TenthsMean(tenths: u32, cnt: u32): u32
    requires cnt > 0
  {
    QuotientAtMost(tenths, cnt);
    Rounded(tenths / cnt)
  }

  function Rounded(tenths: u32): u32 { Wrap32(tenths + 5) / 10 }

  /** The number of marks allowed, (share*10/255 + 5) / 10 in 32 bits, is the same expression. */
  predicate CEExceeded(c: Config, x: TrialInput) {
    && c.ecnCEThresh > 0 && x.ceCount > 0
    && x.ceCount > MeanDelay(Wrap32(Wrap32(c.ecnCEThresh - 1) * x.rxDatagrams), 255)
  }

  predicate IsGood(c: Config, x: TrialInput) {
    SeqErr(c, x) <= c.seqErrThresh && Delay(c, x) < c.lowThresh && !CEExceeded(c, x)
  }

  predicate IsBad(c: Config, x: TrialInput) {
    SeqErr(c, x) > c.seqErrThresh || Delay(c, x) > c.upperThresh || CEExceeded(c, x)
  }

  function Judge(c: Config, x: TrialInput): Verdict {
    if IsGood(c, x) then Good else if IsBad(c, x) then Bad else Hold
  }

  // ---------------------------------------------------------------------------
  // Moving the index
  // ---------------------------------------------------------------------------

  function DropThree(c: Config, index: int): int {
    if index > c.highSpeedDelta * 3 then index - c.highSpeedDelta * 3 else 0
  }

  function MoveB(c: Config, s: Search, v: Verdict): Search {
    match v
    case Good =>
      if s.index < c.hst && s.slow < c.slowAdjThresh then
        s.(index := if s.index + c.highSpeedDelta > c.hst then c.hst else s.index + c.highSpeedDelta, slow := 0)
      else if s.index < c.maxIdx then s.(index := s.index + 1)
      else s
    case Bad =>
      var slow := s.slow + 1;
      if s.index < c.hst && slow == c.slowAdjThresh then s.(slow := slow, index := DropThree(c, s.index))
      else if s.index > 0 then s.(slow := slow, index := s.index - 1)
      else s.(slow := slow)
    case Hold => s
  }

  function FastC(c: Config, s: Search): Search {
    if s.index * 2 > c.hst then s.(index := c.hst)
    else
      var index := if s.index == 0 then 1 else s.index;
      if s.update then s.(index := index * 2, update := false) else s.(index := index, update := true)
  }

  function MoveC(c: Config, s0: Search, v: Verdict): Search {
    var s := if s0.retryThresh == 0 then s0.(retryThresh := 5) else s0;
    match v
    case Good =>
      if s.index < c.hst && s.slow < c.slowAdjThresh then FastC(c, s).(slow := 0)
      else
        var t := if s.index < c.maxIdx then s.(index := s.index + 1, retryCount := s.retryCount + 1) else s;
        if t.retryCount >= t.retryThresh then t.(slow := 0, retryCount := 0, retryThresh := t.retryThresh + 5) else t
    case Bad =>
      var t := s.(slow := s.slow + 1);
      if t.index < c.hst && t.slow == c.slowAdjThresh then t.(index := DropThree(c, t.index))
      else if t.index > 0 then
        var u := t.(index := t.index - 1, retryCount := t.retryCount + 1);
        if u.retryCount >= u.retryThresh then u.(slow := 0, retryCount := 0) else u
      else t
    case Hold => s
  }

  function Move(c: Config, s: Search, v: Verdict): Search {
    if c.algo == 1 then MoveC(c, s, v) else MoveB(c, s, v)
  }

  predicate Suppressed(c: Config, x: TrialInput) { c.srAdjSupp > 0 && x.subIntSeqNo < c.srAdjSupp }

  /** What a trial asks of the search: nothing while adjustment is suppressed, else its verdict. */
  datatype Decision = Suppress | Act(v: Verdict)

  function Decide(c: Config, x: TrialInput): Decision {
    if Suppressed(c, x) then Suppress else Act(Judge(c, x))
  }

  /** A static rate is held at row 0 while suppressed and at its configured row otherwise. */
  function Apply(c: Config, s: Search, d: Decision): Search {
    if c.Static() then s.(index := if d.Suppress? then 0 else c.srIndexConf)
    else if d.Suppress? then s
    else Move(c, s, d.v)
  }

  /** One trial of the search. */
  function AdjustSpec(c: Config, s: Search, x: TrialInput): Search {
    Apply(c, s, Decide(c, x))
  }

  // ---------------------------------------------------------------------------
  // The controller object
  // ---------------------------------------------------------------------------

  class RateController {
    const c: Config
    var index: int
    var slowAdjCount: int
    var retryCount: int
    var retryThresh: int
    var update: bool

    ghost function View(): Search
      reads this
    {
      Search(index, slowAdjCount, retryCount, retryThresh, update)
    }

    constructor (config: Config, start: int)
      ensures c == config && View() == Search(start, 0, 0, 0, false)
    {
      c := config;
      index, slowAdjCount, retryCount, retryThresh, update := start, 0, 0, 0, false;
    }

    method Adjust(x: TrialInput)
      modifies this
      ensures View() == AdjustSpec(c, old(View()), x)
    {
      if c.srAdjSupp > 0 && x.subIntSeqNo < c.srAdjSupp {
        if c.srIndexConf >= 0 && !c.indexIsStart { index := 0; }
        return;
      }
      if c.srIndexConf >= 0 && !c.indexIsStart {
        index := c.srIndexConf;
        return;
      }
      var good, bad := IsGood(c, x), IsBad(c, x);
      if c.algo == 1 {
        AdjustAlgoC(good, bad);
      } else {
        AdjustAlgoB(good, bad);
      }
    }

    method AdjustAlgoB(good: bool, bad: bool)
      modifies this
      ensures View() == MoveB(c, old(View()), if good then Good else if bad then Bad else Hold)
    {
      if good {
        if index < c.hst && slowAdjCount < c.slowAdjThresh {
          if index + c.highSpeedDelta > c.hst { index := c.hst; } else { index := index + c.highSpeedDelta; }
          slowAdjCount := 0;
        } else if index < c.maxIdx {
          index := index + 1;
        }
      } else if bad {
        slowAdjCount := slowAdjCount + 1;
        if index < c.hst && slowAdjCount == c.slowAdjThresh {
          if index > c.highSpeedDelta * 3 { index := index - c.highSpeedDelta * 3; } else { index := 0; }
        } else if index > 0 {
          index := index - 1;
        }
      }
    }

    method AdjustAlgoC(good: bool, bad: bool)
      modifies this
      ensures View() == MoveC(c, old(View()), if good then Good else if bad then Bad else Hold)
    {
      if retryThresh == 0 { retryThresh := 5; }
      if good {
        if index < c.hst && slowAdjCount < c.slowAdjThresh {
          if index * 2 > c.hst {
            index := c.hst;
          } else {
            if index == 0 { index := index + 1; }
            if update { index := index * 2; update := false; } else { update := true; }
          }
          slowAdjCount := 0;
        } else {
          if index < c.maxIdx {
            index := index + 1;
            retryCount := retryCount + 1;
          }
          if retryCount >= retryThresh {
            slowAdjCount := 0;
            retryCount := 0;
            retryThresh := retryThresh + 5;
          }
        }
      } else if bad {
        slowAdjCount := slowAdjCount + 1;
        if index < c.hst && slowAdjCount == c.slowAdjThresh {
          if index > c.highSpeedDelta * 3 { index := index - c.highSpeedDelta * 3; } else { index := 0; }
        } else if index > 0 {
          index := index - 1;
          retryCount := retryCount + 1;
          if retryCount >= retryThresh {
            slowAdjCount := 0;
            retryCount := 0;
          }
        }
      }
    }
  }

  // ---------------------------------------------------------------------------
  // One trial
  // ---------------------------------------------------------------------------

  /** No trial is both good and bad, so the order of the two cases does not matter. */
  lemma {:induction false} GoodBadDisjoint(c: Config, x: TrialInput)
    requires c.lowThresh <= c.upperThresh
    ensures !(IsGood(c, x) && IsBad(c, x))
    ensures Judge(c, x) == Bad <==> IsBad(c, x)
  {
  }

  /** The direction of a searching trial, and that it stays on the table: a bad trial lowers every row
      but row 0, a good one does not pass the threshold from below and under algorithm B raises every
      row but the last, and any other trial leaves the search as it is. */
  lemma {:induction false} MoveDirection(c: Config, s: Search, v: Verdict)
    requires c.Valid() && s.Valid(c)
    ensures var s' := Move(c, s, v);
            && s'.Valid(c)
            && (v == Good && s.index < c.hst ==> s'.index <= c.hst)
            && (v == Good ==> s.index <= s'.index && (c.algo != 1 && s.index < c.maxIdx ==> s.index < s'.index))
            && (v == Bad ==> Max(0, s.index - 3 * c.highSpeedDelta) <= s'.index <= Max(0, s.index - 1))
            && (v == Hold ==> s' == s.(retryThresh := s'.retryThresh) && (c.algo != 1 ==> s' == s))
  {
  }

  /** Whatever a trial decides, the index stays a row of the table. */
  lemma {:induction false} ApplyValid(c: Config, s: Search, d: Decision)
    requires c.Valid() && s.Valid(c)
    ensures Apply(c, s, d).Valid(c)
  {
    if d.Act? { MoveDirection(c, s, d.v); }
  }

  /** Nearest integer to sum / cnt, halves up. */
  predicate HalfUp(d: int, sum: int, cnt: int) { 2 * cnt * d <= 2 * sum + cnt < 2 * cnt * (d + 1) }

  lemma {:induction false} RoundsHalfUp(sum: nat, cnt: nat)
    requires cnt > 0
    ensures HalfUp((sum * 10 / cnt + 5) / 10, sum, cnt)
  {
    var x := sum * 10 / cnt;
    var d := (x + 5) / 10;
    assert cnt * x <= sum * 10 < cnt * (x + 1) by { DivBounds(sum * 10, cnt); }
    assert cnt * (10 * d) <= cnt * (x + 5) by { MulMono(cnt, 10 * d, x + 5); }
    assert cnt * (x + 6) <= cnt * (10 * d + 10) by { MulMono(cnt, x + 6, 10 * d + 10); }
  }

  /** The integer delay is the half-up mean whenever ten times the sum fits 32 bits; up to 2^28
      samples it is the half-up mean only then. */
  lemma {:induction false} MeanDelayExact(sum: u32, cnt: u32)
    requires cnt > 0
    ensures sum * 10 < 0x1_0000_0000 ==> HalfUp(MeanDelay(sum, cnt), sum, cnt)
    ensures cnt <= 0x1000_0000 && HalfUp(MeanDelay(sum, cnt), sum, cnt) ==> sum * 10 < 0x1_0000_0000
  {
    RoundsHalfUp(sum, cnt);
    if sum * 10 < 0x1_0000_0000 {
      UnwrappedMean(sum, cnt);
    } else if cnt <= 0x1000_0000 {
      WrapDrops(sum * 10);
      WrappedMeanIsSmall(Wrap32(sum * 10), sum * 10, cnt);
      if HalfUp(MeanDelay(sum, cnt), sum, cnt) {
        HalfUpUnique(MeanDelay(sum, cnt), (sum * 10 / cnt + 5) / 10, sum, cnt);
      }
    }
  }

  /** One sample of 2^29 ms: ten times the sum wraps, and the mean comes out at a fifth. */
  lemma {:induction false} MeanWraps()
    ensures MeanDelay(0x2000_0000, 1) == 107374182 && !HalfUp(MeanDelay(0x2000_0000, 1), 0x2000_0000, 1)
  {
    assert Wrap32(0x2000_0000 * 10) == 0x4000_0000;
  }

  lemma {:induction false} UnwrappedMean(sum: u32, cnt: u32)
    requires cnt > 0 && sum * 10 < 0x1_0000_0000
    ensures MeanDelay(sum, cnt) == (sum * 10 / cnt + 5) / 10
  {
    QuotientAtMost(sum * 10, cnt);
    NoWrap(sum * 10, sum * 10 / cnt);
  }

  lemma {:induction false} NoWrap(w: int, q: int)
    requires 0 <= q <= w < 0x1_0000_0000 && w % 10 == 0
    ensures Wrap32(w) == w && Rounded(q) == (q + 5) / 10
  {
  }

  lemma {:induction false} QuotientAtMost(a: nat, b: nat)
    requires b > 0
    ensures a / b <= a
  {
    DivBounds(a, b);
    if a / b > a { MulMono(a / b, 1, b); }
  }

  lemma {:induction false} HalfUpUnique(d: int, e: int, sum: int, cnt: int)
    requires cnt > 0 && HalfUp(d, sum, cnt) && HalfUp(e, sum, cnt)
    ensures d == e
  {
  }

  lemma {:induction false} WrappedMeanIsSmall(w: u32, t: nat, cnt: u32)
    requires 0 < cnt <= 0x1000_0000 && w <= t - 0x1_0000_0000
    ensures TenthsMean(w, cnt) < (t / cnt + 5) / 10
  {
    QuotientAtMost(w, cnt);
    QuotientsApart(w, t, cnt);
    RoundedApart(w / cnt, t / cnt);
  }

  lemma {:induction false} WrapDrops(t: nat)
    requires t >= 0x1_0000_0000
    ensures Wrap32(t) <= t - 0x1_0000_0000
  {
  }

  lemma {:induction false} QuotientsApart(w: nat, t: nat, cnt: nat)
    requires 0 < cnt <= 0x1000_0000 && w <= t - 0x1_0000_0000
    ensures w / cnt + 16 <= t / cnt
  {
  }

  lemma {:induction false} RoundedApart(q: u32, r: nat)
    requires q + 16 <= r
    ensures Rounded(q) < (r + 5) / 10
  {
  }

  /** Whether the test on this many congestion marks is right: they are to exceed ecnCEThresh - 1 parts in
      255 of the datagrams, rounded half up. */
  predicate MarksJudged(c: Config, x: TrialInput, marks: u32) {
    CEExceeded(c, x.(ceCount := marks)) <==> 510 * marks > 2 * ((c.ecnCEThresh - 1) * x.rxDatagrams) + 255
  }

  lemma {:induction false} MarksNeeded(c: Config, x: TrialInput, share: nat, marks: u32)
    requires 1 <= c.ecnCEThresh <= 255 && share == (c.ecnCEThresh - 1) * x.rxDatagrams
    ensures CEExceeded(c, x.(ceCount := marks)) <==> marks > 0 && marks > TenthsMean(Wrap32(share * 10), 255)
  {
    WrapTimes(share);
    assert MeanDelay(Wrap32(share), 255) == TenthsMean(Wrap32(share * 10), 255);
    assert Wrap32(c.ecnCEThresh - 1) == c.ecnCEThresh - 1;
  }

  lemma {:induction false} AboveHalfUp(d: int, share: nat, marks: nat)
    requires HalfUp(d, share, 255)
    ensures marks > d <==> 510 * marks > 2 * share + 255
  {
  }

  lemma {:induction false} MarksRight(c: Config, x: TrialInput, share: nat, marks: u32)
    requires 1 <= c.ecnCEThresh <= 255 && share == (c.ecnCEThresh - 1) * x.rxDatagrams && share * 10 < 0x1_0000_0000
    ensures MarksJudged(c, x, marks)
  {
    MarksNeeded(c, x, share, marks);
    UnwrappedMean(share, 255);
    RoundsHalfUp(share, 255);
    AboveHalfUp(MeanDelay(share, 255), share, marks);
  }

  lemma {:induction false} MarksWrong(c: Config, x: TrialInput, share: nat) returns (marks: u32)
    requires 1 <= c.ecnCEThresh <= 255 && share == (c.ecnCEThresh - 1) * x.rxDatagrams && share * 10 >= 0x1_0000_0000
    ensures !MarksJudged(c, x, marks)
  {
    var w := Wrap32(share * 10);
    WrapDrops(share * 10);
    WrappedMeanIsSmall(w, share * 10, 255);
    RoundsHalfUp(share, 255);
    marks := TenthsMean(w, 255) + 1;
    MarksNeeded(c, x, share, marks);
    AboveHalfUp((share * 10 / 255 + 5) / 10, share, marks);
  }

  /** It is right for every number of marks if and only if ten times the product fits 32 bits. */
  lemma {:induction false} MarksJudgedIff(c: Config, x: TrialInput)
    requires 1 <= c.ecnCEThresh <= 255
    ensures (forall marks: u32 :: MarksJudged(c, x, marks)) <==> (c.ecnCEThresh - 1) * x.rxDatagrams * 10 < 0x1_0000_0000
  {
    var share := (c.ecnCEThresh - 1) * x.rxDatagrams;
    MulMono(x.rxDatagrams, 0, c.ecnCEThresh - 1);
    if share * 10 < 0x1_0000_0000 {
      forall marks: u32 ensures MarksJudged(c, x, marks) {
        MarksRight(c, x, share, marks);
      }
    } else {
      var marks := MarksWrong(c, x, share);
    }
  }

  lemma {:induction false} WrapTurns(n: int, k: int)
    ensures Wrap32(n + k * 0x1_0000_0000) == Wrap32(n)
  {
  }

  lemma {:induction false} WrapTimes(n: int)
    ensures Wrap32(Wrap32(n) * 10) == Wrap32(n * 10)
  {
    WrapTurns(Wrap32(n) * 10, 10 * (n / 0x1_0000_0000));
  }

  /** A rounded mean lies between the least and the greatest sample. */
  lemma {:induction false} MeanBetween(d: int, sum: int, cnt: int, lo: int, hi: int)
    requires cnt > 0 && HalfUp(d, sum, cnt) && cnt * lo <= sum <= cnt * hi
    ensures lo <= d <= hi
  {
    if d < lo { MulMono(2 * cnt, d + 1, lo); }
    if d > hi { MulMono(2 * cnt, hi + 1, d); }
  }
}
