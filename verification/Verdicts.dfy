/** What the verdict on a trial means (internal/udpst/algo.go on the counters of
    internal/udpst/accounting.go): the decision of the rate search against the datagrams of the run. */
module Verdicts {
  import opened Words
  import opened Messages
  import opened Clock
  import opened SequenceTracking
  import opened Accounting
  import opened Stream
  import opened Partitions
  import opened DelayRuns
  import opened SubIntervals
  import opened RateSearch

  // ---------------------------------------------------------------------------
  // What was measured
  // ---------------------------------------------------------------------------

  /** How the datagram of event n was classified. */
  function KindOf(p: Periods, start: int, es: seq<Event>, n: nat): Kind
    requires n < |es| && es[n].Load?
  {
    Classify(BookAt(p, start, es, n).a.win, es[n].h.seqNo)
  }

  /** The late datagrams of the current trial. */
  function Lates(p: Periods, start: int, es: seq<Event>, n: nat): nat
    requires n <= |es|
  {
    if n == 0 || es[n - 1].Status? then 0
    else Lates(p, start, es, n - 1) + if KindOf(p, start, es, n - 1) == Late then 1 else 0
  }

  /** The repeated datagrams of the current trial. */
  function Repeats(p: Periods, start: int, es: seq<Event>, n: nat): nat
    requires n <= |es|
  {
    if n == 0 || es[n - 1].Status? then 0
    else Repeats(p, start, es, n - 1) + if KindOf(p, start, es, n - 1) == Duplicate then 1 else 0
  }

  /** The losses pending in the current trial, by the sequence tracker on the stream cut at every status. */
  function Losses(es: seq<Event>, n: nat): nat
    requires n <= |es|
  {
    Replay(TrialItems(es, n)).errs.loss
  }

  lemma {:induction false} TallyCounts(e: SeqErrs, k: Kind, lates: nat, repeats: nat)
    requires e.ooo == Wrap32(lates) && e.dup == Wrap32(repeats)
    ensures Tally(e, k).ooo == Wrap32(lates + if k == Late then 1 else 0)
    ensures Tally(e, k).dup == Wrap32(repeats + if k == Duplicate then 1 else 0)
  {
    WrapSum(lates, 1);
    WrapSum(repeats, 1);
  }

  /** The trial's error counters count its late and its repeated datagrams. */
  lemma {:induction false} ErrorsCount(p: Periods, start: int, es: seq<Event>, n: nat)
    requires n <= |es|
    ensures var e := BookAt(p, start, es, n).a.trial.errs;
            e == SeqErrs(Losses(es, n), Wrap32(Lates(p, start, es, n)), Wrap32(Repeats(p, start, es, n)))
  {
    TrialFollows(p, start, es, n);
    LatesCounted(p, start, es, n);
  }

  predicate Tallied(e: SeqErrs, lates: nat, repeats: nat) { e.ooo == Wrap32(lates) && e.dup == Wrap32(repeats) }

  lemma {:induction false} TalliedAfter(p: Periods, b: Book, e: Event, lates: nat, repeats: nat)
    requires b.a.Valid() && Tallied(b.a.trial.errs, lates, repeats)
    ensures var errs := BookStep(p, b, e).a.trial.errs;
            if e.Status? then Tallied(errs, 0, 0)
            else
              var kind := Classify(b.a.win, e.h.seqNo);
              Tallied(errs, lates + if kind == Late then 1 else 0, repeats + if kind == Duplicate then 1 else 0)
  {
    TrialStep(p, b, e);
    if e.Load? { TallyCounts(b.a.trial.errs, Classify(b.a.win, e.h.seqNo), lates, repeats); }
  }

  lemma {:induction false} CountsAfter(p: Periods, start: int, es: seq<Event>, n: nat)
    requires n < |es|
    requires Tallied(BookAt(p, start, es, n).a.trial.errs, Lates(p, start, es, n), Repeats(p, start, es, n))
    ensures Tallied(BookAt(p, start, es, n + 1).a.trial.errs, Lates(p, start, es, n + 1), Repeats(p, start, es, n + 1))
  {
    TalliedAfter(p, BookAt(p, start, es, n), es[n], Lates(p, start, es, n), Repeats(p, start, es, n));
  }

  lemma {:induction false} LatesCounted(p: Periods, start: int, es: seq<Event>, n: nat)
    requires n <= |es|
    ensures Tallied(BookAt(p, start, es, n).a.trial.errs, Lates(p, start, es, n), Repeats(p, start, es, n))
  {
    hide BookStep;
    if n > 0 {
      LatesCounted(p, start, es, n - 1);
      CountsAfter(p, start, es, n - 1);
    }
  }

  /** Within the window the classification is the truth: a late datagram had not been received and one
      with a higher number had, a repeated one had been received. */
  lemma {:induction false} KindIsTrue(p: Periods, start: int, es: seq<Event>, n: nat, i: nat)
    requires i < n <= |es| && LegalStream(es, n) && Windowed(TrialItems(es, n)) && es[i].Load?
    ensures KindOf(p, start, es, i) == IdealKind(TrialItems(es, i), es[i].h.seqNo)
  {
    SameStream(p, start, es, n);
    ExactIffWindowed(TrialItems(es, n));
    ItemsPrefix(es, n, i);
    assert AgreesAt(TrialItems(es, n), i);
    TrialFollows(p, start, es, i);
  }

  lemma {:induction false} ItemsPrefix(es: seq<Event>, n: nat, i: nat)
    requires i < n <= |es|
    ensures |TrialItems(es, n)| == n && TrialItems(es, n)[..i] == TrialItems(es, i)
    ensures TrialItems(es, n)[i] == if es[i].Load? then Got(es[i].h.seqNo) else Cut
    decreases n
  {
    ItemsLength(es, n - 1);
    if i < n - 1 {
      ItemsPrefix(es, n - 1, i);
      assert TrialItems(es, n)[..i] == TrialItems(es, n - 1)[..i];
    } else {
      assert TrialItems(es, n)[..i] == TrialItems(es, i);
    }
  }

  lemma {:induction false} ItemsLength(es: seq<Event>, n: nat)
    requires n <= |es|
    ensures |TrialItems(es, n)| == n
  {
    if n > 0 { ItemsLength(es, n - 1); }
  }

  /** Every datagram of a trial is late, repeated or carries a delay sample. */
  lemma {:induction false} TrialSplits(p: Periods, start: int, es: seq<Event>, n: nat)
    requires n <= |es|
    ensures Lates(p, start, es, n) + Repeats(p, start, es, n) + |Samples(p, start, es, n)| == |TrialParts(es, n).open|
  {
    if n > 0 && es[n - 1].Load? { TrialSplits(p, start, es, n - 1); }
  }

  /** No congestion marks are counted on the receiver. */
  lemma {:induction false} NoMarks(p: Periods, start: int, es: seq<Event>, n: nat)
    requires n <= |es|
    ensures BookAt(p, start, es, n).a.trial.ce == 0
  {
    if n > 0 {
      NoMarks(p, start, es, n - 1);
      MarksAfter(p, BookAt(p, start, es, n - 1), es[n - 1]);
    }
  }

  lemma {:induction false} MarksAfter(p: Periods, b: Book, e: Event)
    requires b.a.Valid() && b.a.trial.ce == 0
    ensures BookStep(p, b, e).a.trial.ce == 0
  {
  }

  // ---------------------------------------------------------------------------
  // What it means
  // ---------------------------------------------------------------------------

  /** The verdict on a trial with this many sequence errors, with too many congestion marks or not, and
      with this delay, if there was data. */
  function VerdictOn(c: Config, errors: nat, marked: bool, delay: Option<int>): Verdict {
    if errors > c.seqErrThresh || marked then Bad
    else
      match delay
      case None => Hold
      case Some(d) => if d < c.lowThresh then Good else if d > c.upperThresh then Bad else Hold
  }

  /** The errors that count: losses, and late and repeated datagrams unless these are to be ignored. */
  function Errors(c: Config, p: Periods, start: int, es: seq<Event>, n: nat): nat
    requires n <= |es|
  {
    Losses(es, n) + if c.ignoreOooDup then 0 else Lates(p, start, es, n) + Repeats(p, start, es, n)
  }

  /** sum / cnt to the nearest integer, halves up. */
  function HalfUpMean(sum: nat, cnt: nat): nat
    requires cnt > 0
  {
    (2 * sum + cnt) / (2 * cnt)
  }

  /** The delay of the kind asked for: the mean of the trial's one-way delay variations, or the excess of
      the last round trip over the least. An excess of 2^32 - 1 is the mark for no data. */
  function Measured(c: Config, p: Periods, start: int, es: seq<Event>, n: nat): Option<int>
    requires n <= |es|
  {
    if c.useOwDelVar then
      var samples := Samples(p, start, es, n);
      if samples == [] then None else Some(HalfUpMean(Sum(samples), |samples|))
    else
      var rs := RoundTrips(p, start, es, n);
      if rs == [] || Last(rs) - MinOf(rs) == NO_DELAY then None else Some(Last(rs) - MinOf(rs))
  }

  /** The counters a trial's mean delay is computed from hold what they should. */
  predicate MeanFits(c: Config, p: Periods, start: int, es: seq<Event>, n: nat)
    requires n <= |es|
  {
    c.useOwDelVar ==> Sum(Samples(p, start, es, n)) * 10 < 0x1_0000_0000
  }

  lemma {:induction false} HalfUpMeanIs(d: int, sum: nat, cnt: nat)
    requires cnt > 0 && HalfUp(d, sum, cnt)
    ensures d == HalfUpMean(sum, cnt)
  {
    DivBounds(2 * sum + cnt, 2 * cnt);
    var e := HalfUpMean(sum, cnt);
    assert HalfUp(e, sum, cnt);
    HalfUpUnique(d, e, sum, cnt);
  }

  lemma {:induction false} MeanMeasured(c: Config, p: Periods, start: int, es: seq<Event>, n: nat)
    requires n <= |es| && c.useOwDelVar && |TrialParts(es, n).open| < 0x1_0000_0000 && MeanFits(c, p, start, es, n)
    ensures var x, m := TrialInputOf(BookAt(p, start, es, n).a), Measured(c, p, start, es, n);
            Delay(c, x) == if m.Some? then m.value else c.lowThresh
  {
    var samples := Samples(p, start, es, n);
    TrialSplits(p, start, es, n);
    if samples == [] {
      TrialDelayFolds(p, start, es, n);
    } else {
      SearchDelayIsMean(p, start, es, n);
      var d := BookAt(p, start, es, n).a.trial.delay;
      HalfUpMeanIs(MeanDelay(d.sum, d.cnt), Sum(samples), |samples|);
    }
  }

  lemma {:induction false} TripMeasured(c: Config, p: Periods, start: int, es: seq<Event>, n: nat)
    requires n <= |es| && !c.useOwDelVar
    ensures var x, m := TrialInputOf(BookAt(p, start, es, n).a), Measured(c, p, start, es, n);
            Delay(c, x) == if m.Some? then m.value else c.lowThresh
  {
    RttIsExcess(p, start, es, n);
  }

  lemma {:induction false} SeqErrIs(c: Config, x: TrialInput, losses: nat, lates: nat, repeats: nat)
    requires x.seqErrLoss == losses && x.seqErrOoo == Wrap32(lates) && x.seqErrDup == Wrap32(repeats)
    requires lates + repeats < 0x1_0000_0000
    ensures SeqErr(c, x) == losses + if c.ignoreOooDup then 0 else lates + repeats
  {
  }

  lemma {:induction false} ErrorsMeasured(c: Config, p: Periods, start: int, es: seq<Event>, n: nat)
    requires n <= |es| && |TrialParts(es, n).open| < 0x1_0000_0000
    ensures SeqErr(c, TrialInputOf(BookAt(p, start, es, n).a)) == Errors(c, p, start, es, n)
  {
    ErrorsCount(p, start, es, n);
    TrialSplits(p, start, es, n);
    SeqErrIs(c, TrialInputOf(BookAt(p, start, es, n).a), Losses(es, n), Lates(p, start, es, n), Repeats(p, start, es, n));
  }

  lemma {:induction false} JudgedOn(c: Config, x: TrialInput, errors: nat, delay: Option<int>)
    requires c.lowThresh <= c.upperThresh && SeqErr(c, x) == errors
    requires Delay(c, x) == if delay.Some? then delay.value else c.lowThresh
    ensures Judge(c, x) == VerdictOn(c, errors, CEExceeded(c, x), delay)
  {
  }

  /** The verdict on the trial up to event n, against the datagrams of the run: that on its losses, late and
      repeated datagrams and its delay. Without data of the kind asked for it is never good. */
  lemma {:induction false} JudgedOnTheStream(c: Config, p: Periods, start: int, es: seq<Event>, n: nat, seqNo: u32)
    requires n <= |es| && c.lowThresh <= c.upperThresh
    requires |TrialParts(es, n).open| < 0x1_0000_0000 && MeanFits(c, p, start, es, n)
    ensures Judge(c, TrialInputOf(BookAt(p, start, es, n).a).(subIntSeqNo := seqNo))
            == VerdictOn(c, Errors(c, p, start, es, n), false, Measured(c, p, start, es, n))
  {
    NoMarks(p, start, es, n);
    ErrorsMeasured(c, p, start, es, n);
    if c.useOwDelVar { MeanMeasured(c, p, start, es, n); } else { TripMeasured(c, p, start, es, n); }
    JudgedOn(c, TrialInputOf(BookAt(p, start, es, n).a).(subIntSeqNo := seqNo),
             Errors(c, p, start, es, n), Measured(c, p, start, es, n));
  }

  /** The decision on the trial up to event n: nothing while fewer sub-intervals have closed than asked
      for, and otherwise that verdict. */
  lemma {:induction false} DecidedOnTheStream(c: Config, p: Periods, start: int, es: seq<Event>, n: nat)
    requires n <= |es| && c.lowThresh <= c.upperThresh
    requires |TrialParts(es, n).open| < 0x1_0000_0000 && MeanFits(c, p, start, es, n)
    ensures Decide(c, TrialInputOf(BookAt(p, start, es, n).a))
            == if Wrap32(|BookAt(p, start, es, n).rolled|) < c.srAdjSupp then Suppress
               else Act(VerdictOn(c, Errors(c, p, start, es, n), false, Measured(c, p, start, es, n)))
  {
    RecordsMeasure(p, start, es, n);
    JudgedOnTheStream(c, p, start, es, n, BookAt(p, start, es, n).a.subIntSeq);
  }
}
