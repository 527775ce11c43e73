/** What the status messages of a run say of it (buildStatus in internal/udpst/accounting.go). */
module StatusRuns {
  import opened Words
  import opened Messages
  import opened Clock
  import opened SequenceTracking
  import opened Accounting
  import opened Stream
  import opened Partitions
  import opened DelayRuns
  import opened SubIntervals
  import opened Verdicts

  // ---------------------------------------------------------------------------
  // The fields of a status message
  // ---------------------------------------------------------------------------

  /** The least difference of receive and send time has fallen in the current trial. */
  predicate MinFell(p: Periods, start: int, es: seq<Event>, n: nat)
    requires n <= |es|
  {
    if n == 0 || es[n - 1].Status? then false
    else
      var ds := Deltas(p, start, es, n - 1);
      MinFell(p, start, es, n - 1) || (Advances(p, start, es, n - 1) && (ds == [] || Delta(es[n - 1]) < MinOf(ds)))
  }

  lemma {:induction false} UpdatedAfter(p: Periods, b: Book, e: Event)
    requires b.a.Valid()
    ensures var o := b.a.offset;
            BookStep(p, b, e).a.offset.updated
            <==> e.Load? && (o.updated || (Classify(b.a.win, e.h.seqNo).Advance? && (!o.known || Delta(e) < o.deltaMin)))
  {
    match e
    case Load(rx, h) => LoadDelay(b.a, rx, h);
    case Status(now) => StatusOffset(p, b.a, now);
  }

  lemma {:induction false} UpdatedIff(p: Periods, start: int, es: seq<Event>, n: nat)
    requires n <= |es|
    ensures BookAt(p, start, es, n).a.offset.updated <==> MinFell(p, start, es, n)
  {
    if n > 0 {
      UpdatedIff(p, start, es, n - 1);
      OffsetIsMinimum(p, start, es, n - 1);
      UpdatedAfter(p, BookAt(p, start, es, n - 1), es[n - 1]);
    }
  }

  /** The trial: its datagrams, bytes, sequence errors and delay statistics. */
  predicate CarriesTrial(st: StatusPDU, p: Periods, start: int, es: seq<Event>, n: nat)
    requires n <= |es|
  {
    && st.tiRxDatagrams == Wrap32(|TrialParts(es, n).open|) && st.tiRxBytes == Wrap32(Payload(TrialParts(es, n).open))
    && st.seqErrLoss == Losses(es, n)
    && st.seqErrOoo == Wrap32(Lates(p, start, es, n)) && st.seqErrDup == Wrap32(Repeats(p, start, es, n))
    && Folded(DelayStats(st.delayVarMin, st.delayVarMax, st.delayVarSum, st.delayVarCnt), Samples(p, start, es, n))
    && st.tiRxCECount == 0
  }

  /** The run so far: the least clock difference and whether it fell in this trial, the least round trip
      and the excess of the latest. */
  predicate CarriesClocks(st: StatusPDU, p: Periods, start: int, es: seq<Event>, n: nat)
    requires n <= |es|
  {
    var ds, rs := Deltas(p, start, es, n), RoundTrips(p, start, es, n);
    && (ds != [] ==> st.clockDeltaMin == Wrap32(MinOf(ds)))
    && st.delayMinUpd == BoolByte(MinFell(p, start, es, n))
    && (if rs == [] then st.rttMinimum == st.rttVarSample == NO_DELAY
        else st.rttMinimum == MinOf(rs) && st.rttVarSample == Last(rs) - MinOf(rs))
  }

  /** The last closed sub-interval and its number. */
  predicate CarriesSub(st: StatusPDU, rolled: seq<SubIntStats>) {
    st.subIntSeqNo == Wrap32(|rolled|) && (rolled != [] ==> st.subIntSaved == Last(rolled))
  }

  lemma {:induction false} CountersFrom(p: Periods, a: Acct, now: int, lastStatus: int, wall: Wall)
    requires a.Valid()
    ensures var st, a' := Counters(p, a, now, lastStatus, wall), AfterStatus(p, a, now);
            && st.tiRxDatagrams == a.trial.rxDatagrams && st.tiRxBytes == a.trial.rxBytes && st.tiRxCECount == a.trial.ce
            && SeqErrs(st.seqErrLoss, st.seqErrOoo, st.seqErrDup) == a.trial.errs
            && DelayStats(st.delayVarMin, st.delayVarMax, st.delayVarSum, st.delayVarCnt) == a.trial.delay
            && st.clockDeltaMin == Wrap32(a.offset.deltaMin) && st.delayMinUpd == BoolByte(a.offset.updated)
            && st.rttMinimum == a.rtt.min && st.rttVarSample == a.rtt.varSample
            && st.subIntSeqNo == a'.subIntSeq && st.subIntSaved == a'.saved
            && st.tiDeltaTime == Wrap32(TruncDiv(now - lastStatus, US))
            && st.timeSec == Wrap32(wall.sec) && st.timeNsec == Wrap32(wall.nsec)
  {
  }

  /** A status message carries the trial it closes, the clocks of the run so far and the last closed
      sub-interval, the one that it may itself have closed included. */
  lemma {:induction false} StatusCarries(p: Periods, start: int, es: seq<Event>, n: nat, lastStatus: int, wall: Wall)
    requires n < |es| && es[n].Status?
    ensures var st := Counters(p, BookAt(p, start, es, n).a, es[n].now, lastStatus, wall);
            CarriesTrial(st, p, start, es, n) && CarriesClocks(st, p, start, es, n)
            && CarriesSub(st, BookAt(p, start, es, n + 1).rolled)
  {
    var a := BookAt(p, start, es, n).a;
    var st := Counters(p, a, es[n].now, lastStatus, wall);
    CountersFrom(p, a, es[n].now, lastStatus, wall);
    TrialCarried(st, p, start, es, n);
    ClocksCarried(st, p, start, es, n);
    RecordsMeasure(p, start, es, n + 1);
  }

  lemma {:induction false} TrialCarried(st: StatusPDU, p: Periods, start: int, es: seq<Event>, n: nat)
    requires n <= |es|
    requires var t := BookAt(p, start, es, n).a.trial;
             && st.tiRxDatagrams == t.rxDatagrams && st.tiRxBytes == t.rxBytes && st.tiRxCECount == t.ce
             && SeqErrs(st.seqErrLoss, st.seqErrOoo, st.seqErrDup) == t.errs
             && DelayStats(st.delayVarMin, st.delayVarMax, st.delayVarSum, st.delayVarCnt) == t.delay
    ensures CarriesTrial(st, p, start, es, n)
  {
    RecordsCountParts(p, start, es, n);
    ErrorsCount(p, start, es, n);
    TrialDelayFolds(p, start, es, n);
    NoMarks(p, start, es, n);
  }

  lemma {:induction false} ClocksCarried(st: StatusPDU, p: Periods, start: int, es: seq<Event>, n: nat)
    requires n <= |es|
    requires var a := BookAt(p, start, es, n).a;
             && st.clockDeltaMin == Wrap32(a.offset.deltaMin) && st.delayMinUpd == BoolByte(a.offset.updated)
             && st.rttMinimum == a.rtt.min && st.rttVarSample == a.rtt.varSample
    ensures CarriesClocks(st, p, start, es, n)
  {
    OffsetIsMinimum(p, start, es, n);
    UpdatedIff(p, start, es, n);
    RttIsExcess(p, start, es, n);
  }
}
