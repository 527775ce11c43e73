/** Delay variation over whole upstream runs (internal/udpst/accounting.go), down to the delay the
    rate search compares with its thresholds (internal/udpst/algo.go). */
module DelayRuns {
  import opened Words
  import opened Messages
  import opened Clock
  import opened SequenceTracking
  import opened Accounting
  import opened Stream
  import opened RateSearch

  /** Event n is a datagram that advances the stream, and so carries delay information. */
  predicate Advances(p: Periods, start: int, es: seq<Event>, n: nat)
    requires n < |es|
  {
    es[n].Load? && Classify(BookAt(p, start, es, n).a.win, es[n].h.seqNo).Advance?
  }

  function Delta(e: Event): int
    requires e.Load?
  {
    WallDiffMs(e.rx, e.h.timeSec, e.h.timeNsec)
  }

  /** Receive time minus send time of every advancing datagram so far, in rounded milliseconds. */
  function Deltas(p: Periods, start: int, es: seq<Event>, n: nat): seq<int>
    requires n <= |es|
  {
    if n == 0 then []
    else Deltas(p, start, es, n - 1) + if Advances(p, start, es, n - 1) then [Delta(es[n - 1])] else []
  }

  /** The delay variation that an advancing event n records. */
  function Sample(p: Periods, start: int, es: seq<Event>, n: nat): u32
    requires n < |es| && Advances(p, start, es, n)
  {
    Wrap32(Delta(es[n]) - NoteOffset(BookAt(p, start, es, n).a.offset, Delta(es[n])).deltaMin)
  }

  /** The samples of the current trial. */
  function Samples(p: Periods, start: int, es: seq<Event>, n: nat): seq<u32>
    requires n <= |es|
  {
    if n == 0 || es[n - 1].Status? then []
    else Samples(p, start, es, n - 1) + if Advances(p, start, es, n - 1) then [Sample(p, start, es, n - 1)] else []
  }

  // ---------------------------------------------------------------------------
  // The clock offset is the running minimum
  // ---------------------------------------------------------------------------

  lemma {:induction false} LoadDelay(a: Acct, rx: Wall, h: LoadPDU)
    requires a.Valid()
    ensures var a', delta := RecordLoadSpec(a, rx, h), WallDiffMs(rx, h.timeSec, h.timeNsec);
            var o := NoteOffset(a.offset, delta);
            if Classify(a.win, h.seqNo).Advance?
            then a'.offset == o && a'.trial.delay == NoteDelay(a.trial.delay, Wrap32(delta - o.deltaMin))
            else a'.offset == a.offset && a'.trial.delay == a.trial.delay
  {
  }

  lemma {:induction false} MinOne(s: seq<int>, x: int)
    ensures MinOf(s + [x]) == if s == [] then x else Min(MinOf(s), x)
  {
  }

  predicate TracksMin(o: Offset, ds: seq<int>) { (o.known <==> ds != []) && (o.known ==> o.deltaMin == MinOf(ds)) }

  lemma {:induction false} OffsetStep(o: Offset, ds: seq<int>, delta: int)
    requires TracksMin(o, ds)
    ensures TracksMin(NoteOffset(o, delta), ds + [delta])
  {
  }

  lemma {:induction false} StatusOffset(p: Periods, a: Acct, now: int)
    requires a.Valid()
    ensures AfterStatus(p, a, now).offset == a.offset.(updated := false)
  {
  }

  lemma {:induction false} OffsetIsMinimum(p: Periods, start: int, es: seq<Event>, n: nat)
    requires n <= |es|
    ensures TracksMin(BookAt(p, start, es, n).a.offset, Deltas(p, start, es, n))
  {
    if n > 0 {
      OffsetIsMinimum(p, start, es, n - 1);
      var a, ds := BookAt(p, start, es, n - 1).a, Deltas(p, start, es, n - 1);
      match es[n - 1]
      case Load(rx, h) =>
        LoadDelay(a, rx, h);
        if Advances(p, start, es, n - 1) { OffsetStep(a.offset, ds, Delta(es[n - 1])); } else { assert ds + [] == ds; }
      case Status(now) =>
        StatusOffset(p, a, now);
        assert ds + [] == ds;
    }
  }

  /** The recorded sample is the excess over the least rounded difference so far. */
  lemma {:induction false} SampleIsExcess(p: Periods, start: int, es: seq<Event>, n: nat)
    requires n < |es| && Advances(p, start, es, n)
    ensures var ds := Deltas(p, start, es, n + 1);
            Last(ds) == Delta(es[n]) && Sample(p, start, es, n) == Wrap32(Last(ds) - MinOf(ds))
  {
    OffsetIsMinimum(p, start, es, n);
    MinOne(Deltas(p, start, es, n), Delta(es[n]));
  }

  // ---------------------------------------------------------------------------
  // Against exact clocks
  // ---------------------------------------------------------------------------

  /** The wire timestamp of event i is the low part of its true send time, which is within 2^31
      seconds of its arrival. */
  predicate Truthful(es: seq<Event>, sent: nat -> Wall, i: nat)
    requires i < |es|
  {
    es[i].Load? ==>
      && es[i].rx.Valid() && sent(i).Valid()
      && es[i].h.timeSec == Wrap32(sent(i).sec) && es[i].h.timeNsec == sent(i).nsec
      && -0x8000_0000 <= es[i].rx.sec - sent(i).sec < 0x8000_0000
  }

  /** Exact receive time minus send time of every advancing datagram so far, in nanoseconds. */
  ghost function Exacts(p: Periods, start: int, es: seq<Event>, sent: nat -> Wall, n: nat): seq<int>
    requires n <= |es|
  {
    if n == 0 then []
    else Exacts(p, start, es, sent, n - 1) +
         if Advances(p, start, es, n - 1) then [es[n - 1].rx.Ns() - sent(n - 1).Ns()] else []
  }

  ghost predicate AllNear(ds: seq<int>, xs: seq<int>) {
    |ds| == |xs| && forall i | 0 <= i < |ds| :: Near(ds[i], xs[i], 1)
  }

  lemma {:induction false} NearOne(ds: seq<int>, xs: seq<int>, d: int, x: int)
    requires AllNear(ds, xs) && Near(d, x, 1)
    ensures AllNear(ds + [d], xs + [x])
  {
  }

  lemma {:induction false} DeltasNear(p: Periods, start: int, es: seq<Event>, sent: nat -> Wall, n: nat)
    requires n <= |es| && forall i | 0 <= i < n :: Truthful(es, sent, i)
    ensures AllNear(Deltas(p, start, es, n), Exacts(p, start, es, sent, n))
  {
    if n > 0 {
      DeltasNear(p, start, es, sent, n - 1);
      if Advances(p, start, es, n - 1) {
        assert Truthful(es, sent, n - 1);
        var e := es[n - 1];
        WallDiffExact(e.rx, sent(n - 1));
        NearOne(Deltas(p, start, es, n - 1), Exacts(p, start, es, sent, n - 1), Delta(e), e.rx.Ns() - sent(n - 1).Ns());
      }
    }
  }

  /** Every delay variation sample is within 2 ms of the exact excess over the exact running minimum,
      unless that excess is so large that the 32-bit sample wraps. */
  lemma {:induction false} SampleNearExact(p: Periods, start: int, es: seq<Event>, sent: nat -> Wall, n: nat)
    requires n < |es| && Advances(p, start, es, n) && forall i | 0 <= i <= n :: Truthful(es, sent, i)
    ensures var ds, xs := Deltas(p, start, es, n + 1), Exacts(p, start, es, sent, n + 1);
            var excess := Last(xs) - MinOf(xs);
            && 0 <= Last(ds) - MinOf(ds) && Near(Last(ds) - MinOf(ds), excess, 2)
            && (excess < 0xFFFF_FFFE * MS ==> Near(Sample(p, start, es, n), excess, 2))
  {
    DeltasNear(p, start, es, sent, n + 1);
    var ds, xs := Deltas(p, start, es, n + 1), Exacts(p, start, es, sent, n + 1);
    SampleIsExcess(p, start, es, n);
    DelayVariationNear(ds, xs);
    SampleFits(Last(ds) - MinOf(ds), Last(xs) - MinOf(xs));
  }

  lemma {:induction false} SampleFits(dv: int, excess: int)
    requires 0 <= dv && Near(dv, excess, 2)
    ensures excess < 0xFFFF_FFFE * MS ==> Wrap32(dv) == dv
  {
  }

  // ---------------------------------------------------------------------------
  // Sampled round trips
  // ---------------------------------------------------------------------------

  /** Event n is an advancing datagram that echoes a status message not echoed before. */
  predicate Echoes(p: Periods, start: int, es: seq<Event>, n: nat)
    requires n < |es|
  {
    Advances(p, start, es, n) && EchoesNew(BookAt(p, start, es, n).a.rtt, es[n].h)
  }

  function RoundTrips(p: Periods, start: int, es: seq<Event>, n: nat): seq<int>
    requires n <= |es|
  {
    if n == 0 then []
    else RoundTrips(p, start, es, n - 1) + if Echoes(p, start, es, n - 1) then [RoundTrip(es[n - 1].rx, es[n - 1].h)] else []
  }

  /** The least round trip is kept, and the sample is the latest one's excess over it. */
  predicate TracksRtt(r: Rtt, rs: seq<int>) {
    if rs == [] then r.min == r.varSample == NO_DELAY else r.min == MinOf(rs) && r.varSample == Last(rs) - MinOf(rs)
  }

  lemma {:induction false} RttStep(r: Rtt, rs: seq<int>, rx: Wall, h: LoadPDU)
    requires TracksRtt(r, rs)
    ensures TracksRtt(NoteRtt(r, rx, h), rs + [RoundTrip(rx, h)])
  {
  }

  /** How event n changes the round trip state. */
  lemma {:induction false} RttAfter(p: Periods, start: int, es: seq<Event>, n: nat)
    requires n < |es|
    ensures var r := BookAt(p, start, es, n).a.rtt;
            BookAt(p, start, es, n + 1).a.rtt == if Echoes(p, start, es, n) then NoteRtt(r, es[n].rx, es[n].h) else r
  {
  }

  lemma {:induction false} TracksAfter(p: Periods, start: int, es: seq<Event>, n: nat)
    requires n < |es| && TracksRtt(BookAt(p, start, es, n).a.rtt, RoundTrips(p, start, es, n))
    ensures TracksRtt(BookAt(p, start, es, n + 1).a.rtt, RoundTrips(p, start, es, n + 1))
  {
    RttAfter(p, start, es, n);
    var rs := RoundTrips(p, start, es, n);
    if Echoes(p, start, es, n) {
      RttStep(BookAt(p, start, es, n).a.rtt, rs, es[n].rx, es[n].h);
    } else {
      assert rs + [] == rs;
    }
  }

  /** Over every run, the round trip minimum is the least sample so far and the variation handed to the
      search is the latest sample's excess over it. */
  lemma {:induction false} RttIsExcess(p: Periods, start: int, es: seq<Event>, n: nat)
    requires n <= |es|
    ensures TracksRtt(BookAt(p, start, es, n).a.rtt, RoundTrips(p, start, es, n))
  {
    if n > 0 {
      RttIsExcess(p, start, es, n - 1);
      TracksAfter(p, start, es, n - 1);
    }
  }

  /** The timestamp that was echoed when a round trip was last sampled. */
  function LastEcho(p: Periods, start: int, es: seq<Event>, n: nat): (u32, u32)
    requires n <= |es|
  {
    if n == 0 then (0, 0)
    else if Echoes(p, start, es, n - 1) then (es[n - 1].h.spduTimeSec, es[n - 1].h.spduTimeNsec)
    else LastEcho(p, start, es, n - 1)
  }

  /** A status message is sampled once: an advancing datagram gives a round trip if and only if it
      echoes a timestamp other than the one sampled last. */
  lemma {:induction false} SampledOnce(p: Periods, start: int, es: seq<Event>, n: nat)
    requires n < |es|
    ensures Echoes(p, start, es, n) <==>
            && Advances(p, start, es, n)
            && (es[n].h.spduTimeSec, es[n].h.spduTimeNsec) != (0, 0)
            && (es[n].h.spduTimeSec, es[n].h.spduTimeNsec) != LastEcho(p, start, es, n)
  {
    EchoKept(p, start, es, n);
  }

  lemma {:induction false} EchoKept(p: Periods, start: int, es: seq<Event>, n: nat)
    requires n <= |es|
    ensures var r := BookAt(p, start, es, n).a.rtt; (r.echoSec, r.echoNsec) == LastEcho(p, start, es, n)
  {
    if n > 0 {
      EchoKept(p, start, es, n - 1);
      RttAfter(p, start, es, n - 1);
    }
  }

  /** The echoed timestamp of event i is the low part of the true send time of a status message, which
      is within 2^31 seconds of the arrival; the round trip fits 32 bits of milliseconds. */
  predicate EchoTruthful(es: seq<Event>, stamped: nat -> Wall, i: nat)
    requires i < |es|
  {
    es[i].Load? ==>
      && es[i].rx.Valid() && stamped(i).Valid()
      && es[i].h.spduTimeSec == Wrap32(stamped(i).sec) && es[i].h.spduTimeNsec == stamped(i).nsec
      && -0x8000_0000 <= es[i].rx.sec - stamped(i).sec < 0x8000_0000
      && WallDiffMs(es[i].rx, es[i].h.spduTimeSec, es[i].h.spduTimeNsec) - es[i].h.rttRespDelay < 0x1_0000_0000
  }

  /** From the sending of a status message to the arrival of its echo, without the milliseconds the
      client held it, in nanoseconds. */
  function ExactTrip(rx: Wall, stamped: Wall, held: u16): int { Max(0, rx.Ns() - stamped.Ns() - held * MS) }

  /** A round trip sample is within 1 ms of the exact one if and only if it fits 32 bits. */
  lemma {:induction false} RoundTripNear(rx: Wall, h: LoadPDU, stamped: Wall)
    requires rx.Valid() && stamped.Valid() && -0x8000_0000 <= rx.sec - stamped.sec < 0x8000_0000
    requires h.spduTimeSec == Wrap32(stamped.sec) && h.spduTimeNsec == stamped.nsec
    ensures Near(RoundTrip(rx, h), ExactTrip(rx, stamped, h.rttRespDelay), 1)
       <==> WallDiffMs(rx, h.spduTimeSec, h.spduTimeNsec) - h.rttRespDelay < 0x1_0000_0000
  {
    WallDiffExact(rx, stamped);
    HeldOut(WallDiffMs(rx, h.spduTimeSec, h.spduTimeNsec), rx.Ns() - stamped.Ns(), h.rttRespDelay);
  }

  lemma {:induction false} HeldOut(ms: int, exact: int, held: int)
    requires Near(ms, exact, 1)
    ensures Near(Wrap32(Max(0, ms - held)), Max(0, exact - held * MS), 1) <==> ms - held < 0x1_0000_0000
  {
    var v := Max(0, ms - held);
    assert Near(v, Max(0, exact - held * MS), 1);
    if v >= 0x1_0000_0000 { assert Wrap32(v) <= v - 0x1_0000_0000; }
  }

  /** The exact round trips of the echoes so far. */
  ghost function ExactTrips(p: Periods, start: int, es: seq<Event>, stamped: nat -> Wall, n: nat): seq<int>
    requires n <= |es|
  {
    if n == 0 then []
    else ExactTrips(p, start, es, stamped, n - 1) +
         if Echoes(p, start, es, n - 1) then [ExactTrip(es[n - 1].rx, stamped(n - 1), es[n - 1].h.rttRespDelay)] else []
  }

  lemma {:induction false} TripsNear(p: Periods, start: int, es: seq<Event>, stamped: nat -> Wall, n: nat)
    requires n <= |es| && forall i | 0 <= i < n && Echoes(p, start, es, i) :: EchoTruthful(es, stamped, i)
    ensures AllNear(RoundTrips(p, start, es, n), ExactTrips(p, start, es, stamped, n))
  {
    if n > 0 {
      TripsNear(p, start, es, stamped, n - 1);
      if Echoes(p, start, es, n - 1) {
        assert EchoTruthful(es, stamped, n - 1);
        var e := es[n - 1];
        RoundTripNear(e.rx, e.h, stamped(n - 1));
        NearOne(RoundTrips(p, start, es, n - 1), ExactTrips(p, start, es, stamped, n - 1),
                RoundTrip(e.rx, e.h), ExactTrip(e.rx, stamped(n - 1), e.h.rttRespDelay));
      }
    }
  }

  /** Against exact clocks: the round trip minimum is within 1 ms of the least exact round trip so far,
      and the variation handed to the search within 2 ms of the latest one's excess over it. */
  lemma {:induction false} RttNearExact(p: Periods, start: int, es: seq<Event>, stamped: nat -> Wall, n: nat)
    requires n <= |es| && RoundTrips(p, start, es, n) != []
    requires forall i | 0 <= i < n && Echoes(p, start, es, i) :: EchoTruthful(es, stamped, i)
    ensures var r, xs := BookAt(p, start, es, n).a.rtt, ExactTrips(p, start, es, stamped, n);
            && xs != [] && Near(r.min, MinOf(xs), 1)
            && Near(r.varSample, Last(xs) - MinOf(xs), 2)
  {
    TripsNear(p, start, es, stamped, n);
    RttIsExcess(p, start, es, n);
    MinNear(RoundTrips(p, start, es, n), ExactTrips(p, start, es, stamped, n));
    DelayVariationNear(RoundTrips(p, start, es, n), ExactTrips(p, start, es, stamped, n));
  }

  // ---------------------------------------------------------------------------
  // The trial's delay statistics
  // ---------------------------------------------------------------------------

  function FoldDelays(samples: seq<u32>): DelayStats {
    if samples == [] then NO_DELAYS else NoteDelay(FoldDelays(Front(samples)), Last(samples))
  }

  function Sum(samples: seq<u32>): nat {
    if samples == [] then 0 else Sum(Front(samples)) + Last(samples)
  }

  lemma {:induction false} FoldOne(samples: seq<u32>, x: u32)
    ensures FoldDelays(samples + [x]) == NoteDelay(FoldDelays(samples), x)
  {
  }

  /** How event n changes the trial's delay statistics. */
  lemma {:induction false} DelayAfter(p: Periods, start: int, es: seq<Event>, n: nat)
    requires n < |es|
    ensures var d, d' := BookAt(p, start, es, n).a.trial.delay, BookAt(p, start, es, n + 1).a.trial.delay;
            d' == if es[n].Status? then NO_DELAYS
                  else if Advances(p, start, es, n) then NoteDelay(d, Sample(p, start, es, n))
                  else d
  {
    if es[n].Load? { LoadDelay(BookAt(p, start, es, n).a, es[n].rx, es[n].h); }
  }

  predicate Folded(d: DelayStats, samples: seq<u32>) { d == FoldDelays(samples) }

  lemma {:induction false} FoldedOne(d: DelayStats, samples: seq<u32>, x: u32)
    requires Folded(d, samples)
    ensures Folded(NoteDelay(d, x), samples + [x])
  {
    FoldOne(samples, x);
  }

  lemma {:induction false} FoldedAfter(p: Periods, start: int, es: seq<Event>, n: nat)
    requires n < |es| && Folded(BookAt(p, start, es, n).a.trial.delay, Samples(p, start, es, n))
    ensures Folded(BookAt(p, start, es, n + 1).a.trial.delay, Samples(p, start, es, n + 1))
  {
    DelayAfter(p, start, es, n);
    var samples := Samples(p, start, es, n);
    if es[n].Status? {
      assert Samples(p, start, es, n + 1) == [];
    } else if Advances(p, start, es, n) {
      FoldedOne(BookAt(p, start, es, n).a.trial.delay, samples, Sample(p, start, es, n));
    } else {
      assert samples + [] == samples;
    }
  }

  lemma {:induction false} TrialDelayFolds(p: Periods, start: int, es: seq<Event>, n: nat)
    requires n <= |es|
    ensures Folded(BookAt(p, start, es, n).a.trial.delay, Samples(p, start, es, n))
  {
    if n > 0 {
      TrialDelayFolds(p, start, es, n - 1);
      FoldedAfter(p, start, es, n - 1);
    }
  }

  /** min and max are the extremes of the samples, and the mean lies between them. */
  predicate Summarises(d: DelayStats, samples: seq<u32>) {
    && d.cnt == |samples| && d.sum == Sum(samples)
    && d.min in samples && d.max in samples && (forall i | 0 <= i < |samples| :: d.min <= samples[i] <= d.max)
    && d.cnt * d.min <= d.sum <= d.cnt * d.max
  }

  lemma {:induction false} FoldSummarises(samples: seq<u32>)
    requires 0 < |samples| < 0x1_0000_0000 && Sum(samples) < 0x1_0000_0000
    ensures Summarises(FoldDelays(samples), samples)
  {
    var front, x := Front(samples), Last(samples);
    assert samples == front + [x];
    if front == [] {
      assert FoldDelays(samples) == DelayStats(x, x, x, 1);
    } else {
      FoldSummarises(front);
      SummaryStep(FoldDelays(front), front, x);
    }
  }

  lemma {:induction false} SummaryStep(d: DelayStats, front: seq<u32>, x: u32)
    requires front != [] && Summarises(d, front) && |front| + 1 < 0x1_0000_0000 && Sum(front) + x < 0x1_0000_0000
    ensures Summarises(NoteDelay(d, x), front + [x])
  {
    var samples, d' := front + [x], NoteDelay(d, x);
    assert Front(samples) == front && Last(samples) == x;
    assert d' == DelayStats(Min(d.min, x), Max(d.max, x), d.sum + x, d.cnt + 1) by { NoteExact(d, x); }
    ExtremesStep(d.min, d.max, front, x);
    ProductStep(d.cnt, d.sum, d.min, d.max, x);
  }

  lemma {:induction false} NoteExact(d: DelayStats, x: u32)
    requires d.cnt + 1 < 0x1_0000_0000 && d.sum + x < 0x1_0000_0000
    ensures NoteDelay(d, x) == DelayStats(Min(d.min, x), Max(d.max, x), d.sum + x, d.cnt + 1)
  {
  }

  lemma {:induction false} ExtremesStep(lo: u32, hi: u32, front: seq<u32>, x: u32)
    requires lo in front && hi in front && forall i | 0 <= i < |front| :: lo <= front[i] <= hi
    ensures var samples := front + [x];
            && Min(lo, x) in samples && Max(hi, x) in samples
            && forall i | 0 <= i < |samples| :: Min(lo, x) <= samples[i] <= Max(hi, x)
  {
  }

  lemma {:induction false} ProductStep(cnt: nat, sum: nat, lo: nat, hi: nat, x: nat)
    requires cnt * lo <= sum <= cnt * hi
    ensures (cnt + 1) * Min(lo, x) <= sum + x <= (cnt + 1) * Max(hi, x)
  {
  }

  /** The integer delay of the search is the half-up rounding of the exact mean of the trial's
      samples, and lies between the least and the greatest of them, for every trial with data whose
      samples add up to less than a tenth of 2^32. */
  lemma {:induction false} SearchDelayIsMean(p: Periods, start: int, es: seq<Event>, n: nat)
    requires n <= |es|
    requires var samples := Samples(p, start, es, n);
             0 < |samples| < 0x1_0000_0000 && Sum(samples) * 10 < 0x1_0000_0000
    ensures var samples, d := Samples(p, start, es, n), BookAt(p, start, es, n).a.trial.delay;
            && d.cnt > 0 && Summarises(d, samples)
            && HalfUp(MeanDelay(d.sum, d.cnt), Sum(samples), |samples|)
            && d.min <= MeanDelay(d.sum, d.cnt) <= d.max
  {
    TrialDelayFolds(p, start, es, n);
    var samples := Samples(p, start, es, n);
    FoldSummarises(samples);
    var d := FoldDelays(samples);
    MeanDelayExact(d.sum, d.cnt);
    MeanBetween(MeanDelay(d.sum, d.cnt), d.sum, d.cnt, d.min, d.max);
  }
}
