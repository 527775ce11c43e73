/** Sub-intervals over whole upstream runs (maybeRoll in internal/udpst/accounting.go): when they close,
    how long they last, and what their records say of the samples in them. */
module SubIntervals {
  import opened Words
  import opened Messages
  import opened Clock
  import opened SequenceTracking
  import opened Accounting
  import opened Stream
  import opened DelayRuns

  /** Event n closes a sub-interval: there is one more closed record after it. */
  predicate ClosesAt(p: Periods, start: int, es: seq<Event>, n: nat)
    requires n < |es|
  {
    |BookAt(p, start, es, n).rolled| < |BookAt(p, start, es, n + 1).rolled|
  }

  /** The start of the run and the times at which sub-intervals closed. */
  function Closings(p: Periods, start: int, es: seq<Event>, n: nat): (cs: seq<int>)
    requires n <= |es|
    ensures cs != []
  {
    if n == 0 then [start]
    else
      Closings(p, start, es, n - 1) +
      if es[n - 1].Status? && ClosesAt(p, start, es, n - 1) then [es[n - 1].now] else []
  }

  /** The milliseconds of the first n sub-intervals, each rounded down. */
  function SumMs(cs: seq<int>, n: nat): int
    requires n < |cs|
  {
    if n == 0 then 0 else SumMs(cs, n - 1) + TruncDiv(cs[n] - cs[n - 1], MS)
  }

  /** Record k measures the time between closings k and k + 1, and the sum so far. */
  predicate Measures(s: SubIntStats, cs: seq<int>, k: nat)
    requires k + 1 < |cs|
  {
    s.deltaTime == Wrap32(TruncDiv(cs[k + 1] - cs[k], US)) && s.accumTime == Wrap32(SumMs(cs, k + 1))
  }

  /** What the book keeps of the closings. */
  predicate Kept(b: Book, cs: seq<int>) {
    && |cs| == |b.rolled| + 1 && b.a.subStart == Last(cs)
    && b.a.accumMs == Wrap32(SumMs(cs, |b.rolled|)) && b.a.subIntSeq == Wrap32(|b.rolled|)
    && (b.rolled != [] ==> b.a.saved == Last(b.rolled))
    && forall k | 0 <= k < |b.rolled| :: Measures(b.rolled[k], cs, k)
  }

  lemma {:induction false} SumMsPrefix(cs: seq<int>, c: int, n: nat)
    requires n < |cs|
    ensures SumMs(cs + [c], n) == SumMs(cs, n)
  {
    if n > 0 { SumMsPrefix(cs, c, n - 1); }
  }

  lemma {:induction false} MeasuresPrefix(s: SubIntStats, cs: seq<int>, c: int, k: nat)
    requires k + 1 < |cs| && Measures(s, cs, k)
    ensures Measures(s, cs + [c], k)
  {
    SumMsPrefix(cs, c, k + 1);
  }

  lemma {:induction false} KeptRoll(b: Book, cs: seq<int>, now: int)
    requires b.a.Valid() && Kept(b, cs)
    ensures Kept(Book(RollSpec(b.a, now), b.reports, b.rolled + [RollSpec(b.a, now).saved]), cs + [now])
  {
    var n, saved := |b.rolled|, RollSpec(b.a, now).saved;
    forall k | 0 <= k < n ensures Measures(b.rolled[k], cs + [now], k) {
      MeasuresPrefix(b.rolled[k], cs, now, k);
    }
    SumMsPrefix(cs, now, n);
    WrapSum(SumMs(cs, n), Wrap32(TruncDiv(now - Last(cs), MS)));
    WrapSum(TruncDiv(now - Last(cs), MS), SumMs(cs, n));
    WrapSum(n, 1);
    assert (cs + [now])[n + 1] == now && (cs + [now])[n] == Last(cs);
    assert Measures(saved, cs + [now], n);
  }

  /** Two accounting states that agree on the sub-interval clock. */
  predicate SameClock(a: Acct, a': Acct) {
    && a'.subStart == a.subStart && a'.accumMs == a.accumMs && a'.subIntSeq == a.subIntSeq && a'.saved == a.saved
  }

  lemma {:induction false} KeptSame(b: Book, b': Book, cs: seq<int>)
    requires Kept(b, cs) && b'.rolled == b.rolled && SameClock(b.a, b'.a)
    ensures Kept(b', cs)
  {
  }

  lemma {:induction false} LoadSameClock(a: Acct, rx: Wall, h: LoadPDU)
    requires a.Valid()
    ensures SameClock(a, RecordLoadSpec(a, rx, h))
  {
  }

  lemma {:induction false} KeptStatus(p: Periods, b: Book, now: int, cs: seq<int>)
    requires b.a.Valid() && Kept(b, cs)
    ensures var b' := BookStep(p, b, Status(now));
            Kept(b', cs + if |b.rolled| < |b'.rolled| then [now] else [])
  {
    var b' := BookStep(p, b, Status(now));
    if Rolls(b.a, now, p.subInt, p.trialInt) {
      KeptRoll(b, cs, now);
      KeptSame(Book(RollSpec(b.a, now), b.reports, b.rolled + [RollSpec(b.a, now).saved]), b', cs + [now]);
    } else {
      KeptSame(b, b', cs);
      assert cs + [] == cs;
    }
  }

  /** Over every run: each closed record's DeltaTime is the microseconds between the two closings it
      lies between and its AccumTime the milliseconds of all so far, modulo 2^32; the number of the
      last one counts them, and it is the one a status message carries. */
  lemma {:induction false} RecordsMeasure(p: Periods, start: int, es: seq<Event>, n: nat)
    requires n <= |es|
    ensures Kept(BookAt(p, start, es, n), Closings(p, start, es, n))
  {
    if n > 0 {
      RecordsMeasure(p, start, es, n - 1);
      var b, cs := BookAt(p, start, es, n - 1), Closings(p, start, es, n - 1);
      match es[n - 1]
      case Load(rx, h) =>
        LoadSameClock(b.a, rx, h);
        KeptSame(b, BookAt(p, start, es, n), cs);
        assert cs + [] == cs;
      case Status(now) => KeptStatus(p, b, now, cs);
    }
  }

  // ---------------------------------------------------------------------------
  // When a sub-interval closes
  // ---------------------------------------------------------------------------

  /** A status message closes the sub-interval if and only if it comes more than subInt less half a
      trial interval after the last closing. */
  lemma {:induction false} ClosesIff(p: Periods, start: int, es: seq<Event>, n: nat)
    requires p.subInt > 0 && n < |es| && es[n].Status?
    ensures ClosesAt(p, start, es, n) <==> es[n].now - Last(Closings(p, start, es, n)) > p.subInt - p.trialInt / 2
  {
    RecordsMeasure(p, start, es, n);
  }

  /** The time of the last of the first n status messages, or the start. */
  function LastStatus(start: int, es: seq<Event>, n: nat): int
    requires n <= |es|
  {
    if n == 0 then start else if es[n - 1].Status? then es[n - 1].now else LastStatus(start, es, n - 1)
  }

  lemma {:induction false} LastStatusPrefix(start: int, es: seq<Event>, e: Event, n: nat)
    requires n <= |es|
    ensures LastStatus(start, es + [e], n) == LastStatus(start, es, n)
  {
    if n > 0 { LastStatusPrefix(start, es, e, n - 1); }
  }

  lemma {:induction false} LastStatusOne(start: int, es: seq<Event>, e: Event)
    ensures LastStatus(start, es + [e], |es + [e]|) == if e.Status? then e.now else LastStatus(start, es, |es|)
  {
    LastStatusPrefix(start, es, e, |es|);
  }

  /** No status message comes more than late after it is due. */
  predicate Prompt(p: Periods, start: int, es: seq<Event>, n: nat, late: nat)
    requires n <= |es|
  {
    forall i | 0 <= i < n && es[i].Status? :: es[i].now - LastStatus(start, es, i) <= p.trialInt + late
  }

  /** How long a sub-interval may be open after a status message has left it open. */
  function Slack(p: Periods): nat { Max(0, p.subInt - p.trialInt / 2) }

  lemma {:induction false} OpenAtStatus(p: Periods, start: int, es: seq<Event>, n: nat)
    requires p.subInt > 0 && n <= |es|
    ensures LastStatus(start, es, n) - Last(Closings(p, start, es, n)) <= Slack(p)
  {
    if n > 0 {
      OpenAtStatus(p, start, es, n - 1);
      var cs := Closings(p, start, es, n - 1);
      assert cs + [] == cs;
      if es[n - 1].Status? { ClosesIff(p, start, es, n - 1); }
    }
  }

  /** A sub-interval lasts as asked for: more than subInt less half a trial interval and, as a status
      message comes every trial interval, at most half a trial interval more than subInt and as much
      as the message was late; or a trial interval where that is longer. */
  predicate Lasts(p: Periods, late: nat, d: int) {
    p.subInt - p.trialInt / 2 < d <= Slack(p) + p.trialInt + late
  }

  predicate AllLast(p: Periods, late: nat, cs: seq<int>) { forall k | 0 < k < |cs| :: Lasts(p, late, cs[k] - cs[k - 1]) }

  lemma {:induction false} OneMoreLasts(p: Periods, late: nat, cs: seq<int>, now: int)
    requires cs != [] && AllLast(p, late, cs) && Lasts(p, late, now - Last(cs))
    ensures AllLast(p, late, cs + [now])
  {
  }

  lemma {:induction false} ClosedLasts(p: Periods, start: int, es: seq<Event>, n: nat, late: nat)
    requires p.subInt > 0 && n < |es| && es[n].Status? && ClosesAt(p, start, es, n)
    requires es[n].now - LastStatus(start, es, n) <= p.trialInt + late
    ensures Lasts(p, late, es[n].now - Last(Closings(p, start, es, n)))
  {
    ClosesIff(p, start, es, n);
    OpenAtStatus(p, start, es, n);
  }

  /** The cadence of sub-intervals over every run with status messages at most late overdue. */
  lemma {:induction false} CadenceKept(p: Periods, start: int, es: seq<Event>, n: nat, late: nat)
    requires p.subInt > 0 && n <= |es| && Prompt(p, start, es, n, late)
    ensures AllLast(p, late, Closings(p, start, es, n))
  {
    if n > 0 {
      CadenceKept(p, start, es, n - 1, late);
      var cs := Closings(p, start, es, n - 1);
      if es[n - 1].Status? && ClosesAt(p, start, es, n - 1) {
        ClosedLasts(p, start, es, n - 1, late);
        OneMoreLasts(p, late, cs, es[n - 1].now);
      } else {
        assert cs + [] == cs;
      }
    }
  }

  // ---------------------------------------------------------------------------
  // What a closed record summarises
  // ---------------------------------------------------------------------------

  /** What was noted in the closed sub-intervals, in order, and in the open one. */
  datatype Notes = Notes(closed: seq<seq<u32>>, open: seq<u32>)

  function Noted(q: Notes, x: u32): Notes { q.(open := q.open + [x]) }

  function Closed(q: Notes): Notes { Notes(q.closed + [q.open], []) }

  /** The delay variation samples, sub-interval by sub-interval. */
  function DelayNotes(p: Periods, start: int, es: seq<Event>, n: nat): Notes
    requires n <= |es|
  {
    if n == 0 then Notes([], [])
    else
      var q := DelayNotes(p, start, es, n - 1);
      if ClosesAt(p, start, es, n - 1) then Closed(q)
      else if Advances(p, start, es, n - 1) then Noted(q, Sample(p, start, es, n - 1))
      else q
  }

  /** The excess of the latest round trip over the least, when event n has just sampled it. */
  function TripExcess(p: Periods, start: int, es: seq<Event>, n: nat): u32
    requires n < |es| && Echoes(p, start, es, n)
  {
    var rs := RoundTrips(p, start, es, n + 1);
    Wrap32(Last(rs) - MinOf(rs))
  }

  /** The round trip variations, sub-interval by sub-interval. */
  function TripNotes(p: Periods, start: int, es: seq<Event>, n: nat): Notes
    requires n <= |es|
  {
    if n == 0 then Notes([], [])
    else
      var q := TripNotes(p, start, es, n - 1);
      if ClosesAt(p, start, es, n - 1) then Closed(q)
      else if Echoes(p, start, es, n - 1) then Noted(q, TripExcess(p, start, es, n - 1))
      else q
  }

  /** min and max are the extremes of what was noted, if anything was. */
  predicate Extremes(min: u32, max: u32, xs: seq<u32>) {
    if xs == [] then min == NO_DELAY && max == 0
    else min in xs && max in xs && forall i | 0 <= i < |xs| :: min <= xs[i] <= max
  }

  predicate TripsSummed(s: SubIntStats, xs: seq<u32>) { Extremes(s.rttVarMin, s.rttVarMax, xs) }

  predicate DelaysSummed(s: SubIntStats, xs: seq<u32>) { Folded(SubDelay(s), xs) }

  predicate AllSummed(summed: (SubIntStats, seq<u32>) -> bool, b: Book, q: Notes) {
    && summed(b.a.sub, q.open) && |b.rolled| == |q.closed|
    && forall k | 0 <= k < |b.rolled| :: summed(b.rolled[k], q.closed[k])
  }

  lemma {:induction false} ExtremesNote(min: u32, max: u32, xs: seq<u32>, x: u32)
    requires Extremes(min, max, xs)
    ensures Extremes(if min == NO_DELAY || x < min then x else min, if x > max then x else max, xs + [x])
  {
  }

  lemma {:induction false} SummedClose(summed: (SubIntStats, seq<u32>) -> bool, b: Book, b': Book, q: Notes)
    requires AllSummed(summed, b, q) && b'.rolled == b.rolled + [b'.a.saved]
    requires summed(b'.a.saved, q.open) && summed(b'.a.sub, [])
    ensures AllSummed(summed, b', Closed(q))
  {
  }

  lemma {:induction false} SummedOpen(summed: (SubIntStats, seq<u32>) -> bool, b: Book, b': Book, q: Notes, xs: seq<u32>)
    requires AllSummed(summed, b, q) && b'.rolled == b.rolled && summed(b'.a.sub, xs)
    ensures AllSummed(summed, b', q.(open := xs))
  {
  }

  /** A status message leaves the sub-interval alone or closes it with all it holds. */
  lemma {:induction false} StatusCloses(p: Periods, b: Book, now: int)
    requires b.a.Valid()
    ensures var b' := BookStep(p, b, Status(now));
            if |b.rolled| < |b'.rolled| then
              && b'.rolled == b.rolled + [b'.a.saved] && b'.a.sub == EMPTY_SUB && SubDelay(b'.a.saved) == SubDelay(b.a.sub)
              && b'.a.saved.rttVarMin == b.a.sub.rttVarMin && b'.a.saved.rttVarMax == b.a.sub.rttVarMax
            else b'.rolled == b.rolled && b'.a.sub == b.a.sub
  {
  }

  lemma {:induction false} LoadSubDelay(a: Acct, rx: Wall, h: LoadPDU)
    requires a.Valid()
    ensures var a', delta := RecordLoadSpec(a, rx, h), WallDiffMs(rx, h.timeSec, h.timeNsec);
            SubDelay(a'.sub)
            == if Classify(a.win, h.seqNo).Advance?
               then NoteDelay(SubDelay(a.sub), Wrap32(delta - NoteOffset(a.offset, delta).deltaMin))
               else SubDelay(a.sub)
  {
  }

  lemma {:induction false} LoadSubTrip(a: Acct, rx: Wall, h: LoadPDU)
    requires a.Valid()
    ensures var a', s := RecordLoadSpec(a, rx, h), a.sub;
            if Classify(a.win, h.seqNo).Advance? && EchoesNew(a.rtt, h) then
              var x := NoteRtt(a.rtt, rx, h).varSample;
              && a'.sub.rttVarMin == (if s.rttVarMin == NO_DELAY || x < s.rttVarMin then x else s.rttVarMin)
              && a'.sub.rttVarMax == (if x > s.rttVarMax then x else s.rttVarMax)
            else a'.sub.rttVarMin == s.rttVarMin && a'.sub.rttVarMax == s.rttVarMax
  {
  }

  lemma {:induction false} DelaysAfter(p: Periods, start: int, es: seq<Event>, n: nat)
    requires n < |es| && AllSummed(DelaysSummed, BookAt(p, start, es, n), DelayNotes(p, start, es, n))
    ensures AllSummed(DelaysSummed, BookAt(p, start, es, n + 1), DelayNotes(p, start, es, n + 1))
  {
    var b, b', q := BookAt(p, start, es, n), BookAt(p, start, es, n + 1), DelayNotes(p, start, es, n);
    match es[n]
    case Load(rx, h) =>
      LoadSubDelay(b.a, rx, h);
      if Advances(p, start, es, n) {
        FoldedOne(SubDelay(b.a.sub), q.open, Sample(p, start, es, n));
        SummedOpen(DelaysSummed, b, b', q, q.open + [Sample(p, start, es, n)]);
      } else {
        SummedOpen(DelaysSummed, b, b', q, q.open);
      }
    case Status(now) =>
      StatusCloses(p, b, now);
      if ClosesAt(p, start, es, n) { SummedClose(DelaysSummed, b, b', q); } else { SummedOpen(DelaysSummed, b, b', q, q.open); }
  }

  lemma {:induction false} TripsAfter(p: Periods, start: int, es: seq<Event>, n: nat)
    requires n < |es| && AllSummed(TripsSummed, BookAt(p, start, es, n), TripNotes(p, start, es, n))
    ensures AllSummed(TripsSummed, BookAt(p, start, es, n + 1), TripNotes(p, start, es, n + 1))
  {
    var b, b', q := BookAt(p, start, es, n), BookAt(p, start, es, n + 1), TripNotes(p, start, es, n);
    match es[n]
    case Load(rx, h) =>
      LoadSubTrip(b.a, rx, h);
      if Echoes(p, start, es, n) {
        ExcessNoted(p, start, es, n);
        ExtremesNote(b.a.sub.rttVarMin, b.a.sub.rttVarMax, q.open, TripExcess(p, start, es, n));
        SummedOpen(TripsSummed, b, b', q, q.open + [TripExcess(p, start, es, n)]);
      } else {
        SummedOpen(TripsSummed, b, b', q, q.open);
      }
    case Status(now) =>
      StatusCloses(p, b, now);
      if ClosesAt(p, start, es, n) { SummedClose(TripsSummed, b, b', q); } else { SummedOpen(TripsSummed, b, b', q, q.open); }
  }

  lemma {:induction false} ExcessNoted(p: Periods, start: int, es: seq<Event>, n: nat)
    requires n < |es| && Echoes(p, start, es, n)
    ensures NoteRtt(BookAt(p, start, es, n).a.rtt, es[n].rx, es[n].h).varSample == TripExcess(p, start, es, n)
  {
    var rs := RoundTrips(p, start, es, n);
    RttIsExcess(p, start, es, n);
    RttStep(BookAt(p, start, es, n).a.rtt, rs, es[n].rx, es[n].h);
    assert RoundTrips(p, start, es, n + 1) == rs + [RoundTrip(es[n].rx, es[n].h)];
  }

  /** Every sub-interval record, closed or open, holds the statistics of the delay variation samples and
      the extremes of the round trip variations of its own part of the run. */
  lemma {:induction false} RecordsSummarise(p: Periods, start: int, es: seq<Event>, n: nat)
    requires n <= |es|
    ensures AllSummed(DelaysSummed, BookAt(p, start, es, n), DelayNotes(p, start, es, n))
    ensures AllSummed(TripsSummed, BookAt(p, start, es, n), TripNotes(p, start, es, n))
  {
    if n > 0 {
      RecordsSummarise(p, start, es, n - 1);
      DelaysAfter(p, start, es, n - 1);
      TripsAfter(p, start, es, n - 1);
    }
  }

  /** So the delay statistics of closed sub-interval k are the least, the greatest, the sum and the
      number of its samples, where it has any and their sum fits 32 bits. */
  lemma {:induction false} ClosedDelays(p: Periods, start: int, es: seq<Event>, n: nat, k: nat)
    requires n <= |es| && k < |BookAt(p, start, es, n).rolled|
    ensures k < |DelayNotes(p, start, es, n).closed|
    ensures var samples := DelayNotes(p, start, es, n).closed[k];
            0 < |samples| < 0x1_0000_0000 && Sum(samples) < 0x1_0000_0000
            ==> Summarises(SubDelay(BookAt(p, start, es, n).rolled[k]), samples)
  {
    RecordsSummarise(p, start, es, n);
    var samples := DelayNotes(p, start, es, n).closed[k];
    assert DelaysSummed(BookAt(p, start, es, n).rolled[k], samples);
    if 0 < |samples| < 0x1_0000_0000 && Sum(samples) < 0x1_0000_0000 { FoldSummarises(samples); }
  }
}
