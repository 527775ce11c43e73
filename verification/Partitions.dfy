/** Counting over whole upstream runs: trial intervals and sub-intervals are two partitions of one
    stream of datagrams, and every record accounts for the datagrams of its part. */
module Partitions {
  import opened Words
  import opened Messages
  import opened Clock
  import opened SequenceTracking
  import opened Accounting
  import opened Stream

  /** The datagrams of the closed parts, in order, and those of the open one. */
  datatype Parts = Parts(closed: seq<seq<LoadPDU>>, open: seq<LoadPDU>)

  function WithLoad(q: Parts, h: LoadPDU): Parts { q.(open := q.open + [h]) }

  function Close(q: Parts): Parts { Parts(q.closed + [q.open], []) }

  function Loads(es: seq<Event>, n: nat): seq<LoadPDU>
    requires n <= |es|
  {
    if n == 0 then [] else Loads(es, n - 1) + if es[n - 1].Load? then [es[n - 1].h] else []
  }

  function TrialParts(es: seq<Event>, n: nat): Parts
    requires n <= |es|
  {
    if n == 0 then Parts([], [])
    else
      var q := TrialParts(es, n - 1);
      if es[n - 1].Load? then WithLoad(q, es[n - 1].h) else Close(q)
  }

  function SubParts(p: Periods, start: int, es: seq<Event>, n: nat): Parts
    requires n <= |es|
  {
    if n == 0 then Parts([], [])
    else
      var q := SubParts(p, start, es, n - 1);
      if es[n - 1].Load? then WithLoad(q, es[n - 1].h)
      else if RollsAt(p, start, es, n - 1) then Close(q)
      else q
  }

  function Flatten(ss: seq<seq<LoadPDU>>): seq<LoadPDU> {
    if ss == [] then [] else Flatten(Front(ss)) + Last(ss)
  }

  function Payload(hs: seq<LoadPDU>): nat {
    if hs == [] then 0 else Payload(Front(hs)) + Last(hs).udpPayload
  }

  lemma {:induction false} PayloadOne(hs: seq<LoadPDU>, h: LoadPDU)
    ensures Payload(hs + [h]) == Payload(hs) + h.udpPayload
  {
  }

  lemma {:induction false} FlattenOne(ss: seq<seq<LoadPDU>>, s: seq<LoadPDU>)
    ensures Flatten(ss + [s]) == Flatten(ss) + s
  {
  }

  // ---------------------------------------------------------------------------
  // Every record counts its part, modulo the width of its counters
  // ---------------------------------------------------------------------------

  predicate TrialCounts(t: Trial, hs: seq<LoadPDU>) {
    t.rxDatagrams == Wrap32(|hs|) && t.rxBytes == Wrap32(Payload(hs))
  }

  predicate SubCounts(s: SubIntStats, hs: seq<LoadPDU>) {
    s.rxDatagrams == Wrap32(|hs|) && s.rxBytes == Wrap64(Payload(hs))
  }

  lemma {:induction false} LoadCounts(a: Acct, rx: Wall, h: LoadPDU, ts: seq<LoadPDU>, ss: seq<LoadPDU>)
    requires a.Valid() && TrialCounts(a.trial, ts) && SubCounts(a.sub, ss)
    ensures var a' := RecordLoadSpec(a, rx, h);
            TrialCounts(a'.trial, ts + [h]) && SubCounts(a'.sub, ss + [h])
  {
    PayloadOne(ts, h);
    PayloadOne(ss, h);
    WrapSum(|ts|, 1);
    WrapSum(|ss|, 1);
    WrapSum(Payload(ts), h.udpPayload);
    WrapSum64(Payload(ss), h.udpPayload);
    RecordKeepsCounts(a, rx, h);
  }

  lemma {:induction false} RecordKeepsCounts(a: Acct, rx: Wall, h: LoadPDU)
    requires a.Valid()
    ensures var a', c := RecordLoadSpec(a, rx, h), CountDatagram(a, h.udpPayload);
            && a'.trial.rxDatagrams == c.trial.rxDatagrams && a'.trial.rxBytes == c.trial.rxBytes
            && a'.sub.rxDatagrams == c.sub.rxDatagrams && a'.sub.rxBytes == c.sub.rxBytes
  {
  }

  predicate TrialsCounted(b: Book, q: Parts) {
    && TrialCounts(b.a.trial, q.open) && |b.reports| == |q.closed|
    && forall k | 0 <= k < |b.reports| :: TrialCounts(b.reports[k], q.closed[k])
  }

  predicate SubsCounted(b: Book, q: Parts) {
    && SubCounts(b.a.sub, q.open) && |b.rolled| == |q.closed|
    && forall k | 0 <= k < |b.rolled| :: SubCounts(b.rolled[k], q.closed[k])
  }

  lemma {:induction false} LoadCountsBook(p: Periods, b: Book, rx: Wall, h: LoadPDU, t: Parts, s: Parts)
    requires b.a.Valid() && TrialsCounted(b, t) && SubsCounted(b, s)
    ensures TrialsCounted(BookStep(p, b, Load(rx, h)), WithLoad(t, h))
    ensures SubsCounted(BookStep(p, b, Load(rx, h)), WithLoad(s, h))
  {
    LoadCounts(b.a, rx, h, t.open, s.open);
  }

  /** Every record counts the datagrams and bytes of its part. */
  predicate PartsCounted(b: Book, t: Parts, s: Parts) { TrialsCounted(b, t) && SubsCounted(b, s) }

  lemma {:induction false} CountedAfter(p: Periods, start: int, es: seq<Event>, n: nat)
    requires n < |es| && PartsCounted(BookAt(p, start, es, n), TrialParts(es, n), SubParts(p, start, es, n))
    ensures PartsCounted(BookAt(p, start, es, n + 1), TrialParts(es, n + 1), SubParts(p, start, es, n + 1))
  {
    var b, t, s := BookAt(p, start, es, n), TrialParts(es, n), SubParts(p, start, es, n);
    match es[n]
    case Load(rx, h) => LoadCountsBook(p, b, rx, h, t, s);
    case Status(now) => StatusCounts(p, b, now, t, s);
  }

  lemma {:induction false} NothingCounted(start: int)
    ensures PartsCounted(Book(FreshAcct(start), [], []), Parts([], []), Parts([], []))
  {
  }

  lemma {:induction false} RecordsCountParts(p: Periods, start: int, es: seq<Event>, n: nat)
    requires n <= |es|
    ensures PartsCounted(BookAt(p, start, es, n), TrialParts(es, n), SubParts(p, start, es, n))
  {
    if n == 0 {
      NothingCounted(start);
    } else {
      RecordsCountParts(p, start, es, n - 1);
      CountedAfter(p, start, es, n - 1);
    }
  }

  lemma {:induction false} StatusCounts(p: Periods, b: Book, now: int, t: Parts, s: Parts)
    requires b.a.Valid() && TrialsCounted(b, t) && SubsCounted(b, s)
    ensures TrialsCounted(BookStep(p, b, Status(now)), Close(t))
    ensures SubsCounted(BookStep(p, b, Status(now)), if Rolls(b.a, now, p.subInt, p.trialInt) then Close(s) else s)
  {
    assert SubCounts(RollSpec(b.a, now).saved, s.open);
  }

  /** The parts, laid end to end, are hs. */
  predicate Covers(q: Parts, hs: seq<LoadPDU>) { Flatten(q.closed) + q.open == hs }

  lemma {:induction false} CoverOne(q: Parts, hs: seq<LoadPDU>, h: LoadPDU)
    requires Covers(q, hs)
    ensures Covers(WithLoad(q, h), hs + [h])
  {
    assert Flatten(q.closed) + (q.open + [h]) == Flatten(q.closed) + q.open + [h];
  }

  lemma {:induction false} CoverClose(q: Parts, hs: seq<LoadPDU>)
    requires Covers(q, hs)
    ensures Covers(Close(q), hs + [])
  {
    FlattenOne(q.closed, q.open);
  }

  lemma {:induction false} TrialPartsCover(es: seq<Event>, n: nat)
    requires n <= |es|
    ensures Covers(TrialParts(es, n), Loads(es, n))
  {
    if n > 0 {
      TrialPartsCover(es, n - 1);
      var t, hs := TrialParts(es, n - 1), Loads(es, n - 1);
      if es[n - 1].Load? { CoverOne(t, hs, es[n - 1].h); } else { CoverClose(t, hs); }
    }
  }

  lemma {:induction false} SubPartsCover(p: Periods, start: int, es: seq<Event>, n: nat)
    requires n <= |es|
    ensures Covers(SubParts(p, start, es, n), Loads(es, n))
  {
    if n > 0 {
      SubPartsCover(p, start, es, n - 1);
      var s, hs := SubParts(p, start, es, n - 1), Loads(es, n - 1);
      if es[n - 1].Load? {
        CoverOne(s, hs, es[n - 1].h);
      } else if RollsAt(p, start, es, n - 1) {
        CoverClose(s, hs);
      } else {
        assert hs + [] == hs;
      }
    }
  }

  /** Both partitions, laid end to end, are the datagrams received, each once and in order. */
  lemma {:induction false} PartsCover(p: Periods, start: int, es: seq<Event>, n: nat)
    requires n <= |es|
    ensures var t, s := TrialParts(es, n), SubParts(p, start, es, n);
            Flatten(t.closed) + t.open == Loads(es, n) == Flatten(s.closed) + s.open
  {
    TrialPartsCover(es, n);
    SubPartsCover(p, start, es, n);
  }

  // ---------------------------------------------------------------------------
  // Sums over the records
  // ---------------------------------------------------------------------------

  /** Datagrams and bytes over the records. */
  function SumTrials(reports: seq<Trial>): (nat, nat) {
    if reports == [] then (0, 0)
    else
      var sum := SumTrials(reports[..|reports| - 1]);
      (sum.0 + Last(reports).rxDatagrams, sum.1 + Last(reports).rxBytes)
  }

  function SumSubs(rolled: seq<SubIntStats>): (nat, nat) {
    if rolled == [] then (0, 0)
    else
      var sum := SumSubs(rolled[..|rolled| - 1]);
      (sum.0 + Last(rolled).rxDatagrams, sum.1 + Last(rolled).rxBytes)
  }

  predicate Fits(hs: seq<LoadPDU>, limit: nat) { |hs| < 0x1_0000_0000 && Payload(hs) < limit }

  /** No part is so long that one of its counters wraps; limit is what the byte counter can hold. */
  predicate NoWrap(q: Parts, limit: nat) {
    Fits(q.open, limit) && forall k | 0 <= k < |q.closed| :: Fits(q.closed[k], limit)
  }

  predicate TrialExact(t: Trial, hs: seq<LoadPDU>) { t.rxDatagrams == |hs| && t.rxBytes == Payload(hs) }

  predicate SubExact(s: SubIntStats, hs: seq<LoadPDU>) { s.rxDatagrams == |hs| && s.rxBytes == Payload(hs) }

  lemma {:induction false} TrialFitsExact(t: Trial, hs: seq<LoadPDU>)
    requires TrialCounts(t, hs) && Fits(hs, 0x1_0000_0000)
    ensures TrialExact(t, hs)
  {
  }

  lemma {:induction false} SubFitsExact(s: SubIntStats, hs: seq<LoadPDU>)
    requires SubCounts(s, hs) && Fits(hs, 0x1_0000_0000_0000_0000)
    ensures SubExact(s, hs)
  {
  }

  lemma {:induction false} SumTrialsFlat(reports: seq<Trial>, closed: seq<seq<LoadPDU>>)
    requires |reports| == |closed|
    requires forall k | 0 <= k < |reports| :: TrialExact(reports[k], closed[k])
    ensures SumTrials(reports) == (|Flatten(closed)|, Payload(Flatten(closed)))
  {
    if reports != [] {
      var n := |reports| - 1;
      SumTrialsFlat(reports[..n], closed[..n]);
      PayloadConcat(Flatten(closed[..n]), closed[n]);
      assert TrialExact(reports[n], closed[n]);
    }
  }

  lemma {:induction false} SumSubsFlat(rolled: seq<SubIntStats>, closed: seq<seq<LoadPDU>>)
    requires |rolled| == |closed|
    requires forall k | 0 <= k < |rolled| :: SubExact(rolled[k], closed[k])
    ensures SumSubs(rolled) == (|Flatten(closed)|, Payload(Flatten(closed)))
  {
    if rolled != [] {
      var n := |rolled| - 1;
      SumSubsFlat(rolled[..n], closed[..n]);
      PayloadConcat(Flatten(closed[..n]), closed[n]);
      assert SubExact(rolled[n], closed[n]);
    }
  }

  lemma {:induction false} PayloadConcat(a: seq<LoadPDU>, b: seq<LoadPDU>)
    ensures Payload(a + b) == Payload(a) + Payload(b)
  {
    if b == [] {
      assert a + b == a;
    } else {
      PayloadConcat(a, Front(b));
      assert Front(a + b) == a + Front(b);
    }
  }

  lemma {:induction false} TrialSums(b: Book, q: Parts)
    requires TrialsCounted(b, q) && NoWrap(q, 0x1_0000_0000)
    ensures var all := Flatten(q.closed) + q.open;
            SumTrials(b.reports).0 + b.a.trial.rxDatagrams == |all| && SumTrials(b.reports).1 + b.a.trial.rxBytes == Payload(all)
  {
    forall k | 0 <= k < |b.reports| ensures TrialExact(b.reports[k], q.closed[k]) {
      TrialFitsExact(b.reports[k], q.closed[k]);
    }
    TrialFitsExact(b.a.trial, q.open);
    SumTrialsFlat(b.reports, q.closed);
    PayloadConcat(Flatten(q.closed), q.open);
  }

  lemma {:induction false} SubSums(b: Book, q: Parts)
    requires SubsCounted(b, q) && NoWrap(q, 0x1_0000_0000_0000_0000)
    ensures var all := Flatten(q.closed) + q.open;
            SumSubs(b.rolled).0 + b.a.sub.rxDatagrams == |all| && SumSubs(b.rolled).1 + b.a.sub.rxBytes == Payload(all)
  {
    forall k | 0 <= k < |b.rolled| ensures SubExact(b.rolled[k], q.closed[k]) {
      SubFitsExact(b.rolled[k], q.closed[k]);
    }
    SubFitsExact(b.a.sub, q.open);
    SumSubsFlat(b.rolled, q.closed);
    PayloadConcat(Flatten(q.closed), q.open);
  }

  /** The two partitions agree: reported trials plus the current one, and closed sub-intervals plus
      the active one, each add up to the datagrams and bytes received, as long as no interval
      overflows its own counters. */
  lemma {:induction false} PartitionsAgree(p: Periods, start: int, es: seq<Event>, n: nat)
    requires n <= |es|
    requires NoWrap(TrialParts(es, n), 0x1_0000_0000) && NoWrap(SubParts(p, start, es, n), 0x1_0000_0000_0000_0000)
    ensures var b, all := BookAt(p, start, es, n), Loads(es, n);
            && SumTrials(b.reports).0 + b.a.trial.rxDatagrams == |all| == SumSubs(b.rolled).0 + b.a.sub.rxDatagrams
            && SumTrials(b.reports).1 + b.a.trial.rxBytes == Payload(all) == SumSubs(b.rolled).1 + b.a.sub.rxBytes
  {
    RecordsCountParts(p, start, es, n);
    PartsCover(p, start, es, n);
    TrialSums(BookAt(p, start, es, n), TrialParts(es, n));
    SubSums(BookAt(p, start, es, n), SubParts(p, start, es, n));
  }

  // ---------------------------------------------------------------------------
  // The end of a test
  // ---------------------------------------------------------------------------

  /** Nothing is pending in a sub-interval that has received nothing. */
  lemma {:induction false} OpenEmpty(p: Periods, start: int, es: seq<Event>, n: nat)
    requires n <= |es| && SubParts(p, start, es, n).open == []
    ensures BookAt(p, start, es, n).a.sub == EMPTY_SUB
  {
    if n > 0 && !RollsAt(p, start, es, n - 1) { OpenEmpty(p, start, es, n - 1); }
  }

  lemma {:induction false} FinishClears(b: Book, q: Parts, now: int)
    requires b.a.Valid() && SubsCounted(b, q) && Fits(q.open, 0x1_0000_0000_0000_0000)
    requires q.open == [] ==> b.a.sub == EMPTY_SUB
    ensures var b' := Finished(b, now);
            && b'.a.sub == EMPTY_SUB
            && SumSubs(b'.rolled) == (SumSubs(b.rolled).0 + b.a.sub.rxDatagrams, SumSubs(b.rolled).1 + b.a.sub.rxBytes)
            && SumLoss(RolledErrs(b'.rolled)) == SumLoss(RolledErrs(b.rolled)) + b.a.sub.seqErrLoss
  {
    SubFitsExact(b.a.sub, q.open);
    if q.open != [] {
      var saved := RollSpec(b.a, now).saved;
      assert Front(b.rolled + [saved]) == b.rolled;
      assert Front(RolledErrs(b.rolled + [saved])) == RolledErrs(b.rolled);
    }
  }

  /** The records together count the datagrams and bytes of hs. */
  predicate AddUp(rolled: seq<SubIntStats>, hs: seq<LoadPDU>) { SumSubs(rolled) == (|hs|, Payload(hs)) }

  lemma {:induction false} PendingAdded(b: Book, q: Parts, rolled: seq<SubIntStats>)
    requires SubsCounted(b, q) && NoWrap(q, 0x1_0000_0000_0000_0000)
    requires SumSubs(rolled) == (SumSubs(b.rolled).0 + b.a.sub.rxDatagrams, SumSubs(b.rolled).1 + b.a.sub.rxBytes)
    ensures AddUp(rolled, Flatten(q.closed) + q.open)
  {
    SubSums(b, q);
  }

  lemma {:induction false} ClosedSums(b: Book, q: Parts, now: int)
    requires b.a.Valid() && SubsCounted(b, q) && NoWrap(q, 0x1_0000_0000_0000_0000)
    requires q.open == [] ==> b.a.sub == EMPTY_SUB
    ensures Finished(b, now).a.sub == EMPTY_SUB && AddUp(Finished(b, now).rolled, Flatten(q.closed) + q.open)
  {
    FinishClears(b, q, now);
    PendingAdded(b, q, Finished(b, now).rolled);
  }

  /** At the end of a test nothing is pending: the closed sub-intervals alone account for every
      datagram and every byte. */
  lemma {:induction false} ClosedAddUp(p: Periods, start: int, es: seq<Event>, now: int)
    requires NoWrap(SubParts(p, start, es, |es|), 0x1_0000_0000_0000_0000)
    ensures var b := Finished(BookAt(p, start, es, |es|), now);
            b.a.sub == EMPTY_SUB && AddUp(b.rolled, Loads(es, |es|))
  {
    RecordsCountParts(p, start, es, |es|);
    SubPartsCover(p, start, es, |es|);
    if SubParts(p, start, es, |es|).open == [] { OpenEmpty(p, start, es, |es|); }
    ClosedSums(BookAt(p, start, es, |es|), SubParts(p, start, es, |es|), now);
  }

  /** And for every loss: together they report the datagrams truly missing plus the late arrivals
      whose loss had been reported, less what misread repeats took back. */
  lemma {:induction false} ClosedLosses(p: Periods, start: int, es: seq<Event>, now: int)
    requires NoWrap(SubParts(p, start, es, |es|), 0x1_0000_0000_0000_0000) && LegalStream(es, |es|)
    ensures var b, s := Finished(BookAt(p, start, es, |es|), now), SubItems(p, start, es, |es|);
            && SumLoss(RolledErrs(b.rolled)) + Stolen(s) == |Missing(s)| + LateAtZero(s)
            && (Windowed(s) ==> Stolen(s) == 0)
  {
    var b, q := BookAt(p, start, es, |es|), SubParts(p, start, es, |es|);
    RunLossConservation(p, start, es, |es|);
    SameStream(p, start, es, |es|);
    RecordsCountParts(p, start, es, |es|);
    if q.open == [] { OpenEmpty(p, start, es, |es|); }
    FinishClears(b, q, now);
  }

  // ---------------------------------------------------------------------------
  // Each datagram is advancing, late or a duplicate
  // ---------------------------------------------------------------------------

  predicate Classified(rx: u32, cnt: u32, e: SeqErrs) { rx == Wrap32(cnt + e.ooo + e.dup) }

  predicate TrialClassified(t: Trial) { Classified(t.rxDatagrams, t.delay.cnt, t.errs) }

  predicate SubClassified(s: SubIntStats) { Classified(s.rxDatagrams, s.delayVarCnt, SubErrs(s)) }

  lemma {:induction false} ClassifyOne(rx: u32, cnt: u32, e: SeqErrs, k: Kind)
    requires Classified(rx, cnt, e)
    ensures Classified(Wrap32(rx + 1), if k.Advance? then Wrap32(cnt + 1) else cnt, Tally(e, k))
  {
    WrapSum(cnt + e.ooo + e.dup, 1);
    match k
    case Advance(_) => WrapSum(cnt + 1, e.ooo + e.dup);
    case Duplicate => WrapSum(e.dup + 1, cnt + e.ooo);
    case Late => WrapSum(e.ooo + 1, cnt + e.dup);
  }

  /** Which counters one datagram moves. */
  lemma {:induction false} LoadMoves(a: Acct, rx: Wall, h: LoadPDU)
    requires a.Valid()
    ensures var a', kind := RecordLoadSpec(a, rx, h), Classify(a.win, h.seqNo);
            && a'.trial.rxDatagrams == Wrap32(a.trial.rxDatagrams + 1)
            && a'.trial.delay.cnt == (if kind.Advance? then Wrap32(a.trial.delay.cnt + 1) else a.trial.delay.cnt)
            && a'.trial.errs == Tally(a.trial.errs, kind)
            && a'.sub.rxDatagrams == Wrap32(a.sub.rxDatagrams + 1)
            && a'.sub.delayVarCnt == (if kind.Advance? then Wrap32(a.sub.delayVarCnt + 1) else a.sub.delayVarCnt)
            && SubErrs(a'.sub) == Tally(SubErrs(a.sub), kind)
  {
  }

  lemma {:induction false} TrialMoved(t: Trial, t': Trial, kind: Kind)
    requires TrialClassified(t) && t'.rxDatagrams == Wrap32(t.rxDatagrams + 1) && t'.errs == Tally(t.errs, kind)
    requires t'.delay.cnt == if kind.Advance? then Wrap32(t.delay.cnt + 1) else t.delay.cnt
    ensures TrialClassified(t')
  {
    ClassifyOne(t.rxDatagrams, t.delay.cnt, t.errs, kind);
  }

  lemma {:induction false} SubMoved(s: SubIntStats, s': SubIntStats, kind: Kind)
    requires SubClassified(s) && s'.rxDatagrams == Wrap32(s.rxDatagrams + 1) && SubErrs(s') == Tally(SubErrs(s), kind)
    requires s'.delayVarCnt == if kind.Advance? then Wrap32(s.delayVarCnt + 1) else s.delayVarCnt
    ensures SubClassified(s')
  {
    ClassifyOne(s.rxDatagrams, s.delayVarCnt, SubErrs(s), kind);
  }

  lemma {:induction false} LoadClassified(a: Acct, rx: Wall, h: LoadPDU)
    requires a.Valid() && TrialClassified(a.trial) && SubClassified(a.sub)
    ensures var a' := RecordLoadSpec(a, rx, h); TrialClassified(a'.trial) && SubClassified(a'.sub)
  {
    LoadMoves(a, rx, h);
    TrialMoved(a.trial, RecordLoadSpec(a, rx, h).trial, Classify(a.win, h.seqNo));
    SubMoved(a.sub, RecordLoadSpec(a, rx, h).sub, Classify(a.win, h.seqNo));
  }

  predicate All<T>(good: T -> bool, s: seq<T>) { forall k | 0 <= k < |s| :: good(s[k]) }

  predicate BookClassified(b: Book) {
    && TrialClassified(b.a.trial) && All(TrialClassified, b.reports)
    && SubClassified(b.a.sub) && All(SubClassified, b.rolled)
  }

  lemma {:induction false} AllAppend<T>(good: T -> bool, s: seq<T>, x: T)
    requires All(good, s) && good(x)
    ensures All(good, s + [x])
  {
  }

  lemma {:induction false} StatusShape(p: Periods, b: Book, now: int)
    requires b.a.Valid()
    ensures var b', saved := BookStep(p, b, Status(now)), RollSpec(b.a, now).saved;
            && b'.a.trial == EMPTY_TRIAL && b'.reports == b.reports + [b.a.trial]
            && ((b'.a.sub == b.a.sub && b'.rolled == b.rolled) || (b'.a.sub == EMPTY_SUB && b'.rolled == b.rolled + [saved]))
            && saved.rxDatagrams == b.a.sub.rxDatagrams && SubDelay(saved) == SubDelay(b.a.sub) && SubErrs(saved) == SubErrs(b.a.sub)
  {
  }

  lemma {:induction false} StatusClassified(p: Periods, b: Book, now: int)
    requires b.a.Valid() && BookClassified(b)
    ensures BookClassified(BookStep(p, b, Status(now)))
  {
    StatusShape(p, b, now);
    AllAppend(TrialClassified, b.reports, b.a.trial);
    AllAppend(SubClassified, b.rolled, RollSpec(b.a, now).saved);
  }

  /** Every record, reported, closed or open, accounts for each of its datagrams once: as an
      advancing one with a delay sample, as late, or as a duplicate. */
  lemma {:induction false} EveryRecordClassified(p: Periods, start: int, es: seq<Event>, n: nat)
    requires n <= |es|
    ensures BookClassified(BookAt(p, start, es, n))
  {
    if n > 0 {
      EveryRecordClassified(p, start, es, n - 1);
      var b := BookAt(p, start, es, n - 1);
      match es[n - 1]
      case Load(rx, h) => LoadClassified(b.a, rx, h);
      case Status(now) => StatusClassified(p, b, now);
    }
  }

  // ---------------------------------------------------------------------------
  // Accumulated time
  // ---------------------------------------------------------------------------

  /** Status times do not run backwards and span less than 2^32 ms. */
  predicate Clocked(start: int, es: seq<Event>, n: nat)
    requires n <= |es|
  {
    && (forall i | 0 <= i < n && es[i].Status? :: start <= es[i].now < start + 0x1_0000_0000 * MS)
    && (forall i, j | 0 <= i < j < n && es[i].Status? && es[j].Status? :: es[i].now <= es[j].now)
  }

  /** The accumulated time lags the true end of the last closed sub-interval by less than 1 ms for
      each roll. */
  predicate Lags(start: int, a: Acct, rolls: nat) {
    && 0 <= a.subStart - start - a.accumMs * MS
    && (if rolls == 0 then a.subStart == start && a.accumMs == 0 else a.subStart - start - a.accumMs * MS < rolls * MS)
  }

  lemma {:induction false} RollLags(start: int, a: Acct, rolls: nat, now: int)
    requires a.Valid() && Lags(start, a, rolls) && a.subStart <= now < start + 0x1_0000_0000 * MS
    ensures Lags(start, RollSpec(a, now), rolls + 1)
    ensures RollSpec(a, now).saved.accumTime == RollSpec(a, now).accumMs
  {
  }

  lemma {:induction false} LoadKeepsClock(a: Acct, rx: Wall, h: LoadPDU)
    requires a.Valid()
    ensures var a' := RecordLoadSpec(a, rx, h);
            a'.subStart == a.subStart && a'.accumMs == a.accumMs && a'.saved == a.saved
  {
  }

  /** t is the start or the time of one of the first n status messages. */
  predicate StatusTime(start: int, es: seq<Event>, n: nat, t: int)
    requires n <= |es|
  {
    if n == 0 then t == start else StatusTime(start, es, n - 1, t) || (es[n - 1].Status? && es[n - 1].now == t)
  }

  lemma {:induction false} StatusTimeBefore(start: int, es: seq<Event>, n: nat, t: int, k: nat)
    requires n <= k < |es| && Clocked(start, es, k + 1) && StatusTime(start, es, n, t) && es[k].Status?
    ensures t <= es[k].now
  {
    if n > 0 && StatusTime(start, es, n - 1, t) { StatusTimeBefore(start, es, n - 1, t, k); }
  }

  /** What holds of the accumulated time after the first n events. */
  predicate Timed(start: int, es: seq<Event>, n: nat, b: Book)
    requires n <= |es|
  {
    && Lags(start, b.a, |b.rolled|) && StatusTime(start, es, n, b.a.subStart)
    && (b.rolled != [] ==> b.a.saved == Last(b.rolled) && Last(b.rolled).accumTime == b.a.accumMs)
  }

  lemma {:induction false} TimedAfter(p: Periods, start: int, es: seq<Event>, n: nat, b: Book)
    requires n < |es| && Clocked(start, es, n + 1) && b.a.Valid() && Timed(start, es, n, b)
    ensures Timed(start, es, n + 1, BookStep(p, b, es[n]))
  {
    match es[n]
    case Load(rx, h) => LoadKeepsClock(b.a, rx, h);
    case Status(now) =>
      StatusTimeBefore(start, es, n, b.a.subStart, n);
      RollLags(start, b.a, |b.rolled|, now);
  }

  /** The accumulated time of a run whose clock does not run backwards lags the end of the last closed
      sub-interval by less than a millisecond for each roll, and is what that sub-interval reports. */
  lemma {:induction false} AccumTimeLag(p: Periods, start: int, es: seq<Event>, n: nat)
    requires n <= |es| && Clocked(start, es, n)
    ensures Timed(start, es, n, BookAt(p, start, es, n))
  {
    if n > 0 {
      AccumTimeLag(p, start, es, n - 1);
      TimedAfter(p, start, es, n - 1, BookAt(p, start, es, n - 1));
    }
  }
}
