/** Whole upstream runs of the receiver accounting (internal/udpst/accounting.go driven by the status
    step of runUpstream in internal/udpst/session.go): load datagrams in arrival order, with status
    messages anywhere between them. */
module Stream {
  import opened Messages
  import opened Clock
  import opened SequenceTracking
  import opened Accounting

  datatype Event = Load(rx: Wall, h: LoadPDU) | Status(now: int)

  datatype Periods = Periods(subInt: nat, trialInt: nat)

  /** The accounting, with the trial counters each status reported and the sub-intervals closed so far. */
  datatype Book = Book(a: Acct, reports: seq<Trial>, rolled: seq<SubIntStats>)

  /** What a status message does to the accounting: roll if due, report, start the next trial. */
  function AfterStatus(p: Periods, a: Acct, now: int): (a': Acct)
    requires a.Valid()
    ensures a'.Valid()
  {
    ResetTrialSpec(MaybeRollSpec(a, now, p.subInt, p.trialInt).(rolled := false))
  }

  /** The counters a status message due at time now carries: those after the roll, if one is due. */
  function Counters(p: Periods, a: Acct, now: int, lastStatus: int, wall: Wall): StatusPDU
    requires a.Valid()
  {
    StatusOf(MaybeRollSpec(a, now, p.subInt, p.trialInt), now, lastStatus, wall)
  }

  function BookStep(p: Periods, b: Book, e: Event): (b': Book)
    requires b.a.Valid()
    ensures b'.a.Valid()
  {
    match e
    case Load(rx, h) => b.(a := RecordLoadSpec(b.a, rx, h))
    case Status(now) =>
      Book(AfterStatus(p, b.a, now), b.reports + [b.a.trial],
           if Rolls(b.a, now, p.subInt, p.trialInt) then b.rolled + [RollSpec(b.a, now).saved] else b.rolled)
  }

  /** The books after the first n events. */
  function BookAt(p: Periods, start: int, es: seq<Event>, n: nat): (b: Book)
    requires n <= |es|
    ensures b.a.Valid()
  {
    if n == 0 then Book(FreshAcct(start), [], []) else BookStep(p, BookAt(p, start, es, n - 1), es[n - 1])
  }

  /** The end of the test: a last, partial sub-interval is closed if anything was received in it. */
  function Finished(b: Book, now: int): (b': Book)
    requires b.a.Valid()
    ensures b'.a.Valid()
  {
    if Rolls(b.a, now, 0, 0) then b.(a := RollSpec(b.a, now), rolled := b.rolled + [RollSpec(b.a, now).saved]) else b
  }

  // ---------------------------------------------------------------------------
  // The two partitions as runs of the sequence tracker
  // ---------------------------------------------------------------------------

  /** Whether event n closes a sub-interval. */
  predicate RollsAt(p: Periods, start: int, es: seq<Event>, n: nat)
    requires n < |es|
  {
    es[n].Status? && Rolls(BookAt(p, start, es, n).a, es[n].now, p.subInt, p.trialInt)
  }

  /** The stream cut at every status. */
  function TrialItems(es: seq<Event>, n: nat): seq<Item>
    requires n <= |es|
  {
    if n == 0 then []
    else TrialItems(es, n - 1) + [if es[n - 1].Load? then Got(es[n - 1].h.seqNo) else Cut]
  }

  /** The stream cut where a sub-interval closes. */
  function SubItems(p: Periods, start: int, es: seq<Event>, n: nat): seq<Item>
    requires n <= |es|
  {
    if n == 0 then []
    else SubItems(p, start, es, n - 1) +
         if es[n - 1].Load? then [Got(es[n - 1].h.seqNo)]
         else if RollsAt(p, start, es, n - 1) then [Cut]
         else []
  }

  function TrialErrs(reports: seq<Trial>): seq<SeqErrs> {
    seq(|reports|, i requires 0 <= i < |reports| => reports[i].errs)
  }

  function RolledErrs(rolled: seq<SubIntStats>): seq<SeqErrs> {
    seq(|rolled|, i requires 0 <= i < |rolled| => SubErrs(rolled[i]))
  }

  lemma {:induction false} ReplayOne(items: seq<Item>, item: Item)
    ensures Replay(items + [item]) == SequenceTracking.Step(Replay(items), item)
  {
  }

  /** What the tracker has counted when it has followed the trial counters of a book. */
  function TrialProgress(b: Book): Progress { Progress(b.a.win, b.a.trial.errs, TrialErrs(b.reports)) }

  function SubProgress(b: Book): Progress { Progress(b.a.win, SubErrs(b.a.sub), RolledErrs(b.rolled)) }

  lemma {:induction false} TrialStep(p: Periods, b: Book, e: Event)
    requires b.a.Valid()
    ensures TrialProgress(BookStep(p, b, e))
            == SequenceTracking.Step(TrialProgress(b), if e.Load? then Got(e.h.seqNo) else Cut)
  {
  }

  lemma {:induction false} SubStep(p: Periods, b: Book, e: Event)
    requires b.a.Valid()
    ensures SubProgress(BookStep(p, b, e))
            == if e.Load? then SequenceTracking.Step(SubProgress(b), Got(e.h.seqNo))
               else if Rolls(b.a, e.now, p.subInt, p.trialInt) then SequenceTracking.Step(SubProgress(b), Cut)
               else SubProgress(b)
  {
  }

  /** The trial counters are those of the tracker on the stream cut at every status. */
  lemma {:induction false} TrialFollows(p: Periods, start: int, es: seq<Event>, n: nat)
    requires n <= |es|
    ensures Replay(TrialItems(es, n)) == TrialProgress(BookAt(p, start, es, n))
  {
    if n == 0 {
      assert TrialErrs([]) == [];
    } else {
      TrialFollows(p, start, es, n - 1);
      TrialStep(p, BookAt(p, start, es, n - 1), es[n - 1]);
      ReplayOne(TrialItems(es, n - 1), if es[n - 1].Load? then Got(es[n - 1].h.seqNo) else Cut);
    }
  }

  /** The sub-interval counters are those of the tracker on the stream cut at every roll. */
  lemma {:induction false} SubFollows(p: Periods, start: int, es: seq<Event>, n: nat)
    requires n <= |es|
    ensures Replay(SubItems(p, start, es, n)) == SubProgress(BookAt(p, start, es, n))
  {
    if n == 0 {
      assert RolledErrs([]) == [];
    } else {
      SubFollows(p, start, es, n - 1);
      var items := SubItems(p, start, es, n - 1);
      SubStep(p, BookAt(p, start, es, n - 1), es[n - 1]);
      ReplayOne(items, if es[n - 1].Load? then Got(es[n - 1].h.seqNo) else Cut);
      assert items + [] == items;
    }
  }

  predicate LegalStream(es: seq<Event>, n: nat)
    requires n <= |es|
  {
    forall i | 0 <= i < n && es[i].Load? :: 1 <= es[i].h.seqNo < 0xFFFF_FFFF
  }

  ghost predicate SameNumbers(t: seq<Item>, s: seq<Item>) {
    Legal(t) && Legal(s) && Seen(t) == Seen(s) && Top(t) == Top(s)
  }

  lemma {:induction false} SameOne(t: seq<Item>, s: seq<Item>, item: Item)
    requires SameNumbers(t, s) && (item.Got? ==> 1 <= item.x < 0xFFFF_FFFF)
    ensures SameNumbers(t + [item], s + [item])
    ensures item == Cut ==> SameNumbers(t + [item], s)
  {
  }

  lemma {:induction false} SameAfter(p: Periods, start: int, es: seq<Event>, n: nat)
    requires n < |es| && LegalStream(es, n + 1) && SameNumbers(TrialItems(es, n), SubItems(p, start, es, n))
    ensures SameNumbers(TrialItems(es, n + 1), SubItems(p, start, es, n + 1))
  {
    var t, s := TrialItems(es, n), SubItems(p, start, es, n);
    if es[n].Load? {
      SameOne(t, s, Got(es[n].h.seqNo));
    } else {
      SameOne(t, s, Cut);
      assert s + [] == s;
    }
  }

  /** Both cuttings are cuttings of one stream. */
  lemma {:induction false} SameStream(p: Periods, start: int, es: seq<Event>, n: nat)
    requires n <= |es| && LegalStream(es, n)
    ensures SameNumbers(TrialItems(es, n), SubItems(p, start, es, n))
  {
    if n > 0 {
      SameStream(p, start, es, n - 1);
      SameAfter(p, start, es, n - 1);
    }
  }

  /** Loss over a whole upstream run: in either partition, the losses reported plus those pending are
      the datagrams truly missing plus the late arrivals whose loss had been reported, less what
      misread repeats took back. */
  lemma {:induction false} RunLossConservation(p: Periods, start: int, es: seq<Event>, n: nat)
    requires n <= |es| && LegalStream(es, n)
    ensures var b, t, s := BookAt(p, start, es, n), TrialItems(es, n), SubItems(p, start, es, n);
            && SumLoss(TrialErrs(b.reports)) + b.a.trial.errs.loss + Stolen(t) == |Missing(t)| + LateAtZero(t)
            && SumLoss(RolledErrs(b.rolled)) + b.a.sub.seqErrLoss + Stolen(s) == |Missing(t)| + LateAtZero(s)
            && (Windowed(t) ==> Stolen(t) == 0) && (Windowed(s) ==> Stolen(s) == 0)
  {
    SameStream(p, start, es, n);
    TrialFollows(p, start, es, n);
    SubFollows(p, start, es, n);
    var t, s := TrialItems(es, n), SubItems(p, start, es, n);
    LossConservation(t);
    LossConservation(s);
    if Windowed(t) { WindowedNoMisread(t); }
    if Windowed(s) { WindowedNoMisread(s); }
  }
}
