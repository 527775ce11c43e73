/** The upstream engine (runUpstream in internal/udpst/session.go): accounts the client's load stream
    and steers the client's rate with a status message every trial interval. */
module Upstream {
  import opened Words
  import opened Messages
  import opened Clock
  import opened SequenceTracking
  import opened Accounting
  import opened Stream
  import opened Partitions
  import opened SubIntervals
  import opened RateSearch
  import SearchRuns

  const ACTION_TEST: u8 := 0
  const ACTION_STOP2: u8 := 2

  function StatusErrs(st: StatusPDU): SeqErrs { SeqErrs(st.seqErrLoss, st.seqErrOoo, st.seqErrDup) }

  const NO_TRAFFIC_WARNING: int := 1 * SECOND
  const STOP_MARGIN: int := 500 * MS

  /** A status message as sent: with the stop action once the test time is over, a warning when the
      client has gone quiet, its number and the row to send at. */
  function Addressed(st: StatusPDU, stopping: bool, quiet: bool, seqNo: u32, sr: Rate, authMode: u8,
                     legacy: bool): StatusPDU {
    st.(testAction := if stopping then ACTION_STOP2 else ACTION_TEST, rxStopped := BoolByte(quiet),
        seqNo := seqNo, sr := sr, authMode := authMode, legacy := legacy)
  }

  /** Status k reports trial k, is numbered k + 1, and tells the client to send a row of the table. */
  predicate Reports(rows: seq<Rate>, st: StatusPDU, t: Trial, k: nat) {
    && StatusErrs(st) == t.errs && st.tiRxDatagrams == t.rxDatagrams && st.tiRxBytes == t.rxBytes
    && DelayStats(st.delayVarMin, st.delayVarMax, st.delayVarSum, st.delayVarCnt) == t.delay
    && st.seqNo == Wrap32(k + 1) && st.sr in rows
  }

  lemma {:induction false} CountersReport(p: Periods, a: Acct, now: int, lastStatus: int, wall: Wall, rows: seq<Rate>,
                                          stopping: bool, quiet: bool, k: nat, sr: Rate, authMode: u8, legacy: bool)
    requires a.Valid() && sr in rows
    ensures Reports(rows, Addressed(Counters(p, a, now, lastStatus, wall), stopping, quiet, Wrap32(k + 1), sr, authMode, legacy),
                    a.trial, k)
  {
  }

  predicate AllReported(rows: seq<Rate>, sent: seq<StatusPDU>, reports: seq<Trial>) {
    |sent| == |reports| && forall k | 0 <= k < |sent| :: Reports(rows, sent[k], reports[k], k)
  }

  /** The totals logged at the end of a test, in 64 bits: nothing before the first report. */
  predicate Totals(loss: u64, datagrams: u64, reports: seq<Trial>) {
    if reports == [] then loss == datagrams == 0
    else loss == Wrap64(SumLoss(TrialErrs(reports))) && datagrams == Wrap64(SumTrials(reports).0)
  }

  /** The search after the given trials. */
  function Searched(c: Config, first: Search, xs: seq<TrialInput>): Search {
    if xs == [] then first else AdjustSpec(c, Searched(c, first, Front(xs)), Last(xs))
  }

  lemma {:induction false} SearchedOne(c: Config, first: Search, xs: seq<TrialInput>, x: TrialInput)
    requires c.Valid() && Searched(c, first, xs).Valid(c)
    ensures Searched(c, first, xs + [x]) == AdjustSpec(c, Searched(c, first, xs), x)
    ensures Searched(c, first, xs + [x]).Valid(c)
  {
    assert Front(xs + [x]) == xs;
    ApplyValid(c, Searched(c, first, xs), Decide(c, x));
  }

  function Decisions(c: Config, xs: seq<TrialInput>): seq<Decision> {
    seq(|xs|, i requires 0 <= i < |xs| => Decide(c, xs[i]))
  }

  lemma {:induction false} DecidedAt(c: Config, first: Search, ds: seq<Decision>, es: seq<Decision>, n: nat)
    requires n <= |ds| && n <= |es| && ds[..n] == es[..n]
    ensures SearchRuns.At(c, first, ds, n) == SearchRuns.At(c, first, es, n)
  {
    if n > 0 {
      assert ds[..n][..n - 1] == ds[..n - 1] && es[..n][..n - 1] == es[..n - 1];
      assert ds[..n][n - 1] == ds[n - 1] && es[..n][n - 1] == es[n - 1];
      DecidedAt(c, first, ds, es, n - 1);
    }
  }

  /** A search fed with measurements is a run in the sense of SearchRuns, so what holds of every run
      of decisions holds of every upstream test. */
  lemma {:induction false} SearchedIsRun(c: Config, first: Search, xs: seq<TrialInput>)
    ensures Searched(c, first, xs) == SearchRuns.At(c, first, Decisions(c, xs), |xs|)
  {
    if xs != [] {
      var n := |xs| - 1;
      SearchedIsRun(c, first, Front(xs));
      assert Decisions(c, xs)[..n] == Decisions(c, Front(xs))[..n];
      DecidedAt(c, first, Decisions(c, xs), Decisions(c, Front(xs)), n);
    }
  }

  lemma {:induction false} BookPrefix(p: Periods, start: int, es: seq<Event>, e: Event, n: nat)
    requires n <= |es|
    ensures BookAt(p, start, es + [e], n) == BookAt(p, start, es, n)
  {
    if n > 0 { BookPrefix(p, start, es, e, n - 1); }
  }

  /** b is the book of the whole of es. */
  ghost predicate IsBook(p: Periods, start: int, es: seq<Event>, b: Book) { b == BookAt(p, start, es, |es|) }

  lemma {:induction false} BookAppend(p: Periods, start: int, es: seq<Event>, b: Book, e: Event)
    requires IsBook(p, start, es, b)
    ensures b.a.Valid() && IsBook(p, start, es + [e], BookStep(p, b, e))
  {
    BookPrefix(p, start, es, e, |es|);
  }

  lemma {:induction false} TotalsOne(loss: u64, datagrams: u64, reports: seq<Trial>, t: Trial)
    requires Totals(loss, datagrams, reports)
    ensures Totals(Wrap64(loss + t.errs.loss), Wrap64(datagrams + t.rxDatagrams), reports + [t])
  {
    assert TrialErrs(reports + [t]) == TrialErrs(reports) + [t.errs];
    assert Front(TrialErrs(reports) + [t.errs]) == TrialErrs(reports);
    assert (reports + [t])[..|reports|] == reports;
    WrapSum64(SumLoss(TrialErrs(reports)), t.errs.loss);
    WrapSum64(SumTrials(reports).0, t.rxDatagrams);
  }

  lemma {:induction false} ReportOne(rows: seq<Rate>, sent: seq<StatusPDU>, reports: seq<Trial>, st: StatusPDU, t: Trial)
    requires AllReported(rows, sent, reports) && Reports(rows, st, t, |sent|)
    ensures AllReported(rows, sent + [st], reports + [t])
  {
  }

  /** n messages have been sent and the next is due no earlier than n + 1 trial intervals after the start. */
  predicate Spaced(n: nat, trialInt: nat, next: int, start: int) { (n + 1) * trialInt <= next - start }

  lemma {:induction false} SpacedSoFar(n: nat, trialInt: nat, next: int, start: int, now: int)
    requires Spaced(n, trialInt, next, start) && next <= now + trialInt
    ensures n * trialInt <= now - start
  {
    MulStep(n, trialInt);
  }

  /** When the status message after the one due at next is due. */
  function DueAfter(next: int, trialInt: nat, now: int): int { (if next + trialInt < now then now else next) + trialInt }

  lemma {:induction false} DueInTime(next: int, trialInt: nat, now: int, start: int, n: nat)
    requires next <= now && Spaced(n, trialInt, next, start)
    ensures var next' := DueAfter(next, trialInt, now);
            now <= next' <= now + trialInt && Spaced(n + 1, trialInt, next', start)
  {
    MulStep(n + 1, trialInt);
  }

  class Engine {
    const rows: seq<Rate>
    const c: Config
    const p: Periods
    const authMode: u8
    const legacy: bool
    const stopAt: int
    const acct: RxAccounting
    const rc: RateController
    var statusSeq: u32
    var lastStatus: int
    var nextStatus: int
    var lastRx: int
    var stopping: bool
    var totalLoss: u64
    var totalDG: u64
    ghost const start: int
    ghost var log: seq<Event>
    ghost var books: Book
    ghost var sent: seq<StatusPDU>
    ghost const first: Search
    ghost var inputs: seq<TrialInput>

    /** The accounting is that of the logged stream. */
    ghost predicate Accounted()
      reads this, acct, acct.history
    {
      acct.Valid() && acct.View() == books.a && IsBook(p, start, log, books)
    }

    /** The search has run on the trials so far and is on the table. */
    ghost predicate Searching()
      reads this, rc
    {
      && rc.c == c && c.Valid() && |rows| == c.maxIdx + 1
      && rc.View() == Searched(c, first, inputs) && rc.View().Valid(c)
    }

    /** The messages sent are those of the logged trials, no more than one per trial interval. */
    ghost predicate Reported()
      reads this
    {
      && statusSeq == Wrap32(|sent|) && AllReported(rows, sent, books.reports)
      && Totals(totalLoss, totalDG, books.reports)
      && p.trialInt > 0 && Spaced(|sent|, p.trialInt, nextStatus, start)
    }

    /** The next message is due a trial interval after the last at the latest. */
    ghost predicate Scheduled()
      reads this
    {
      lastStatus == LastStatus(start, log, |log|) && lastStatus <= nextStatus <= lastStatus + p.trialInt
    }

    ghost predicate Valid()
      reads this, acct, acct.history, rc
    {
      Accounted() && Searching() && Reported() && Scheduled()
    }

    constructor (table: seq<Rate>, config: Config, index: int, periods: Periods, auth: u8, oldVersion: bool, now: int,
                 duration: nat)
      requires config.Valid() && 0 <= index <= config.maxIdx && |table| == config.maxIdx + 1 && periods.trialInt > 0
      ensures Valid() && fresh(acct) && fresh(acct.history) && fresh(rc)
      ensures log == [] && sent == [] && inputs == [] && start == now && c == config && p == periods && rows == table
      ensures first == Search(index, 0, 0, 0, false) && authMode == auth && legacy == oldVersion
      ensures stopAt == now + duration + STOP_MARGIN && lastRx == now && !stopping
    {
      var accounting := new RxAccounting(now);
      var controller := new RateController(config, index);
      acct, rc := accounting, controller;
      rows, c, p, authMode, legacy, start := table, config, periods, auth, oldVersion, now;
      stopAt, lastRx, stopping := now + duration + STOP_MARGIN, now, false;
      statusSeq, lastStatus, nextStatus, totalLoss, totalDG := 0, now, now + periods.trialInt, 0, 0;
      log, sent, inputs, first := [], [], [], controller.View();
      books := BookAt(periods, now, [], 0);
    }

    /** A load datagram received from the client at time now, rx by the wall clock. */
    method OnLoad(now: int, rx: Wall, h: LoadPDU)
      requires Valid()
      modifies this`log, this`books, this`lastRx, acct, acct.history
      ensures Valid() && log == old(log) + [Load(rx, h)] && lastRx == now
    {
      lastRx := now;
      LastStatusOne(start, log, Load(rx, h));
      Account(rx, h);
    }

    method Account(rx: Wall, h: LoadPDU)
      requires Accounted()
      modifies this`log, this`books, acct, acct.history
      ensures Accounted() && log == old(log) + [Load(rx, h)] && books.reports == old(books).reports
    {
      BookAppend(p, start, log, books, Load(rx, h));
      acct.RecordLoad(rx, h);
      log := log + [Load(rx, h)];
      books := BookStep(p, books, Load(rx, h));
    }

    /** Feeds the trial's counters to the search. */
    method Steer()
      requires Accounted() && Searching()
      modifies this`inputs, rc
      ensures Searching() && inputs == old(inputs) + [TrialInputOf(books.a)]
    {
      var x := acct.Snapshot();
      SearchedOne(c, first, inputs, x);
      rc.Adjust(x);
      inputs := inputs + [x];
    }

    /** Rolls the sub-interval if due, closes the trial and returns its status message. */
    method CloseTrial(now: int, wall: Wall) returns (st: StatusPDU)
      requires Accounted()
      modifies this`log, this`books, acct
      ensures Accounted() && log == old(log) + [Status(now)] && books == BookStep(p, old(books), Status(now))
      ensures st == Counters(p, old(books).a, now, lastStatus, wall) && LastStatus(start, log, |log|) == now
    {
      BookAppend(p, start, log, books, Status(now));
      LastStatusOne(start, log, Status(now));
      acct.MaybeRoll(now, p.subInt, p.trialInt);
      acct.rolled := false;
      st := acct.BuildStatus(now, lastStatus, wall);
      acct.ResetTrial();
      log := log + [Status(now)];
      books := BookStep(p, books, Status(now));
    }

    /** Counts and sends the message of a trial that closed at time now, and schedules the next. */
    method Send(st: StatusPDU, ghost reports: seq<Trial>, ghost t: Trial, now: int)
      requires statusSeq == Wrap32(|sent|) && AllReported(rows, sent, reports) && Totals(totalLoss, totalDG, reports)
      requires books.reports == reports + [t] && Reports(rows, st, t, |sent|)
      requires p.trialInt > 0 && Spaced(|sent|, p.trialInt, nextStatus, start) && nextStatus <= now
      requires LastStatus(start, log, |log|) == now
      modifies this`sent, this`statusSeq, this`lastStatus, this`nextStatus, this`totalLoss, this`totalDG
      ensures Reported() && Scheduled() && sent == old(sent) + [st]
      ensures lastStatus == now && nextStatus == DueAfter(old(nextStatus), p.trialInt, now)
    {
      DueInTime(nextStatus, p.trialInt, now, start, |sent|);
      Count(st, reports, t);
      Schedule(now);
    }

    method Count(st: StatusPDU, ghost reports: seq<Trial>, ghost t: Trial)
      requires statusSeq == Wrap32(|sent|) && AllReported(rows, sent, reports) && Totals(totalLoss, totalDG, reports)
      requires Reports(rows, st, t, |sent|)
      modifies this`sent, this`statusSeq, this`totalLoss, this`totalDG
      ensures sent == old(sent) + [st] && statusSeq == Wrap32(|sent|)
      ensures AllReported(rows, sent, reports + [t]) && Totals(totalLoss, totalDG, reports + [t])
    {
      WrapSum(|sent|, 1);
      ReportOne(rows, sent, reports, st, t);
      TotalsOne(totalLoss, totalDG, reports, t);
      statusSeq := Wrap32(statusSeq + 1);
      totalLoss := Wrap64(totalLoss + st.seqErrLoss);
      totalDG := Wrap64(totalDG + st.tiRxDatagrams);
      sent := sent + [st];
    }

    method Schedule(now: int)
      modifies this`lastStatus, this`nextStatus
      ensures lastStatus == now && nextStatus == DueAfter(old(nextStatus), p.trialInt, now)
    {
      lastStatus := now;
      nextStatus := nextStatus + p.trialInt;
      if nextStatus < now { nextStatus := now + p.trialInt; }
    }

    /** The message due at time now: the closed trial's counters and the row the search moved to. */
    method Prepare(now: int, wall: Wall) returns (st: StatusPDU)
      requires Accounted() && Searching() && statusSeq == Wrap32(|sent|)
      modifies this`log, this`books, this`inputs, acct, rc
      ensures Accounted() && Searching()
      ensures log == old(log) + [Status(now)] && books == BookStep(p, old(books), Status(now))
      ensures inputs == old(inputs) + [TrialInputOf(old(books).a)]
      ensures Reports(rows, st, old(books).a.trial, |sent|) && LastStatus(start, log, |log|) == now
      ensures 0 <= rc.index < |rows|
      ensures st == Addressed(Counters(p, old(books).a, now, lastStatus, wall), stopping, now - lastRx > NO_TRAFFIC_WARNING,
                              Wrap32(|sent| + 1), rows[rc.index], authMode, legacy)
    {
      hide IsBook, Searched, Counters, Reports, BookStep;
      Steer();
      st := CloseTrial(now, wall);
      CountersReport(p, old(books).a, now, lastStatus, wall, rows, stopping, now - lastRx > NO_TRAFFIC_WARNING, |sent|,
                     rows[rc.index], authMode, legacy);
      st := st.(testAction := if stopping then ACTION_STOP2 else ACTION_TEST,
                rxStopped := BoolByte(now - lastRx > NO_TRAFFIC_WARNING),
                seqNo := Wrap32(statusSeq + 1), sr := rows[rc.index], authMode := authMode, legacy := legacy);
      WrapSum(|sent|, 1);
    }

    /** Closes the trial and sends its status message. */
    method SendStatus(now: int, wall: Wall) returns (st: StatusPDU)
      requires Valid() && now >= nextStatus
      modifies this`log, this`books, this`inputs, this`sent, this`statusSeq, this`lastStatus, this`nextStatus,
               this`totalLoss, this`totalDG, acct, rc
      ensures Valid() && log == old(log) + [Status(now)] && inputs == old(inputs) + [TrialInputOf(old(books).a)]
      ensures 0 <= rc.index < |rows|
      ensures sent == old(sent) + [st]
      ensures st == Addressed(Counters(p, old(books).a, now, old(lastStatus), wall), stopping,
                              now - lastRx > NO_TRAFFIC_WARNING, Wrap32(|old(sent)| + 1), rows[rc.index], authMode, legacy)
      ensures lastStatus == now
      ensures nextStatus == DueAfter(old(nextStatus), p.trialInt, now)
    {
      hide IsBook, AllReported, Totals, Searched, Counters, Addressed, Spaced;
      st := Prepare(now, wall);
      Send(st, old(books).reports, old(books).a.trial, now);
    }

    /** The top of the loop at time now: when a status message is due it is sent, the next one is due a
        trial interval after this one was, or after now if that has passed, and none comes later after
        the last than a trial interval and what it is overdue. */
    method Tick(now: int, wall: Wall)
      requires Valid()
      modifies this, acct, rc
      ensures Valid() && lastRx == old(lastRx) && stopping == (old(stopping) || now > stopAt)
      ensures now < old(nextStatus) ==> log == old(log) && sent == old(sent) && inputs == old(inputs)
      ensures now >= old(nextStatus) ==>
                && log == old(log) + [Status(now)] && inputs == old(inputs) + [TrialInputOf(old(books).a)]
                && 0 <= rc.index < |rows|
                && sent == old(sent) + [Addressed(Counters(p, old(books).a, now, old(lastStatus), wall), stopping,
                                                  now - lastRx > NO_TRAFFIC_WARNING, Wrap32(|old(sent)| + 1),
                                                  rows[rc.index], authMode, legacy)]
                && |sent| * p.trialInt <= now - start
                && nextStatus == (if old(nextStatus) + p.trialInt < now then now else old(nextStatus)) + p.trialInt
                && now - LastStatus(start, old(log), |old(log)|) <= p.trialInt + (now - old(nextStatus))
    {
      hide IsBook, AllReported, Totals, Searched, Counters, Addressed, Spaced;
      if !stopping && now > stopAt { stopping := true; }
      if now >= nextStatus {
        var st := SendStatus(now, wall);
        SpacedSoFar(|sent|, p.trialInt, nextStatus, start, now);
      }
    }

    /** The end of the test: the last, partial sub-interval is closed. */
    method Finish(now: int)
      requires Accounted()
      modifies this`books, acct
      ensures acct.Valid() && acct.View() == books.a && books == Finished(BookAt(p, start, log, |log|), now)
    {
      acct.MaybeRoll(now, 0, 0);
      books := Finished(books, now);
    }
  }
}
