/** The downstream search (runDownstream in internal/udpst/session.go): the client's status messages
    steer the row that the send loop reads. */
module Downstream {
  import opened Words
  import opened Messages
  import opened Clock
  import opened SequenceTracking
  import opened Accounting
  import opened Stream
  import opened Partitions
  import opened SubIntervals
  import opened Verdicts
  import opened StatusRuns
  import opened RateSearch
  import opened Codec
  import Upstream

  /** A status message as the search of a downstream test takes it. */
  function FromStatus(st: StatusPDU): TrialInput {
    TrialInput(st.seqErrLoss, st.seqErrOoo, st.seqErrDup, st.delayVarSum, st.delayVarCnt, st.rttVarSample,
               st.tiRxDatagrams, st.tiRxCECount, st.subIntSeqNo)
  }

  /** What a client reported, summed. */
  function SumReported(heard: seq<StatusPDU>): (nat, nat) {
    if heard == [] then (0, 0)
    else
      var sum := SumReported(heard[..|heard| - 1]);
      (sum.0 + Last(heard).seqErrLoss, sum.1 + Last(heard).tiRxDatagrams)
  }

  /** When a status message arrived, and the timestamp in it: what load datagrams echo. */
  datatype EchoState = EchoState(sec: u32, nsec: u32, rxAt: int)

  predicate Totalled(loss: u64, datagrams: u64, heard: seq<StatusPDU>) {
    loss == Wrap64(SumReported(heard).0) && datagrams == Wrap64(SumReported(heard).1)
  }

  lemma {:induction false} ReportedOne(heard: seq<StatusPDU>, st: StatusPDU, loss: u64, datagrams: u64)
    requires Totalled(loss, datagrams, heard)
    ensures Totalled(Wrap64(loss + st.seqErrLoss), Wrap64(datagrams + st.tiRxDatagrams), heard + [st])
  {
    assert (heard + [st])[..|heard|] == heard;
    WrapSum64(SumReported(heard).0, st.seqErrLoss);
    WrapSum64(SumReported(heard).1, st.tiRxDatagrams);
  }

  class Steering {
    const c: Config
    const rc: RateController
    var index: int
    var echo: Option<EchoState>
    var totalLoss: u64
    var totalDG: u64
    ghost const first: Search
    ghost var heard: seq<StatusPDU>
    ghost var inputs: seq<TrialInput>

    /** The row the send loop reads is that of a search run on the reports, and is on the table. */
    ghost predicate Searching()
      reads this, rc
    {
      && rc.c == c && c.Valid() && rc.View() == Upstream.Searched(c, first, inputs) && rc.View().Valid(c)
      && index == rc.index
    }

    /** And the totals are those reported. */
    ghost predicate Valid()
      reads this, rc
    {
      Searching() && Totalled(totalLoss, totalDG, heard)
    }

    constructor (config: Config, start: int)
      requires config.Valid() && 0 <= start <= config.maxIdx
      ensures Valid() && fresh(rc) && c == config && first == Search(start, 0, 0, 0, false)
      ensures index == start && echo == None && heard == [] && inputs == []
    {
      var controller := new RateController(config, start);
      c, rc, index, echo := config, controller, start, None;
      totalLoss, totalDG := 0, 0;
      heard, inputs, first := [], [], controller.View();
    }

    /** A datagram received at time rxAt. Only a status message of the peer counts: its timestamp is the
        next to be echoed, it is added to the totals, and it steers the search unless it ends the test. */
    method OnDatagram(b: seq<u8>, fromPeer: bool, rxAt: int) returns (more: bool)
      requires Valid()
      modifies this, rc
      ensures Valid()
      ensures if fromPeer && ParseStatus(b).Ok? then
                var st := ParseStatus(b).value;
                && heard == old(heard) + [st] && echo == Some(EchoState(st.timeSec, st.timeNsec, rxAt))
                && (more <==> st.testAction == Upstream.ACTION_TEST)
                && inputs == old(inputs) + if more then [FromStatus(st)] else []
              else more && heard == old(heard) && echo == old(echo) && inputs == old(inputs)
    {
      if !fromPeer { return true; }
      var parsed := ParseStatus(b);
      if parsed == Malformed { return true; }
      more := OnStatus(parsed.value, rxAt);
    }

    method OnStatus(st: StatusPDU, rxAt: int) returns (more: bool)
      requires Valid()
      modifies this, rc
      ensures Valid()
      ensures heard == old(heard) + [st] && echo == Some(EchoState(st.timeSec, st.timeNsec, rxAt))
      ensures more <==> st.testAction == Upstream.ACTION_TEST
      ensures inputs == old(inputs) + if more then [FromStatus(st)] else []
    {
      Note(st, rxAt);
      more := st.testAction == Upstream.ACTION_TEST;
      if more { Steer(FromStatus(st)); } else { assert inputs + [] == inputs; }
    }

    method Note(st: StatusPDU, rxAt: int)
      requires Totalled(totalLoss, totalDG, heard)
      modifies this`echo, this`totalLoss, this`totalDG, this`heard
      ensures Totalled(totalLoss, totalDG, heard)
      ensures heard == old(heard) + [st] && echo == Some(EchoState(st.timeSec, st.timeNsec, rxAt))
    {
      echo := Some(EchoState(st.timeSec, st.timeNsec, rxAt));
      ReportedOne(heard, st, totalLoss, totalDG);
      totalLoss := Wrap64(totalLoss + st.seqErrLoss);
      totalDG := Wrap64(totalDG + st.tiRxDatagrams);
      heard := heard + [st];
    }

    method Steer(x: TrialInput)
      requires Searching()
      modifies this`index, this`inputs, rc
      ensures Searching() && inputs == old(inputs) + [x]
    {
      Upstream.SearchedOne(c, first, inputs, x);
      rc.Adjust(x);
      index := rc.index;
      inputs := inputs + [x];
    }
  }

  /** A message read off the wire steers like the one written, except that the legacy form has no marks. */
  lemma {:induction false} ReadAlike(b: seq<u8>, st: StatusPDU)
    requires ValidStatus(st) && |b| == StatusSize(st) && StatusAt(b, st)
    ensures ParseStatus(b).Ok?
    ensures FromStatus(ParseStatus(b).value) == FromStatus(st).(ceCount := if st.legacy then 0 else st.tiRxCECount)
  {
    StatusRoundTrip(b, st);
  }

  lemma {:induction false} ReportOf(p: Periods, a: Acct, now: int, lastStatus: int, wall: Wall)
    requires a.Valid()
    ensures FromStatus(Counters(p, a, now, lastStatus, wall))
            == TrialInputOf(a).(subIntSeqNo := AfterStatus(p, a, now).subIntSeq)
  {
    CountersFrom(p, a, now, lastStatus, wall);
  }

  lemma {:induction false} ReportInput(p: Periods, start: int, es: seq<Event>, n: nat, lastStatus: int, wall: Wall,
                                       st: StatusPDU, b: seq<u8>)
    requires n < |es| && es[n].Status?
    requires FromStatus(st) == FromStatus(Counters(p, BookAt(p, start, es, n).a, es[n].now, lastStatus, wall))
    requires ValidStatus(st) && |b| == StatusSize(st) && StatusAt(b, st)
    ensures ParseStatus(b).Ok?
    ensures FromStatus(ParseStatus(b).value)
            == TrialInputOf(BookAt(p, start, es, n).a).(subIntSeqNo := BookAt(p, start, es, n + 1).a.subIntSeq)
  {
    var a := BookAt(p, start, es, n).a;
    ReadAlike(b, st);
    ReportOf(p, a, es[n].now, lastStatus, wall);
    NoMarks(p, start, es, n);
    assert TrialInputOf(a).ceCount == 0 && FromStatus(st).ceCount == st.tiRxCECount;
  }

  lemma {:induction false} DecideJudged(c: Config, x: TrialInput, v: Verdict)
    requires Judge(c, x) == v
    ensures Decide(c, x) == if x.subIntSeqNo < c.srAdjSupp then Suppress else Act(v)
  {
  }

  /** The client's report steers the downstream search as its own counters would, over the wire and in
      either form: for a client that accounts as this server does, the decision is that on the datagrams
      that reached the client. */
  lemma {:induction false} SteeredByReport(c: Config, p: Periods, start: int, es: seq<Event>, n: nat,
                                           lastStatus: int, wall: Wall, st: StatusPDU, b: seq<u8>)
    requires n < |es| && es[n].Status? && c.lowThresh <= c.upperThresh
    requires |TrialParts(es, n).open| < 0x1_0000_0000 && MeanFits(c, p, start, es, n)
    requires FromStatus(st) == FromStatus(Counters(p, BookAt(p, start, es, n).a, es[n].now, lastStatus, wall))
    requires ValidStatus(st) && |b| == StatusSize(st) && StatusAt(b, st)
    ensures ParseStatus(b).Ok?
    ensures Decide(c, FromStatus(ParseStatus(b).value))
            == if Wrap32(|BookAt(p, start, es, n + 1).rolled|) < c.srAdjSupp then Suppress
               else Act(VerdictOn(c, Errors(c, p, start, es, n), false, Measured(c, p, start, es, n)))
  {
    hide StatusAt, ParseStatus, Counters, FromStatus, Judge, Decide, VerdictOn, Errors, Measured, TrialParts, MeanFits;
    var number := BookAt(p, start, es, n + 1).a.subIntSeq;
    ReportInput(p, start, es, n, lastStatus, wall, st, b);
    RecordsMeasure(p, start, es, n + 1);
    JudgedOnTheStream(c, p, start, es, n, number);
    DecideJudged(c, FromStatus(ParseStatus(b).value),
                 VerdictOn(c, Errors(c, p, start, es, n), false, Measured(c, p, start, es, n)));
  }
}
