/** Properties that span the parts: sender to receiver, and request to rate. */
module EndToEnd {
  import opened Words
  import opened Messages
  import opened SequenceTracking
  import opened RateTable
  import opened RateSearch
  import SearchRuns
  import opened Negotiation
  import opened Sender
  import opened SenderRuns

  // ---------------------------------------------------------------------------
  // Sequence integrity
  // ---------------------------------------------------------------------------

  function Delivered(wire: seq<Datagram>): seq<Item> {
    seq(|wire|, i requires 0 <= i < |wire| => Got(wire[i].seqNo))
  }

  lemma {:induction false} NextInOrder(w: Window, n: nat)
    requires w.Valid() && w.top == Wrap32(n)
    ensures Classify(w, Wrap32(n + 1)) == Advance(0) && Track(w, Wrap32(n + 1)).top == Wrap32(n + 1)
  {
  }

  lemma {:induction false} InOrderIsClean(wire: seq<Datagram>)
    requires Consecutive(wire)
    ensures var p := Replay(Delivered(wire));
            p.errs == NO_ERRS && p.reports == [] && p.win.top == Wrap32(|wire|)
  {
    if wire != [] {
      var n := |wire| - 1;
      var items := Delivered(wire);
      assert Front(items) == Delivered(wire[..n]);
      InOrderIsClean(wire[..n]);
      NextInOrder(Replay(Delivered(wire[..n])).win, n);
      assert Last(items) == Got(Wrap32(n + 1));
    }
  }

  /** Whatever rows were selected, whatever the kernel refused: what a test puts on the wire, delivered
      in order, shows no loss, no reordering and no duplicate, also across the 2^32 wrap. */
  lemma {:induction false} RefusalsAreNotLosses(rows: seq<Rate>, ipv6: bool, start: int, ws: seq<RowWakeup>,
                                                stops: seq<seq<nat>>)
    requires OnTable(rows, ws)
    ensures Replay(Delivered(Sent(rows, ipv6, start, ws, stops))).errs == NO_ERRS
  {
    SentConsecutive(rows, ipv6, start, ws, stops);
    InOrderIsClean(Sent(rows, ipv6, start, ws, stops));
  }

  predicate Ascending(xs: seq<u32>) {
    && (forall i | 0 <= i < |xs| :: 1 <= xs[i] < 0xFFFF_FFFF)
    && forall i, j | 0 <= i < j < |xs| :: xs[i] < xs[j]
  }

  function Items(xs: seq<u32>): seq<Item> { seq(|xs|, i requires 0 <= i < |xs| => Got(xs[i])) }

  lemma {:induction false} GapStep(p: Progress, x: u32, count: nat)
    requires p.win.Valid() && count <= p.win.top < x < 0xFFFF_FFFF && p.errs == SeqErrs(p.win.top - count, 0, 0)
    ensures var p' := SequenceTracking.Step(p, Got(x)); p'.win.top == x && p'.errs == SeqErrs(x - (count + 1), 0, 0)
  {
    var gap := x - p.win.top - 1;
    assert Classify(p.win, x) == Advance(gap);
    assert Wrap32(p.errs.loss + gap) == p.errs.loss + gap;
  }

  /** A network that only drops: the loss counted is what was dropped before the last arrival, to the
      datagram, with nothing counted as reordered or repeated. */
  lemma {:induction false} DropsCountedExactly(xs: seq<u32>)
    requires Ascending(xs)
    ensures var p, top := Replay(Items(xs)), if xs == [] then 0 else Last(xs);
            |xs| <= top == p.win.top && p.errs == SeqErrs(top - |xs|, 0, 0)
  {
    if xs != [] {
      var n := |xs| - 1;
      assert Front(Items(xs)) == Items(xs[..n]) && Last(Items(xs)) == Got(xs[n]);
      DropsCountedExactly(xs[..n]);
      assert n > 0 ==> xs[n - 1] < xs[n];
      GapStep(Replay(Items(xs[..n])), xs[n], n);
    }
  }

  /** The sequence numbers on the wire, up to the highest that arrived, that never arrived. */
  ghost function LostOn(wire: seq<Datagram>, items: seq<Item>): set<int> {
    set d | d in wire && d.seqNo <= Top(items) && d.seqNo !in Seen(items) :: d.seqNo
  }

  lemma {:induction false} WireNumber(wire: seq<Datagram>, i: nat)
    requires Consecutive(wire) && i < |wire| < 0xFFFF_FFFF
    ensures wire[i].seqNo == i + 1
  {
  }

  lemma {:induction false} LostIsMissing(wire: seq<Datagram>, items: seq<Item>)
    requires Consecutive(wire) && |wire| < 0xFFFF_FFFF && Top(items) <= |wire|
    ensures LostOn(wire, items) == Missing(items)
  {
    forall x | x in Missing(items) ensures x in LostOn(wire, items) {
      WireNumber(wire, x - 1);
      assert wire[x - 1] in wire;
    }
    forall x | x in LostOn(wire, items) ensures x in Missing(items) {
      var d :| d in wire && d.seqNo <= Top(items) && d.seqNo !in Seen(items) && d.seqNo == x;
      var i :| 0 <= i < |wire| && wire[i] == d;
      WireNumber(wire, i);
    }
  }

  /** A network that drops, reorders and repeats what a test puts on the wire: as long as repeats
      come within the window, the loss counted is the number of datagrams sent, up to the highest
      that arrived, that never arrived. */
  lemma {:induction false} NetworkLossExact(rows: seq<Rate>, ipv6: bool, start: int, ws: seq<RowWakeup>,
                                            stops: seq<seq<nat>>, items: seq<Item>)
    requires OnTable(rows, ws) && |Sent(rows, ipv6, start, ws, stops)| < 0xFFFF_FFFF
    requires forall i | 0 <= i < |items| :: items[i].Got? && 1 <= items[i].x <= |Sent(rows, ipv6, start, ws, stops)|
    requires Windowed(items)
    ensures Replay(items).errs.loss == |LostOn(Sent(rows, ipv6, start, ws, stops), items)|
  {
    SentConsecutive(rows, ipv6, start, ws, stops);
    WireLossExact(Sent(rows, ipv6, start, ws, stops), items);
  }

  lemma {:induction false} WireLossExact(wire: seq<Datagram>, items: seq<Item>)
    requires Consecutive(wire) && |wire| < 0xFFFF_FFFF && Windowed(items)
    requires forall i | 0 <= i < |items| :: items[i].Got? && 1 <= items[i].x <= |wire|
    ensures Replay(items).errs.loss == |LostOn(wire, items)|
  {
    TopSent(items, |wire|);
    LostIsMissing(wire, items);
    assert Legal(items) && Cut !in items;
    WindowedConservation(items);
  }

  lemma {:induction false} TopSent(items: seq<Item>, n: nat)
    requires forall i | 0 <= i < |items| :: items[i].Got? && 1 <= items[i].x <= n
    ensures Top(items) <= n
  {
    if items != [] {
      assert Last(items) == items[|items| - 1];
      TopSent(Front(items), n);
    }
  }

  // ---------------------------------------------------------------------------
  // From any request to a safe search
  // ---------------------------------------------------------------------------

  /** The search state after n trials of a session negotiated from a request. */
  function SearchOf(e: Env, req: TestActPDU, t: Table, ds: seq<Decision>, n: nat): Search
    requires n <= |ds|
  {
    var p := PoliceSpec(e, req);
    SearchRuns.At(NewConfig(t, p), Search(InitialIndex(p), 0, 0, 0, false), ds, n)
  }

  /** For every request, table and run of trials: the index is a row, and its bursts fit the buffers. */
  lemma {:induction false} AnyRequestStaysOnTable(e: Env, req: TestActPDU, jumbo: bool, trad: bool, ds: seq<Decision>,
                                                  n: nat)
    requires n <= |ds|
    ensures var t := RateTableFor(jumbo, trad);
            var s := SearchOf(e, req, t, ds, n);
            && 0 <= s.index < |t.rows|
            && t.rows[s.index].burstSize1 <= MAX_BURST
            && t.rows[s.index].burstSize2 + (if t.rows[s.index].udpAddon2 > 0 then 1 else 0) <= MAX_BURST
  {
    var t, p := RateTableFor(jumbo, trad), PoliceSpec(e, req);
    PolicedConfigValid(e, req, jumbo, trad);
    SearchRuns.AlwaysOnTable(NewConfig(t, p), Search(InitialIndex(p), 0, 0, 0, false), ds, n);
    BurstsFit(jumbo, trad, SearchOf(e, req, t, ds, n).index);
  }

  /** And in search mode a good trial never lowers and a bad one never raises the nominal rate; up to the
      1 Gbps row a bad trial lowers it, except at row 0. */
  lemma {:induction false} TrialsMoveTheRate(e: Env, req: TestActPDU, jumbo: bool, trad: bool, ds: seq<Decision>,
                                             n: nat, ipv6: bool)
    requires n < |ds| && !NewConfig(RateTableFor(jumbo, trad), PoliceSpec(e, req)).Static()
    ensures var t := RateTableFor(jumbo, trad);
            var i, i' := SearchOf(e, req, t, ds, n).index, SearchOf(e, req, t, ds, n + 1).index;
            && 0 <= i < |t.rows| && 0 <= i' < |t.rows|
            && (ds[n] == Act(Good) ==> Bps(t.rows[i], ipv6) <= Bps(t.rows[i'], ipv6))
            && (ds[n] == Act(Bad) ==> Bps(t.rows[i'], ipv6) <= Bps(t.rows[i], ipv6))
            && (ds[n] == Act(Bad) && 0 < i <= HIGH_SPEED_THRESH ==> Bps(t.rows[i'], ipv6) < Bps(t.rows[i], ipv6))
            && (ds[n] == Act(Hold) || ds[n] == Suppress ==> i' == i)
  {
    var t := RateTableFor(jumbo, trad);
    AnyRequestStaysOnTable(e, req, jumbo, trad, ds, n);
    AnyRequestStaysOnTable(e, req, jumbo, trad, ds, n + 1);
    var i, i' := SearchOf(e, req, t, ds, n).index, SearchOf(e, req, t, ds, n + 1).index;
    IndexDirection(e, req, jumbo, trad, ds, n);
    if i <= i' { RatesMonotone(jumbo, trad, i, i', ipv6); }
    if i' <= i { RatesMonotone(jumbo, trad, i', i, ipv6); }
    if i' < i <= HIGH_SPEED_THRESH { StrictlyLower(jumbo, trad, i', i, ipv6); }
  }

  lemma {:induction false} StrictlyLower(jumbo: bool, trad: bool, n: nat, m: nat, ipv6: bool)
    requires n < m <= HIGH_SPEED_THRESH
    ensures Bps(RowAt(jumbo, trad, n), ipv6) < Bps(RowAt(jumbo, trad, m), ipv6)
  {
    RatesMonotone(jumbo, trad, n, m - 1, ipv6);
    RatesAscend(jumbo, trad, m - 1, ipv6);
  }

  lemma {:induction false} IndexDirection(e: Env, req: TestActPDU, jumbo: bool, trad: bool, ds: seq<Decision>, n: nat)
    requires n < |ds| && !NewConfig(RateTableFor(jumbo, trad), PoliceSpec(e, req)).Static()
    ensures var t := RateTableFor(jumbo, trad);
            var i, i' := SearchOf(e, req, t, ds, n).index, SearchOf(e, req, t, ds, n + 1).index;
            && (ds[n] == Act(Good) ==> i <= i') && (ds[n] == Act(Bad) ==> i' <= Max(0, i - 1))
            && (ds[n] == Act(Hold) || ds[n] == Suppress ==> i' == i)
  {
    var t, p := RateTableFor(jumbo, trad), PoliceSpec(e, req);
    var c, s0 := NewConfig(t, p), Search(InitialIndex(p), 0, 0, 0, false);
    PolicedConfigValid(e, req, jumbo, trad);
    SearchRuns.AlwaysOnTable(c, s0, ds, n);
    if ds[n].Act? { MoveDirection(c, SearchRuns.At(c, s0, ds, n), ds[n].v); }
  }
}
