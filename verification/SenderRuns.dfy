/** Whole runs of the send loop: what is on the wire, at what pace and at what rate. */
module SenderRuns {
  import opened Words
  import opened Messages
  import opened Clock
  import opened RateTable
  import opened Pacing
  import opened Sender

  // ---------------------------------------------------------------------------
  // Sequence numbers
  // ---------------------------------------------------------------------------

  /** Sequence numbers count from 1, modulo 2^32. */
  predicate Consecutive(wire: seq<Datagram>) {
    forall i | 0 <= i < |wire| :: wire[i].seqNo == Wrap32(i + 1)
  }

  lemma {:induction false} BurstConsecutive(wire: seq<Datagram>, size: nat, burst: nat, addon: bool, addonSize: nat,
                                            kernel: seq<nat>)
    requires Consecutive(wire)
    ensures Consecutive(BurstOn(wire, size, burst, addon, addonSize, kernel))
  {
  }

  lemma {:induction false} BurstsConsecutive(wire: seq<Datagram>, ipv6: bool, t: Tx, o: Oracle, n: nat)
    requires Consecutive(wire)
    ensures Consecutive(BurstsOn(wire, ipv6, t, o, n))
  {
    if n > 0 {
      BurstsConsecutive(wire, ipv6, t, o, n - 1);
      BurstConsecutive(BurstsOn(wire, ipv6, t, o, n - 1), SizeOf(t.field, ipv6, o.draw(2 * n - 2)), t.burst,
                       t.addon > 0, SizeOf(t.addon, ipv6, o.draw(2 * n - 1)), o.kernel(n - 1));
    }
  }

  /** Whatever rows are selected and whatever the kernel refuses, what is on the wire is numbered
      without a gap. */
  lemma {:induction false} WireConsecutive(rows: seq<Rate>, ipv6: bool, s0: Send, ws: seq<RowWakeup>, n: nat)
    requires n <= |ws| && OnTable(rows, ws) && Consecutive(s0.wire)
    ensures Consecutive(LoopAt(rows, ipv6, s0, ws, n).wire)
  {
    if n > 0 {
      WireConsecutive(rows, ipv6, s0, ws, n - 1);
      var w := ws[n - 1];
      WakeConsecutive(LoopAt(rows, ipv6, s0, ws, n - 1), ipv6, rows[w.row], w.now, w.o1, w.o2);
    }
  }

  lemma {:induction false} WakeConsecutive(s: Send, ipv6: bool, row: Rate, now: int, o1: Oracle, o2: Oracle)
    requires Consecutive(s.wire)
    ensures Consecutive(WakeSpec(s, ipv6, row, now, o1, o2).wire)
  {
    var b1 := Turn(s.next1, now, Active1(row), row.txInterval1 * US).1;
    BurstsConsecutive(s.wire, ipv6, Tx1(row), o1, b1);
    var s1 := Turn1(s, ipv6, row, now, o1);
    var b2 := Turn(s1.next2, now, Active2(row), row.txInterval2 * US).1;
    BurstsConsecutive(s1.wire, ipv6, Tx2(row), o2, b2);
  }

  /** Everything on the wire in a test: the send loop, then the stop phase. */
  function Sent(rows: seq<Rate>, ipv6: bool, start: int, ws: seq<RowWakeup>, stops: seq<seq<nat>>): seq<Datagram>
    requires OnTable(rows, ws)
  {
    StopsOn(LoopAt(rows, ipv6, Started(start), ws, |ws|).wire, ipv6, stops)
  }

  lemma {:induction false} StopsConsecutive(wire: seq<Datagram>, ipv6: bool, kernels: seq<seq<nat>>)
    requires Consecutive(wire)
    ensures Consecutive(StopsOn(wire, ipv6, kernels))
  {
    if kernels != [] {
      var k := |kernels| - 1;
      StopsConsecutive(wire, ipv6, kernels[..k]);
      BurstConsecutive(StopsOn(wire, ipv6, kernels[..k]), SizeOf(MinSize(ipv6), ipv6, 0), 1, false, 0, kernels[k]);
    }
  }

  /** The stop phase adds one datagram of the smallest size for each round in which the kernel takes it. */
  lemma {:induction false} StopsAreSmall(wire: seq<Datagram>, ipv6: bool, kernels: seq<seq<nat>>)
    ensures var w := StopsOn(wire, ipv6, kernels);
            && wire <= w && |w| <= |wire| + |kernels|
            && ((forall k | 0 <= k < |kernels| :: kernels[k] != [] && kernels[k][0] > 0) ==> |w| == |wire| + |kernels|)
            && forall i | |wire| <= i < |w| :: w[i].size == MinSize(ipv6)
  {
    if kernels != [] { StopsAreSmall(wire, ipv6, kernels[..|kernels| - 1]); }
  }

  lemma {:induction false} SentConsecutive(rows: seq<Rate>, ipv6: bool, start: int, ws: seq<RowWakeup>,
                                           stops: seq<seq<nat>>)
    requires OnTable(rows, ws)
    ensures Consecutive(Sent(rows, ipv6, start, ws, stops))
  {
    WireConsecutive(rows, ipv6, Started(start), ws, |ws|);
    StopsConsecutive(LoopAt(rows, ipv6, Started(start), ws, |ws|).wire, ipv6, stops);
  }

  // ---------------------------------------------------------------------------
  // How much is on the wire
  // ---------------------------------------------------------------------------

  /** What the writes up to the first that takes nothing could take. */
  function Offered(kernel: seq<nat>): nat {
    if kernel == [] || kernel[0] == 0 then 0 else kernel[0] + Offered(kernel[1..])
  }

  /** A batch is accepted whole, or as far as the writes went before one failed. */
  lemma {:induction false} TakenIsOffered(count: nat, kernel: seq<nat>)
    ensures Taken(count, kernel) == Min(count, Offered(kernel))
    decreases |kernel|
  {
    if count > 0 && kernel != [] && kernel[0] > 0 { TakenIsOffered(count - Min(kernel[0], count), kernel[1..]); }
  }

  /** What the kernel takes of n bursts of count datagrams. */
  function TakenIn(count: nat, kernel: nat -> seq<nat>, n: nat): nat {
    if n == 0 then 0 else TakenIn(count, kernel, n - 1) + Taken(count, kernel(n - 1))
  }

  lemma {:induction false} TakenAtMost(count: nat, kernel: nat -> seq<nat>, n: nat)
    ensures TakenIn(count, kernel, n) <= count * n
  {
    if n > 0 {
      TakenAtMost(count, kernel, n - 1);
      assert count * n == count * (n - 1) + count;
    }
  }

  lemma {:induction false} BurstsLength(wire: seq<Datagram>, ipv6: bool, t: Tx, o: Oracle, n: nat)
    ensures |BurstsOn(wire, ipv6, t, o, n)| == |wire| + TakenIn(t.Count(), o.kernel, n)
  {
    if n > 0 { BurstsLength(wire, ipv6, t, o, n - 1); }
  }

  /** Every datagram on the wire is one transmitter's, and neither sent more than its bursts hold. */
  predicate Counted(s: Send, max1: nat, max2: nat) {
    && |s.wire| == s.sent1 + s.sent2
    && 0 <= s.sent1 <= max1 * s.bursts1 && 0 <= s.sent2 <= max2 * s.bursts2
  }

  predicate BurstsWithin(row: Rate, max1: nat, max2: nat) { Tx1(row).Count() <= max1 && Tx2(row).Count() <= max2 }

  lemma {:induction false} BurstsAtMost(wire: seq<Datagram>, ipv6: bool, t: Tx, o: Oracle, n: nat, max: nat)
    requires t.Count() <= max
    ensures |wire| <= |BurstsOn(wire, ipv6, t, o, n)| <= |wire| + max * n
  {
    BurstsLength(wire, ipv6, t, o, n);
    TakenAtMost(t.Count(), o.kernel, n);
    MulMono(n, t.Count(), max);
  }

  lemma {:induction false} Spread(max: nat, bursts: nat, b: nat, sent: int, more: int)
    requires 0 <= sent <= max * bursts && 0 <= more <= max * b
    ensures 0 <= sent + more <= max * (bursts + b)
  {
  }

  lemma {:induction false} Turn1Counts(s: Send, ipv6: bool, row: Rate, now: int, o: Oracle, max1: nat, max2: nat)
    requires Counted(s, max1, max2) && BurstsWithin(row, max1, max2)
    ensures Counted(Turn1(s, ipv6, row, now, o), max1, max2)
  {
    var s' := Turn1(s, ipv6, row, now, o);
    var b := s'.bursts1 - s.bursts1;
    BurstsAtMost(s.wire, ipv6, Tx1(row), o, b, max1);
    Spread(max1, s.bursts1, b, s.sent1, |s'.wire| - |s.wire|);
  }

  lemma {:induction false} Turn2Counts(s: Send, ipv6: bool, row: Rate, now: int, o: Oracle, max1: nat, max2: nat)
    requires Counted(s, max1, max2) && BurstsWithin(row, max1, max2)
    ensures Counted(Turn2(s, ipv6, row, now, o), max1, max2)
  {
    var s' := Turn2(s, ipv6, row, now, o);
    var b := s'.bursts2 - s.bursts2;
    BurstsAtMost(s.wire, ipv6, Tx2(row), o, b, max2);
    Spread(max2, s.bursts2, b, s.sent2, |s'.wire| - |s.wire|);
  }

  lemma {:induction false} LoopCounts(rows: seq<Rate>, ipv6: bool, s0: Send, ws: seq<RowWakeup>, n: nat, max1: nat,
                                      max2: nat)
    requires n <= |ws| && OnTable(rows, ws) && Counted(s0, max1, max2)
    requires forall i | 0 <= i < n :: BurstsWithin(rows[ws[i].row], max1, max2)
    ensures Counted(LoopAt(rows, ipv6, s0, ws, n), max1, max2)
  {
    if n > 0 {
      LoopCounts(rows, ipv6, s0, ws, n - 1, max1, max2);
      var s, w := LoopAt(rows, ipv6, s0, ws, n - 1), ws[n - 1];
      assert BurstsWithin(rows[w.row], max1, max2);
      Turn1Counts(s, ipv6, rows[w.row], w.now, w.o1, max1, max2);
      Turn2Counts(Turn1(s, ipv6, rows[w.row], w.now, w.o1), ipv6, rows[w.row], w.now, w.o2, max1, max2);
    }
  }

  // ---------------------------------------------------------------------------
  // Pace
  // ---------------------------------------------------------------------------

  /** The wakeups as one transmitter sees them. */
  function Seen1(rows: seq<Rate>, ws: seq<RowWakeup>): (seen: seq<Wakeup>)
    requires OnTable(rows, ws)
    ensures |seen| == |ws| && Sound(seen)
  {
    seq(|ws|, i requires 0 <= i < |ws| =>
      var row := rows[ws[i].row]; Wakeup(ws[i].now, Active1(row), row.txInterval1 * US))
  }

  function Seen2(rows: seq<Rate>, ws: seq<RowWakeup>): (seen: seq<Wakeup>)
    requires OnTable(rows, ws)
    ensures |seen| == |ws| && Sound(seen)
  {
    seq(|ws|, i requires 0 <= i < |ws| =>
      var row := rows[ws[i].row]; Wakeup(ws[i].now, Active2(row), row.txInterval2 * US))
  }

  predicate InUse(row: Rate) { Active1(row) || Active2(row) }

  /** Each transmitter paces itself, whatever the other one does. */
  lemma {:induction false} Paced1(rows: seq<Rate>, ipv6: bool, s0: Send, ws: seq<RowWakeup>, n: nat)
    requires n <= |ws| && OnTable(rows, ws) && forall i | 0 <= i < n :: InUse(rows[ws[i].row])
    ensures var s, p := LoopAt(rows, ipv6, s0, ws, n), PaceAt(s0.next1, Seen1(rows, ws), n);
            s.next1 == p.next && s.bursts1 == s0.bursts1 + p.bursts
  {
    if n > 0 {
      Paced1(rows, ipv6, s0, ws, n - 1);
      assert InUse(rows[ws[n - 1].row]);
    }
  }

  lemma {:induction false} Paced2(rows: seq<Rate>, ipv6: bool, s0: Send, ws: seq<RowWakeup>, n: nat)
    requires n <= |ws| && OnTable(rows, ws) && forall i | 0 <= i < n :: InUse(rows[ws[i].row])
    ensures var s, p := LoopAt(rows, ipv6, s0, ws, n), PaceAt(s0.next2, Seen2(rows, ws), n);
            s.next2 == p.next && s.bursts2 == s0.bursts2 + p.bursts
  {
    if n > 0 {
      Paced2(rows, ipv6, s0, ws, n - 1);
      assert InUse(rows[ws[n - 1].row]);
    }
  }

  /** Every row has an active transmitter; transmitter 1 runs every 100 us, transmitter 2 every
      millisecond or, on row 0, every 50. */
  lemma {:induction false} Cadences(jumbo: bool, trad: bool, n: nat)
    requires n < MAX_SENDING_RATES
    ensures var row := RowAt(jumbo, trad, n);
            && InUse(row)
            && (Active1(row) ==> row.txInterval1 == BASE_SEND_TIMER1)
            && (Active2(row) ==> row.txInterval2 == if n == 0 then 50_000 else BASE_SEND_TIMER2)
  {
  }

  predicate ForwardRun(start: int, ws: seq<RowWakeup>) {
    && (ws != [] ==> start <= ws[0].now)
    && forall i | 0 < i < |ws| :: ws[i - 1].now <= ws[i].now
  }

  lemma {:induction false} SeenAtLeast(jumbo: bool, trad: bool, start: int, ws: seq<RowWakeup>)
    requires OnTable(RateTableFor(jumbo, trad).rows, ws) && ForwardRun(start, ws)
    ensures var rows := RateTableFor(jumbo, trad).rows;
            && Timely(start, Seen1(rows, ws)) && AtLeast(BASE_SEND_TIMER1 * US, Seen1(rows, ws))
            && AtMostIdle(Seen1(rows, ws))
            && Timely(start, Seen2(rows, ws)) && AtLeast(BASE_SEND_TIMER2 * US, Seen2(rows, ws))
            && forall i | 0 <= i < |ws| :: InUse(rows[ws[i].row])
  {
    var rows := RateTableFor(jumbo, trad).rows;
    forall i | 0 <= i < |ws|
      ensures InUse(rows[ws[i].row])
      ensures Active1(rows[ws[i].row]) ==> rows[ws[i].row].txInterval1 == BASE_SEND_TIMER1
      ensures Active2(rows[ws[i].row]) ==> rows[ws[i].row].txInterval2 >= BASE_SEND_TIMER2
    {
      Cadences(jumbo, trad, ws[i].row);
    }
  }

  /** A wakeup at time now took the loop from s to s', and each transmitter has sent no more bursts
      than its ticks since start, at most twenty of them just now. Neither is left behind, and the
      first one's tick does not move back. */
  predicate BurstsPaced(s: Send, s': Send, start: int, now: int) {
    && start <= now <= s'.next1 && now <= s'.next2 && s.next1 <= s'.next1 <= now + IDLE
    && s.bursts1 <= s'.bursts1 <= s.bursts1 + CATCH_UP && s'.bursts1 <= Due(start, now, BASE_SEND_TIMER1 * US)
    && s.bursts2 <= s'.bursts2 <= s.bursts2 + CATCH_UP && s'.bursts2 <= Due(start, now, BASE_SEND_TIMER2 * US)
  }

  lemma {:induction false} RunPaced(jumbo: bool, trad: bool, ipv6: bool, start: int, ws: seq<RowWakeup>, n: nat)
    requires OnTable(RateTableFor(jumbo, trad).rows, ws) && ForwardRun(start, ws) && 0 < n <= |ws|
    ensures var rows := RateTableFor(jumbo, trad).rows;
            BurstsPaced(LoopAt(rows, ipv6, Started(start), ws, n - 1), LoopAt(rows, ipv6, Started(start), ws, n),
                        start, ws[n - 1].now)
  {
    var rows := RateTableFor(jumbo, trad).rows;
    SeenAtLeast(jumbo, trad, start, ws);
    Paced1(rows, ipv6, Started(start), ws, n - 1);
    Paced1(rows, ipv6, Started(start), ws, n);
    PacingBound(start, BASE_SEND_TIMER1 * US, Seen1(rows, ws), n);
    NextMovesForward(start, Seen1(rows, ws), n);
    Paced2(rows, ipv6, Started(start), ws, n - 1);
    Paced2(rows, ipv6, Started(start), ws, n);
    PacingBound(start, BASE_SEND_TIMER2 * US, Seen2(rows, ws), n);
  }

  /** A wakeup at time now took the loop from s to s'. Every datagram on the wire is one
      transmitter's: transmitter 1 has put there at most max1 for every 100 us tick that has come,
      transmitter 2 at most max2 for every millisecond tick, in at most twenty bursts each just now.
      Neither is left behind, and the first one's tick does not move back. */
  predicate PacedWire(s: Send, s': Send, start: int, now: int, max1: nat, max2: nat) {
    var el := now - start;
    && now <= s'.next1 && now <= s'.next2 && s.next1 <= s'.next1 <= now + IDLE
    && |s'.wire| == s'.sent1 + s'.sent2
    && 0 <= s'.sent1 <= max1 * (el / 100_000 + 1)
    && 0 <= s'.sent2 <= max2 * (el / 1_000_000 + 1)
    && s.bursts1 <= s'.bursts1 <= s.bursts1 + CATCH_UP && s.bursts2 <= s'.bursts2 <= s.bursts2 + CATCH_UP
  }

  lemma {:induction false} PacedAndCounted(s: Send, s': Send, start: int, now: int, max1: nat, max2: nat)
    requires BurstsPaced(s, s', start, now) && Counted(s', max1, max2)
    ensures PacedWire(s, s', start, now, max1, max2)
  {
    DueIsElapsed(start, now, 100_000);
    DueIsElapsed(start, now, 1_000_000);
    MulMono(max1, s'.bursts1, (now - start) / 100_000 + 1);
    MulMono(max2, s'.bursts2, (now - start) / 1_000_000 + 1);
  }

  /** Pacing on the wire, over every run of the send loop, with rows selected at will, wakeups however
      late and any kernel, where no selected row sends more than max1 and max2 at a tick. */
  lemma {:induction false} WirePacing(jumbo: bool, trad: bool, ipv6: bool, start: int, ws: seq<RowWakeup>, n: nat,
                                      max1: nat, max2: nat)
    requires OnTable(RateTableFor(jumbo, trad).rows, ws) && ForwardRun(start, ws) && 0 < n <= |ws|
    requires forall i | 0 <= i < n :: BurstsWithin(RowAt(jumbo, trad, ws[i].row), max1, max2)
    ensures var rows := RateTableFor(jumbo, trad).rows;
            PacedWire(LoopAt(rows, ipv6, Started(start), ws, n - 1), LoopAt(rows, ipv6, Started(start), ws, n),
                      start, ws[n - 1].now, max1, max2)
  {
    var rows := RateTableFor(jumbo, trad).rows;
    RunPaced(jumbo, trad, ipv6, start, ws, n);
    LoopCounts(rows, ipv6, Started(start), ws, n, max1, max2);
    PacedAndCounted(LoopAt(rows, ipv6, Started(start), ws, n - 1), LoopAt(rows, ipv6, Started(start), ws, n),
                    start, ws[n - 1].now, max1, max2);
  }

  // ---------------------------------------------------------------------------
  // The nominal rate on the wire
  // ---------------------------------------------------------------------------

  function L3Of(size: nat, ipv6: bool): nat { size + L3_OVERHEAD + if ipv6 then IPV6_ADD else 0 }

  /** IP-layer bytes of what is on the wire. */
  function L3Bytes(wire: seq<Datagram>, ipv6: bool): nat {
    if wire == [] then 0 else L3Bytes(wire[..|wire| - 1], ipv6) + L3Of(wire[|wire| - 1].size, ipv6)
  }

  lemma {:induction false} BytesAppend(wire: seq<Datagram>, more: seq<Datagram>, ipv6: bool)
    ensures L3Bytes(wire + more, ipv6) == L3Bytes(wire, ipv6) + L3Bytes(more, ipv6)
  {
    if more == [] {
      assert wire + more == wire;
    } else {
      var m := |more| - 1;
      assert (wire + more)[..|wire + more| - 1] == wire + more[..m];
      BytesAppend(wire, more[..m], ipv6);
    }
  }

  lemma {:induction false} SameSize(ds: seq<Datagram>, size: nat, ipv6: bool)
    requires forall i | 0 <= i < |ds| :: ds[i].size == size
    ensures L3Bytes(ds, ipv6) == |ds| * L3Of(size, ipv6)
  {
    if ds != [] {
      var m := |ds| - 1;
      SameSize(ds[..m], size, ipv6);
      assert |ds| * L3Of(size, ipv6) == m * L3Of(size, ipv6) + L3Of(size, ipv6);
    }
  }

  lemma {:induction false} BatchBytes(base: nat, size: nat, burst: nat, addon: bool, addonSize: nat, ipv6: bool)
    ensures L3Bytes(Batch(base, size, burst, addon, addonSize), ipv6)
            == burst * L3Of(size, ipv6) + if addon then L3Of(addonSize, ipv6) else 0
  {
    var plain := Batch(base, size, burst, false, addonSize);
    SameSize(plain, size, ipv6);
    if addon {
      var batch := Batch(base, size, burst, true, addonSize);
      assert batch[..burst] == plain;
    }
  }

  /** A kernel that takes every burst whole. */
  ghost predicate Greedy(o: Oracle) {
    forall k: nat :: TakesAll(o.kernel(k))
  }

  predicate TakesAll(writes: seq<nat>) { writes != [] && writes[0] > MAX_BURST }

  /** The sizes are the fixed ones of the table, which the nominal rate counts. */
  predicate Nominal(t: Tx) {
    && t.Count() <= MAX_BURST
    && (t.burst > 0 ==> MIN_PAYLOAD <= t.field <= MAX_JUMBO_PAYLOAD)
    && (t.addon > 0 ==> MIN_PAYLOAD <= t.addon <= MAX_JUMBO_PAYLOAD)
  }

  /** IP-layer bytes of one burst, as the nominal rate counts them. */
  function BurstBytes(t: Tx, ipv6: bool): int {
    t.burst * L3Size(t.field, ipv6) + if t.addon > 0 then L3Size(t.addon, ipv6) else 0
  }

  lemma {:induction false} BurstTaken(wire: seq<Datagram>, size: nat, burst: nat, addon: bool, addonSize: nat,
                                      kernel: seq<nat>, ipv6: bool)
    requires burst + (if addon then 1 else 0) <= MAX_BURST && TakesAll(kernel)
    ensures L3Bytes(BurstOn(wire, size, burst, addon, addonSize, kernel), ipv6)
            == L3Bytes(wire, ipv6) + burst * L3Of(size, ipv6) + if addon then L3Of(addonSize, ipv6) else 0
  {
    var batch := Batch(|wire|, size, burst, addon, addonSize);
    assert Taken(|batch|, kernel) == |batch| && batch[..|batch|] == batch;
    BytesAppend(wire, batch, ipv6);
    BatchBytes(|wire|, size, burst, addon, addonSize, ipv6);
  }

  lemma {:induction false} NominalBytes(t: Tx, ipv6: bool, draw: nat, addonDraw: nat)
    requires Nominal(t)
    ensures t.burst * L3Of(SizeOf(t.field, ipv6, draw), ipv6)
              + (if t.addon > 0 then L3Of(SizeOf(t.addon, ipv6, addonDraw), ipv6) else 0) == BurstBytes(t, ipv6)
  {
    if t.burst > 0 { SizeIsNominal(t.field, ipv6, draw); }
    if t.addon > 0 { SizeIsNominal(t.addon, ipv6, addonDraw); }
  }

  lemma {:induction false} TickBytes(wire: seq<Datagram>, ipv6: bool, t: Tx, o: Oracle, k: nat)
    requires Nominal(t) && TakesAll(o.kernel(k))
    ensures L3Bytes(TickOn(wire, ipv6, t, o, k), ipv6) == L3Bytes(wire, ipv6) + BurstBytes(t, ipv6)
  {
    BurstTaken(wire, SizeOf(t.field, ipv6, o.draw(2 * k)), t.burst, t.addon > 0, SizeOf(t.addon, ipv6, o.draw(2 * k + 1)),
               o.kernel(k), ipv6);
    NominalBytes(t, ipv6, o.draw(2 * k), o.draw(2 * k + 1));
  }

  /** Every burst adds the same number of bytes. */
  ghost predicate Steady(ipv6: bool, t: Tx, o: Oracle, each: int) {
    forall wire, k :: L3Bytes(TickOn(wire, ipv6, t, o, k), ipv6) == L3Bytes(wire, ipv6) + each
  }

  /** n times each, without a product of variables. */
  function Times(n: nat, each: int): int { if n == 0 then 0 else Times(n - 1, each) + each }

  lemma {:induction false} TimesIsProduct(n: nat, each: int)
    ensures Times(n, each) == n * each
  {
    if n > 0 {
      TimesIsProduct(n - 1, each);
      Regrid(n - 1, 1, each);
    }
  }

  lemma {:induction false} TimesAdd(m: nat, n: nat, each: int)
    ensures Times(m + n, each) == Times(m, each) + Times(n, each)
  {
    if n > 0 { TimesAdd(m, n - 1, each); }
  }

  lemma {:induction false} StepBytes(wire: seq<Datagram>, ipv6: bool, t: Tx, o: Oracle, n: nat, each: int)
    requires Steady(ipv6, t, o, each)
    ensures L3Bytes(BurstsOn(wire, ipv6, t, o, n + 1), ipv6) == L3Bytes(BurstsOn(wire, ipv6, t, o, n), ipv6) + each
  {
  }

  lemma {:induction false} SteadyBytes(wire: seq<Datagram>, ipv6: bool, t: Tx, o: Oracle, n: nat, each: int)
    requires Steady(ipv6, t, o, each)
    ensures L3Bytes(BurstsOn(wire, ipv6, t, o, n), ipv6) == L3Bytes(wire, ipv6) + Times(n, each)
  {
    if n > 0 {
      SteadyBytes(wire, ipv6, t, o, n - 1, each);
      StepBytes(wire, ipv6, t, o, n - 1, each);
    }
  }

  lemma {:induction false} GreedyIsSteady(ipv6: bool, t: Tx, o: Oracle)
    requires Nominal(t) && Greedy(o)
    ensures Steady(ipv6, t, o, BurstBytes(t, ipv6))
  {
    forall wire, k: nat ensures L3Bytes(TickOn(wire, ipv6, t, o, k), ipv6) == L3Bytes(wire, ipv6) + BurstBytes(t, ipv6) {
      TickBytes(wire, ipv6, t, o, k);
    }
  }

  /** Between two states of the loop, the bytes on the wire grew by those of the bursts. */
  predicate Grew(s: Send, s': Send, ipv6: bool, each1: int, each2: int) {
    && s.bursts1 <= s'.bursts1 && s.bursts2 <= s'.bursts2
    && L3Bytes(s'.wire, ipv6) == L3Bytes(s.wire, ipv6)
         + Times(s'.bursts1 - s.bursts1, each1) + Times(s'.bursts2 - s.bursts2, each2)
  }

  lemma {:induction false} GrewOn(s0: Send, s: Send, s': Send, ipv6: bool, each1: int, each2: int)
    requires Grew(s0, s, ipv6, each1, each2) && Grew(s, s', ipv6, each1, each2)
    ensures Grew(s0, s', ipv6, each1, each2)
  {
    TimesAdd(s.bursts1 - s0.bursts1, s'.bursts1 - s.bursts1, each1);
    TimesAdd(s.bursts2 - s0.bursts2, s'.bursts2 - s.bursts2, each2);
  }

  /** Over a stretch of wakeups that find the same row selected, the bytes on the wire are the bursts'. */
  lemma {:induction false} StretchBytes(rows: seq<Rate>, ipv6: bool, s0: Send, ws: seq<RowWakeup>, n: nat, r: nat,
                                        each1: int, each2: int)
    requires n <= |ws| && OnTable(rows, ws) && r < |rows|
    requires forall i | 0 <= i < n :: SteadyAt(rows, ipv6, ws, i, r, each1, each2)
    ensures Grew(s0, LoopAt(rows, ipv6, s0, ws, n), ipv6, each1, each2)
  {
    if n > 0 {
      StretchBytes(rows, ipv6, s0, ws, n - 1, r, each1, each2);
      assert SteadyAt(rows, ipv6, ws, n - 1, r, each1, each2);
      var s, w := LoopAt(rows, ipv6, s0, ws, n - 1), ws[n - 1];
      WakeBytes(s, ipv6, rows[r], w.now, w.o1, w.o2, each1, each2);
      GrewOn(s0, s, LoopAt(rows, ipv6, s0, ws, n), ipv6, each1, each2);
    }
  }

  ghost predicate SteadyAt(rows: seq<Rate>, ipv6: bool, ws: seq<RowWakeup>, i: nat, r: nat, each1: int, each2: int)
    requires i < |ws| && r < |rows|
  {
    ws[i].row == r && Steady(ipv6, Tx1(rows[r]), ws[i].o1, each1) && Steady(ipv6, Tx2(rows[r]), ws[i].o2, each2)
  }

  lemma {:induction false} Turn1Bytes(s: Send, ipv6: bool, row: Rate, now: int, o: Oracle, each1: int, each2: int)
    requires Steady(ipv6, Tx1(row), o, each1)
    ensures Grew(s, Turn1(s, ipv6, row, now, o), ipv6, each1, each2)
  {
    SteadyBytes(s.wire, ipv6, Tx1(row), o, Turn1(s, ipv6, row, now, o).bursts1 - s.bursts1, each1);
  }

  lemma {:induction false} Turn2Bytes(s: Send, ipv6: bool, row: Rate, now: int, o: Oracle, each1: int, each2: int)
    requires Steady(ipv6, Tx2(row), o, each2)
    ensures Grew(s, Turn2(s, ipv6, row, now, o), ipv6, each1, each2)
  {
    SteadyBytes(s.wire, ipv6, Tx2(row), o, Turn2(s, ipv6, row, now, o).bursts2 - s.bursts2, each2);
  }

  lemma {:induction false} WakeBytes(s: Send, ipv6: bool, row: Rate, now: int, o1: Oracle, o2: Oracle, each1: int,
                                     each2: int)
    requires Steady(ipv6, Tx1(row), o1, each1) && Steady(ipv6, Tx2(row), o2, each2)
    ensures Grew(s, WakeSpec(s, ipv6, row, now, o1, o2), ipv6, each1, each2)
  {
    if Active1(row) || Active2(row) {
      var s1 := Turn1(s, ipv6, row, now, o1);
      Turn1Bytes(s, ipv6, row, now, o1, each1, each2);
      Turn2Bytes(s1, ipv6, row, now, o2, each1, each2);
      GrewOn(s, s1, Turn2(s1, ipv6, row, now, o2), ipv6, each1, each2);
    }
  }

  // ---------------------------------------------------------------------------
  // Region 1
  // ---------------------------------------------------------------------------

  /** What transmitter 1 contributes to row n, in Mbps; transmitter 2 carries the rest. */
  function Share1(trad: bool, n: nat): nat { n - n % (if trad then 120 else 100) }

  lemma {:induction false} ShareBytes(jumbo: bool, trad: bool, n: nat, ipv6: bool)
    requires 1 <= n <= HIGH_SPEED_THRESH
    ensures var row := RowAt(jumbo, trad, n);
            && Nominal(Tx1(row)) && Nominal(Tx2(row))
            && InUse(row) && (Active1(row) ==> row.txInterval1 == BASE_SEND_TIMER1)
            && (Active2(row) ==> row.txInterval2 == BASE_SEND_TIMER2)
            && (Active1(row) <==> Share1(trad, n) > 0) && (Active2(row) <==> Share1(trad, n) < n)
            && 8000 * BurstBytes(Tx1(row), ipv6) == Share1(trad, n) * 100_000
            && 8000 * BurstBytes(Tx2(row), ipv6) == (n - Share1(trad, n)) * 1_000_000
  {
    var k, i, j := DigitsOf(trad, n);
    RowAtIndex(jumbo, trad, k, i, j);
    ShareOf(trad, k, i, j);
    RowShape(trad, k, i, j);
    Region1Burst1(trad, k, i, j, ipv6);
    Region1Burst2(trad, k, i, j, ipv6);
  }

  lemma {:induction false} ShareOf(trad: bool, k: nat, i: nat, j: nat)
    requires k <= 10 && i < 10 && j < (if trad then 12 else 10)
    ensures Share1(trad, RowIndex(trad, k, i, j)) == RowIndex(trad, k, 0, 0)
  {
    if trad { DivMod(k, 12 * i + j, 120); } else { DivMod(k, 10 * i + j, 100); }
  }

  lemma {:induction false} RowShape(trad: bool, k: nat, i: nat, j: nat)
    requires k <= 10 && i < 10 && j < (if trad then 12 else 10) && k + i + j > 0
    ensures var row := RegionOneRow(BasePayload(trad), k, i, j);
            && Nominal(Tx1(row)) && Nominal(Tx2(row))
            && InUse(row) && (Active1(row) ==> row.txInterval1 == BASE_SEND_TIMER1)
            && (Active2(row) ==> row.txInterval2 == BASE_SEND_TIMER2)
            && (Active1(row) <==> k > 0) && (Active2(row) <==> i + j > 0)
  {
    if j > 0 { assert j * 1000 / 8 == 125 * j; }
  }

  lemma {:induction false} Region1Burst1(trad: bool, k: nat, i: nat, j: nat, ipv6: bool)
    requires k <= 10 && i < 10 && j < (if trad then 12 else 10)
    ensures 8000 * BurstBytes(Tx1(RegionOneRow(BasePayload(trad), k, i, j)), ipv6) == RowIndex(trad, k, 0, 0) * 100_000
  {
  }

  lemma {:induction false} Region1Burst2(trad: bool, k: nat, i: nat, j: nat, ipv6: bool)
    requires k <= 10 && i < 10 && j < (if trad then 12 else 10) && k + i + j > 0
    ensures 8000 * BurstBytes(Tx2(RegionOneRow(BasePayload(trad), k, i, j)), ipv6) == RowIndex(trad, 0, i, j) * 1_000_000
  {
    PayloadL3(BasePayload(trad), ipv6);
    if j > 0 {
      assert j * 1000 / 8 == 125 * j;
      PayloadL3(125 * j - L3_OVERHEAD, ipv6);
    }
  }

  /** A stretch of wakeups that all find row r selected, none of them twenty ticks late for a
      transmitter the row uses, with a kernel that takes everything. */
  ghost predicate Smooth(rows: seq<Rate>, ipv6: bool, s0: Send, ws: seq<RowWakeup>, r: nat) {
    && r < |rows| && OnTable(rows, ws)
    && (forall i | 0 < i < |ws| :: ws[i - 1].now <= ws[i].now)
    && forall i | 0 <= i < |ws| :: SmoothAt(rows, ipv6, s0, ws, r, i)
  }

  ghost predicate SmoothAt(rows: seq<Rate>, ipv6: bool, s0: Send, ws: seq<RowWakeup>, r: nat, i: nat)
    requires r < |rows| && OnTable(rows, ws) && i < |ws|
  {
    var s := LoopAt(rows, ipv6, s0, ws, i);
    && ws[i].row == r && Greedy(ws[i].o1) && Greedy(ws[i].o2)
    && (Active1(rows[r]) ==> ws[i].now - s.next1 < CATCH_UP * rows[r].txInterval1 * US)
    && (Active2(rows[r]) ==> ws[i].now - s.next2 < CATCH_UP * rows[r].txInterval2 * US)
  }

  lemma {:induction false} SameRow(rows: seq<Rate>, ipv6: bool, s0: Send, ws: seq<RowWakeup>, r: nat)
    requires Smooth(rows, ipv6, s0, ws, r)
    ensures forall i | 0 <= i < |ws| :: ws[i].row == r
  {
    forall i | 0 <= i < |ws| ensures ws[i].row == r {
      assert SmoothAt(rows, ipv6, s0, ws, r, i);
    }
  }

  lemma {:induction false} SmoothOnTime1(rows: seq<Rate>, ipv6: bool, s0: Send, ws: seq<RowWakeup>, r: nat, iv: int,
                                         n: nat)
    requires Smooth(rows, ipv6, s0, ws, r) && Active1(rows[r]) && iv == rows[r].txInterval1 * US && n < |ws|
    ensures OnTime(s0.next1, iv, Seen1(rows, ws), n)
  {
    assert SmoothAt(rows, ipv6, s0, ws, r, n);
    SameRow(rows, ipv6, s0, ws, r);
    Paced1(rows, ipv6, s0, ws, n);
  }

  lemma {:induction false} SmoothBursts1(rows: seq<Rate>, ipv6: bool, s0: Send, ws: seq<RowWakeup>, r: nat, iv: int)
    requires Smooth(rows, ipv6, s0, ws, r) && ws != [] && Active1(rows[r]) && iv == rows[r].txInterval1 * US
    ensures LoopAt(rows, ipv6, s0, ws, |ws|).bursts1 - s0.bursts1 == Due(s0.next1, ws[|ws| - 1].now, iv)
  {
    forall i | 0 <= i < |ws| ensures OnTime(s0.next1, iv, Seen1(rows, ws), i) {
      SmoothOnTime1(rows, ipv6, s0, ws, r, iv, i);
    }
    SameRow(rows, ipv6, s0, ws, r);
    Paced1(rows, ipv6, s0, ws, |ws|);
    NoUndershoot(s0.next1, iv, Seen1(rows, ws), |ws|);
  }

  lemma {:induction false} SmoothOnTime2(rows: seq<Rate>, ipv6: bool, s0: Send, ws: seq<RowWakeup>, r: nat, iv: int,
                                         n: nat)
    requires Smooth(rows, ipv6, s0, ws, r) && Active2(rows[r]) && iv == rows[r].txInterval2 * US && n < |ws|
    ensures OnTime(s0.next2, iv, Seen2(rows, ws), n)
  {
    assert SmoothAt(rows, ipv6, s0, ws, r, n);
    SameRow(rows, ipv6, s0, ws, r);
    Paced2(rows, ipv6, s0, ws, n);
  }

  lemma {:induction false} SmoothBursts2(rows: seq<Rate>, ipv6: bool, s0: Send, ws: seq<RowWakeup>, r: nat, iv: int)
    requires Smooth(rows, ipv6, s0, ws, r) && ws != [] && Active2(rows[r]) && iv == rows[r].txInterval2 * US
    ensures LoopAt(rows, ipv6, s0, ws, |ws|).bursts2 - s0.bursts2 == Due(s0.next2, ws[|ws| - 1].now, iv)
  {
    forall i | 0 <= i < |ws| ensures OnTime(s0.next2, iv, Seen2(rows, ws), i) {
      SmoothOnTime2(rows, ipv6, s0, ws, r, iv, i);
    }
    SameRow(rows, ipv6, s0, ws, r);
    Paced2(rows, ipv6, s0, ws, |ws|);
    NoUndershoot(s0.next2, iv, Seen2(rows, ws), |ws|);
  }

  /** The bytes of a stretch, by the ticks that came. */
  lemma {:induction false} SmoothBytes(jumbo: bool, trad: bool, ipv6: bool, s0: Send, ws: seq<RowWakeup>, r: nat)
    requires 1 <= r <= HIGH_SPEED_THRESH && Smooth(RateTableFor(jumbo, trad).rows, ipv6, s0, ws, r)
    ensures var rows := RateTableFor(jumbo, trad).rows;
            Grew(s0, LoopAt(rows, ipv6, s0, ws, |ws|), ipv6,
                 BurstBytes(Tx1(rows[r]), ipv6), BurstBytes(Tx2(rows[r]), ipv6))
  {
    var rows := RateTableFor(jumbo, trad).rows;
    var each1, each2 := BurstBytes(Tx1(rows[r]), ipv6), BurstBytes(Tx2(rows[r]), ipv6);
    ShareBytes(jumbo, trad, r, ipv6);
    forall i | 0 <= i < |ws| ensures SteadyAt(rows, ipv6, ws, i, r, each1, each2) {
      assert SmoothAt(rows, ipv6, s0, ws, r, i);
      GreedyIsSteady(ipv6, Tx1(rows[r]), ws[i].o1);
      GreedyIsSteady(ipv6, Tx2(rows[r]), ws[i].o2);
    }
    StretchBytes(rows, ipv6, s0, ws, |ws|, r, each1, each2);
  }

  /** The ticks of a stretch cover the time since the first, at most a millisecond ahead. */
  lemma {:induction false} SmoothCover(jumbo: bool, trad: bool, ipv6: bool, s0: Send, ws: seq<RowWakeup>, r: nat)
    requires 1 <= r <= HIGH_SPEED_THRESH && Smooth(RateTableFor(jumbo, trad).rows, ipv6, s0, ws, r)
    requires ws != [] && s0.next1 <= ws[|ws| - 1].now && s0.next2 <= ws[|ws| - 1].now
    ensures CoversShares(s0, LoopAt(RateTableFor(jumbo, trad).rows, ipv6, s0, ws, |ws|), trad, r, ws[|ws| - 1].now)
  {
    var rows, now := RateTableFor(jumbo, trad).rows, ws[|ws| - 1].now;
    ShareBytes(jumbo, trad, r, ipv6);
    if Share1(trad, r) > 0 {
      SmoothBursts1(rows, ipv6, s0, ws, r, 100_000);
      TicksCover(s0.next1, now, 100_000);
    }
    if Share1(trad, r) < r {
      SmoothBursts2(rows, ipv6, s0, ws, r, 1_000_000);
      TicksCover(s0.next2, now, 1_000_000);
    }
  }

  predicate Covers(el: int, unit: nat, b: int) { el < unit * b <= el + MS }

  /** bits are those of w1 Mbps over el1 and w2 Mbps over el2 (nanoseconds, so in thousandths of a
      bit), never behind and at most a millisecond ahead. */
  predicate AtRate(bits: int, w1: nat, el1: int, w2: nat, el2: int) {
    w1 * el1 + w2 * el2 < bits <= w1 * (el1 + MS) + w2 * (el2 + MS)
  }

  /** From s0 to s, at time now, the transmitters put the bits of their shares of r Mbps on the wire,
      each since its tick in s0. */
  predicate Carried(s0: Send, s: Send, trad: bool, r: nat, ipv6: bool, now: int) {
    Share1(trad, r) <= r &&
    AtRate(8000 * (L3Bytes(s.wire, ipv6) - L3Bytes(s0.wire, ipv6)),
           Share1(trad, r), now - s0.next1, r - Share1(trad, r), now - s0.next2)
  }

  /** Row r in 1..1000 over a stretch of wakeups from any state of the loop. */
  lemma {:induction false} StretchRate(jumbo: bool, trad: bool, ipv6: bool, s0: Send, ws: seq<RowWakeup>, r: nat)
    requires 1 <= r <= HIGH_SPEED_THRESH && Smooth(RateTableFor(jumbo, trad).rows, ipv6, s0, ws, r)
    requires ws != [] && s0.next1 <= ws[|ws| - 1].now && s0.next2 <= ws[|ws| - 1].now
    ensures Carried(s0, LoopAt(RateTableFor(jumbo, trad).rows, ipv6, s0, ws, |ws|), trad, r, ipv6, ws[|ws| - 1].now)
  {
    SmoothBytes(jumbo, trad, ipv6, s0, ws, r);
    SmoothCover(jumbo, trad, ipv6, s0, ws, r);
    GrownAtRate(s0, LoopAt(RateTableFor(jumbo, trad).rows, ipv6, s0, ws, |ws|), jumbo, trad, r, ipv6, ws[|ws| - 1].now);
  }

  /** Between two states, the bursts cover the time since each transmitter's tick. */
  predicate CoversShares(s0: Send, s: Send, trad: bool, r: nat, now: int) {
    && (Share1(trad, r) > 0 ==> Covers(now - s0.next1, 100_000, s.bursts1 - s0.bursts1))
    && (Share1(trad, r) < r ==> Covers(now - s0.next2, 1_000_000, s.bursts2 - s0.bursts2))
  }

  lemma {:induction false} GrownAtRate(s0: Send, s: Send, jumbo: bool, trad: bool, r: nat, ipv6: bool, now: int)
    requires 1 <= r <= HIGH_SPEED_THRESH && s0.next1 <= now && s0.next2 <= now
    requires var row := RowAt(jumbo, trad, r);
             Grew(s0, s, ipv6, BurstBytes(Tx1(row), ipv6), BurstBytes(Tx2(row), ipv6))
    requires CoversShares(s0, s, trad, r, now)
    ensures Carried(s0, s, trad, r, ipv6, now)
  {
    var row, share := RowAt(jumbo, trad, r), Share1(trad, r);
    ShareBytes(jumbo, trad, r, ipv6);
    SharedRate(share, r - share, now - s0.next1, now - s0.next2, s.bursts1 - s0.bursts1, s.bursts2 - s0.bursts2,
               BurstBytes(Tx1(row), ipv6), BurstBytes(Tx2(row), ipv6));
  }

  lemma {:induction false} SharedRate(w1: nat, w2: nat, el1: nat, el2: nat, b1: nat, b2: nat, each1: int, each2: int)
    requires w1 + w2 > 0 && 8000 * each1 == w1 * 100_000 && 8000 * each2 == w2 * 1_000_000
    requires w1 > 0 ==> Covers(el1, 100_000, b1)
    requires w2 > 0 ==> Covers(el2, 1_000_000, b2)
    ensures AtRate(8000 * (Times(b1, each1) + Times(b2, each2)), w1, el1, w2, el2)
  {
    Share(w1, el1, b1, each1, 100_000);
    Share(w2, el2, b2, each2, 1_000_000);
  }

  lemma {:induction false} Share(w: nat, el: nat, b: nat, each: int, unit: nat)
    requires 8000 * each == w * unit && (w > 0 ==> Covers(el, unit, b))
    ensures w * el + w <= 8000 * Times(b, each) <= w * (el + MS)
  {
    TimesIsProduct(b, each);
    Regroup(each, w, b, unit);
    if w > 0 {
      MulMono(w, el + 1, unit * b);
      MulMono(w, unit * b, el + MS);
    }
  }

  lemma {:induction false} Regroup(each: int, w: int, b: int, unit: int)
    requires 8000 * each == w * unit
    ensures 8000 * (b * each) == w * (unit * b)
  {
  }

  /** From s0 to s the bits on the wire are those of r Mbps over el, at most late behind and at most a
      millisecond ahead. */
  predicate MeetsRate(s0: Send, s: Send, ipv6: bool, r: nat, el: int, late: int) {
    r * (el - late) < 8000 * (L3Bytes(s.wire, ipv6) - L3Bytes(s0.wire, ipv6)) <= r * (el + MS)
  }

  lemma {:induction false} CarriedMeets(s0: Send, s: Send, trad: bool, r: nat, ipv6: bool, now: int, t0: int, late: nat)
    requires Carried(s0, s, trad, r, ipv6, now) && t0 <= s0.next1 <= t0 + late && t0 <= s0.next2 <= t0 + late
    ensures MeetsRate(s0, s, ipv6, r, now - t0, late)
  {
    TwoClocks(8000 * (L3Bytes(s.wire, ipv6) - L3Bytes(s0.wire, ipv6)), Share1(trad, r), r - Share1(trad, r),
              now - s0.next1, now - s0.next2, now - t0, late);
  }

  lemma {:induction false} TwoClocks(bits: int, w1: nat, w2: nat, el1: int, el2: int, el: int, late: nat)
    requires AtRate(bits, w1, el1, w2, el2) && el - late <= el1 <= el && el - late <= el2 <= el
    ensures (w1 + w2) * (el - late) < bits <= (w1 + w2) * (el + MS)
  {
    MulMono(w1, el - late, el1);
    MulMono(w2, el - late, el2);
    MulMono(w1, el1 + MS, el + MS);
    MulMono(w2, el2 + MS, el + MS);
  }

  /** After any history: where the ticks are at most late after t0, a stretch on row r is at most late
      behind r Mbps since t0 and at most a millisecond ahead. */
  lemma {:induction false} RateAfterSwitch(jumbo: bool, trad: bool, ipv6: bool, s0: Send, ws: seq<RowWakeup>, r: nat,
                                           t0: int, late: nat)
    requires 1 <= r <= HIGH_SPEED_THRESH && Smooth(RateTableFor(jumbo, trad).rows, ipv6, s0, ws, r)
    requires ws != [] && t0 <= s0.next1 <= t0 + late && t0 <= s0.next2 <= t0 + late && t0 + late <= ws[|ws| - 1].now
    ensures MeetsRate(s0, LoopAt(RateTableFor(jumbo, trad).rows, ipv6, s0, ws, |ws|), ipv6, r, ws[|ws| - 1].now - t0, late)
  {
    StretchRate(jumbo, trad, ipv6, s0, ws, r);
    CarriedMeets(s0, LoopAt(RateTableFor(jumbo, trad).rows, ipv6, s0, ws, |ws|), trad, r, ipv6, ws[|ws| - 1].now, t0, late);
  }

  /** From the start of a test: on row r the bits on the wire at any wakeup are those of r Mbps, never
      behind and at most a millisecond ahead. */
  lemma {:induction false} NominalRateMet(jumbo: bool, trad: bool, ipv6: bool, start: int, ws: seq<RowWakeup>, r: nat)
    requires 1 <= r <= HIGH_SPEED_THRESH && Smooth(RateTableFor(jumbo, trad).rows, ipv6, Started(start), ws, r)
    requires ws != [] && start <= ws[|ws| - 1].now
    ensures var s := LoopAt(RateTableFor(jumbo, trad).rows, ipv6, Started(start), ws, |ws|);
            MeetsRate(Started(start), s, ipv6, r, ws[|ws| - 1].now - start, 0)
  {
    RateAfterSwitch(jumbo, trad, ipv6, Started(start), ws, r, start, 0);
  }
}
