/** The load sender (sendLoop in internal/udpst/session.go): bursts on two cadences with bounded
    catch-up, and sequence numbers rolled back when the kernel refuses part of a batch. */
module Sender {
  import opened Words
  import opened Messages
  import opened Clock
  import opened RateTable
  import opened Pacing

  datatype Datagram = Datagram(seqNo: u32, size: nat)

  // ---------------------------------------------------------------------------
  // Datagram sizes
  // ---------------------------------------------------------------------------

  function MinSize(ipv6: bool): nat { if ipv6 then MIN_PAYLOAD - IPV6_ADD else MIN_PAYLOAD }

  /** The UDP payload of a datagram whose size field is v; draw stands for the random number, cut to
      the range asked for. */
  function SizeOf(v: u32, ipv6: bool, draw: nat): nat {
    var base := WithoutRand(v);
    var size := if ipv6 && base > IPV6_ADD then base - IPV6_ADD else base;
    var drawn := if v >= RAND_BIT && size > MinSize(ipv6) then MinSize(ipv6) + Min(draw, size - MinSize(ipv6)) else size;
    Min(Max(drawn, MinSize(ipv6)), MAX_JUMBO_PAYLOAD)
  }

  /** What is sent at a fixed size is what the table's nominal rate counts. */
  lemma {:induction false} SizeIsNominal(v: u32, ipv6: bool, draw: nat)
    requires MIN_PAYLOAD <= v <= MAX_JUMBO_PAYLOAD
    ensures SizeOf(v, ipv6, draw) + L3_OVERHEAD + (if ipv6 then IPV6_ADD else 0) == L3Size(v, ipv6)
  {
  }

  /** Every datagram has room for its header and fits its buffer, and a drawn size is never above the
      size asked for. */
  lemma {:induction false} SizeFits(v: u32, ipv6: bool, draw: nat)
    ensures LOAD_HDR_SIZE <= SizeOf(v, ipv6, draw) <= MAX_JUMBO_PAYLOAD
    ensures SizeOf(v, ipv6, draw) <= Max(WithoutRand(v), MinSize(ipv6))
  {
  }

  /** With the random bit, every size from the smallest to the one asked for can be drawn. */
  lemma {:induction false} AnySizeDrawn(v: u32, ipv6: bool, size: nat)
    requires RAND_BIT + IPV6_ADD < v && MinSize(ipv6) <= size <= MAX_JUMBO_PAYLOAD
    requires size <= WithoutRand(v) - if ipv6 then IPV6_ADD else 0
    ensures SizeOf(v, ipv6, size - MinSize(ipv6)) == size
  {
  }

  // ---------------------------------------------------------------------------
  // What goes on the wire
  // ---------------------------------------------------------------------------

  /** How much of a batch is accepted when successive writes take kernel[0], kernel[1], ... of what
      is left; a write that fails or takes nothing ends the batch. */
  function Taken(count: nat, kernel: seq<nat>): (n: nat)
    ensures n <= count
    decreases |kernel|
  {
    if count == 0 || kernel == [] || kernel[0] == 0 then 0
    else
      var n := Min(kernel[0], count);
      n + Taken(count - n, kernel[1..])
  }

  /** The datagrams of one burst, numbered from base + 1, before the kernel has seen them. */
  function Batch(base: nat, size: nat, burst: nat, addon: bool, addonSize: nat): seq<Datagram> {
    seq(burst + (if addon then 1 else 0),
        i requires 0 <= i => Datagram(Wrap32(base + i + 1), if i < burst then size else addonSize))
  }

  /** The wire after one burst, of which the kernel accepts a prefix. */
  function BurstOn(wire: seq<Datagram>, size: nat, burst: nat, addon: bool, addonSize: nat,
                   kernel: seq<nat>): seq<Datagram> {
    var batch := Batch(|wire|, size, burst, addon, addonSize);
    wire + batch[..Taken(|batch|, kernel)]
  }

  /** What a transmitter sends at each tick; addon is 0 when there is no add-on datagram. */
  datatype Tx = Tx(field: u32, burst: nat, addon: u32) {
    function Count(): nat { burst + if addon > 0 then 1 else 0 }
  }

  function Tx1(row: Rate): Tx { Tx(row.udpPayload1, row.burstSize1, 0) }
  function Tx2(row: Rate): Tx { Tx(row.udpPayload2, row.burstSize2, row.udpAddon2) }

  predicate Active1(row: Rate) { row.txInterval1 > 0 && row.burstSize1 > 0 }
  predicate Active2(row: Rate) { row.txInterval2 > 0 && (row.burstSize2 > 0 || row.udpAddon2 > 0) }

  /** Random numbers, and what the kernel accepts, burst by burst. */
  datatype Oracle = Oracle(draw: nat -> nat, kernel: nat -> seq<nat>)

  /** The wire after burst k of a transmitter. */
  function TickOn(wire: seq<Datagram>, ipv6: bool, t: Tx, o: Oracle, k: nat): seq<Datagram> {
    BurstOn(wire, SizeOf(t.field, ipv6, o.draw(2 * k)), t.burst,
            t.addon > 0, SizeOf(t.addon, ipv6, o.draw(2 * k + 1)), o.kernel(k))
  }

  /** The wire after n bursts of a transmitter. */
  function BurstsOn(wire: seq<Datagram>, ipv6: bool, t: Tx, o: Oracle, n: nat): seq<Datagram> {
    if n == 0 then wire else TickOn(BurstsOn(wire, ipv6, t, o, n - 1), ipv6, t, o, n - 1)
  }

  lemma {:induction false} OneMore(wire: seq<Datagram>, ipv6: bool, t: Tx, o: Oracle, n: nat)
    ensures BurstsOn(wire, ipv6, t, o, n + 1) == TickOn(BurstsOn(wire, ipv6, t, o, n), ipv6, t, o, n)
  {
  }

  /** The state of the send loop, with the bursts and the accepted datagrams of each transmitter counted. */
  datatype Send = Send(next1: int, next2: int, wire: seq<Datagram>, bursts1: nat, bursts2: nat, sent1: int, sent2: int)

  /** The first transmitter's part of a turn. */
  function Turn1(s: Send, ipv6: bool, row: Rate, now: int, o: Oracle): Send {
    var (next, bursts) := Turn(s.next1, now, Active1(row), row.txInterval1 * US);
    var wire := BurstsOn(s.wire, ipv6, Tx1(row), o, bursts);
    s.(next1 := next, wire := wire, bursts1 := s.bursts1 + bursts, sent1 := s.sent1 + |wire| - |s.wire|)
  }

  /** The second transmitter's part of a turn. */
  function Turn2(s: Send, ipv6: bool, row: Rate, now: int, o: Oracle): Send {
    var (next, bursts) := Turn(s.next2, now, Active2(row), row.txInterval2 * US);
    var wire := BurstsOn(s.wire, ipv6, Tx2(row), o, bursts);
    s.(next2 := next, wire := wire, bursts2 := s.bursts2 + bursts, sent2 := s.sent2 + |wire| - |s.wire|)
  }

  /** One turn of the send loop. */
  function WakeSpec(s: Send, ipv6: bool, row: Rate, now: int, o1: Oracle, o2: Oracle): Send {
    if Active1(row) || Active2(row) then Turn2(Turn1(s, ipv6, row, now, o1), ipv6, row, now, o2) else s
  }

  /** A wakeup: the time, the row found selected, and the oracles of the two transmitters. */
  datatype RowWakeup = RowWakeup(now: int, row: nat, o1: Oracle, o2: Oracle)

  predicate OnTable(rows: seq<Rate>, ws: seq<RowWakeup>) { forall i | 0 <= i < |ws| :: ws[i].row < |rows| }

  /** Before the first wakeup: both transmitters first tick at start. */
  function Started(start: int): Send { Send(start, start, [], 0, 0, 0, 0) }

  /** The send loop after the first n wakeups. */
  function LoopAt(rows: seq<Rate>, ipv6: bool, s0: Send, ws: seq<RowWakeup>, n: nat): Send
    requires n <= |ws| && OnTable(rows, ws)
  {
    if n == 0 then s0
    else
      var w := ws[n - 1];
      WakeSpec(LoopAt(rows, ipv6, s0, ws, n - 1), ipv6, rows[w.row], w.now, w.o1, w.o2)
  }

  /** The wire after the stop phase: single datagrams of the smallest size. */
  function StopsOn(wire: seq<Datagram>, ipv6: bool, kernels: seq<seq<nat>>): seq<Datagram> {
    if kernels == [] then wire
    else
      var k := |kernels| - 1;
      BurstOn(StopsOn(wire, ipv6, kernels[..k]), SizeOf(MinSize(ipv6), ipv6, 0), 1, false, 0, kernels[k])
  }

  // ---------------------------------------------------------------------------
  // The sender object
  // ---------------------------------------------------------------------------

  class LoadSender {
    const ipv6: bool
    const bufs: array<Datagram>
    var seqNo: u32
    var next1: int
    var next2: int
    ghost var wire: seq<Datagram>
    ghost var bursts1: nat
    ghost var bursts2: nat
    ghost var sent1: int
    ghost var sent2: int

    /** The sequence number counts what the kernel accepted so far. */
    ghost predicate Valid()
      reads this
    {
      bufs.Length == MAX_BURST + 1 && seqNo == Wrap32(|wire|)
    }

    ghost function View(): Send
      reads this
    {
      Send(next1, next2, wire, bursts1, bursts2, sent1, sent2)
    }

    constructor (v6: bool, start: int)
      ensures Valid() && fresh(bufs) && ipv6 == v6 && View() == Started(start)
    {
      ipv6 := v6;
      bufs := new Datagram[MAX_BURST + 1](_ => Datagram(0, 0));
      seqNo, next1, next2 := 0, start, start;
      wire, bursts1, bursts2, sent1, sent2 := [], 0, 0, 0, 0;
    }

    /** Builds a burst in the buffers. */
    method Fill(size: nat, burst: nat, addon: bool, addonSize: nat) returns (count: nat)
      requires Valid() && burst + (if addon then 1 else 0) <= MAX_BURST + 1
      modifies this`seqNo, bufs
      ensures count <= bufs.Length && bufs[..count] == Batch(|wire|, size, burst, addon, addonSize)
      ensures seqNo == Wrap32(|wire| + count)
    {
      count := 0;
      while count < burst
        invariant 0 <= count <= burst && seqNo == Wrap32(|wire| + count)
        invariant forall i | 0 <= i < count :: bufs[i] == Datagram(Wrap32(|wire| + i + 1), size)
      {
        count := Add(count, size);
      }
      if addon { count := Add(count, addonSize); }
    }

    method Add(count: nat, size: nat) returns (count': nat)
      requires count < bufs.Length && seqNo == Wrap32(|wire| + count)
      modifies this`seqNo, bufs
      ensures count' == count + 1 && seqNo == Wrap32(|wire| + count')
      ensures bufs[count] == Datagram(Wrap32(|wire| + count + 1), size)
      ensures forall i | 0 <= i < bufs.Length && i != count :: bufs[i] == old(bufs[i])
    {
      WrapSum(|wire| + count, 1);
      seqNo := Wrap32(seqNo + 1);
      bufs[count] := Datagram(seqNo, size);
      count' := count + 1;
    }

    /** Hands the batch to the kernel; the datagrams it refuses give their numbers back. */
    method Flush(count: nat, kernel: seq<nat>)
      requires count <= bufs.Length && seqNo == Wrap32(|wire| + count)
      modifies this`seqNo, this`wire
      ensures wire == old(wire) + bufs[..Taken(count, kernel)]
      ensures seqNo == Wrap32(|wire|)
    {
      var sent, k := 0, 0;
      while sent < count
        invariant 0 <= sent <= count && 0 <= k <= |kernel|
        invariant Taken(count, kernel) == sent + Taken(count - sent, kernel[k..])
        invariant seqNo == old(seqNo) && wire == old(wire) + bufs[..sent]
        decreases |kernel| - k
      {
        var n := if k < |kernel| then Min(kernel[k], count - sent) else 0;
        if n == 0 {
          WrapSum(|old(wire)| + count, sent - count);
          seqNo := Wrap32(seqNo - (count - sent));
          return;
        }
        assert kernel[k..][1..] == kernel[k + 1..];
        assert bufs[..sent + n] == bufs[..sent] + bufs[sent..sent + n];
        wire := wire + bufs[sent..sent + n];
        sent, k := sent + n, k + 1;
      }
    }

    /** One burst: what the kernel accepts goes on the wire with the next sequence numbers, in order;
        what it refuses leaves no gap behind. */
    method SendBurst(size: nat, burst: nat, addon: bool, addonSize: nat, kernel: seq<nat>)
      requires Valid() && burst + (if addon then 1 else 0) <= MAX_BURST + 1
      modifies this`seqNo, this`wire, bufs
      ensures Valid()
      ensures wire == BurstOn(old(wire), size, burst, addon, addonSize, kernel)
    {
      var count := Fill(size, burst, addon, addonSize);
      if count == 0 { return; }
      ghost var batch := bufs[..count];
      Flush(count, kernel);
      assert bufs[..Taken(count, kernel)] == batch[..Taken(count, kernel)];
    }

    method SendTick(t: Tx, o: Oracle, k: nat)
      requires Valid() && t.Count() <= MAX_BURST + 1
      modifies this`seqNo, this`wire, bufs
      ensures Valid() && wire == TickOn(old(wire), ipv6, t, o, k)
    {
      SendBurst(SizeOf(t.field, ipv6, o.draw(2 * k)), t.burst,
                t.addon > 0, SizeOf(t.addon, ipv6, o.draw(2 * k + 1)), o.kernel(k));
    }

    /** Sends the bursts that are due, at most twenty, and moves the tick on. */
    method CatchUp(next: int, now: int, iv: int, t: Tx, o: Oracle) returns (next': int, caught: nat)
      requires Valid() && iv > 0 && t.Count() <= MAX_BURST + 1
      modifies this`seqNo, this`wire, bufs
      ensures Valid()
      ensures (next', caught) == Turn(next, now, true, iv)
      ensures wire == BurstsOn(old(wire), ipv6, t, o, caught)
    {
      next', caught := next, 0;
      while next' <= now && caught < CATCH_UP
        invariant Valid() && wire == BurstsOn(old(wire), ipv6, t, o, caught)
        invariant 0 <= caught <= CATCH_UP && next' == next + caught * iv
        invariant caught <= Due(next, now, iv)
      {
        OneMore(old(wire), ipv6, t, o, caught);
        SendTick(t, o, caught);
        OneTick(next, now, iv, caught);
        next' := next' + iv;
        caught := caught + 1;
      }
      CaughtUp(next, now, iv, caught);
      if next' < now { next' := now + iv; }
    }

    /** The first transmitter sends what is due, or is put off if idle. */
    method Transmit1(row: Rate, now: int, o: Oracle)
      requires Valid() && row.burstSize1 <= MAX_BURST
      modifies this, bufs
      ensures Valid() && View() == Turn1(old(View()), ipv6, row, now, o)
    {
      var n := 0;
      if row.txInterval1 > 0 && row.burstSize1 > 0 {
        next1, n := CatchUp(next1, now, row.txInterval1 * US, Tx1(row), o);
      } else {
        next1 := now + IDLE;
      }
      bursts1, sent1 := bursts1 + n, sent1 + |wire| - |old(wire)|;
    }

    /** The second transmitter sends what is due, or is put off if idle. */
    method Transmit2(row: Rate, now: int, o: Oracle)
      requires Valid() && row.burstSize2 <= MAX_BURST
      modifies this, bufs
      ensures Valid() && View() == Turn2(old(View()), ipv6, row, now, o)
    {
      var n := 0;
      if row.txInterval2 > 0 && (row.burstSize2 > 0 || row.udpAddon2 > 0) {
        next2, n := CatchUp(next2, now, row.txInterval2 * US, Tx2(row), o);
      } else {
        next2 := now + IDLE;
      }
      bursts2, sent2 := bursts2 + n, sent2 + |wire| - |old(wire)|;
    }

    /** One turn of the send loop; on a row without an active transmitter nothing happens. */
    method Wake(row: Rate, now: int, o1: Oracle, o2: Oracle)
      requires Valid() && row.burstSize1 <= MAX_BURST && row.burstSize2 <= MAX_BURST
      modifies this, bufs
      ensures Valid() && View() == WakeSpec(old(View()), ipv6, row, now, o1, o2)
    {
      if !Active1(row) && !Active2(row) { return; }
      Transmit1(row, now, o1);
      Transmit2(row, now, o2);
    }

    /** The send loop over a run of wakeups, whatever row each finds selected. */
    method SendLoop(rows: seq<Rate>, ws: seq<RowWakeup>)
      requires Valid() && OnTable(rows, ws)
      requires forall i | 0 <= i < |rows| :: rows[i].burstSize1 <= MAX_BURST && rows[i].burstSize2 <= MAX_BURST
      modifies this, bufs
      ensures Valid() && View() == LoopAt(rows, ipv6, old(View()), ws, |ws|)
    {
      for i := 0 to |ws|
        invariant Valid() && View() == LoopAt(rows, ipv6, old(View()), ws, i)
      {
        Wake(rows[ws[i].row], ws[i].now, ws[i].o1, ws[i].o2);
      }
    }

    /** The stop phase. */
    method SendStops(kernels: seq<seq<nat>>)
      requires Valid()
      modifies this`seqNo, this`wire, bufs
      ensures Valid() && wire == StopsOn(old(wire), ipv6, kernels)
    {
      for i := 0 to |kernels|
        invariant Valid() && wire == StopsOn(old(wire), ipv6, kernels[..i])
      {
        assert kernels[..i + 1][..i] == kernels[..i];
        SendBurst(SizeOf(MinSize(ipv6), ipv6, 0), 1, false, 0, kernels[i]);
      }
      assert kernels[..|kernels|] == kernels;
    }
  }
}
