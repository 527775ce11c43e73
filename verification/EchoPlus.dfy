/** The UDP Echo Plus responder (internal/tr143/echo.go): TR-143 A.1.4 and A.1.8.5. */
module EchoPlus {
  import opened Words
  import opened Clock
  import Codec

  const ECHO_PLUS_MIN: nat := 20

  /** The wrapping microsecond counter of TR-143 A.1.4. */
  function Stamp(epoch: int, t: int): u32 { Wrap32(TruncDiv(t - epoch, US)) }

  /** The four words the server writes into a reply. */
  datatype Fields = Fields(respSN: u32, recvTime: u32, replyTime: u32, failureCount: u32)

  /** r answers b with the given fields: offsets 4 to 19 hold them, every other byte is b's; a packet
      too short for the fields is reflected as it is. */
  predicate Answers(b: seq<u8>, r: seq<u8>, f: Fields) {
    && |r| == |b|
    && (forall k | 0 <= k < |b| && !(|b| >= ECHO_PLUS_MIN && 4 <= k < 20) :: r[k] == b[k])
    && (|b| >= ECHO_PLUS_MIN ==>
          Be32(r, 4) == f.respSN && Be32(r, 8) == f.recvTime && Be32(r, 12) == f.replyTime && Be32(r, 16) == f.failureCount)
  }

  /** One datagram received: its length, the kernel's drop count if control data came with it,
      whether the source is allowed, the two clock readings, and whether the reply could be sent. */
  datatype Packet = Packet(len: nat, drops: Option<u32>, allowed: bool, rx: int, tx: int, sent: bool)

  datatype Echo = Echo(epoch: int, received: u64, responses: u32, failures: u32, lastDrops: u32)

  function NoteDrops(e: Echo, drops: Option<u32>): Echo {
    match drops
    case None => e
    case Some(d) => e.(failures := Wrap32(e.failures + if d > e.lastDrops then d - e.lastDrops else 0), lastDrops := d)
  }

  function FieldsFor(e: Echo, rx: int, tx: int): Fields {
    Fields(Wrap32(e.responses + 1), Stamp(e.epoch, rx), Stamp(e.epoch, tx), e.failures)
  }

  function NoteSend(e: Echo, plus: bool, sent: bool): Echo {
    if !sent then e.(failures := Wrap32(e.failures + 1))
    else if plus then e.(responses := Wrap32(e.responses + 1))
    else e
  }

  /** The responder's counters after one datagram. */
  function Handled(e: Echo, p: Packet): Echo {
    var e1 := NoteDrops(e, p.drops);
    if !p.allowed then e1
    else NoteSend(e1.(received := Wrap64(e1.received + 1)), p.len >= ECHO_PLUS_MIN, p.sent)
  }

  // ---------------------------------------------------------------------------
  // The responder object
  // ---------------------------------------------------------------------------

  class EchoServer {
    const epoch: int
    var received: u64
    var responses: u32
    var failures: u32
    var lastDrops: u32

    ghost function View(): Echo
      reads this
    {
      Echo(epoch, received, responses, failures, lastDrops)
    }

    constructor (start: int)
      ensures View() == Echo(start, 0, 0, 0, 0)
    {
      epoch, received, responses, failures, lastDrops := start, 0, 0, 0, 0;
    }

    /** One turn of the serve loop; the reply is built in place in the packet buffer. */
    method Handle(buf: array<u8>, p: Packet)
      requires p.len == buf.Length
      modifies this, buf
      ensures View() == Handled(old(View()), p)
      ensures if p.allowed then Answers(old(buf[..]), buf[..], FieldsFor(NoteDrops(old(View()), p.drops), p.rx, p.tx))
              else buf[..] == old(buf[..])
    {
      if p.drops.Some? { CountDrops(p.drops.value); }
      if !p.allowed { return; }
      received := Wrap64(received + 1);
      Respond(buf, p);
    }

    /** The kernel's cumulative drop count, as reported with a datagram. */
    method CountDrops(d: u32)
      modifies this`failures, this`lastDrops
      ensures View() == NoteDrops(old(View()), Some(d))
    {
      if d > lastDrops { failures := Wrap32(failures + (d - lastDrops)); }
      if d != 0 || lastDrops != 0 { lastDrops := d; }
    }

    method Respond(buf: array<u8>, p: Packet)
      requires p.len == buf.Length
      modifies this`responses, this`failures, buf
      ensures View() == NoteSend(old(View()), p.len >= ECHO_PLUS_MIN, p.sent)
      ensures Answers(old(buf[..]), buf[..], FieldsFor(old(View()), p.rx, p.tx))
    {
      if buf.Length >= ECHO_PLUS_MIN {
        Codec.PutU32(buf, 4, Wrap32(responses + 1));
        Codec.PutU32(buf, 8, Stamp(epoch, p.rx));
        Codec.PutU32(buf, 16, failures);
        Codec.PutU32(buf, 12, Stamp(epoch, p.tx));
      }
      if !p.sent {
        failures := Wrap32(failures + 1);
        return;
      }
      if buf.Length >= ECHO_PLUS_MIN { responses := Wrap32(responses + 1); }
    }
  }

  // ---------------------------------------------------------------------------
  // Runs
  // ---------------------------------------------------------------------------

  function At(e: Echo, ps: seq<Packet>, n: nat): Echo
    requires n <= |ps|
  {
    if n == 0 then e else Handled(At(e, ps, n - 1), ps[n - 1])
  }

  predicate Fresh(e: Echo) { e.received == e.responses == e.failures == e.lastDrops == 0 }

  predicate Replied(p: Packet) { p.allowed && p.sent && p.len >= ECHO_PLUS_MIN }

  /** Successful Echo Plus replies among the first n packets. */
  function Replies(ps: seq<Packet>, n: nat): nat
    requires n <= |ps|
  {
    if n == 0 then 0 else Replies(ps, n - 1) + if Replied(ps[n - 1]) then 1 else 0
  }

  /** Failed sends among the first n packets. */
  function FailedSends(ps: seq<Packet>, n: nat): nat
    requires n <= |ps|
  {
    if n == 0 then 0 else FailedSends(ps, n - 1) + if ps[n - 1].allowed && !ps[n - 1].sent then 1 else 0
  }

  /** The last drop count the kernel reported. */
  function Drops(ps: seq<Packet>, n: nat): u32
    requires n <= |ps|
  {
    if n == 0 then 0 else if ps[n - 1].drops.Some? then ps[n - 1].drops.value else Drops(ps, n - 1)
  }

  /** By how much the reported drop count fell, summed over the run. */
  function Fallen(ps: seq<Packet>, n: nat): nat
    requires n <= |ps|
  {
    if n == 0 then 0 else Fallen(ps, n - 1) + Max(0, Drops(ps, n - 1) - Drops(ps, n))
  }

  /** The k-th successful Echo Plus reply carries TestRespSN k, modulo 2^32: a failed send does not
      use up its number. */
  lemma {:induction false} RespSNCountsReplies(e: Echo, ps: seq<Packet>, n: nat)
    requires Fresh(e) && n < |ps| && Replied(ps[n])
    ensures var k := Replies(ps, n + 1);
            FieldsFor(NoteDrops(At(e, ps, n), ps[n].drops), ps[n].rx, ps[n].tx).respSN == Wrap32(k)
  {
    ResponsesCount(e, ps, n);
    WrapSum(Replies(ps, n), 1);
  }

  lemma {:induction false} ResponsesCount(e: Echo, ps: seq<Packet>, n: nat)
    requires Fresh(e) && n <= |ps|
    ensures At(e, ps, n).responses == Wrap32(Replies(ps, n))
  {
    if n > 0 {
      ResponsesCount(e, ps, n - 1);
      WrapSum(Replies(ps, n - 1), 1);
    }
  }

  /** The failure counter is the kernel's drops plus the failed sends, plus whatever the reported
      count fell by and so was counted again, modulo 2^32. */
  lemma {:induction false} FailuresCount(e: Echo, ps: seq<Packet>, n: nat)
    requires Fresh(e) && n <= |ps|
    ensures var t := At(e, ps, n);
            t.lastDrops == Drops(ps, n) && t.failures == Wrap32(Drops(ps, n) + FailedSends(ps, n) + Fallen(ps, n))
  {
    if n > 0 {
      FailuresCount(e, ps, n - 1);
      FailureStep(At(e, ps, n - 1), ps[n - 1], Drops(ps, n - 1) + FailedSends(ps, n - 1) + Fallen(ps, n - 1));
    }
  }

  lemma {:induction false} FailureStep(e: Echo, p: Packet, sum: nat)
    requires e.failures == Wrap32(sum)
    ensures var drops := if p.drops.Some? then p.drops.value else e.lastDrops;
            && Handled(e, p).lastDrops == drops
            && Handled(e, p).failures == Wrap32(sum + Max(0, drops - e.lastDrops) + if p.allowed && !p.sent then 1 else 0)
  {
    var drops := if p.drops.Some? then p.drops.value else e.lastDrops;
    var rise := Max(0, drops - e.lastDrops);
    WrapSum(sum, rise);
    WrapSum(sum + rise, 1);
  }

  predicate RisesAt(ps: seq<Packet>, i: nat)
    requires 0 < i <= |ps|
  {
    Drops(ps, i - 1) <= Drops(ps, i)
  }

  predicate NonDecreasing(ps: seq<Packet>, n: nat)
    requires n <= |ps|
  {
    forall i | 0 < i <= n :: RisesAt(ps, i)
  }

  lemma {:induction false} NoFall(ps: seq<Packet>, n: nat)
    requires n <= |ps|
    ensures Fallen(ps, n) == 0 <==> NonDecreasing(ps, n)
  {
    if n > 0 {
      NoFall(ps, n - 1);
      assert NonDecreasing(ps, n) <==> NonDecreasing(ps, n - 1) && RisesAt(ps, n);
    }
  }

  /** So TestRespReplyFailureCount is the kernel's drops plus the failed sends if and only if what the
      reported count fell by is a multiple of 2^32 in all; below 2^32, if and only if the reports never
      went down. */
  lemma {:induction false} FailuresExact(e: Echo, ps: seq<Packet>, n: nat)
    requires Fresh(e) && n <= |ps|
    ensures At(e, ps, n).failures == Wrap32(Drops(ps, n) + FailedSends(ps, n)) <==> Wrap32(Fallen(ps, n)) == 0
    ensures Fallen(ps, n) < 0x1_0000_0000 ==>
              (At(e, ps, n).failures == Wrap32(Drops(ps, n) + FailedSends(ps, n)) <==> NonDecreasing(ps, n))
  {
    FailuresCount(e, ps, n);
    NoFall(ps, n);
    ShiftMatters(Drops(ps, n) + FailedSends(ps, n), Fallen(ps, n));
  }

  lemma {:induction false} ShiftMatters(n: nat, k: nat)
    ensures Wrap32(n + k) == Wrap32(n) <==> Wrap32(k) == 0
  {
  }

  /** A packet that is not answered, with a report of the kernel's drop count. */
  function Report(drops: u32): Packet { Packet(ECHO_PLUS_MIN, Some(drops), false, 0, 0, false) }

  /** Reports of 5, 0 and 5 drops, as after the count started over: five drops are counted as ten. */
  lemma {:induction false} RestartCountedTwice(e: Echo)
    requires Fresh(e)
    ensures var ps := [Report(5), Report(0), Report(5)];
            Drops(ps, 3) == 5 && FailedSends(ps, 3) == 0 && At(e, ps, 3).failures == 10
  {
    var ps := [Report(5), Report(0), Report(5)];
    assert Drops(ps, 1) == 5 && Drops(ps, 2) == 0;
    assert Fallen(ps, 1) == 0 && Fallen(ps, 2) == 5;
    assert FailedSends(ps, 1) == 0 && FailedSends(ps, 2) == 0;
    FailuresCount(e, ps, 3);
  }

  // ---------------------------------------------------------------------------
  // Timestamps
  // ---------------------------------------------------------------------------

  /** Two timestamps of one server differ by the time between them: modulo 2^32, and exactly below that,
      to less than a microsecond. */
  lemma {:induction false} StampsApart(epoch: int, t: int, u: int) returns (k: int)
    requires epoch <= t && epoch <= u
    ensures var us := Wrap32(Stamp(epoch, u) - Stamp(epoch, t)) + k * 0x1_0000_0000;
            -US < us * US - (u - t) < US
    ensures 0 <= u - t < 0xFFFF_FFFF * US ==> k == 0
  {
    var a, b := (t - epoch) / US, (u - epoch) / US;
    k := WholeTurns(a, b);
  }

  lemma {:induction false} WholeTurns(a: int, b: int) returns (k: int)
    ensures Wrap32(Wrap32(b) - Wrap32(a)) + k * 0x1_0000_0000 == b - a
    ensures 0 <= b - a < 0x1_0000_0000 ==> k == 0
  {
    WrapDifference(b, a);
    k := (b - a) / 0x1_0000_0000;
  }

  /** A reply says how long the server held the request: replyTime - recvTime is the time from receipt to
      reply in microseconds. */
  lemma {:induction false} ReplySaysHeld(e: Echo, rx: int, tx: int)
    requires e.epoch <= rx <= tx < rx + 0xFFFF_FFFF * US
    ensures var f := FieldsFor(e, rx, tx);
            -US < Wrap32(f.replyTime - f.recvTime) * US - (tx - rx) < US
  {
    var k := StampsApart(e.epoch, rx, tx);
  }

  lemma {:induction false} EpochKept(e: Echo, ps: seq<Packet>, n: nat)
    requires n <= |ps|
    ensures At(e, ps, n).epoch == e.epoch
  {
    if n > 0 { EpochKept(e, ps, n - 1); }
  }

  /** Over a run, the receive timestamps of any two replies are as far apart as the receipts. */
  lemma {:induction false} ReceiptsApart(e: Echo, ps: seq<Packet>, i: nat, j: nat)
    requires i < |ps| && j < |ps| && e.epoch <= ps[i].rx <= ps[j].rx < ps[i].rx + 0xFFFF_FFFF * US
    ensures var f := FieldsFor(NoteDrops(At(e, ps, i), ps[i].drops), ps[i].rx, ps[i].tx);
            var g := FieldsFor(NoteDrops(At(e, ps, j), ps[j].drops), ps[j].rx, ps[j].tx);
            -US < Wrap32(g.recvTime - f.recvTime) * US - (ps[j].rx - ps[i].rx) < US
  {
    EpochKept(e, ps, i);
    EpochKept(e, ps, j);
    var k := StampsApart(e.epoch, ps[i].rx, ps[j].rx);
  }

  /** Datagrams from allowed sources among the first n. */
  function Allowed(ps: seq<Packet>, n: nat): nat
    requires n <= |ps|
  {
    if n == 0 then 0 else Allowed(ps, n - 1) + if ps[n - 1].allowed then 1 else 0
  }

  lemma {:induction false} ReceivedCounts(e: Echo, ps: seq<Packet>, n: nat)
    requires Fresh(e) && n <= |ps|
    ensures At(e, ps, n).received == Wrap64(Allowed(ps, n))
  {
    if n > 0 {
      ReceivedCounts(e, ps, n - 1);
      WrapSum64(Allowed(ps, n - 1), 1);
    }
  }
}
