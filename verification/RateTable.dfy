/** The sending rate table (internal/udpst/srates.go): nested loops with early stops that amount
    to a closed form, and the nominal rate of every row. */
module RateTable {
  import opened Words
  import opened Messages

  const MAX_SENDING_RATES: nat := 1153
  const BASE_SEND_TIMER1: u32 := 100
  const BASE_SEND_TIMER2: u32 := 1000
  const MAX_L3: nat := 1250
  const MAX_JUMBO_L3: nat := 9000
  const L3_OVERHEAD: nat := 28
  const IPV6_ADD: nat := 20
  const MAX_BURST: nat := 100
  const MAX_PAYLOAD: u32 := 1222
  const MAX_JUMBO_PAYLOAD: u32 := 8972
  const MAX_TRAD_PAYLOAD: u32 := 1472
  const MIN_PAYLOAD: nat := 52
  const HIGH_SPEED_THRESH: nat := 1000

  /** Set in a payload field, this bit asks for a random size up to the other bits' value. */
  const RAND_BIT: u32 := 0x8000_0000

  function WithoutRand(v: u32): u32 { if v >= RAND_BIT then v - RAND_BIT else v }

  datatype Table = Table(rows: seq<Rate>, highSpeedThresh: nat)

  // ---------------------------------------------------------------------------
  // The closed form
  // ---------------------------------------------------------------------------

  function BasePayload(trad: bool): u32 { if trad then MAX_TRAD_PAYLOAD else MAX_PAYLOAD }

  /** A region 1 row without add-on: k datagrams every 100 us and i every 1 ms. */
  function BaseRow(payload: u32, k: nat, i: nat): Rate
    requires k <= 10 && i < 10
  {
    Rate(if k > 0 then BASE_SEND_TIMER1 else 0, if k > 0 then payload else 0, k,
         if i > 0 then BASE_SEND_TIMER2 else 0, if i > 0 then payload else 0, i, 0)
  }

  function AddonRow(payload: u32, k: nat, i: nat, j: nat): Rate
    requires k <= 10 && i < 10 && 1 <= j < 12
  {
    BaseRow(payload, k, i).(txInterval2 := BASE_SEND_TIMER2, udpAddon2 := j * 1000 / 8 - L3_OVERHEAD)
  }

  function RegionOneRow(payload: u32, k: nat, i: nat, j: nat): Rate
    requires k <= 10 && i < 10 && j < 12 && payload < RAND_BIT
  {
    if j > 0 then AddonRow(payload, k, i, j)
    else if k == 0 && i == 0 then BaseRow(payload, 0, 0).(txInterval2 := 50000, udpAddon2 := payload + RAND_BIT)
    else BaseRow(payload, k, i)
  }

  function BurstRow(payload: u32, burst: u32): Rate {
    Rate(BASE_SEND_TIMER1, payload, burst, 0, 0, 0, 0)
  }

  /** Row n of the table. */
  function RowAt(jumbo: bool, trad: bool, n: nat): Rate
    requires n < MAX_SENDING_RATES
  {
    if n <= HIGH_SPEED_THRESH then
      if trad then RegionOneRow(MAX_TRAD_PAYLOAD, n / 120, n % 120 / 12, n % 12)
      else RegionOneRow(MAX_PAYLOAD, n / 100, n % 100 / 10, n % 10)
    else if jumbo then
      if n <= 1062 then BurstRow(MAX_L3 + 125 * (n - HIGH_SPEED_THRESH) - L3_OVERHEAD, 10)
      else BurstRow(MAX_JUMBO_PAYLOAD, Min(n - 1052, MAX_BURST))
    else if trad then BurstRow(MAX_TRAD_PAYLOAD, Min(n - 992, MAX_BURST))
    else BurstRow(MAX_PAYLOAD, Min(n - 990, MAX_BURST))
  }

  function RateTableFor(jumbo: bool, trad: bool): (t: Table)
    ensures |t.rows| == MAX_SENDING_RATES && t.highSpeedThresh == HIGH_SPEED_THRESH
    ensures forall n | 0 <= n < MAX_SENDING_RATES :: t.rows[n] == RowAt(jumbo, trad, n)
  {
    Table(seq(MAX_SENDING_RATES, n requires 0 <= n < MAX_SENDING_RATES => RowAt(jumbo, trad, n)), HIGH_SPEED_THRESH)
  }

  ghost predicate Prefix(jumbo: bool, trad: bool, rows: seq<Rate>) {
    && |rows| <= MAX_SENDING_RATES
    && forall n | 0 <= n < |rows| :: rows[n] == RowAt(jumbo, trad, n)
  }

  lemma {:induction false} ExtendPrefix(jumbo: bool, trad: bool, rows: seq<Rate>, row: Rate)
    requires |rows| < MAX_SENDING_RATES && Prefix(jumbo, trad, rows) && row == RowAt(jumbo, trad, |rows|)
    ensures Prefix(jumbo, trad, rows + [row])
  {
  }

  /** The row number of the region 1 row with bursts k and i and add-on j. */
  function RowIndex(trad: bool, k: nat, i: nat, j: nat): nat {
    if trad then 120 * k + 12 * i + j else 100 * k + 10 * i + j
  }

  lemma {:induction false} RowAtIndex(jumbo: bool, trad: bool, k: nat, i: nat, j: nat)
    requires k <= 10 && i < 10 && j < (if trad then 12 else 10)
    requires RowIndex(trad, k, i, j) <= HIGH_SPEED_THRESH
    ensures RowAt(jumbo, trad, RowIndex(trad, k, i, j)) == RegionOneRow(BasePayload(trad), k, i, j)
  {
    if trad { Digits12(k, i, j); } else { Digits10(k, i, j); }
  }

  lemma {:induction false} Digits12(k: nat, i: nat, j: nat)
    requires i < 10 && j < 12
    ensures var n := 120 * k + 12 * i + j; n / 120 == k && n % 120 / 12 == i && n % 12 == j
  {
  }

  lemma {:induction false} Digits10(k: nat, i: nat, j: nat)
    requires i < 10 && j < 10
    ensures var n := 100 * k + 10 * i + j; n / 100 == k && n % 100 / 10 == i && n % 10 == j
  {
    DivMod(k, 10 * i + j, 100);
    DivMod(i, j, 10);
    DivMod(10 * k + i, j, 10);
  }

  // ---------------------------------------------------------------------------
  // The construction
  // ---------------------------------------------------------------------------

  /** The rows with bursts k and i, appended to the table; stop once 1 Gbps is reached. */
  method AppendGroup(ghost jumbo: bool, trad: bool, k: nat, i: nat, rows0: seq<Rate>)
    returns (rows: seq<Rate>, stop: bool)
    requires k <= (if trad then 8 else 10) && i < 10
    requires |rows0| == RowIndex(trad, k, i, 0) <= HIGH_SPEED_THRESH && Prefix(jumbo, trad, rows0)
    ensures Prefix(jumbo, trad, rows)
    ensures stop ==> |rows| == HIGH_SPEED_THRESH + 1
    ensures !stop ==> |rows| == RowIndex(trad, k, i + 1, 0) <= HIGH_SPEED_THRESH
  {
    var payload := BasePayload(trad);
    rows := rows0;
    var sr := Rate(0, 0, 0, 0, 0, 0, 0);
    if k > 0 { sr := sr.(txInterval1 := BASE_SEND_TIMER1, udpPayload1 := payload, burstSize1 := k); }
    if i > 0 { sr := sr.(txInterval2 := BASE_SEND_TIMER2, udpPayload2 := payload, burstSize2 := i); }
    RowAtIndex(jumbo, trad, k, i, 0);
    if k == 0 && i == 0 { sr := sr.(txInterval2 := 50000, udpAddon2 := payload + RAND_BIT); }
    assert sr == RegionOneRow(payload, k, i, 0);
    ExtendPrefix(jumbo, trad, rows0, sr);
    if k == 0 && i == 0 {
      rows := rows + [sr];
    } else if !trad && k == 10 {
      rows := rows + [sr];
      return rows, true;
    } else {
      rows := rows + [sr];
    }
    rows, stop := AppendAddons(jumbo, trad, k, i, sr, rows);
  }

  /** The add-on variants of row sr. */
  method AppendAddons(ghost jumbo: bool, trad: bool, ghost k: nat, ghost i: nat, sr: Rate, rows0: seq<Rate>)
    returns (rows: seq<Rate>, stop: bool)
    requires k <= (if trad then 8 else 9) && i < 10
    requires sr.(txInterval2 := BASE_SEND_TIMER2, udpAddon2 := 0)
             == BaseRow(BasePayload(trad), k, i).(txInterval2 := BASE_SEND_TIMER2)
    requires |rows0| == RowIndex(trad, k, i, 1) <= HIGH_SPEED_THRESH && Prefix(jumbo, trad, rows0)
    ensures Prefix(jumbo, trad, rows)
    ensures stop ==> |rows| == HIGH_SPEED_THRESH + 1
    ensures !stop ==> |rows| == RowIndex(trad, k, i + 1, 0) <= HIGH_SPEED_THRESH
  {
    var jmax := if trad then 11 else 9;
    rows, stop := rows0, false;
    var j := 1;
    while j <= jmax && !stop
      invariant 1 <= j <= jmax + 1
      invariant Prefix(jumbo, trad, rows)
      invariant stop ==> |rows| == HIGH_SPEED_THRESH + 1
      invariant !stop ==> |rows| == RowIndex(trad, k, i, j) <= HIGH_SPEED_THRESH
    {
      RowAtIndex(jumbo, trad, k, i, j);
      var add := sr.(txInterval2 := BASE_SEND_TIMER2, udpAddon2 := j * 1000 / 8 - L3_OVERHEAD);
      assert add == AddonRow(BasePayload(trad), k, i, j);
      ExtendPrefix(jumbo, trad, rows, add);
      rows := rows + [add];
      if |rows| > 1000 { stop := true; }
      j := j + 1;
    }
  }

  /** Region 1: rows up to 1 Gbps. */
  method RegionOne(ghost jumbo: bool, trad: bool) returns (rows: seq<Rate>)
    ensures Prefix(jumbo, trad, rows) && |rows| == HIGH_SPEED_THRESH + 1
  {
    var kmax := if trad then 8 else 10;
    var stop, k := false, 0;
    rows := [];
    while k <= kmax && !stop
      invariant 0 <= k <= kmax + 1
      invariant Prefix(jumbo, trad, rows)
      invariant stop ==> |rows| == HIGH_SPEED_THRESH + 1
      invariant !stop ==> |rows| == RowIndex(trad, k, 0, 0) <= HIGH_SPEED_THRESH
    {
      var i := 0;
      while i < 10 && !stop
        invariant 0 <= i <= 10
        invariant Prefix(jumbo, trad, rows)
        invariant stop ==> |rows| == HIGH_SPEED_THRESH + 1
        invariant !stop ==> |rows| == RowIndex(trad, k, i, 0) <= HIGH_SPEED_THRESH
      {
        rows, stop := AppendGroup(jumbo, trad, k, i, rows);
        i := i + 1;
      }
      k := k + 1;
    }
  }

  /** The table both ends build on their own: row by row the closed form. */
  method BuildRateTable(jumbo: bool, trad: bool) returns (t: Table)
    ensures t == RateTableFor(jumbo, trad)
  {
    var rows := RegionOne(jumbo, trad);
    var hst := |rows| - 1;
    var jmax, payload;
    if jumbo {
      var l3 := MAX_L3 + 125;
      while l3 <= MAX_JUMBO_L3
        invariant Prefix(jumbo, trad, rows)
        invariant 1001 <= |rows| <= 1063 && l3 == MAX_L3 + 125 * (|rows| - HIGH_SPEED_THRESH)
      {
        rows := rows + [BurstRow(l3 - L3_OVERHEAD, 10)];
        l3 := l3 + 125;
      }
      jmax, payload := 11, MAX_JUMBO_PAYLOAD;
    } else if trad {
      jmax, payload := 9, MAX_TRAD_PAYLOAD;
    } else {
      jmax, payload := 11, MAX_PAYLOAD;
    }
    ghost var first := |rows|;
    var j := jmax;
    while |rows| < MAX_SENDING_RATES
      invariant Prefix(jumbo, trad, rows)
      invariant j == jmax + (|rows| - first) && first <= |rows|
      decreases MAX_SENDING_RATES - |rows|
    {
      var burst := if j >= MAX_BURST then MAX_BURST else j;
      rows := rows + [BurstRow(payload, burst)];
      j := j + 1;
    }
    t := Table(rows, hst);
    assert t.rows == RateTableFor(jumbo, trad).rows;
  }

  // ---------------------------------------------------------------------------
  // Nominal rates
  // ---------------------------------------------------------------------------

  /** IP-layer bytes of a datagram whose payload field is v; random sizes count at their average. */
  function L3Size(v: u32, ipv6: bool): int {
    var ipAdd := if ipv6 then IPV6_ADD else 0;
    var payload := WithoutRand(v) - ipAdd;
    (if v >= RAND_BIT then TruncDiv(MIN_PAYLOAD - ipAdd + payload, 2) else payload) + L3_OVERHEAD + ipAdd
  }

  method BitsPerSecond(r: Rate, ipv6: bool) returns (bps: int)
    ensures bps == Bps(r, ipv6)
  {
    var bytes := 0;
    if r.burstSize1 > 0 && r.txInterval1 > 0 {
      bytes := bytes + 1_000_000 / r.txInterval1 * r.burstSize1 * L3Size(r.udpPayload1, ipv6);
    }
    if r.burstSize2 > 0 && r.txInterval2 > 0 {
      bytes := bytes + 1_000_000 / r.txInterval2 * r.burstSize2 * L3Size(r.udpPayload2, ipv6);
    }
    if r.udpAddon2 > 0 && r.txInterval2 > 0 {
      bytes := bytes + 1_000_000 / r.txInterval2 * L3Size(r.udpAddon2, ipv6);
    }
    bps := bytes * 8;
  }

  /** Bursts per second of a transmitter; an interval of 0 disables it. */
  function Frequency(interval: u32): nat { if interval == 0 then 0 else 1_000_000 / interval }

  /** The nominal rate as frequency times size, over both transmitters and the add-on. */
  function Bps(r: Rate, ipv6: bool): int {
    8 * (Frequency(r.txInterval1) * r.burstSize1 * L3Size(r.udpPayload1, ipv6)
         + Frequency(r.txInterval2) * r.burstSize2 * L3Size(r.udpPayload2, ipv6)
         + (if r.udpAddon2 == 0 then 0 else Frequency(r.txInterval2) * L3Size(r.udpAddon2, ipv6)))
  }

  lemma {:induction false} PayloadL3(payload: u32, ipv6: bool)
    requires payload < RAND_BIT
    ensures L3Size(payload, ipv6) == payload + L3_OVERHEAD
  {
  }

  lemma {:induction false} RegionOneBps(trad: bool, k: nat, i: nat, j: nat, ipv6: bool)
    requires k <= 10 && i < 10 && j < (if trad then 12 else 10) && k + i + j > 0
    ensures Bps(RegionOneRow(BasePayload(trad), k, i, j), ipv6) == RowIndex(trad, k, i, j) * 1_000_000
  {
    var r := RegionOneRow(BasePayload(trad), k, i, j);
    var l3 := if trad then 1500 else 1250;
    PayloadL3(BasePayload(trad), ipv6);
    assert Frequency(r.txInterval1) * r.burstSize1 == 10_000 * k;
    assert Frequency(r.txInterval2) * r.burstSize2 == 1000 * i;
    assert 10_000 * k * L3Size(r.udpPayload1, ipv6) == 10_000 * k * l3;
    assert 1000 * i * L3Size(r.udpPayload2, ipv6) == 1000 * i * l3;
    if j > 0 {
      assert j * 1000 / 8 == 125 * j;
      PayloadL3(r.udpAddon2, ipv6);
    }
  }

  /** Row n is exactly n Mbps up to 1 Gbps, for IPv4 and IPv6 alike; row 0 is a keepalive below 1 Mbps. */
  lemma {:induction false} RowIsItsMbps(jumbo: bool, trad: bool, n: nat, ipv6: bool)
    requires n <= HIGH_SPEED_THRESH
    ensures n > 0 ==> Bps(RowAt(jumbo, trad, n), ipv6) == n * 1_000_000
    ensures n == 0 ==> 0 < Bps(RowAt(jumbo, trad, n), ipv6) < 1_000_000
  {
    if n > 0 {
      var k, i, j := DigitsOf(trad, n);
      RegionOneBps(trad, k, i, j, ipv6);
      RowAtIndex(jumbo, trad, k, i, j);
    } else {
      RowAtIndex(jumbo, trad, 0, 0, 0);
    }
  }

  lemma {:induction false} DigitsOf(trad: bool, n: nat) returns (k: nat, i: nat, j: nat)
    requires n <= HIGH_SPEED_THRESH
    ensures k <= 10 && i < 10 && j < (if trad then 12 else 10) && RowIndex(trad, k, i, j) == n
  {
    var per := if trad then 12 else 10;
    var m := n / per;
    k, i, j := m / 10, m % 10, n % per;
  }

  /** Rates never decrease from one row to the next, in any flavour of the table. */
  lemma {:induction false} RatesAscend(jumbo: bool, trad: bool, n: nat, ipv6: bool)
    requires n + 1 < MAX_SENDING_RATES
    ensures Bps(RowAt(jumbo, trad, n), ipv6) <= Bps(RowAt(jumbo, trad, n + 1), ipv6)
    ensures n < HIGH_SPEED_THRESH ==> Bps(RowAt(jumbo, trad, n), ipv6) < Bps(RowAt(jumbo, trad, n + 1), ipv6)
  {
    if n < HIGH_SPEED_THRESH {
      RowIsItsMbps(jumbo, trad, n, ipv6);
      RowIsItsMbps(jumbo, trad, n + 1, ipv6);
    } else {
      if n == HIGH_SPEED_THRESH { RowIsItsMbps(jumbo, trad, n, ipv6); } else { RegionTwoBps(jumbo, trad, n, ipv6); }
      RegionTwoBps(jumbo, trad, n + 1, ipv6);
    }
  }

  /** Rates above 1 Gbps, in Mbps: steps of one L3 size or one datagram per 100 us. */
  function RegionTwoMbps(jumbo: bool, trad: bool, n: nat): nat
    requires HIGH_SPEED_THRESH < n < MAX_SENDING_RATES
  {
    if jumbo then (if n <= 1062 then 100 * (n - 990) else 720 * Min(n - 1052, MAX_BURST))
    else if trad then 120 * Min(n - 992, MAX_BURST)
    else 100 * Min(n - 990, MAX_BURST)
  }

  lemma {:induction false} RegionTwoBps(jumbo: bool, trad: bool, n: nat, ipv6: bool)
    requires HIGH_SPEED_THRESH < n < MAX_SENDING_RATES
    ensures Bps(RowAt(jumbo, trad, n), ipv6) == RegionTwoMbps(jumbo, trad, n) * 1_000_000
  {
  }

  /** So a lower row never asks for more than a higher one. */
  lemma {:induction false} RatesMonotone(jumbo: bool, trad: bool, n: nat, m: nat, ipv6: bool)
    requires n <= m < MAX_SENDING_RATES
    ensures Bps(RowAt(jumbo, trad, n), ipv6) <= Bps(RowAt(jumbo, trad, m), ipv6)
    decreases m - n
  {
    if n < m {
      RatesAscend(jumbo, trad, m - 1, ipv6);
      RatesMonotone(jumbo, trad, n, m - 1, ipv6);
    }
  }

  /** Every burst of every row fits the sender's MAX_BURST + 1 buffers, and transmitter 1 only ever
      runs on the 100 us cadence. */
  lemma {:induction false} BurstsFit(jumbo: bool, trad: bool, n: nat)
    requires n < MAX_SENDING_RATES
    ensures var r := RowAt(jumbo, trad, n);
            && r.burstSize1 <= MAX_BURST
            && r.burstSize2 + (if r.udpAddon2 > 0 then 1 else 0) <= MAX_BURST
            && (r.burstSize1 > 0 ==> r.txInterval1 == BASE_SEND_TIMER1)
            && (r.burstSize2 > 0 || r.udpAddon2 > 0 ==> r.txInterval2 > 0)
  {
  }
}
