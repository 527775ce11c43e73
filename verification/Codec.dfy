/** The wire codec (internal/udpst/protocol.go). Each message has a layout, written as what the
    fields at the wire offsets hold; marshalling establishes the layout, and parsing succeeds with
    a message exactly when the bytes have its layout. */
module Codec {
  import opened Words
  import opened Messages

  datatype Result<+T> = Ok(value: T) | Malformed

  const ID_SETUP: u16 := 0xACE1
  const ID_TEST_ACT: u16 := 0xACE2
  const ID_LOAD: u16 := 0xBEEF
  const ID_STATUS: u16 := 0xFEED
  const SETUP_SIZE: nat := 56
  const TEST_ACT_SIZE: nat := 104
  const TEST_ACT_MIN_SIZE: nat := 60
  const STATUS_SIZE: nat := 204
  const STATUS_LEGACY_SIZE: nat := 168
  const STOP2: u8 := 2

  // ---------------------------------------------------------------------------
  // Writing into a buffer
  // ---------------------------------------------------------------------------

  /** Consecutive 32-bit words at an offset. */
  predicate WordsAt(b: seq<u8>, off: nat, vs: seq<u32>)
    requires off + 4 * |vs| <= |b|
  {
    forall i | 0 <= i < |vs| :: Be32(b, off + 4 * i) == vs[i]
  }

  predicate Zeros(b: seq<u8>, lo: nat, hi: nat)
    requires lo <= hi <= |b|
  {
    forall k | lo <= k < hi :: b[k] == 0
  }

  method PutU16(a: array<u8>, off: nat, v: u16)
    requires off + 2 <= a.Length
    modifies a
    ensures Be16(a[..], off) == v
    ensures forall k | 0 <= k < a.Length && !(off <= k < off + 2) :: a[k] == old(a[k])
  {
    a[off], a[off + 1] := v / 0x100, v % 0x100;
  }

  method PutU32(a: array<u8>, off: nat, v: u32)
    requires off + 4 <= a.Length
    modifies a
    ensures Be32(a[..], off) == v
    ensures forall k | 0 <= k < a.Length && !(off <= k < off + 4) :: a[k] == old(a[k])
  {
    var high, low := v / 0x1_0000, v % 0x1_0000;
    assert v == high * 0x1_0000 + low;
    a[off], a[off + 1] := high / 0x100, high % 0x100;
    a[off + 2], a[off + 3] := low / 0x100, low % 0x100;
  }

  method PutU64(a: array<u8>, off: nat, v: u64)
    requires off + 8 <= a.Length
    modifies a
    ensures Be64(a[..], off) == v
    ensures forall k | 0 <= k < a.Length && !(off <= k < off + 8) :: a[k] == old(a[k])
  {
    PutU32(a, off, v / 0x1_0000_0000);
    PutU32(a, off + 4, v % 0x1_0000_0000);
  }

  method PutWords(a: array<u8>, off: nat, vs: seq<u32>)
    requires off + 4 * |vs| <= a.Length
    modifies a
    ensures WordsAt(a[..], off, vs)
    ensures forall k | 0 <= k < a.Length && !(off <= k < off + 4 * |vs|) :: a[k] == old(a[k])
  {
    var pos := off;
    for n := 0 to |vs|
      invariant pos == off + 4 * n
      invariant WordsAt(a[..], off, vs[..n])
      invariant forall k | 0 <= k < a.Length && !(off <= k < off + 4 * n) :: a[k] == old(a[k])
    {
      label before:
      PutU32(a, pos, vs[n]);
      pos := pos + 4;
      forall i | 0 <= i < n + 1 ensures Be32(a[..], off + 4 * i) == vs[..n + 1][i] {
        if i < n {
          assert Be32(old@before(a[..]), off + 4 * i) == vs[..n][i];
        }
      }
    }
    assert vs[..|vs|] == vs;
  }

  method PutBytes(a: array<u8>, off: nat, bytes: seq<u8>)
    requires off + |bytes| <= a.Length
    modifies a
    ensures a[off..off + |bytes|] == bytes
    ensures forall k | 0 <= k < a.Length && !(off <= k < off + |bytes|) :: a[k] == old(a[k])
  {
    for n := 0 to |bytes|
      invariant forall i | 0 <= i < n :: a[off + i] == bytes[i]
      invariant forall k | 0 <= k < a.Length && !(off <= k < off + n) :: a[k] == old(a[k])
    {
      a[off + n] := bytes[n];
    }
  }

  // ---------------------------------------------------------------------------
  // Parts shared by several messages
  // ---------------------------------------------------------------------------

  function RateWords(r: Rate): seq<u32> {
    [r.txInterval1, r.udpPayload1, r.burstSize1, r.txInterval2, r.udpPayload2, r.burstSize2, r.udpAddon2]
  }

  predicate RateAt(b: seq<u8>, off: nat, r: Rate)
    requires off + 28 <= |b|
  {
    WordsAt(b, off, RateWords(r))
  }

  method PutRate(a: array<u8>, off: nat, r: Rate)
    requires off + 28 <= a.Length
    modifies a
    ensures RateAt(a[..], off, r)
    ensures forall k | 0 <= k < a.Length && !(off <= k < off + 28) :: a[k] == old(a[k])
  {
    PutWords(a, off, RateWords(r));
  }

  function ParseRate(b: seq<u8>, off: nat): Rate
    requires off + 28 <= |b|
  {
    Rate(Be32(b, off), Be32(b, off + 4), Be32(b, off + 8), Be32(b, off + 12),
         Be32(b, off + 16), Be32(b, off + 20), Be32(b, off + 24))
  }

  lemma {:induction false} RateExact(b: seq<u8>, off: nat, r: Rate)
    requires off + 28 <= |b|
    ensures ParseRate(b, off) == r <==> RateAt(b, off, r)
  {
    if RateAt(b, off, r) {
      var vs := RateWords(r);
      assert Be32(b, off + 4 * 0) == vs[0] && Be32(b, off + 4 * 1) == vs[1] && Be32(b, off + 4 * 2) == vs[2];
      assert Be32(b, off + 4 * 3) == vs[3] && Be32(b, off + 4 * 4) == vs[4] && Be32(b, off + 4 * 5) == vs[5];
      assert Be32(b, off + 4 * 6) == vs[6];
    }
  }

  function SubIntWords(s: SubIntStats): seq<u32> {
    [s.deltaTime, s.seqErrLoss, s.seqErrOoo, s.seqErrDup, s.delayVarMin, s.delayVarMax, s.delayVarSum,
     s.delayVarCnt, s.rttVarMin, s.rttVarMax, s.accumTime]
  }

  /** Sub-interval statistics with the datagram count at off and the other 52 bytes at rest. */
  predicate SubIntAt(b: seq<u8>, off: nat, rest: nat, s: SubIntStats)
    requires off + 4 <= |b| && rest + 52 <= |b|
  {
    Be32(b, off) == s.rxDatagrams && Be64(b, rest) == s.rxBytes && WordsAt(b, rest + 8, SubIntWords(s))
  }

  method PutSubInt(a: array<u8>, off: nat, s: SubIntStats)
    requires off + 56 <= a.Length
    modifies a
    ensures SubIntAt(a[..], off, off + 4, s)
    ensures forall k | 0 <= k < a.Length && !(off <= k < off + 56) :: a[k] == old(a[k])
  {
    PutWords(a, off + 12, SubIntWords(s));
    label words:
    PutU64(a, off + 4, s.rxBytes);
    PutU32(a, off, s.rxDatagrams);
    WordsKept(old@words(a[..]), a[..], off + 12, SubIntWords(s));
  }

  /** Words survive a change of the bytes outside them. */
  lemma {:induction false} WordsKept(b: seq<u8>, b': seq<u8>, off: nat, vs: seq<u32>)
    requires |b| == |b'| && off + 4 * |vs| <= |b| && WordsAt(b, off, vs)
    requires forall k | off <= k < off + 4 * |vs| :: b'[k] == b[k]
    ensures WordsAt(b', off, vs)
  {
  }

  function ParseSubInt(b: seq<u8>, off: nat): SubIntStats
    requires off + 56 <= |b|
  {
    SubIntStats(Be32(b, off), Be64(b, off + 4), Be32(b, off + 12), Be32(b, off + 16), Be32(b, off + 20),
                Be32(b, off + 24), Be32(b, off + 28), Be32(b, off + 32), Be32(b, off + 36), Be32(b, off + 40),
                Be32(b, off + 44), Be32(b, off + 48), Be32(b, off + 52))
  }

  lemma {:induction false} SubIntExact(b: seq<u8>, off: nat, s: SubIntStats)
    requires off + 56 <= |b|
    ensures ParseSubInt(b, off) == s <==> SubIntAt(b, off, off + 4, s)
  {
    if SubIntAt(b, off, off + 4, s) {
      var vs, o := SubIntWords(s), off + 12;
      assert Be32(b, o + 4 * 0) == vs[0] && Be32(b, o + 4 * 1) == vs[1] && Be32(b, o + 4 * 2) == vs[2];
      assert Be32(b, o + 4 * 3) == vs[3] && Be32(b, o + 4 * 4) == vs[4] && Be32(b, o + 4 * 5) == vs[5];
      assert Be32(b, o + 4 * 6) == vs[6] && Be32(b, o + 4 * 7) == vs[7] && Be32(b, o + 4 * 8) == vs[8];
      assert Be32(b, o + 4 * 9) == vs[9] && Be32(b, o + 4 * 10) == vs[10];
    }
  }

  predicate AuthAt(b: seq<u8>, off: nat, t: AuthTrailer)
    requires off + 38 <= |b|
  {
    && b[off] == t.authMode && Be32(b, off + 1) == t.authUnixTime
    && b[off + 5..off + 37] == t.authDigest && b[off + 37] == t.keyId
  }

  method PutAuth(a: array<u8>, off: nat, t: AuthTrailer)
    requires off + 39 <= a.Length
    modifies a
    ensures AuthAt(a[..], off, t) && a[off + 38] == 0
    ensures forall k | 0 <= k < a.Length && !(off <= k < off + 39) :: a[k] == old(a[k])
  {
    a[off] := t.authMode;
    PutU32(a, off + 1, t.authUnixTime);
    PutBytes(a, off + 5, t.authDigest);
    a[off + 37] := t.keyId;
    a[off + 38] := 0;
    assert a[..][off + 5..off + 37] == a[off + 5..off + 37] == t.authDigest;
  }

  function ParseAuth(b: seq<u8>, off: nat): AuthTrailer
    requires off + 38 <= |b|
  {
    AuthTrailer(b[off], Be32(b, off + 1), b[off + 5..off + 37], b[off + 37])
  }

  // ---------------------------------------------------------------------------
  // Status feedback
  // ---------------------------------------------------------------------------

  function StatusWords(p: StatusPDU): seq<u32> {
    [p.seqErrLoss, p.seqErrOoo, p.seqErrDup, p.clockDeltaMin, p.delayVarMin, p.delayVarMax, p.delayVarSum,
     p.delayVarCnt, p.rttMinimum, p.rttVarSample]
  }

  function StatusTail(p: StatusPDU): seq<u32> {
    [p.tiDeltaTime, p.tiRxDatagrams, p.tiRxBytes, p.timeSec, p.timeNsec]
  }

  /** The 36 leading bytes and the sub-interval number, common to both layouts. */
  predicate StatusHeadAt(b: seq<u8>, p: StatusPDU)
    requires |b| >= 40
  {
    && Be16(b, 0) == ID_STATUS && b[2] == p.testAction && b[3] == p.rxStopped
    && Be32(b, 4) == p.seqNo && RateAt(b, 8, p.sr) && Be32(b, 36) == p.subIntSeqNo
  }

  /** The trial counters and timestamps, 64 bytes, common to both layouts but at different offsets. */
  predicate StatusTrialAt(b: seq<u8>, off: nat, p: StatusPDU)
    requires off + 64 <= |b|
  {
    WordsAt(b, off, StatusWords(p)) && b[off + 40] == p.delayMinUpd && WordsAt(b, off + 44, StatusTail(p))
  }

  function StatusSize(p: StatusPDU): nat { if p.legacy then STATUS_LEGACY_SIZE else STATUS_SIZE }

  /** The fields of a status message: the legacy form has pad bytes inside the sub-interval and ends
      after the timestamp. */
  predicate StatusAt(b: seq<u8>, p: StatusPDU)
    requires |b| == StatusSize(p)
  {
    && StatusHeadAt(b, p)
    && SubIntAt(b, 40, if p.legacy then 48 else 44, p.subIntSaved)
    && StatusTrialAt(b, if p.legacy then 104 else 96, p)
    && (!p.legacy ==>
          b[163] == p.authMode && Be32(b, 176) == p.tiRxCECount && Be32(b, 180) == p.savedCECount && b[185] == p.modifiers)
  }

  /** The bytes that belong to no field. */
  predicate StatusPads(b: seq<u8>, legacy: bool)
    requires |b| == if legacy then STATUS_LEGACY_SIZE else STATUS_SIZE
  {
    if legacy then Zeros(b, 44, 48) && Zeros(b, 100, 104) && Zeros(b, 145, 148)
    else Zeros(b, 137, 140) && Zeros(b, 160, 163) && Zeros(b, 164, 176) && Zeros(b, 184, 185) && Zeros(b, 186, 204)
  }

  method PutStatusHead(a: array<u8>, p: StatusPDU)
    requires a.Length >= 40
    modifies a
    ensures StatusHeadAt(a[..], p)
    ensures forall k | 40 <= k < a.Length :: a[k] == old(a[k])
  {
    PutU16(a, 0, ID_STATUS);
    a[2], a[3] := p.testAction, p.rxStopped;
    PutU32(a, 4, p.seqNo);
    PutRate(a, 8, p.sr);
    label rate:
    PutU32(a, 36, p.subIntSeqNo);
    WordsKept(old@rate(a[..]), a[..], 8, RateWords(p.sr));
  }

  method PutStatusTrial(a: array<u8>, off: nat, p: StatusPDU)
    requires off + 64 <= a.Length
    modifies a
    ensures StatusTrialAt(a[..], off, p)
    ensures forall k | 0 <= k < a.Length && !(off <= k < off + 41 || off + 44 <= k < off + 64) :: a[k] == old(a[k])
  {
    PutWords(a, off, StatusWords(p));
    label words:
    a[off + 40] := p.delayMinUpd;
    PutWords(a, off + 44, StatusTail(p));
    WordsKept(old@words(a[..]), a[..], off, StatusWords(p));
  }

  method MarshalStatus(p: StatusPDU) returns (a: array<u8>)
    ensures fresh(a) && a.Length == StatusSize(p)
    ensures StatusAt(a[..], p) && StatusPads(a[..], p.legacy)
  {
    if p.legacy { a := MarshalStatusLegacy(p); } else { a := MarshalStatusCurrent(p); }
  }

  method MarshalStatusCurrent(p: StatusPDU) returns (a: array<u8>)
    requires !p.legacy
    ensures fresh(a) && a.Length == STATUS_SIZE
    ensures StatusAt(a[..], p) && StatusPads(a[..], false)
  {
    a := new u8[STATUS_SIZE](_ => 0);
    PutStatusHead(a, p);
    label head:
    PutSubInt(a, 40, p.subIntSaved);
    ghost var b := a[..];
    HeadKept(old@head(a[..]), b, p);
    PutStatusTrial(a, 96, p);
    PutStatusExtra(a, p);
    HeadKept(b, a[..], p);
    SubIntKept(b, a[..], 40, 44, p.subIntSaved);
  }

  /** The fields that only the current layout has. */
  method PutStatusExtra(a: array<u8>, p: StatusPDU)
    requires a.Length == STATUS_SIZE && StatusTrialAt(a[..], 96, p)
    modifies a
    ensures StatusTrialAt(a[..], 96, p)
    ensures a[163] == p.authMode && Be32(a[..], 176) == p.tiRxCECount && Be32(a[..], 180) == p.savedCECount && a[185] == p.modifiers
    ensures forall k | 0 <= k < a.Length && k != 163 && k != 185 && !(176 <= k < 184) :: a[k] == old(a[k])
  {
    a[163] := p.authMode;
    PutU32(a, 176, p.tiRxCECount);
    PutU32(a, 180, p.savedCECount);
    a[185] := p.modifiers;
    TrialKept(old(a[..]), a[..], 96, p);
  }

  /** The version 11-19 layout; the packed statistics are copied around the pad bytes. */
  method MarshalStatusLegacy(p: StatusPDU) returns (a: array<u8>)
    requires p.legacy
    ensures fresh(a) && a.Length == STATUS_LEGACY_SIZE
    ensures StatusAt(a[..], p) && StatusPads(a[..], true)
  {
    a := new u8[STATUS_LEGACY_SIZE](_ => 0);
    PutStatusHead(a, p);
    label head:
    PutSubIntLegacy(a, p.subIntSaved);
    ghost var b := a[..];
    HeadKept(old@head(a[..]), b, p);
    PutStatusTrial(a, 104, p);
    HeadKept(b, a[..], p);
    SubIntKept(b, a[..], 40, 48, p.subIntSaved);
  }

  method PutSubIntLegacy(a: array<u8>, s: SubIntStats)
    requires a.Length == STATUS_LEGACY_SIZE
    modifies a
    ensures SubIntAt(a[..], 40, 48, s)
    ensures forall k | 0 <= k < a.Length && !(40 <= k < 44 || 48 <= k < 100) :: a[k] == old(a[k])
  {
    PutU32(a, 40, s.rxDatagrams);
    var tmp := new u8[56];
    PutSubInt(tmp, 0, s);
    PutBytes(a, 48, tmp[4..56]);
    assert a[..][48..100] == a[48..100] == tmp[4..56] == tmp[..][4..56];
    SubIntMoved(tmp[..], a[..], 0, 4, 40, 48, s);
  }

  lemma {:induction false} HeadKept(b: seq<u8>, b': seq<u8>, p: StatusPDU)
    requires |b| == |b'| >= 40 && StatusHeadAt(b, p) && forall k | 0 <= k < 40 :: b'[k] == b[k]
    ensures StatusHeadAt(b', p)
  {
  }

  lemma {:induction false} TrialKept(b: seq<u8>, b': seq<u8>, off: nat, p: StatusPDU)
    requires |b| == |b'| && off + 64 <= |b| && StatusTrialAt(b, off, p)
    requires forall k | off <= k < off + 64 :: b'[k] == b[k]
    ensures StatusTrialAt(b', off, p)
  {
  }

  lemma {:induction false} SubIntKept(b: seq<u8>, b': seq<u8>, off: nat, rest: nat, s: SubIntStats)
    requires |b| == |b'| && off + 4 <= |b| && rest + 52 <= |b| && SubIntAt(b, off, rest, s)
    requires forall k | off <= k < off + 4 || rest <= k < rest + 52 :: b'[k] == b[k]
    ensures SubIntAt(b', off, rest, s)
  {
  }

  lemma {:induction false} SliceWord(b: seq<u8>, lo: nat, hi: nat, off: nat)
    requires lo <= hi <= |b| && lo + off + 4 <= hi
    ensures Be32(b[lo..hi], off) == Be32(b, lo + off)
  {
  }

  lemma {:induction false} WordsMoved(b: seq<u8>, b': seq<u8>, off: nat, off': nat, vs: seq<u32>)
    requires off + 4 * |vs| <= |b| && off' + 4 * |vs| <= |b'|
    requires b[off..off + 4 * |vs|] == b'[off'..off' + 4 * |vs|] && WordsAt(b, off, vs)
    ensures WordsAt(b', off', vs)
  {
  }

  /** The statistics moved to other offsets, possibly with a gap. */
  lemma {:induction false} SubIntMoved(b: seq<u8>, b': seq<u8>, off: nat, rest: nat, off': nat, rest': nat,
                                       s: SubIntStats)
    requires off + 4 <= |b| && rest + 52 <= |b| && off' + 4 <= |b'| && rest' + 52 <= |b'|
    requires Be32(b', off') == Be32(b, off)
    requires b'[rest'..rest' + 52] == b[rest..rest + 52]
    ensures SubIntAt(b, off, rest, s) <==> SubIntAt(b', off', rest', s)
  {
    SliceWord(b, rest, rest + 52, 0);
    SliceWord(b', rest', rest' + 52, 0);
    SliceWord(b, rest, rest + 52, 4);
    SliceWord(b', rest', rest' + 52, 4);
    assert b[rest + 8..rest + 52] == b[rest..rest + 52][8..52];
    assert b'[rest' + 8..rest' + 52] == b'[rest'..rest' + 52][8..52];
    if SubIntAt(b, off, rest, s) { WordsMoved(b, b', rest + 8, rest' + 8, SubIntWords(s)); }
    if SubIntAt(b', off', rest', s) { WordsMoved(b', b, rest' + 8, rest + 8, SubIntWords(s)); }
  }

  /** The statistics with their pad bytes taken out, as the legacy parser reassembles them. */
  function Unpadded(b: seq<u8>): seq<u8>
    requires |b| == STATUS_LEGACY_SIZE
  {
    b[40..44] + b[48..100]
  }

  function ParseStatus(b: seq<u8>): Result<StatusPDU> {
    if |b| != STATUS_SIZE && |b| != STATUS_LEGACY_SIZE then Malformed
    else if Be16(b, 0) != ID_STATUS then Malformed
    else if b[2] > STOP2 || b[3] > 1 then Malformed
    else if |b| == STATUS_LEGACY_SIZE then
      Ok(StatusPDU(b[2], b[3], Be32(b, 4), ParseRate(b, 8), Be32(b, 36), ParseSubInt(Unpadded(b), 0),
                   Be32(b, 104), Be32(b, 108), Be32(b, 112), Be32(b, 116), Be32(b, 120), Be32(b, 124),
                   Be32(b, 128), Be32(b, 132), Be32(b, 136), Be32(b, 140), b[144],
                   Be32(b, 148), Be32(b, 152), Be32(b, 156), Be32(b, 160), Be32(b, 164), 0, 0, 0, 0, true))
    else
      Ok(StatusPDU(b[2], b[3], Be32(b, 4), ParseRate(b, 8), Be32(b, 36), ParseSubInt(b, 40),
                   Be32(b, 96), Be32(b, 100), Be32(b, 104), Be32(b, 108), Be32(b, 112), Be32(b, 116),
                   Be32(b, 120), Be32(b, 124), Be32(b, 128), Be32(b, 132), b[136],
                   Be32(b, 140), Be32(b, 144), Be32(b, 148), Be32(b, 152), Be32(b, 156),
                   b[163], Be32(b, 176), Be32(b, 180), b[185], false))
  }

  /** What a status message carries: the legacy form drops four fields. */
  function Carried(p: StatusPDU): StatusPDU {
    if p.legacy then p.(authMode := 0, tiRxCECount := 0, savedCECount := 0, modifiers := 0) else p
  }

  predicate ValidStatus(p: StatusPDU) { p.testAction <= STOP2 && p.rxStopped <= 1 }

  lemma {:induction false} TrialExact(b: seq<u8>, off: nat, p: StatusPDU)
    requires off + 64 <= |b|
    ensures StatusTrialAt(b, off, p) <==>
            && StatusWords(p) == [Be32(b, off), Be32(b, off + 4), Be32(b, off + 8), Be32(b, off + 12), Be32(b, off + 16),
                                  Be32(b, off + 20), Be32(b, off + 24), Be32(b, off + 28), Be32(b, off + 32), Be32(b, off + 36)]
            && p.delayMinUpd == b[off + 40]
            && StatusTail(p) == [Be32(b, off + 44), Be32(b, off + 48), Be32(b, off + 52), Be32(b, off + 56), Be32(b, off + 60)]
  {
  }

  lemma {:induction false} UnpaddedExact(b: seq<u8>, s: SubIntStats)
    requires |b| == STATUS_LEGACY_SIZE
    ensures ParseSubInt(Unpadded(b), 0) == s <==> SubIntAt(b, 40, 48, s)
  {
    SubIntExact(Unpadded(b), 0, s);
    SubIntMoved(Unpadded(b), b, 0, 4, 40, 48, s);
  }

  lemma {:induction false} StatusLegacyExact(b: seq<u8>, p: StatusPDU)
    requires |b| == STATUS_LEGACY_SIZE && p.legacy
    ensures ParseStatus(b) == Ok(p) <==> StatusAt(b, p) && ValidStatus(p) && Carried(p) == p
  {
    RateExact(b, 8, p.sr);
    TrialExact(b, 104, p);
    UnpaddedExact(b, p.subIntSaved);
  }

  lemma {:induction false} StatusCurrentExact(b: seq<u8>, p: StatusPDU)
    requires |b| == STATUS_SIZE && !p.legacy
    ensures ParseStatus(b) == Ok(p) <==> StatusAt(b, p) && ValidStatus(p)
  {
    RateExact(b, 8, p.sr);
    TrialExact(b, 96, p);
    SubIntExact(b, 40, p.subIntSaved);
  }

  /** Parsing yields a status message exactly from the bytes that lay it out, in both forms. */
  lemma {:induction false} StatusExact(b: seq<u8>, p: StatusPDU)
    ensures ParseStatus(b) == Ok(p) <==> |b| == StatusSize(p) && StatusAt(b, p) && ValidStatus(p) && Carried(p) == p
  {
    if |b| == StatusSize(p) {
      if p.legacy { StatusLegacyExact(b, p); } else { StatusCurrentExact(b, p); }
    }
  }

  /** Marshalling then parsing gives the message back, up to what its form carries; a message with
      an invalid action is refused. */
  lemma {:induction false} StatusRoundTrip(b: seq<u8>, p: StatusPDU)
    requires |b| == StatusSize(p) && StatusAt(b, p)
    ensures ParseStatus(b) == if ValidStatus(p) then Ok(Carried(p)) else Malformed
  {
    if ValidStatus(p) {
      assert StatusAt(b, Carried(p));
      StatusExact(b, Carried(p));
    }
  }

  // ---------------------------------------------------------------------------
  // Setup
  // ---------------------------------------------------------------------------

  predicate SetupHeadAt(b: seq<u8>, p: SetupPDU)
    requires |b| == SETUP_SIZE
  {
    && Be16(b, 0) == ID_SETUP && Be16(b, 2) == p.protocolVer && b[4] == p.mcIndex && b[5] == p.mcCount
    && Be16(b, 6) == p.mcIdent && b[8] == p.cmdRequest && b[9] == p.cmdResponse
    && Be16(b, 10) == p.maxBandwidth && Be16(b, 12) == p.testPort && b[14] == p.modifiers
  }

  predicate SetupAt(b: seq<u8>, p: SetupPDU)
    requires |b| == SETUP_SIZE
  {
    SetupHeadAt(b, p) && AuthAt(b, 15, p.auth)
  }

  method PutSetupHead(a: array<u8>, p: SetupPDU)
    requires a.Length == SETUP_SIZE
    modifies a
    ensures SetupHeadAt(a[..], p)
    ensures forall k | 15 <= k < a.Length :: a[k] == old(a[k])
  {
    PutU16(a, 0, ID_SETUP);
    PutU16(a, 2, p.protocolVer);
    a[4], a[5] := p.mcIndex, p.mcCount;
    PutU16(a, 6, p.mcIdent);
    a[8], a[9] := p.cmdRequest, p.cmdResponse;
    PutU16(a, 10, p.maxBandwidth);
    PutU16(a, 12, p.testPort);
    a[14] := p.modifiers;
  }

  method MarshalSetup(p: SetupPDU) returns (a: array<u8>)
    ensures fresh(a) && a.Length == SETUP_SIZE
    ensures SetupAt(a[..], p) && Zeros(a[..], 53, 56)
  {
    a := new u8[SETUP_SIZE](_ => 0);
    PutSetupHead(a, p);
    PutAuth(a, 15, p.auth);
  }

  function ParseSetup(b: seq<u8>): Result<SetupPDU> {
    if |b| != SETUP_SIZE || Be16(b, 0) != ID_SETUP then Malformed
    else if b[8] != 1 && b[8] != 2 then Malformed
    else Ok(SetupPDU(Be16(b, 2), b[4], b[5], Be16(b, 6), b[8], b[9], Be16(b, 10), Be16(b, 12), b[14], ParseAuth(b, 15)))
  }

  lemma {:induction false} SetupExact(b: seq<u8>, p: SetupPDU)
    ensures ParseSetup(b) == Ok(p) <==> |b| == SETUP_SIZE && SetupAt(b, p) && 1 <= p.cmdRequest <= 2
  {
  }

  // ---------------------------------------------------------------------------
  // Test activation
  // ---------------------------------------------------------------------------

  function TestActSize(p: TestActPDU): nat { if p.legacy then TEST_ACT_MIN_SIZE else TEST_ACT_SIZE }

  predicate TestActLowAt(b: seq<u8>, p: TestActPDU)
    requires |b| >= TEST_ACT_MIN_SIZE
  {
    && Be16(b, 0) == ID_TEST_ACT && Be16(b, 2) == p.protocolVer && b[4] == p.cmdRequest && b[5] == p.cmdResponse
    && Be16(b, 6) == p.lowThresh && Be16(b, 8) == p.upperThresh && Be16(b, 10) == p.trialInt
    && Be16(b, 12) == p.testIntTime && b[14] == p.legacySubIntSec && b[15] == p.dscpEcn
  }

  predicate TestActHighAt(b: seq<u8>, p: TestActPDU)
    requires |b| >= TEST_ACT_MIN_SIZE
  {
    && Be16(b, 16) == p.srIndexConf && b[18] == p.useOwDelVar && b[19] == p.highSpeedDelta
    && Be16(b, 20) == p.slowAdjThresh && Be16(b, 22) == p.seqErrThresh && b[24] == p.ignoreOooDup
    && b[25] == p.modifiers && b[26] == p.rateAdjAlgo && b[27] == p.ecnCEThresh
    && RateAt(b, 28, p.sr) && Be16(b, 56) == p.subIntPeriod
  }

  /** The fields of a test activation; the short form carries neither the suppression count nor the
      authentication trailer. */
  predicate TestActAt(b: seq<u8>, p: TestActPDU)
    requires |b| >= TestActSize(p)
  {
    TestActLowAt(b, p) && TestActHighAt(b, p) && (!p.legacy ==> Be16(b, 60) == p.srAdjSuppCount && AuthAt(b, 63, p.auth))
  }

  method PutTestActLow(a: array<u8>, p: TestActPDU)
    requires a.Length >= TEST_ACT_MIN_SIZE
    modifies a
    ensures TestActLowAt(a[..], p)
    ensures forall k | 16 <= k < a.Length :: a[k] == old(a[k])
  {
    PutU16(a, 0, ID_TEST_ACT);
    PutU16(a, 2, p.protocolVer);
    a[4], a[5] := p.cmdRequest, p.cmdResponse;
    PutU16(a, 6, p.lowThresh);
    PutU16(a, 8, p.upperThresh);
    PutU16(a, 10, p.trialInt);
    PutU16(a, 12, p.testIntTime);
    a[14], a[15] := p.legacySubIntSec, p.dscpEcn;
  }

  method PutTestActHigh(a: array<u8>, p: TestActPDU)
    requires a.Length >= TEST_ACT_MIN_SIZE
    modifies a
    ensures TestActHighAt(a[..], p)
    ensures forall k | 0 <= k < 16 || 58 <= k < a.Length :: a[k] == old(a[k])
  {
    PutU16(a, 16, p.srIndexConf);
    a[18], a[19] := p.useOwDelVar, p.highSpeedDelta;
    PutU16(a, 20, p.slowAdjThresh);
    PutU16(a, 22, p.seqErrThresh);
    a[24], a[25], a[26], a[27] := p.ignoreOooDup, p.modifiers, p.rateAdjAlgo, p.ecnCEThresh;
    PutRate(a, 28, p.sr);
    label rate:
    PutU16(a, 56, p.subIntPeriod);
    WordsKept(old@rate(a[..]), a[..], 28, RateWords(p.sr));
  }

  method MarshalTestAct(p: TestActPDU) returns (a: array<u8>)
    ensures fresh(a) && a.Length == TestActSize(p)
    ensures TestActAt(a[..], p) && Zeros(a[..], 58, 60)
    ensures !p.legacy ==> Zeros(a[..], 62, 63) && Zeros(a[..], 101, 104)
  {
    a := new u8[TestActSize(p)](_ => 0);
    PutTestActLow(a, p);
    PutTestActHigh(a, p);
    if !p.legacy { PutTestActTail(a, p); }
  }

  method PutTestActTail(a: array<u8>, p: TestActPDU)
    requires a.Length == TEST_ACT_SIZE && TestActLowAt(a[..], p) && TestActHighAt(a[..], p)
    modifies a
    ensures TestActLowAt(a[..], p) && TestActHighAt(a[..], p)
    ensures Be16(a[..], 60) == p.srAdjSuppCount && AuthAt(a[..], 63, p.auth)
    ensures forall k | 0 <= k < a.Length && !(60 <= k < 62 || 63 <= k < 101) :: k == 101 || a[k] == old(a[k])
    ensures a[101] == 0
  {
    PutU16(a, 60, p.srAdjSuppCount);
    PutAuth(a, 63, p.auth);
    WordsKept(old(a[..]), a[..], 28, RateWords(p.sr));
  }

  function ParseTestAct(b: seq<u8>): Result<TestActPDU> {
    if |b| < TEST_ACT_MIN_SIZE || |b| > TEST_ACT_SIZE || Be16(b, 0) != ID_TEST_ACT then Malformed
    else if b[4] != 1 && b[4] != 2 then Malformed
    else
      var legacy := |b| < TEST_ACT_SIZE;
      Ok(TestActPDU(Be16(b, 2), b[4], b[5], Be16(b, 6), Be16(b, 8), Be16(b, 10), Be16(b, 12), b[14], b[15],
                    Be16(b, 16), b[18], b[19], Be16(b, 20), Be16(b, 22), b[24], b[25], b[26], b[27],
                    ParseRate(b, 28), Be16(b, 56),
                    if legacy then 0 else Be16(b, 60), if legacy then NoAuth() else ParseAuth(b, 63), legacy))
  }

  /** Parsing yields an activation exactly from the bytes that lay it out; any length from 60 to 103
      is read as the short form. */
  lemma {:induction false} TestActExact(b: seq<u8>, p: TestActPDU)
    ensures ParseTestAct(b) == Ok(p) <==>
            && (if p.legacy then TEST_ACT_MIN_SIZE <= |b| < TEST_ACT_SIZE else |b| == TEST_ACT_SIZE)
            && TestActAt(b, p) && 1 <= p.cmdRequest <= 2
            && (p.legacy ==> p.srAdjSuppCount == 0 && p.auth == NoAuth())
  {
    if TEST_ACT_MIN_SIZE <= |b| <= TEST_ACT_SIZE {
      RateExact(b, 28, p.sr);
      if |b| == TEST_ACT_SIZE { assert ParseAuth(b, 63) == p.auth <==> AuthAt(b, 63, p.auth); }
    }
  }

  // ---------------------------------------------------------------------------
  // Load header
  // ---------------------------------------------------------------------------

  predicate LoadAt(b: seq<u8>, p: LoadPDU)
    requires |b| >= LOAD_HDR_SIZE
  {
    && Be16(b, 0) == ID_LOAD && b[2] == p.testAction && b[3] == p.rxStopped && Be32(b, 4) == p.seqNo
    && Be16(b, 8) == p.udpPayload && Be16(b, 10) == p.spduSeqErr
    && Be32(b, 12) == p.spduTimeSec && Be32(b, 16) == p.spduTimeNsec
    && Be32(b, 20) == p.timeSec && Be32(b, 24) == p.timeNsec && Be16(b, 28) == p.rttRespDelay
  }

  /** Writes the header in front of a payload, which stays as it is. */
  method MarshalLoadInto(a: array<u8>, p: LoadPDU)
    requires a.Length >= LOAD_HDR_SIZE
    modifies a
    ensures LoadAt(a[..], p) && Zeros(a[..], 30, 32)
    ensures forall k | LOAD_HDR_SIZE <= k < a.Length :: a[k] == old(a[k])
  {
    PutU16(a, 0, ID_LOAD);
    a[2], a[3] := p.testAction, p.rxStopped;
    PutU32(a, 4, p.seqNo);
    PutU16(a, 8, p.udpPayload);
    PutU16(a, 10, p.spduSeqErr);
    PutU32(a, 12, p.spduTimeSec);
    PutU32(a, 16, p.spduTimeNsec);
    PutU32(a, 20, p.timeSec);
    PutU32(a, 24, p.timeNsec);
    PutU16(a, 28, p.rttRespDelay);
    a[30], a[31] := 0, 0;
  }

  function ParseLoadHdr(b: seq<u8>): Result<LoadPDU> {
    if |b| < LOAD_HDR_SIZE || Be16(b, 0) != ID_LOAD || b[2] > STOP2 || b[3] > 1 then Malformed
    else Ok(LoadPDU(b[2], b[3], Be32(b, 4), Be16(b, 8), Be16(b, 10), Be32(b, 12), Be32(b, 16),
                    Be32(b, 20), Be32(b, 24), Be16(b, 28)))
  }

  lemma {:induction false} LoadExact(b: seq<u8>, p: LoadPDU)
    ensures ParseLoadHdr(b) == Ok(p) <==>
            |b| >= LOAD_HDR_SIZE && LoadAt(b, p) && p.testAction <= STOP2 && p.rxStopped <= 1
  {
  }
}
