/** Clock arithmetic on 32-bit wire timestamps (internal/udpst/session.go) and the delay
    variation it feeds (internal/udpst/accounting.go). */
module Clock {
  import opened Words

  const SECOND: int := 1_000_000_000
  const MS: int := 1_000_000
  const US: int := 1_000

  /** A wall clock reading. */
  datatype Wall = Wall(sec: int, nsec: int) {
    predicate Valid() { 0 <= nsec < SECOND }
    function Ns(): int { sec * SECOND + nsec }
  }

  /** Milliseconds from a wire timestamp to t; only the low 32 bits of the seconds are on the wire. */
  function WallDiffMs(t: Wall, sec: u32, nsec: u32): int {
    Signed32(Wrap32(Wrap32(t.sec) - sec)) * 1000 + TruncDiv(t.nsec - nsec, MS)
  }

  /** Whether a result in milliseconds is within d milliseconds of an exact value in nanoseconds. */
  predicate Near(ms: int, exact: int, d: int) {
    -d * MS < ms * MS - exact < d * MS
  }

  /** The truncated seconds do no harm exactly while the true difference fits a signed 32-bit word. */
  lemma {:induction false} WallDiffExact(t: Wall, sent: Wall)
    requires t.Valid() && sent.Valid()
    ensures Near(WallDiffMs(t, Wrap32(sent.sec), sent.nsec), t.Ns() - sent.Ns(), 1)
       <==> -0x8000_0000 <= t.sec - sent.sec < 0x8000_0000
  {
    var d := t.sec - sent.sec;
    var ds := Signed32(Wrap32(Wrap32(t.sec) - Wrap32(sent.sec)));
    WrapDifference(t.sec, sent.sec);
    assert ds == d <==> -0x8000_0000 <= d < 0x8000_0000;
    var n := t.nsec - sent.nsec;
    assert -MS < TruncDiv(n, MS) * MS - n < MS;
    assert t.Ns() - sent.Ns() == d * SECOND + n;
  }

  lemma {:induction false} WrapDifference(a: int, b: int)
    ensures Wrap32(Wrap32(a) - Wrap32(b)) == Wrap32(a - b)
  {
  }

  function MinOf(s: seq<int>): int
    requires s != []
  {
    if |s| == 1 then s[0] else Min(MinOf(s[..|s| - 1]), s[|s| - 1])
  }

  lemma {:induction false} MinNear(deltas: seq<int>, exacts: seq<int>)
    requires |deltas| == |exacts| > 0
    requires forall i | 0 <= i < |deltas| :: Near(deltas[i], exacts[i], 1)
    ensures Near(MinOf(deltas), MinOf(exacts), 1)
    ensures MinOf(deltas) <= deltas[|deltas| - 1]
  {
    var n := |deltas| - 1;
    if n > 0 { MinNear(deltas[..n], exacts[..n]); }
    assert Near(deltas[n], exacts[n], 1);
  }

  /** A sample's excess over the running minimum of the rounded differences is never negative and
      within 2 ms of the exact excess over the exact running minimum. */
  lemma {:induction false} DelayVariationNear(deltas: seq<int>, exacts: seq<int>)
    requires |deltas| == |exacts| > 0
    requires forall i | 0 <= i < |deltas| :: Near(deltas[i], exacts[i], 1)
    ensures var n := |deltas| - 1;
            var dv := deltas[n] - MinOf(deltas);
            0 <= dv && Near(dv, exacts[n] - MinOf(exacts), 2)
  {
    MinNear(deltas, exacts);
    assert Near(deltas[|deltas| - 1], exacts[|deltas| - 1], 1);
  }
}
