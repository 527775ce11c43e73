/** Fixed-width unsigned integers, with the wrap-around the source relies on
    written out, and big-endian reads and writes of byte buffers. */
module Words {
  type u8 = x: int | 0 <= x < 0x100
  type u16 = x: int | 0 <= x < 0x1_0000
  type u32 = x: int | 0 <= x < 0x1_0000_0000
  type u64 = x: int | 0 <= x < 0x1_0000_0000_0000_0000

  // Dafny's % never returns a negative number, so these also model subtraction that wraps.
  function Wrap16(x: int): u16 { x % 0x1_0000 }
  function Wrap32(x: int): u32 { x % 0x1_0000_0000 }
  function Wrap64(x: int): u64 { x % 0x1_0000_0000_0000_0000 }

  /** int32(x) of a 32-bit word. */
  function Signed32(x: u32): int {
    if x < 0x8000_0000 then x else x - 0x1_0000_0000
  }

  /** Go's integer division by a positive constant: truncates toward zero. */
  function TruncDiv(a: int, b: int): int
    requires b > 0
  {
    if a >= 0 then a / b else -((-a) / b)
  }

  datatype Option<+T> = None | Some(value: T)

  function BoolByte(b: bool): u8 { if b then 1 else 0 }

  function Min(a: int, b: int): int { if a <= b then a else b }
  function Max(a: int, b: int): int { if a >= b then a else b }

  function Be16(b: seq<u8>, off: nat): u16
    requires off + 2 <= |b|
  {
    b[off] as int * 0x100 + b[off + 1]
  }

  function Be32(b: seq<u8>, off: nat): u32
    requires off + 4 <= |b|
  {
    b[off] as int * 0x100_0000 + b[off + 1] as int * 0x1_0000 + b[off + 2] as int * 0x100 + b[off + 3]
  }

  function Be64(b: seq<u8>, off: nat): u64
    requires off + 8 <= |b|
  {
    Be32(b, off) as int * 0x1_0000_0000 + Be32(b, off + 4)
  }

  lemma {:induction false} MulMono(a: int, x: int, y: int)
    requires a >= 0 && x <= y
    ensures a * x <= a * y
  {
  }

  lemma {:induction false} MulStep(n: int, t: int)
    ensures (n + 1) * t == n * t + t
  {
  }

  lemma {:induction false} DivBounds(a: nat, b: nat)
    requires b > 0
    ensures b * (a / b) <= a < b * (a / b + 1)
  {
  }

  /** Quotient and remainder are unique. */
  lemma {:induction false} DivMod(q: nat, r: nat, d: nat)
    requires r < d
    ensures (q * d + r) / d == q && (q * d + r) % d == r
  {
    var x := q * d + r;
    DivBounds(x, d);
    if x / d < q { MulMono(d, x / d + 1, q); }
    if x / d > q { MulMono(d, q + 1, x / d); }
  }

  /** Wrapping early changes nothing. */
  lemma {:induction false} WrapSum(n: int, k: int)
    ensures Wrap32(Wrap32(n) + k) == Wrap32(n + k)
  {
  }

  lemma {:induction false} WrapSum64(n: int, k: int)
    ensures Wrap64(Wrap64(n) + k) == Wrap64(n + k)
  {
  }
}
