/**
 * The secure random source. `rand_double` draws three 16-bit values from the
 * operating system, concatenates them into a 48-bit integer `n` and returns
 * `n / 2^48`. The draws themselves are an input: a `Stream` gives the three
 * values of every call, in the order the calls happen.
 */
module Random {

  /** A `uint16_t` as delivered by `getrandom`. */
  type Word16 = x: int | 0 <= x < 0x10000

  /** The three 16-bit values one call of `rand_double` obtains, first draw first. */
  datatype Draw = Draw(r0: Word16, r1: Word16, r2: Word16)

  /** The values of every call of `rand_double`, call number `k` at `k`. */
  type Stream = nat -> Draw

  /** The divisor `d = 1 << 48`. */
  const TWO_48: int := 0x1_0000_0000_0000

  /** How many 16-bit values one call of `rand_double` draws. */
  const PARTS: nat := 3

  /** The integer `n` of `rand_double`: the three values shifted in one after the other. */
  function Combined(d: Draw): (n: nat)
    ensures n < TWO_48
  {
    ShiftedBound(d, PARTS);
    assert Power16(PARTS) == TWO_48;
    Shifted(d, PARTS)
  }

  /** Value `i` of a draw, `r[i]`, in the order `rand_double` shifts them in. */
  function Part(d: Draw, i: nat): Word16
    requires i < 3
  {
    if i == 0 then d.r0 else if i == 1 then d.r1 else d.r2
  }

  /** The value `rand_double` returns for the draw `d`. */
  function Unit(d: Draw): (u: real)
    ensures 0.0 <= u < 1.0
  {
    Combined(d) as real / 281474976710656.0
  }

  /** The value after the first `i` of the three draws have been shifted in. */
  function Shifted(d: Draw, i: nat): nat
    requires i <= 3
  {
    if i == 0 then 0 else Shifted(d, i - 1) * 0x10000 + Part(d, i - 1)
  }

  /** After `i` values the integer has at most `16 i` bits. */
  lemma {:induction false} ShiftedBound(d: Draw, i: nat)
    requires i <= 3
    ensures Shifted(d, i) < Power16(i)
  {
    if i > 0 {
      ShiftedBound(d, i - 1);
    }
  }

  /** `2^(16 i)`. */
  function Power16(i: nat): (p: nat)
    ensures p > 0
  {
    if i == 0 then 1 else Power16(i - 1) * 0x10000
  }

  lemma PowerBound(i: nat)
    requires i < 3
    ensures Power16(i) <= 0x1_0000_0000
  {
    assert Power16(0) == 1;
    assert Power16(1) == 0x10000;
    assert Power16(2) == 0x1_0000_0000;
  }

  /** A `uint64_t`. */
  type Word64 = x: int | 0 <= x < 0x1_0000_0000_0000_0000

  /** `n << 16` on a `uint64_t`: the bits shifted past bit 63 are lost. */
  function ShiftLeft16(n: Word64): (r: Word64)
    ensures r % 0x10000 == 0
    ensures n < 0x1_0000_0000_0000 ==> r == n * 0x10000
  {
    (n * 0x10000) % 0x1_0000_0000_0000_0000
  }

  /** `n | w` where the low 16 bits of `n` are clear: the bits do not overlap, so it is a sum. */
  function OrLow16(n: Word64, w: Word16): (r: Word64)
    requires n % 0x10000 == 0
    ensures r / 0x10000 == n / 0x10000 && r % 0x10000 == w
  {
    n + w
  }

  /** `rand_double`: the loop shifts the three 16-bit draws into a 64-bit integer. */
  method RandDouble(d: Draw) returns (u: real)
    ensures u == Unit(d)
  {
    var r := [d.r0, d.r1, d.r2];
    var n: Word64 := 0;
    for i := 0 to PARTS
      invariant n == Shifted(d, i)
    {
      PowerBound(i);
      ShiftedBound(d, i);
      n := OrLow16(ShiftLeft16(n), r[i]);
    }
    u := n as real / 281474976710656.0;
  }
}
