/** Fixed-width integers and the serial-number comparison of util.c. */
module Serial {

  type byte = x: int | 0 <= x < 0x100
  type u16 = x: int | 0 <= x < 0x1_0000
  type u32 = x: int | 0 <= x < 0x1_0000_0000

  const HALF: int := 0x8000_0000
  // compare_u32 orders two numbers correctly when they are closer than this.
  const REACH: int := 0x7FFF_FFFF

  /** uint32_t addition: wraps modulo 2^32, also for a negative second operand. */
  function Add32(a: int, n: int): u32 {
    (a + n) % 0x1_0000_0000
  }

  /** The value of `int i = s` for a uint32_t s on a two's complement machine. */
  function AsInt32(s: u32): int {
    if s < HALF then s else s - 0x1_0000_0000
  }

  /** Signed distance from `from` to `to` on the circle of 32-bit numbers, in [-2^31, 2^31). */
  function Rel(from: u32, to: u32): int {
    AsInt32(Add32(to, 0 - from))
  }

  /** compare_u32 with the two subtractions carried out exactly. */
  function CompareU32(s1: u32, s2: u32): int {
    if s1 == s2 then 0 else
      var i1, i2 := AsInt32(s1), AsInt32(s2);
      if (i1 < i2 && i2 - i1 < 0x7FFF_FFFF) || (i1 > i2 && i1 - i2 > 0x7FFF_FFFF) then -1 else 1
  }

  datatype IntResult = Defined(value: int) | Overflow

  predicate FitsInt(x: int) { -HALF <= x < HALF }

  /** compare_u32 with `int` subtractions: Overflow where C gives the subtraction no meaning. */
  function CompareInt(s1: u32, s2: u32): IntResult {
    if s1 == s2 then Defined(0) else
      var i1, i2 := AsInt32(s1), AsInt32(s2);
      if i1 < i2 then
        if !FitsInt(i2 - i1) then Overflow
        else Defined(if i2 - i1 < 0x7FFF_FFFF then -1 else 1)
      else
        if !FitsInt(i1 - i2) then Overflow
        else Defined(if i1 - i2 > 0x7FFF_FFFF then -1 else 1)
  }

  /** compare_u32 with wrapping `int` subtractions, what a two's complement machine does. */
  function CompareWrapped(s1: u32, s2: u32): int {
    if s1 == s2 then 0 else
      var i1, i2 := AsInt32(s1), AsInt32(s2);
      if (i1 < i2 && AsInt32(Add32(i2, -i1)) < 0x7FFF_FFFF) ||
         (i1 > i2 && AsInt32(Add32(i1, -i2)) > 0x7FFF_FFFF) then -1 else 1
  }

  /** "s1 is less than s2" of RFC 1982 section 3.2 with SERIAL_BITS = 32. */
  predicate SerialLess(s1: u32, s2: u32) {
    (s1 < s2 && s2 - s1 < HALF) || (s1 > s2 && s1 - s2 > HALF)
  }

  /** RFC 1982 leaves the order of two numbers exactly 2^31 apart undefined. */
  predicate SerialDefined(s1: u32, s2: u32) {
    s1 - s2 != HALF && s2 - s1 != HALF
  }

  // ----- the comparison against RFC 1982 -----

  /** Wherever RFC 1982 orders a pair, compare_u32 agrees with it except at distance 2^31 - 1 when
      that step does not cross from positive to negative `int`s. */
  lemma CompareAgainstRfc1982(s1: u32, s2: u32)
    requires SerialDefined(s1, s2)
    ensures CompareU32(s1, s2) == 0 <==> s1 == s2
    ensures (CompareU32(s1, s2) < 0 <==> SerialLess(s1, s2)) <==>
            !(Rel(s1, s2) == REACH && AsInt32(s1) < AsInt32(s2))
    ensures (CompareU32(s1, s2) > 0 <==> SerialLess(s2, s1)) <==>
            !(Rel(s1, s2) == REACH && AsInt32(s1) < AsInt32(s2))
  {
    RelIsDifference(s1, s2);
  }

  /** The signed distance is the unsigned difference corrected by at most one turn. */
  lemma RelIsDifference(a: u32, b: u32)
    ensures Rel(a, b) == b - a || Rel(a, b) == b - a + 0x1_0000_0000 || Rel(a, b) == b - a - 0x1_0000_0000
    ensures -HALF <= Rel(a, b) < HALF
    ensures Add32(a, Rel(a, b)) == b
  {
  }

  /** Distances below 2^31 - 1: compare_u32 is exactly the RFC order. */
  lemma CompareIsRfc1982(s1: u32, s2: u32)
    requires -REACH < Rel(s1, s2) < REACH
    ensures CompareU32(s1, s2) < 0 <==> SerialLess(s1, s2)
    ensures CompareU32(s1, s2) > 0 <==> SerialLess(s2, s1)
    ensures CompareU32(s1, s2) < 0 <==> Rel(s1, s2) > 0
    ensures CompareU32(s1, s2) > 0 <==> Rel(s1, s2) < 0
    ensures CompareU32(s2, s1) == -CompareU32(s1, s2)
  {
    RelIsDifference(s1, s2);
    RelIsDifference(s2, s1);
  }

  /** The `int` reading is defined, and then equal to the exact one, just when the subtraction fits. */
  lemma IntReading(s1: u32, s2: u32)
    ensures CompareInt(s1, s2).Defined? <==> -REACH <= AsInt32(s1) - AsInt32(s2) <= REACH
    ensures CompareInt(s1, s2).Defined? ==> CompareInt(s1, s2).value == CompareU32(s1, s2)
    ensures CompareWrapped(s1, s2) == CompareU32(s1, s2) <==> CompareInt(s1, s2).Defined?
  {
  }

  /** On any stretch of the circle shorter than 2^31 - 1, measured from `base`, compare_u32 is the
      order of the integers. */
  lemma CompareByRel(base: u32, a: u32, b: u32)
    requires -REACH < Rel(base, a) - Rel(base, b) < REACH
    ensures Rel(a, b) == Rel(base, b) - Rel(base, a)
    ensures CompareU32(a, b) < 0 <==> Rel(base, a) < Rel(base, b)
    ensures CompareU32(a, b) > 0 <==> Rel(base, a) > Rel(base, b)
    ensures a == b <==> Rel(base, a) == Rel(base, b)
  {
    RelIsDifference(base, a);
    RelIsDifference(base, b);
    RelIsDifference(a, b);
  }

  /** Hence compare_u32 is transitive on such a stretch. */
  lemma CompareTransitive(base: u32, a: u32, b: u32, c: u32)
    requires -REACH < Rel(base, a) - Rel(base, b) < REACH
    requires -REACH < Rel(base, b) - Rel(base, c) < REACH
    requires -REACH < Rel(base, a) - Rel(base, c) < REACH
    requires CompareU32(a, b) < 0 && CompareU32(b, c) < 0
    ensures CompareU32(a, c) < 0 && CompareU32(c, a) > 0
  {
    CompareByRel(base, a, b);
    CompareByRel(base, b, c);
    CompareByRel(base, a, c);
    CompareByRel(base, c, a);
  }

  // ----- modular bookkeeping -----

  lemma Add32Add(a: int, m: int, n: int)
    ensures Add32(Add32(a, m), n) == Add32(a, m + n)
  {
  }

  lemma Add32Injective(a: u32, m: int, n: int)
    requires -0x1_0000_0000 < m - n < 0x1_0000_0000
    requires Add32(a, m) == Add32(a, n)
    ensures m == n
  {
  }

  lemma Add32Zero(a: u32)
    ensures Add32(a, 0) == a
  {
  }

  lemma Add32Moves(a: u32, n: int)
    requires 0 < n < 0x1_0000_0000
    ensures Add32(a, n) != a
  {
    Add32Zero(a);
    if Add32(a, n) == a { Add32Injective(a, n, 0); }
  }

  /** Moving the origin by n shifts every signed distance by n while it stays in range. */
  lemma RelShift(a: u32, n: int, b: u32)
    requires -HALF <= Rel(a, b) - n < HALF
    ensures Rel(Add32(a, n), b) == Rel(a, b) - n
  {
    var r := Rel(a, b);
    RelIsDifference(a, b);
    Add32Add(a, n, r - n);
    RelOfAdd(Add32(a, n), r - n);
  }

  lemma RelOfAdd(a: u32, n: int)
    requires -HALF <= n < HALF
    ensures Rel(a, Add32(a, n)) == n
  {
  }

  lemma RelSelf(a: u32)
    ensures Rel(a, a) == 0
  {
  }

  lemma RelBack(a: u32, n: nat)
    requires n <= HALF
    ensures Rel(Add32(a, n), a) == 0 - n
  {
    Add32Zero(a);
    Add32Add(a, n, 0 - n);
    RelOfAdd(Add32(a, n), 0 - n);
  }

  /** Rel inverts addition. */
  lemma RelIff(a: u32, n: int, b: u32)
    requires -HALF <= n < HALF
    ensures Rel(a, b) == n <==> b == Add32(a, n)
  {
    RelIsDifference(a, b);
    RelOfAdd(a, n);
  }
}
