/** calc_checksum of util.c: the 16-bit one's complement sum of RFC 1071 on a little-endian machine. */
module InternetChecksum {
  import opened Serial

  const M32: int := 0x1_0000_0000

  // The longest buffer whose sum can never leave the 32-bit accumulator.
  const MAX_EXACT: nat := 131072

  /** Sum of the 16-bit words as `*buf` reads them (first byte low), an odd last byte as a low byte. */
  function WordSum(b: seq<byte>): nat {
    if |b| == 0 then 0
    else if |b| == 1 then b[0]
    else b[0] + 0x100 * b[1] + WordSum(b[2..])
  }

  /** Sum of the words in network order, padded with a zero byte on the right: RFC 1071 section 1. */
  function NetworkSum(b: seq<byte>): nat {
    if |b| == 0 then 0
    else if |b| == 1 then 0x100 * b[0]
    else 0x100 * b[0] + b[1] + NetworkSum(b[2..])
  }

  /** The end-around carry: fold the high half into the low half until nothing is left above bit 15. */
  function Fold(n: nat): u16 {
    if n < 0x1_0000 then n else Fold(n % 0x1_0000 + n / 0x1_0000)
  }

  /** The representative of n modulo 65535 in 1..65535, or 0 for n = 0 alone. */
  function Residue(n: nat): u16 {
    if n == 0 then 0 else (n - 1) % 0xFFFF + 1
  }

  function Checksum(start: u16, b: seq<byte>): u16 {
    Fold(start + WordSum(b))
  }

  function Swap16(x: u16): u16 {
    x % 0x100 * 0x100 + x / 0x100
  }

  function Complement(x: u16): u16 { 0xFFFF - x }

  // ----- the loop -----

  /** calc_checksum */
  method CalcChecksum(start: u16, buffer: seq<byte>) returns (r: u16)
    ensures r == Fold((start + WordSum(buffer)) % M32)
    ensures |buffer| <= MAX_EXACT ==> r == Checksum(start, buffer)
  {
    var sum := SumWords(start, buffer);
    r := FoldCarries(sum);
    if |buffer| <= MAX_EXACT {
      SumFits(start, buffer);
    }
  }

  /** The first loop. */
  method SumWords(start: u16, buffer: seq<byte>) returns (sum: u32)
    ensures sum == (start + WordSum(buffer)) % M32
  {
    sum := start;
    var pos := 0;
    var len := |buffer|;
    ghost var wraps: nat := 0;
    while len > 1
      invariant 0 <= pos && 0 <= len && pos + len == |buffer|
      invariant sum + M32 * wraps + WordSum(buffer[pos..]) == start + WordSum(buffer)
    {
      NextWord(buffer, pos);
      var word: nat := (buffer[pos] as nat) + 0x100 * (buffer[pos + 1] as nat);
      wraps := wraps + (sum + word) / M32;
      sum := Accumulate(sum, word);
      pos, len := pos + 2, len - 2;
    }
    if len > 0 {
      assert WordSum(buffer[pos..]) == buffer[pos];
      wraps := wraps + (sum + buffer[pos]) / M32;
      sum := Accumulate(sum, buffer[pos]);
    }
    AddWraps(sum, wraps);
  }

  /** sum += word in 32 bits */
  function Accumulate(sum: u32, word: nat): (r: u32)
    ensures sum + word == r + M32 * ((sum + word) / M32)
  {
    Add32(sum, word)
  }

  lemma NextWord(b: seq<byte>, pos: nat)
    requires pos + 2 <= |b|
    ensures WordSum(b[pos..]) == b[pos] + 0x100 * b[pos + 1] + WordSum(b[pos + 2..])
  {
    assert b[pos..][2..] == b[pos + 2..];
  }

  lemma AddWraps(a: nat, k: nat)
    ensures (a + M32 * k) % M32 == a % M32
  {
  }

  /** The second loop. */
  method FoldCarries(total: u32) returns (r: u16)
    ensures r == Fold(total)
  {
    var sum := total;
    while sum / 0x1_0000 != 0
      invariant Fold(sum) == Fold(total)
      decreases sum
    {
      sum := sum % 0x1_0000 + sum / 0x1_0000;
    }
    return sum;
  }

  lemma {:induction false} WordSumBound(b: seq<byte>)
    ensures WordSum(b) <= (|b| + 1) / 2 * 0xFFFF
    ensures |b| % 2 == 1 ==> WordSum(b) <= |b| / 2 * 0xFFFF + 0xFF
  {
    if |b| >= 2 {
      WordSumBound(b[2..]);
    }
  }

  /** The accumulator never wraps for buffers of up to 131072 bytes. */
  lemma SumFits(start: u16, b: seq<byte>)
    requires |b| <= MAX_EXACT
    ensures start + WordSum(b) < M32
  {
    WordSumBound(b);
  }

  function Ones(n: nat): (b: seq<byte>)
    ensures |b| == n
  {
    seq(n, i => 0xFF)
  }

  lemma {:induction false} OnesSum(n: nat)
    ensures WordSum(Ones(n)) == n / 2 * 0xFFFF + n % 2 * 0xFF
  {
    if n >= 2 {
      assert Ones(n)[2..] == Ones(n - 2);
      OnesSum(n - 2);
    }
  }

  predicate NeverWraps(start: u16, b: seq<byte>) {
    start + WordSum(b) < M32
  }

  /** That bound is the best one: exactly the lengths up to 131072 are safe for every start and contents. */
  lemma AccumulatorBound(n: nat)
    ensures n <= MAX_EXACT <==> forall start: u16, b: seq<byte> | |b| == n :: NeverWraps(start, b)
  {
    if n <= MAX_EXACT {
      forall start: u16, b: seq<byte> | |b| == n ensures NeverWraps(start, b) {
        SumFits(start, b);
      }
    } else {
      OnesSum(n);
      var start: u16 := 0xFFFF;
      assert |Ones(n)| == n && !NeverWraps(start, Ones(n));
    }
  }

  // ----- what the value means -----

  lemma {:induction false} FoldIsResidue(n: nat)
    ensures Fold(n) == Residue(n)
  {
    if n >= 0x1_0000 {
      FoldIsResidue(n % 0x1_0000 + n / 0x1_0000);
      FoldKeepsResidue(n % 0x1_0000, n / 0x1_0000);
    }
  }

  lemma FoldKeepsResidue(low: nat, high: nat)
    requires low + high > 0
    ensures Residue(0x1_0000 * high + low) == Residue(low + high)
  {
    AddMultiple(low + high - 1, high);
  }

  /** The checksum is the canonical residue modulo 65535, and 0 only when every term is 0. */
  lemma ChecksumIsResidue(start: u16, b: seq<byte>)
    ensures Checksum(start, b) % 0xFFFF == (start + WordSum(b)) % 0xFFFF
    ensures Checksum(start, b) == 0 <==> start == 0 && forall i :: 0 <= i < |b| ==> b[i] == 0
  {
    FoldIsResidue(start + WordSum(b));
    ResidueCongruent(start + WordSum(b));
    ZeroSum(b);
  }

  lemma ResidueCongruent(n: nat)
    ensures Residue(n) % 0xFFFF == n % 0xFFFF
    ensures Residue(n) == 0 <==> n == 0
  {
    if n > 0 {
      AddMultiple((n - 1) % 0xFFFF + 1, (n - 1) / 0xFFFF);
    }
  }

  lemma {:induction false} ZeroSum(b: seq<byte>)
    ensures WordSum(b) == 0 <==> forall i :: 0 <= i < |b| ==> b[i] == 0
  {
    if |b| >= 2 {
      ZeroSum(b[2..]);
      if forall i :: 0 <= i < |b[2..]| ==> b[2..][i] == 0 {
        assert forall i :: 2 <= i < |b| ==> b[i] == b[2..][i - 2];
      } else {
        var i :| 0 <= i < |b[2..]| && b[2..][i] != 0;
        assert b[i + 2] != 0;
      }
    }
  }

  /** Folding early does not change the folded total. */
  lemma FoldOfSum(m: nat, n: nat)
    ensures Fold(Fold(m) + n) == Fold(m + n)
  {
    FoldIsResidue(m);
    FoldIsResidue(m + n);
    FoldIsResidue(Residue(m) + n);
    ResidueOfSum(m, n);
  }

  lemma ResidueOfSum(m: nat, n: nat)
    ensures Residue(Residue(m) + n) == Residue(m + n)
  {
  }

  lemma {:induction false} WordSumConcat(a: seq<byte>, b: seq<byte>)
    requires |a| % 2 == 0
    ensures WordSum(a + b) == WordSum(a) + WordSum(b)
  {
    if |a| == 0 {
      assert a + b == b;
    } else {
      assert (a + b)[2..] == a[2..] + b;
      WordSumConcat(a[2..], b);
    }
  }

  /** Checksumming piece by piece, after an even-length piece, is one pass over the concatenation. */
  lemma Chaining(start: u16, a: seq<byte>, b: seq<byte>)
    requires |a| % 2 == 0
    ensures Checksum(Checksum(start, a), b) == Checksum(start, a + b)
  {
    WordSumConcat(a, b);
    FoldOfSum(start + WordSum(a), WordSum(b));
  }

  // ----- byte order, RFC 1071 section 2(B) -----

  lemma {:induction false} NetworkSumCongruent(b: seq<byte>)
    ensures (0x100 * NetworkSum(b)) % 0xFFFF == WordSum(b) % 0xFFFF
    ensures NetworkSum(b) == 0 <==> WordSum(b) == 0
  {
    if |b| == 0 {
    } else if |b| == 1 {
      AddMultiple(b[0], b[0]);
    } else {
      NetworkSumCongruent(b[2..]);
      var low: nat, high: nat := b[0], b[1];
      SwappedWord(0x100 * NetworkSum(b[2..]), WordSum(b[2..]), low + 0x100 * high, low);
    }
  }

  lemma SwappedWord(m: nat, w: nat, c: nat, k: nat)
    requires m % 0xFFFF == w % 0xFFFF
    ensures (m + c + 0xFFFF * k) % 0xFFFF == (w + c) % 0xFFFF
  {
    var r: nat := m % 0xFFFF;
    AddMultiple(r + c, m / 0xFFFF + k);
    AddMultiple(r + c, w / 0xFFFF);
  }

  /** The sum taken in little-endian words is the byte swap of the sum taken in network order. */
  lemma ByteOrderIndependent(b: seq<byte>)
    ensures Checksum(0, b) == Swap16(Fold(NetworkSum(b)))
  {
    NetworkSumCongruent(b);
    FoldIsResidue(WordSum(b));
    FoldIsResidue(NetworkSum(b));
    SwapOfResidue(NetworkSum(b), WordSum(b));
  }

  lemma SwapOfResidue(n: nat, w: nat)
    requires (0x100 * n) % 0xFFFF == w % 0xFFFF
    requires n == 0 <==> w == 0
    ensures Swap16(Residue(n)) == Residue(w)
  {
    var r: nat := Residue(n);
    if n > 0 {
      var k := (n - 1) / 0xFFFF;
      assert n == r + 0xFFFF * k;
      AddMultiple(0x100 * r, 0x100 * k);
      SwapByMultiplying(r);
    }
    CanonicalResidue(Swap16(r), w);
  }

  lemma SwapByMultiplying(r: u16)
    ensures Swap16(r) == 0x100 * r - 0xFFFF * (r / 0x100)
    ensures Swap16(r) % 0xFFFF == (0x100 * r) % 0xFFFF
  {
    AddMultiple(Swap16(r), r / 0x100);
  }

  lemma AddMultiple(a: nat, k: nat)
    ensures (a + 0xFFFF * k) % 0xFFFF == a % 0xFFFF
  {
  }

  lemma CanonicalResidue(x: u16, w: nat)
    requires x % 0xFFFF == w % 0xFFFF
    requires x == 0 <==> w == 0
    ensures x == Residue(w)
  {
  }
}
