/** Domain name decoding with compression (dns.c). */
module Dns {
  import opened Serial
  import opened Bytes

  const QNAME_MAX: nat := 255
  const DOT: byte := 0x2E
  const HEADER_LEN: nat := 12

  // UDP carries at most this much.
  const MAX_DATAGRAM: nat := 65535

  // ----- get_qname -----

  /** A decoded name and the offset reported for its end; -1; a read outside the datagram; or a loop that has
      not come to an end yet. */
  datatype Outcome = Name(text: seq<byte>, end: nat) | Invalid | Stray | Running

  /** The eight-bit write position after a label: at 256 it is 0 again. */
  function Advance(text: seq<byte>, word: seq<byte>): seq<byte> {
    var t := text + word + [DOT];
    if |t| == 0x100 then [] else t
  }

  function Target(data: seq<byte>, ptr: nat): nat
    requires ptr + 1 < |data|
  {
    data[ptr] % 0x40 * 0x100 + data[ptr + 1] as int
  }

  /** Where the loop is: the position, the text so far, whether a pointer was followed, and off. */
  datatype Cursor = Cursor(ptr: nat, text: seq<byte>, c: bool, off: nat)
  datatype Turned = Halt(outcome: Outcome) | Go(next: Cursor)

  function Start(off: nat): Cursor { Cursor(off, [], false, off) }

  /** A pointer followed. */
  function Jump(s: Cursor, target: nat): Cursor {
    Cursor(target, s.text, true, if s.c then s.off else s.off + 2)
  }

  /** A label taken. */
  function Take(s: Cursor, word: seq<byte>): Cursor {
    Cursor(s.ptr + 1 + |word|, Advance(s.text, word), s.c, s.off)
  }

  /** The label whose length byte is at ptr. */
  function Word(data: seq<byte>, ptr: nat): (r: seq<byte>)
    requires ptr < |data| && ptr + 1 + (data[ptr] as int) <= |data|
    ensures |r| == data[ptr]
  {
    data[ptr + 1..ptr + 1 + data[ptr] as int]
  }

  /** One turn of the loop of get_qname. */
  function Turn(data: seq<byte>, s: Cursor): Turned {
    if s.ptr >= |data| then Halt(Stray)
    else if data[s.ptr] == 0 then
      Halt(if s.text == [] then Invalid else Name(s.text[..|s.text| - 1], if s.c then s.off else s.ptr + 1))
    else if data[s.ptr] >= 0x40 then
      if s.ptr + 1 >= |data| then Halt(Stray) else Go(Jump(s, Target(data, s.ptr)))
    else if s.ptr + 1 + data[s.ptr] as int <= |data| && |s.text| + data[s.ptr] as int <= QNAME_MAX
    then Go(Take(s, Word(data, s.ptr)))
    else Halt(Invalid)
  }

  /** n turns */
  function Walk(data: seq<byte>, n: nat, s: Cursor): Outcome {
    match Turn(data, s)
    case Halt(outcome) => outcome
    case Go(next) => if n == 0 then Running else Walk(data, n - 1, next)
  }

  function QName(data: seq<byte>, n: nat, off: nat): Outcome { Walk(data, n, Start(off)) }

  /** The outcome does not depend on how many turns are allowed, once they suffice. */
  lemma {:induction false} MoreTurns(data: seq<byte>, n: nat, m: nat, s: Cursor)
    requires n <= m && !Walk(data, n, s).Running?
    ensures Walk(data, m, s) == Walk(data, n, s)
    decreases n
  {
    if Turn(data, s).Go? {
      MoreTurns(data, n - 1, m - 1, Turn(data, s).next);
    }
  }

  /** get_qname, for a datagram the walk stays in and a walk that ends, after n turns at most. */
  method GetQName(data: seq<byte>, start: nat, qname: array<byte>, ghost n: nat) returns (r: int)
    requires |data| <= MAX_DATAGRAM && qname.Length == QNAME_MAX + 1
    requires !QName(data, n, start).Stray? && !QName(data, n, start).Running?
    modifies qname
    ensures r == if QName(data, n, start).Name? then QName(data, n, start).end else -1
    ensures var o := QName(data, n, start);
            o.Name? ==> |o.text| <= QNAME_MAX && qname[..|o.text|] == o.text && qname[|o.text|] == 0
  {
    qname[0] := 0;
    var off: nat, c, noff: nat, ptr: nat := start, false, 0, start;
    var len: nat := data[ptr];
    ghost var turns := n;
    assert Cursor(ptr, qname[..noff], c, off) == Start(start);
    while len != 0
      invariant 0 <= turns && ptr < |data| && len == data[ptr]
      invariant 0 <= noff <= QNAME_MAX
      invariant Walk(data, turns, Cursor(ptr, qname[..noff], c, off)) == QName(data, n, start)
      decreases turns
    {
      ghost var s := Cursor(ptr, qname[..noff], c, off);
      if len >= 0x40 {
        ptr := Target(data, ptr);
        assert Turn(data, s) == Go(Jump(s, ptr));
        assert turns > 0 && ptr < |data|;
        len := data[ptr];
        if !c {
          c := true;
          off := off + 2;
        }
      } else if ptr + 1 + len <= |data| && noff + len <= QNAME_MAX {
        noff := TakeLabel(Word(data, ptr), qname, noff);
        assert Turn(data, s) == Go(Take(s, Word(data, ptr)));
        ptr := ptr + len + 1;
        assert Cursor(ptr, qname[..noff], c, off) == Turn(data, s).next;
        assert turns > 0 && ptr < |data|;
        len := data[ptr];
      } else {
        break;
      }
      turns := turns - 1;
    }
    ptr := ptr + 1;
    if len > 0 || noff == 0 {
      return -1;
    }
    ghost var text := qname[..noff];
    qname[noff - 1] := 0;
    assert qname[..noff - 1] == text[..noff - 1];
    return if c then off else ptr;
  }

  /** memcpy of a label, the dot behind it, and the new write position */
  method TakeLabel(word: seq<byte>, qname: array<byte>, noff: nat) returns (end: nat)
    requires noff + |word| < qname.Length == 0x100
    modifies qname
    ensures end < 0x100 && qname[..end] == Advance(old(qname[..noff]), word)
  {
    var i := 0;
    while i < |word|
      invariant 0 <= i <= |word|
      invariant qname[..noff + i] == old(qname[..noff]) + word[..i]
    {
      PutByte(qname, noff + i, word[i]);
      assert word[..i + 1] == word[..i] + [word[i]];
      i := i + 1;
    }
    assert word[..i] == word;
    PutByte(qname, noff + |word|, DOT);
    end := (noff + |word| + 1) % 0x100;
    Wrapped(qname[..noff + |word| + 1]);
  }

  method PutByte(qname: array<byte>, at: nat, b: byte)
    requires at < qname.Length
    modifies qname
    ensures qname[..at + 1] == old(qname[..at]) + [b]
  {
    qname[at] := b;
  }

  /** A full buffer has no last part. */
  lemma Wrapped(text: seq<byte>)
    requires |text| <= 0x100
    ensures text[..|text| % 0x100] == if |text| == 0x100 then [] else text
  {
  }

  // ----- termination -----

  /** Every pointer met leads in front of the run of labels it ends. */
  predicate Ordered(data: seq<byte>, run: nat, ptr: nat)
    requires run <= ptr
    decreases run, |data| - ptr
  {
    if ptr >= |data| || data[ptr] == 0 then true
    else if data[ptr] >= 0x40 then
      ptr + 1 < |data| ==> Target(data, ptr) < run && Ordered(data, Target(data, ptr), Target(data, ptr))
    else
      var next := ptr + 1 + data[ptr] as int;
      next <= |data| ==> Ordered(data, run, next)
  }

  /** The turns a walk over ordered pointers takes at most. */
  function Turns(data: seq<byte>, run: nat, ptr: nat): nat
    requires run <= ptr && Ordered(data, run, ptr)
    decreases run, |data| - ptr
  {
    if ptr >= |data| || data[ptr] == 0 then 0
    else if data[ptr] >= 0x40 then
      if ptr + 1 >= |data| then 1 else 1 + Turns(data, Target(data, ptr), Target(data, ptr))
    else
      var next := ptr + 1 + data[ptr] as int;
      if next > |data| then 1 else 1 + Turns(data, run, next)
  }

  /** With ordered pointers get_qname comes to an end, whatever the labels are. */
  lemma {:induction false} OrderedNamesEnd(data: seq<byte>, run: nat, s: Cursor, n: nat)
    requires run <= s.ptr && Ordered(data, run, s.ptr) && n >= Turns(data, run, s.ptr)
    ensures !Walk(data, n, s).Running?
    decreases n
  {
    if Turn(data, s).Go? {
      var next := Turn(data, s).next;
      OrderedNamesEnd(data, if data[s.ptr] >= 0x40 then next.ptr else run, next, n - 1);
    }
  }

  // ----- when the loop never ends -----

  /** Where the loop is after k turns. */
  function Follow(data: seq<byte>, s: Cursor, k: nat): Turned
    decreases k
  {
    if k == 0 then Go(s)
    else
      match Turn(data, s)
      case Halt(outcome) => Halt(outcome)
      case Go(next) => Follow(data, next, k - 1)
  }

  lemma {:induction false} RunningIsFollowing(data: seq<byte>, n: nat, s: Cursor)
    ensures Walk(data, n, s) == Running <==> Follow(data, s, n + 1).Go?
    decreases n
  {
    if Turn(data, s).Go? {
      if n == 0 {
        assert Follow(data, Turn(data, s).next, 0).Go?;
      } else {
        RunningIsFollowing(data, n - 1, Turn(data, s).next);
      }
    }
  }

  lemma {:induction false} FollowOn(data: seq<byte>, s: Cursor, i: nat, j: nat)
    ensures Follow(data, s, i + j).Go? ==> Follow(data, s, i).Go?
    ensures Follow(data, s, i).Go? ==> Follow(data, s, i + j) == Follow(data, Follow(data, s, i).next, j)
    decreases i
  {
    if i > 0 && Turn(data, s).Go? { FollowOn(data, Turn(data, s).next, i - 1, j); }
  }

  /** All the loop's course depends on: the position and the write position. */
  predicate SameSpot(a: Cursor, b: Cursor) { a.ptr == b.ptr && |a.text| == |b.text| }

  lemma {:induction false} SameCourse(data: seq<byte>, a: Cursor, b: Cursor, n: nat)
    requires SameSpot(a, b)
    ensures Follow(data, a, n).Go? <==> Follow(data, b, n).Go?
    decreases n
  {
    if n > 0 && Turn(data, a).Go? { SameCourse(data, Turn(data, a).next, Turn(data, b).next, n - 1); }
  }

  /** The loop comes to a position and write position a second time. */
  ghost predicate Repeats(data: seq<byte>, s: Cursor) {
    exists i: nat, j: nat :: RepeatsAt(data, s, i, j)
  }

  predicate RepeatsAt(data: seq<byte>, s: Cursor, i: nat, j: nat) {
    && i < j && Follow(data, s, i).Go? && Follow(data, s, j).Go?
    && SameSpot(Follow(data, s, i).next, Follow(data, s, j).next)
  }

  lemma {:induction false} RepeatsForEver(data: seq<byte>, s: Cursor, i: nat, j: nat, n: nat)
    requires RepeatsAt(data, s, i, j)
    ensures Follow(data, s, n).Go?
    decreases n
  {
    if n <= j {
      FollowOn(data, s, n, j - n);
    } else {
      var m := n - j;
      RepeatsForEver(data, s, i, j, i + m);
      FollowOn(data, s, i, m);
      SameCourse(data, Follow(data, s, i).next, Follow(data, s, j).next, m);
      FollowOn(data, s, j, m);
    }
  }

  /** More values than there are numbers: two are equal. */
  lemma {:induction false} Pigeonhole(f: seq<nat>, n: nat) returns (i: nat, j: nat)
    requires |f| > n && forall x | x in f :: x < n
    ensures i < j < |f| && f[i] == f[j]
    decreases n
  {
    assert f[0] in f;
    var last: nat := n - 1;
    if k :| 0 <= k < |f| && f[k] == last {
      if m :| 0 <= m < |f| && m != k && f[m] == last {
        i, j := if k < m then k else m, if k < m then m else k;
      } else {
        var g := f[..k] + f[k + 1..];
        forall x | x in g ensures x < last {
          var m :| 0 <= m < |g| && g[m] == x;
          var at := if m < k then m else m + 1;
          assert f[at] == x && at != k && f[at] in f;
        }
        i, j := Pigeonhole(g, last);
        i, j := if i < k then i else i + 1, if j < k then j else j + 1;
      }
    } else {
      forall x | x in f ensures x < last {
        var m :| 0 <= m < |f| && f[m] == x;
      }
      i, j := Pigeonhole(f, last);
    }
  }

  lemma {:induction false} FollowedText(data: seq<byte>, s: Cursor, k: nat)
    requires |s.text| < 0x100 && Follow(data, s, k).Go?
    ensures |Follow(data, s, k).next.text| < 0x100
    decreases k
  {
    if k > 0 { FollowedText(data, Turn(data, s).next, k - 1); }
  }

  /** A position and a write position as one number. */
  function Spot(c: Cursor): nat { 0x100 * c.ptr + |c.text| }

  lemma SpotAfter(data: seq<byte>, s: Cursor, k: nat, n: nat)
    requires |s.text| < 0x100 && k < n && Follow(data, s, n).Go?
    ensures Follow(data, s, k).Go? && Spot(Follow(data, s, k).next) < 0x100 * |data|
    ensures |Follow(data, s, k).next.text| < 0x100
  {
    FollowOn(data, s, k, n - k);
    FollowedText(data, s, k);
    var c := Follow(data, s, k).next;
    assert Follow(data, c, n - k).Go? && Turn(data, c).Go?;
  }

  lemma EqualSpots(a: Cursor, b: Cursor)
    requires Spot(a) == Spot(b) && |a.text| < 0x100 && |b.text| < 0x100
    ensures SameSpot(a, b)
  {
  }

  /** After k turns the loop is at the spot with number x. */
  predicate IsSpot(data: seq<byte>, s: Cursor, k: nat, x: nat) {
    Follow(data, s, k).Go? && |Follow(data, s, k).next.text| < 0x100 && Spot(Follow(data, s, k).next) == x
  }

  lemma SpotsAlong(data: seq<byte>, s: Cursor, n: nat) returns (f: seq<nat>)
    requires |s.text| < 0x100 && n == 0x100 * |data| && Follow(data, s, n + 1).Go?
    ensures |f| == n + 1 && (forall x | x in f :: x < n) && forall k | 0 <= k <= n :: IsSpot(data, s, k, f[k])
  {
    forall k: nat | k <= n ensures Follow(data, s, k).Go? && IsSpot(data, s, k, Spot(Follow(data, s, k).next)) {
      SpotAfter(data, s, k, n + 1);
    }
    f := seq(n + 1, k requires 0 <= k <= n => Spot(Follow(data, s, k).next));
    forall k | 0 <= k <= n ensures f[k] < n {
      SpotAfter(data, s, k, n + 1);
    }
  }

  lemma LongWalkRepeats(data: seq<byte>, s: Cursor)
    requires |s.text| < 0x100 && Follow(data, s, 0x100 * |data| + 1).Go?
    ensures Repeats(data, s)
  {
    var f := SpotsAlong(data, s, 0x100 * |data|);
    var i, j := Pigeonhole(f, 0x100 * |data|);
    SpotMet(data, s, i, j, f[i]);
  }

  lemma SpotMet(data: seq<byte>, s: Cursor, i: nat, j: nat, x: nat)
    requires i < j && IsSpot(data, s, i, x) && IsSpot(data, s, j, x)
    ensures RepeatsAt(data, s, i, j)
  {
    EqualSpots(Follow(data, s, i).next, Follow(data, s, j).next);
  }

  /** get_qname never returns if and only if its loop comes to some position with some write position twice; and it
      does so within 256 turns for each byte of the datagram, or not at all. */
  lemma NeverEndsIffRepeats(data: seq<byte>, off: nat)
    ensures (forall n: nat :: QName(data, n, off) == Running) <==> Repeats(data, Start(off))
    ensures Repeats(data, Start(off)) <==> QName(data, 0x100 * |data|, off) == Running
  {
    var s := Start(off);
    RunningIsFollowing(data, 0x100 * |data|, s);
    if Follow(data, s, 0x100 * |data| + 1).Go? { LongWalkRepeats(data, s); }
    if Repeats(data, s) {
      var i: nat, j: nat :| RepeatsAt(data, s, i, j);
      forall n: nat ensures Walk(data, n, s) == Running {
        RepeatsForEver(data, s, i, j, n + 1);
        RunningIsFollowing(data, n, s);
      }
      assert forall n: nat :: QName(data, n, off) == Walk(data, n, s);
    } else {
      assert QName(data, 0x100 * |data|, off) != Running;
    }
  }

  // ----- two ways to get there -----

  /** Where k pointers lead to. */
  function Hops(data: seq<byte>, ptr: nat, k: nat): nat
    requires AllPointers(data, ptr, k)
    decreases k
  {
    if k == 0 then ptr else Hops(data, Target(data, ptr), k - 1)
  }

  predicate AllPointers(data: seq<byte>, ptr: nat, k: nat)
    decreases k
  {
    k == 0 || (ptr + 1 < |data| && data[ptr] >= 0x40 && AllPointers(data, Target(data, ptr), k - 1))
  }

  lemma {:induction false} HopsAreFollowed(data: seq<byte>, s: Cursor, k: nat)
    requires AllPointers(data, s.ptr, k)
    ensures Follow(data, s, k).Go? && Follow(data, s, k).next.text == s.text
    ensures Follow(data, s, k).next.ptr == Hops(data, s.ptr, k)
    decreases k
  {
    if k > 0 { HopsAreFollowed(data, Jump(s, Target(data, s.ptr)), k - 1); }
  }

  /** A cycle of pointers, such as one to itself. */
  lemma PointerCycleNeverEnds(data: seq<byte>, off: nat, k: nat)
    requires k > 0 && AllPointers(data, off, k) && Hops(data, off, k) == off
    ensures forall n: nat :: QName(data, n, off) == Running
  {
    HopsAreFollowed(data, Start(off), k);
    assert RepeatsAt(data, Start(off), 0, k);
    NeverEndsIffRepeats(data, off);
  }

  /** Four labels of 63 bytes bring the eight-bit write position back to 0, and a pointer behind them leads to the
      first: no pointer leads to another, and the name is never found too long. */
  lemma FullLabelsNeverEnd(data: seq<byte>, off: nat)
    requires off + 257 < |data| && data[off] == data[off + 64] == data[off + 128] == data[off + 192] == 63
    requires data[off + 256] >= 0xC0 && Target(data, off + 256) == off
    ensures forall n: nat :: QName(data, n, off) == Running
    ensures forall k: nat | k > 0 :: !AllPointers(data, off, k)
  {
    var s0 := Start(off);
    var s1 := FullLabel(data, s0);
    var s2 := FullLabel(data, s1);
    var s3 := FullLabel(data, s2);
    var s4 := FullLabel(data, s3);
    var s5 := PointerBack(data, s4, off);
    FiveTurns(data, s0, s1, s2, s3, s4, s5);
    assert RepeatsAt(data, s0, 0, 5);
    NeverEndsIffRepeats(data, off);
    assert forall k: nat | k > 0 :: !AllPointers(data, off, k);
  }

  lemma FullLabel(data: seq<byte>, s: Cursor) returns (t: Cursor)
    requires s.ptr + 64 <= |data| && data[s.ptr] == 63 && |s.text| <= 192
    ensures Turn(data, s) == Go(t) && t.ptr == s.ptr + 64
    ensures |t.text| == if |s.text| == 192 then 0 else |s.text| + 64
  {
    t := Take(s, Word(data, s.ptr));
    assert |Word(data, s.ptr)| == 63;
  }

  lemma PointerBack(data: seq<byte>, s: Cursor, off: nat) returns (t: Cursor)
    requires s.ptr + 1 < |data| && data[s.ptr] >= 0xC0 && Target(data, s.ptr) == off < |data|
    ensures Turn(data, s) == Go(t) && t.ptr == off && t.text == s.text
  {
    t := Jump(s, off);
  }

  lemma FiveTurns(data: seq<byte>, s0: Cursor, s1: Cursor, s2: Cursor, s3: Cursor, s4: Cursor, s5: Cursor)
    requires Turn(data, s0) == Go(s1) && Turn(data, s1) == Go(s2) && Turn(data, s2) == Go(s3)
    requires Turn(data, s3) == Go(s4) && Turn(data, s4) == Go(s5)
    ensures Follow(data, s0, 5) == Go(s5)
  {
    assert Follow(data, s5, 0) == Go(s5);
    assert Follow(data, s4, 1) == Go(s5);
    assert Follow(data, s3, 2) == Go(s5);
    assert Follow(data, s2, 3) == Go(s5);
    assert Follow(data, s1, 4) == Go(s5);
  }

  // ----- pointers -----

  lemma {:induction false} SameText(data: seq<byte>, n: nat, a: Cursor, b: Cursor)
    requires a.ptr == b.ptr && a.text == b.text
    ensures match Walk(data, n, a)
            case Name(text, end) =>
              && Walk(data, n, b).Name? && Walk(data, n, b).text == text && (a.c ==> end == a.off)
            case _ => Walk(data, n, b) == Walk(data, n, a)
    decreases n
  {
    if Turn(data, a).Go? && n > 0 { SameText(data, n - 1, Turn(data, a).next, Turn(data, b).next); }
  }

  /** A pointer, two high bits and the fourteen bits of an offset, stands for the name at that offset and takes two
      octets: RFC 1035 section 4.1.4. */
  lemma PointerStandsFor(data: seq<byte>, ptr: nat, off: nat, n: nat)
    requires ptr + 1 < |data| && off < 0x4000 && data[ptr] == 0xC0 + off / 0x100 && data[ptr + 1] == off % 0x100
    ensures match QName(data, n, off)
            case Name(text, _) => QName(data, n + 1, ptr) == Name(text, ptr + 2)
            case other => QName(data, n + 1, ptr) == other
  {
    assert Target(data, ptr) == off;
    var s := Jump(Start(ptr), off);
    assert Turn(data, Start(ptr)) == Go(s);
    SameText(data, n, s, Start(off));
  }

  // ----- RFC 1035 section 4.1.4 -----

  /** The labels a name stands for: a sequence of labels ending with a zero octet, a pointer (two high bits
      set) to a prior occurrence, or labels ending with a pointer. */
  function Labels(data: seq<byte>, run: nat, ptr: nat): (r: seq<seq<byte>>)
    requires run <= ptr && Sound(data, run, ptr)
    decreases run, |data| - ptr
  {
    if data[ptr] == 0 then []
    else if data[ptr] >= 0xC0 then Labels(data, Target(data, ptr), Target(data, ptr))
    else
      var next := ptr + 1 + data[ptr] as int;
      [data[ptr + 1..next]] + Labels(data, run, next)
  }

  predicate Sound(data: seq<byte>, run: nat, ptr: nat): (r: bool)
    requires run <= ptr
    ensures r ==> Ordered(data, run, ptr)
    decreases run, |data| - ptr
  {
    && ptr < |data|
    && (data[ptr] == 0 ||
        (data[ptr] >= 0xC0 && ptr + 1 < |data| && Target(data, ptr) < run &&
         Sound(data, Target(data, ptr), Target(data, ptr))) ||
        (data[ptr] < 0x40 && ptr + 1 + (data[ptr] as int) < |data| && Sound(data, run, ptr + 1 + data[ptr] as int)))
  }

  /** Octets of the uncompressed labels, the final zero octet not counted. */
  function Octets(ls: seq<seq<byte>>): nat {
    if ls == [] then 0 else 1 + |ls[0]| + Octets(ls[1..])
  }

  /** Every word with a dot behind it. */
  function Dotted(ls: seq<seq<byte>>): (r: seq<byte>)
    ensures |r| == Octets(ls)
  {
    if ls == [] then [] else ls[0] + [0x2E] + Dotted(ls[1..])
  }

  /** Just behind the name at ptr: behind its zero octet or its first pointer. */
  function EndOfName(data: seq<byte>, run: nat, ptr: nat): nat
    requires run <= ptr && Sound(data, run, ptr)
    decreases |data| - ptr
  {
    if data[ptr] == 0 then ptr + 1
    else if data[ptr] >= 0xC0 then ptr + 2
    else EndOfName(data, run, ptr + 1 + data[ptr] as int)
  }

  /** No pointer in the name. */
  predicate Literal(data: seq<byte>, run: nat, ptr: nat)
    requires run <= ptr && Sound(data, run, ptr)
    decreases |data| - ptr
  {
    data[ptr] == 0 || (data[ptr] < 0x40 && Literal(data, run, ptr + 1 + data[ptr] as int))
  }

  /** What get_qname reports as the end of a name that has a pointer is the start of the name plus two. */
  function ReportedEnd(data: seq<byte>, run: nat, ptr: nat, c: bool, off: nat): nat
    requires run <= ptr && Sound(data, run, ptr)
  {
    if c then off else if Literal(data, run, ptr) then EndOfName(data, run, ptr) else off + 2
  }

  /** A label in front of the rest of the name. */
  lemma LabelThenRest(data: seq<byte>, run: nat, s: Cursor)
    requires run <= s.ptr && Sound(data, run, s.ptr) && 0 < data[s.ptr] < 0x40
    requires |s.text| + Octets(Labels(data, run, s.ptr)) <= QNAME_MAX - 1
    ensures var next := Take(s, Word(data, s.ptr));
            && Turn(data, s) == Go(next) && Turns(data, run, s.ptr) == 1 + Turns(data, run, next.ptr)
            && |next.text| + Octets(Labels(data, run, next.ptr)) <= QNAME_MAX - 1
            && s.text + Dotted(Labels(data, run, s.ptr)) == next.text + Dotted(Labels(data, run, next.ptr))
            && (s.c || ReportedEnd(data, run, s.ptr, s.c, s.off) == ReportedEnd(data, run, next.ptr, s.c, s.off))
  {
    var word := Word(data, s.ptr);
    var ls := Labels(data, run, s.ptr + 1 + |word|);
    assert Labels(data, run, s.ptr) == [word] + ls;
    assert ([word] + ls)[1..] == ls;
    assert s.text + (word + [DOT] + Dotted(ls)) == s.text + word + [DOT] + Dotted(ls);
  }

  /** n turns from s give the text so far and the dotted rest of the name. */
  predicate Decodes(data: seq<byte>, n: nat, run: nat, s: Cursor)
    requires run <= s.ptr && Sound(data, run, s.ptr)
  {
    var t := s.text + Dotted(Labels(data, run, s.ptr));
    Walk(data, n, s) == if t == [] then Invalid else Name(t[..|t| - 1], ReportedEnd(data, run, s.ptr, s.c, s.off))
  }

  lemma DecodesAtEnd(data: seq<byte>, n: nat, run: nat, s: Cursor)
    requires run <= s.ptr && Sound(data, run, s.ptr) && data[s.ptr] == 0
    ensures Decodes(data, n, run, s)
  {
    assert s.text + [] == s.text;
  }

  lemma DecodesJump(data: seq<byte>, n: nat, run: nat, s: Cursor)
    requires run <= s.ptr && Sound(data, run, s.ptr) && data[s.ptr] >= 0xC0 && n > 0
    requires var target := Target(data, s.ptr); Decodes(data, n - 1, target, Jump(s, target))
    ensures Decodes(data, n, run, s)
  {
  }

  lemma {:induction false} WalkDecodes(data: seq<byte>, n: nat, run: nat, s: Cursor)
    requires run <= s.ptr && Sound(data, run, s.ptr) && n >= Turns(data, run, s.ptr)
    requires |s.text| + Octets(Labels(data, run, s.ptr)) <= QNAME_MAX - 1
    ensures Decodes(data, n, run, s)
    decreases n
  {
    if data[s.ptr] == 0 {
      DecodesAtEnd(data, n, run, s);
    } else if data[s.ptr] >= 0xC0 {
      var target := Target(data, s.ptr);
      WalkDecodes(data, n - 1, target, Jump(s, target));
      DecodesJump(data, n, run, s);
    } else {
      LabelThenRest(data, run, s);
      WalkDecodes(data, n - 1, run, Take(s, Word(data, s.ptr)));
    }
  }

  /** For every name of at most 255 octets get_qname gives the dotted name, without the last dot; the offset it
      reports is the end of the name exactly if the name has no pointer or begins with one. */
  lemma QNameDecodes(data: seq<byte>, n: nat, off: nat)
    requires Sound(data, off, off) && n >= Turns(data, off, off) && Labels(data, off, off) != []
    requires Octets(Labels(data, off, off)) + 1 <= 255
    ensures var t := Dotted(Labels(data, off, off));
            QName(data, n, off).Name? && |t| > 0 && QName(data, n, off).text == t[..|t| - 1]
    ensures QName(data, n, off).end == EndOfName(data, off, off) <==> Literal(data, off, off) || data[off] >= 0xC0
  {
    var t := Dotted(Labels(data, off, off));
    assert t != [] && [] + t == t;
    assert QName(data, n, off) == Name(t[..|t| - 1], ReportedEnd(data, off, off, false, off)) by {
      WalkDecodes(data, n, off, Start(off));
    }
    ReportedEndIsExact(data, off);
  }

  lemma ReportedEndIsExact(data: seq<byte>, off: nat)
    requires Sound(data, off, off)
    ensures ReportedEnd(data, off, off, false, off) == EndOfName(data, off, off) <==>
            Literal(data, off, off) || data[off] >= 0xC0
  {
    EndBehindLabels(data, off, off);
  }

  lemma {:induction false} EndBehindLabels(data: seq<byte>, run: nat, ptr: nat)
    requires run <= ptr && Sound(data, run, ptr)
    ensures EndOfName(data, run, ptr) >= ptr + 1
    ensures data[ptr] != 0 && data[ptr] < 0x40 && !Literal(data, run, ptr) ==> EndOfName(data, run, ptr) > ptr + 2
    decreases |data| - ptr
  {
    if data[ptr] != 0 && data[ptr] < 0x40 {
      EndBehindLabels(data, run, ptr + 1 + data[ptr] as int);
    }
  }

  /** Where labels are followed by a pointer the reported end is two octets into the first label. */
  lemma ReportedEndIsShort(data: seq<byte>, n: nat, off: nat)
    requires Sound(data, off, off) && n >= Turns(data, off, off) && 0 < data[off] < 0x40 && !Literal(data, off, off)
    requires Octets(Labels(data, off, off)) + 1 <= QNAME_MAX
    ensures QName(data, n, off).Name? && QName(data, n, off).end == off + 2 < EndOfName(data, off, off)
  {
    WalkDecodes(data, n, off, Start(off));
    EndBehindLabels(data, off, off);
  }

  // ----- get_dns_query -----

  datatype Query = Question(qtype: u16, qclass: u16, qname: seq<byte>) | NoQuestion | Outside

  /** qr and opcode, the five high bits of the third header byte, are zero, and there is a question. */
  predicate IsQuery(data: seq<byte>)
    requires |data| >= HEADER_LEN
  {
    data[2] < 8 && Be16(data, 4) > 0
  }

  function DnsQuery(data: seq<byte>, n: nat): Query {
    if |data| < HEADER_LEN + 1 || !IsQuery(data) then NoQuestion
    else
      match QName(data, n, HEADER_LEN)
      case Stray => Outside
      case Running => Outside
      case Invalid => NoQuestion
      case Name(text, end) =>
        if end > 0 && end + 4 == |data| then Question(Be16(data, end), Be16(data, end + 2), text) else NoQuestion
  }

  /** A datagram is taken for a query if and only if it is no response, has opcode 0 and a question, and its first name
      is reported to end four octets before the datagram does; these four are the type and the class. */
  lemma QueryExactly(data: seq<byte>, n: nat, qtype: u16, qclass: u16, name: seq<byte>)
    ensures DnsQuery(data, n) == Question(qtype, qclass, name) <==>
            && |data| > 12 && data[2] / 0x80 == 0 && data[2] / 8 % 16 == 0 && (data[4] > 0 || data[5] > 0)
            && |data| > 4 && QName(data, n, 12) == Name(name, |data| - 4)
            && qtype == 0x100 * (data[|data| - 4] as int) + data[|data| - 3] as int
            && qclass == 0x100 * (data[|data| - 2] as int) + data[|data| - 1] as int
  {
  }

  /** get_dns_query */
  method GetDnsQuery(data: seq<byte>, qname: array<byte>, ghost n: nat) returns (r: int, qtype: u16, qclass: u16)
    requires |data| <= MAX_DATAGRAM && qname.Length == QNAME_MAX + 1 && !DnsQuery(data, n).Outside?
    modifies qname
    ensures r == (if DnsQuery(data, n).Question? then 0 else -1)
    ensures var q := DnsQuery(data, n);
            q.Question? ==> q.qtype == qtype && q.qclass == qclass && |q.qname| <= 255 &&
                            qname[..|q.qname|] == q.qname && qname[|q.qname|] == 0
  {
    qtype, qclass := 0, 0;
    if |data| < HEADER_LEN + 1 {
      return -1, qtype, qclass;
    }
    if data[2] < 8 && Be16(data, 4) > 0 {
      var off := GetQName(data, HEADER_LEN, qname, n);
      if off > 0 && off + 4 == |data| {
        return 0, Be16(data, off), Be16(data, off + 2);
      }
    }
    return -1, qtype, qclass;
  }

  // ----- serializer -----

  predicate GoodLabels(ls: seq<seq<byte>>) {
    forall l | l in ls :: 0 < |l| < 0x40
  }

  /** The labels of a name, each behind its length. */
  function Wire(ls: seq<seq<byte>>): (r: seq<byte>)
    requires GoodLabels(ls)
    ensures |r| == Octets(ls)
  {
    if ls == [] then [] else [|ls[0]|] + ls[0] + Wire(ls[1..])
  }

  /** The labels stand between ptr and end, and a zero byte at end. */
  predicate Spelled(data: seq<byte>, ptr: nat, end: nat, ls: seq<seq<byte>>) {
    GoodLabels(ls) && ptr + Octets(ls) == end < |data| && data[ptr..end] == Wire(ls) && data[end] == 0
  }

  lemma FirstLabel(data: seq<byte>, ptr: nat, end: nat, ls: seq<seq<byte>>)
    requires Spelled(data, ptr, end, ls) && ls != []
    ensures 0 < |ls[0]| < 0x40 && ptr + 1 + |ls[0]| <= end && data[ptr] == |ls[0]| && Word(data, ptr) == ls[0]
    ensures Spelled(data, ptr + 1 + |ls[0]|, end, ls[1..])
  {
    var w, l := data[ptr..end], ls[0];
    assert l in ls;
    FirstWire(ls);
    assert w[1..1 + |l|] == l && w[1 + |l|..] == Wire(ls[1..]);
    assert w[0] == data[ptr];
    Slice(data, ptr, end, 1, 1 + |l|);
    Slice(data, ptr, end, 1 + |l|, |w|);
    assert w[1 + |l|..|w|] == w[1 + |l|..];
  }

  lemma Slice(data: seq<byte>, ptr: nat, end: nat, a: nat, b: nat)
    requires ptr <= end <= |data| && a <= b <= end - ptr
    ensures data[ptr..end][a..b] == data[ptr + a..ptr + b]
  {
    var x, y := data[ptr..end][a..b], data[ptr + a..ptr + b];
    assert |x| == |y| && forall k | 0 <= k < |x| :: x[k] == data[ptr + a + k] == y[k];
  }

  lemma FirstWire(ls: seq<seq<byte>>)
    requires GoodLabels(ls) && ls != []
    ensures 0 < |ls[0]| < 0x40 && GoodLabels(ls[1..]) && Wire(ls) == [|ls[0]|] + ls[0] + Wire(ls[1..])
  {
    assert ls[0] in ls;
    assert forall l | l in ls[1..] :: l in ls;
  }

  /** The labels at ptr, up to a zero octet at `end`, are read as these. */
  predicate ReadsAs(data: seq<byte>, run: nat, ptr: nat, end: nat, ls: seq<seq<byte>>) {
    && run <= ptr && Sound(data, run, ptr) && Labels(data, run, ptr) == ls
    && Literal(data, run, ptr) && Turns(data, run, ptr) == |ls| && EndOfName(data, run, ptr) == end + 1
  }

  lemma {:induction false} WireDecodes(data: seq<byte>, run: nat, ptr: nat, end: nat, ls: seq<seq<byte>>)
    requires run <= ptr && Spelled(data, ptr, end, ls)
    ensures ReadsAs(data, run, ptr, end, ls)
    decreases |ls|
  {
    if ls != [] {
      FirstLabel(data, ptr, end, ls);
      WireDecodes(data, run, ptr + 1 + |ls[0]|, end, ls[1..]);
      LabelInFront(data, run, ptr, end, ls[1..]);
      assert ls == [ls[0]] + ls[1..];
    }
  }

  lemma LabelInFront(data: seq<byte>, run: nat, ptr: nat, end: nat, ls: seq<seq<byte>>)
    requires run <= ptr && ptr < |data| && 0 < data[ptr] < 0x40
    requires var next := ptr + 1 + data[ptr] as int; next <= |data| && ReadsAs(data, run, next, end, ls)
    ensures ReadsAs(data, run, ptr, end, [Word(data, ptr)] + ls)
  {
  }

  /** A query with one question: id, flags with qr and opcode zero, the other counts. */
  function PutQuery(id: u16, flags: byte, more: byte, counts: seq<byte>, ls: seq<seq<byte>>,
                    qtype: u16, qclass: u16): seq<byte>
    requires flags < 8 && |counts| == 6 && GoodLabels(ls)
  {
    Put16(id) + [flags, more] + Put16(1) + counts + Wire(ls) + [0] + Put16(qtype) + Put16(qclass)
  }

  /** Where the parts of the query stand. */
  lemma Layout(head: seq<byte>, name: seq<byte>, qtype: u16, qclass: u16)
    requires |head| == HEADER_LEN
    ensures var data := head + name + [0] + Put16(qtype) + Put16(qclass);
            var end := HEADER_LEN + |name|;
            && data[..HEADER_LEN] == head && data[HEADER_LEN..end] == name && data[end] == 0
            && Be16(data, end + 1) == qtype && Be16(data, end + 3) == qclass
            && data[2] == head[2] && Be16(data, 4) == Be16(head, 4)
  {
    var data := head + name + [0] + Put16(qtype) + Put16(qclass);
    var end := HEADER_LEN + |name|;
    assert data[end + 1..end + 3] == Put16(qtype) && data[end + 3..end + 5] == Put16(qclass);
  }

  lemma NameOfWire(data: seq<byte>, n: nat, end: nat, ls: seq<seq<byte>>)
    requires Spelled(data, HEADER_LEN, end, ls) && ls != [] && Octets(ls) + 1 <= QNAME_MAX && n >= |ls|
    ensures var t := Dotted(ls);
            |t| > 0 && QName(data, n, HEADER_LEN) == Name(t[..|t| - 1], end + 1)
  {
    WireDecodes(data, HEADER_LEN, HEADER_LEN, end, ls);
    QNameDecodes(data, n, HEADER_LEN);
  }

  lemma QueryOfName(data: seq<byte>, n: nat, text: seq<byte>, end: nat)
    requires |data| > HEADER_LEN && IsQuery(data)
    requires QName(data, n, HEADER_LEN) == Name(text, end) && 0 < end && end + 4 == |data|
    ensures DnsQuery(data, n) == Question(Be16(data, end), Be16(data, end + 2), text)
  {
  }

  lemma QueryBehind(head: seq<byte>, ls: seq<seq<byte>>, qtype: u16, qclass: u16, n: nat)
    requires |head| == HEADER_LEN && IsQuery(head)
    requires GoodLabels(ls) && ls != [] && Octets(ls) + 1 <= QNAME_MAX && n >= |ls|
    ensures var t := Dotted(ls);
            && |t| > 0
            && DnsQuery(head + Wire(ls) + [0] + Put16(qtype) + Put16(qclass), n)
               == Question(qtype, qclass, t[..|t| - 1])
  {
    var data := head + Wire(ls) + [0] + Put16(qtype) + Put16(qclass);
    var end := HEADER_LEN + Octets(ls);
    Layout(head, Wire(ls), qtype, qclass);
    SpelledBehind(head, ls, qtype, qclass);
    NameOfWire(data, n, end, ls);
    var t := Dotted(ls);
    QueryOfName(data, n, t[..|t| - 1], end + 1);
  }

  lemma SpelledBehind(head: seq<byte>, ls: seq<seq<byte>>, qtype: u16, qclass: u16)
    requires |head| == HEADER_LEN && GoodLabels(ls)
    ensures var data := head + Wire(ls) + [0] + Put16(qtype) + Put16(qclass);
            Spelled(data, HEADER_LEN, HEADER_LEN + Octets(ls), ls)
  {
    Layout(head, Wire(ls), qtype, qclass);
  }

  /** Parsing a serialized one-question query gives back its type, its class and its name in dotted form. */
  lemma QueryRoundTrip(id: u16, flags: byte, more: byte, counts: seq<byte>, ls: seq<seq<byte>>,
                       qtype: u16, qclass: u16, n: nat)
    requires flags < 8 && |counts| == 6 && GoodLabels(ls) && ls != [] && Octets(ls) + 1 <= 255 && n >= |ls|
    ensures var t := Dotted(ls);
            && |t| > 0
            && DnsQuery(PutQuery(id, flags, more, counts, ls, qtype, qclass), n)
               == Question(qtype, qclass, t[..|t| - 1])
  {
    var head := Put16(id) + [flags, more] + Put16(1) + counts;
    assert head[2] == flags && Be16(head, 4) == 1;
    QueryBehind(head, ls, qtype, qclass, n);
  }
}
