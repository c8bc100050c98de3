/** The walk over the options of a SYN in handle_tcp (tcp.c). */
module TcpOptions {
  import opened Serial
  import opened Bytes
  import opened InternetChecksum
  import SegmentWriter

  /** What the SYN asks for; a read outside the packet; or a walk that has not come to an end yet. */
  datatype Outcome = Asked(mss: u16, scale: byte) | Stray | Running

  /** tcpoptlen, the uint8_t of four times what the data offset has above five. */
  function OptionBytes(doff: nat): byte
    requires doff < 16
  {
    (doff - 5) * 4 % 0x100
  }

  // ----- the walk -----

  /** Where the loop is: the options pointer, optlen, and what was found so far. */
  datatype Cursor = Cursor(at: nat, optlen: int, mss: u16, scale: byte)
  datatype Turned = Halt(outcome: Outcome) | Go(next: Cursor)

  function Start(optlen: byte, mss: u16): Cursor { Cursor(0, optlen, mss, 0) }

  predicate InPacket(mem: seq<byte>, at: nat) {
    && at + 1 < |mem|
    && (mem[at] == 2 && mem[at + 1] == 4 ==> at + 3 < |mem|)
    && (mem[at] == 3 && mem[at + 1] == 3 ==> at + 2 < |mem|)
  }

  /** Bytes the walk moves on by. */
  function Advance(mem: seq<byte>, at: nat): byte
    requires at + 1 < |mem|
  {
    if mem[at] == 1 then 1 else mem[at + 1]
  }

  /** One turn of the loop, over the bytes that can be read from the options on. */
  function Turn(mem: seq<byte>, c: Cursor): Turned {
    if c.optlen <= 0 then Halt(Asked(c.mss, c.scale))
    else if c.at + 1 >= |mem| then Halt(Stray)
    else if mem[c.at] == 0 then Halt(Asked(c.mss, c.scale))
    else if !InPacket(mem, c.at) then Halt(Stray)
    else
      var step: nat := Advance(mem, c.at) as int;
      Go(Cursor(c.at + step, c.optlen - step,
                if mem[c.at] == 2 && mem[c.at + 1] == 4 then Be16(mem, c.at + 2) else c.mss,
                if mem[c.at] == 3 && mem[c.at + 1] == 3 then mem[c.at + 2] else c.scale))
  }

  /** n turns */
  function Walk(mem: seq<byte>, n: nat, c: Cursor): Outcome {
    match Turn(mem, c)
    case Halt(outcome) => outcome
    case Go(next) => if n == 0 then Running else Walk(mem, n - 1, next)
  }

  /** The option loop of handle_tcp, for a walk that stays in the packet and ends, after n turns at most. */
  method DecodeOptions(mem: seq<byte>, tcpoptlen: byte, defaultMss: u16, ghost n: nat) returns (mss: u16, ws: byte)
    requires Walk(mem, n, Start(tcpoptlen, defaultMss)).Asked?
    ensures Walk(mem, n, Start(tcpoptlen, defaultMss)) == Asked(mss, ws)
  {
    mss, ws := defaultMss, 0;
    var optlen: int, options: nat := tcpoptlen, 0;
    ghost var turns := n;
    while optlen > 0
      invariant turns >= 0
      invariant Walk(mem, turns, Cursor(options, optlen, mss, ws)) == Walk(mem, n, Start(tcpoptlen, defaultMss))
      decreases turns
    {
      var kind := mem[options];
      var len := mem[options + 1];
      if kind == 0 {
        break;
      }
      if kind == 2 && len == 4 {
        mss := Be16(mem, options + 2);
      } else if kind == 3 && len == 3 {
        ws := mem[options + 2];
      }
      if kind == 1 {
        optlen := optlen - 1;
        options := options + 1;
      } else {
        optlen := optlen - len;
        options := options + len as int;
      }
      turns := turns - 1;
    }
  }

  // ----- when the walk ends -----

  /** The walk comes to an option whose length byte is zero and that is neither a no-op nor the end. */
  predicate Stuck(mem: seq<byte>, at: nat, optlen: int)
    decreases optlen
  {
    && optlen > 0
    && InPacket(mem, at)
    && mem[at] != 0
    && (Advance(mem, at) == 0 || Stuck(mem, at + Advance(mem, at) as int, optlen - Advance(mem, at) as int))
  }

  lemma {:induction false} StuckRuns(mem: seq<byte>, n: nat, c: Cursor)
    requires Stuck(mem, c.at, c.optlen)
    ensures Walk(mem, n, c) == Running
    decreases n
  {
    if n > 0 {
      StuckRuns(mem, n - 1, Turn(mem, c).next);
    }
  }

  lemma {:induction false} OthersEnd(mem: seq<byte>, n: nat, c: Cursor)
    requires !Stuck(mem, c.at, c.optlen) && n >= c.optlen
    ensures Walk(mem, n, c) != Running
    decreases n
  {
    if Turn(mem, c).Go? {
      OthersEnd(mem, n - 1, Turn(mem, c).next);
    }
  }

  /** The loop runs for ever exactly on an option of length zero: no number of turns brings it to an end, and
      without one it has ended after as many turns as there are option bytes. */
  lemma EndsExactlyUnlessStuck(mem: seq<byte>, optlen: byte, mss: u16)
    ensures Stuck(mem, 0, optlen) <==> Walk(mem, optlen, Start(optlen, mss)) == Running
    ensures Stuck(mem, 0, optlen) <==> forall n: nat :: Walk(mem, n, Start(optlen, mss)) == Running
  {
    if Stuck(mem, 0, optlen) {
      forall n: nat ensures Walk(mem, n, Start(optlen, mss)) == Running {
        StuckRuns(mem, n, Start(optlen, mss));
      }
    } else {
      OthersEnd(mem, optlen, Start(optlen, mss));
    }
  }

  /** The option bytes are those of the header behind its first twenty; a data offset below 5 is not refused, and gives
      up to 252 of them. */
  lemma OptionBytesAre(doff: nat)
    requires doff < 16
    ensures OptionBytes(doff) == if doff >= 5 then 4 * doff - 20 else 236 + 4 * doff
  {
  }

  /** Kind 2 and four bytes, of which the length is zero: the first packet of a session can hang the loop. */
  lemma ZeroLengthHangs(mss: u16)
    ensures forall n: nat :: Walk([2, 0, 0, 0], n, Start(OptionBytes(6), mss)) == Running
  {
    assert Stuck([2, 0, 0, 0], 0, 4);
    EndsExactlyUnlessStuck([2, 0, 0, 0], 4, mss);
  }

  // ----- RFC 9293 section 3.1 -----

  /** No-op, maximum segment size, window scale (RFC 7323 section 2.2), and any other kind, whose length counts
      the kind and the length byte. */
  datatype Item = Nop | Mss(value: u16) | Scale(shift: byte) | Other(kind: byte, body: seq<byte>)

  predicate WellFormed(x: Item) {
    x.Other? ==>
      && x.kind > 1 && |x.body| <= 253
      && !(x.kind == 2 && |x.body| == 2) && !(x.kind == 3 && |x.body| == 1)
  }

  predicate AllWellFormed(xs: seq<Item>) { forall x | x in xs :: WellFormed(x) }

  function Put(x: Item): (r: seq<byte>)
    requires WellFormed(x)
    ensures |r| > 0
  {
    match x
    case Nop => [1]
    case Mss(value) => [2, 4] + Put16(value)
    case Scale(shift) => [3, 3, shift]
    case Other(kind, body) => [kind, |body| + 2] + body
  }

  function PutAll(xs: seq<Item>): seq<byte>
    requires AllWellFormed(xs)
  {
    if xs == [] then [] else Put(xs[0]) + PutAll(xs[1..])
  }

  /** The value of the last MSS option, counted from the end. */
  function LastMss(xs: seq<Item>, default: u16): u16 {
    if xs == [] then default
    else if xs[|xs| - 1].Mss? then xs[|xs| - 1].value
    else LastMss(xs[..|xs| - 1], default)
  }

  function LastScale(xs: seq<Item>, default: byte): byte {
    if xs == [] then default
    else if xs[|xs| - 1].Scale? then xs[|xs| - 1].shift
    else LastScale(xs[..|xs| - 1], default)
  }

  lemma {:induction false} LastOfRest(xs: seq<Item>, mss: u16, scale: byte)
    requires xs != []
    ensures LastMss(xs, mss) == LastMss(xs[1..], if xs[0].Mss? then xs[0].value else mss)
    ensures LastScale(xs, scale) == LastScale(xs[1..], if xs[0].Scale? then xs[0].shift else scale)
  {
    if |xs| > 1 {
      var front := xs[..|xs| - 1];
      LastOfRest(front, mss, scale);
      assert front[1..] == xs[1..][..|xs| - 2];
    }
  }

  function Found(c: Cursor, x: Item): Cursor
    requires WellFormed(x)
  {
    Cursor(c.at + |Put(x)|, c.optlen - |Put(x)|,
           if x.Mss? then x.value else c.mss, if x.Scale? then x.shift else c.scale)
  }

  /** One turn reads exactly one option. */
  lemma TurnReads(mem: seq<byte>, c: Cursor, x: Item)
    requires WellFormed(x) && c.at + |Put(x)| < |mem| && mem[c.at..c.at + |Put(x)|] == Put(x)
    requires c.optlen >= |Put(x)|
    ensures Turn(mem, c) == Go(Found(c, x))
  {
    SameBytes(mem, c.at, Put(x));
    match x {
      case Nop =>
      case Mss(value) => MssReads(mem, c.at, value);
      case Scale(shift) => assert Put(x)[2] == shift;
      case Other(kind, body) => assert Put(x)[0] == kind && Put(x)[1] == 2 + |body|;
    }
  }

  lemma MssReads(mem: seq<byte>, at: nat, value: u16)
    requires at + 4 <= |mem| && mem[at..at + 4] == [2, 4] + Put16(value)
    ensures mem[at] == 2 && mem[at + 1] == 4 && Be16(mem, at + 2) == value
  {
    var w := mem[at..at + 4];
    assert w[0] == mem[at] && w[1] == mem[at + 1] && w[2] == mem[at + 2] && w[3] == mem[at + 3];
  }

  lemma SameBytes(mem: seq<byte>, at: nat, w: seq<byte>)
    requires at + |w| <= |mem| && mem[at..at + |w|] == w
    ensures forall k | 0 <= k < |w| :: mem[at + k] == w[k]
    ensures w != [] ==> mem[at] == w[0]
  {
    var r := mem[at..at + |w|];
    assert forall k | 0 <= k < |r| :: mem[at + k] == r[k];
    if w != [] { assert mem[at + 0] == w[0]; }
  }

  predicate Holds(mem: seq<byte>, at: nat, end: nat, xs: seq<Item>) {
    AllWellFormed(xs) && at + |PutAll(xs)| == end < |mem| && mem[at..end] == PutAll(xs)
  }

  lemma HoldsRest(mem: seq<byte>, at: nat, end: nat, xs: seq<Item>)
    requires Holds(mem, at, end, xs) && xs != []
    ensures WellFormed(xs[0]) && at + |Put(xs[0])| <= end < |mem| && mem[at..at + |Put(xs[0])|] == Put(xs[0])
    ensures Holds(mem, at + |Put(xs[0])|, end, xs[1..])
  {
    FirstItem(xs);
    SplitAt(mem, at, end, Put(xs[0]), PutAll(xs[1..]));
  }

  lemma FirstItem(xs: seq<Item>)
    requires AllWellFormed(xs) && xs != []
    ensures WellFormed(xs[0]) && AllWellFormed(xs[1..]) && PutAll(xs) == Put(xs[0]) + PutAll(xs[1..])
  {
    assert xs[0] in xs;
    assert forall x | x in xs[1..] :: x in xs;
  }

  /** The options fill the option bytes, or an end-of-list option behind them ends the list. */
  predicate Ended(mem: seq<byte>, c: Cursor, end: nat)
    requires end < |mem|
  {
    c.optlen == end - c.at || (c.optlen > end - c.at && mem[end] == 0 && end + 1 < |mem|)
  }

  lemma OneTurn(mem: seq<byte>, n: nat, c: Cursor, end: nat, xs: seq<Item>)
    requires Holds(mem, c.at, end, xs) && Ended(mem, c, end) && xs != [] && n > 0
    ensures WellFormed(xs[0])
    ensures var next := Found(c, xs[0]);
            Walk(mem, n, c) == Walk(mem, n - 1, next) && Holds(mem, next.at, end, xs[1..]) && Ended(mem, next, end)
  {
    HoldsRest(mem, c.at, end, xs);
    TurnReads(mem, c, xs[0]);
  }

  /** For every list of options, with anything behind it: the walk ends and finds the last MSS and the last
      window scale. */
  lemma {:induction false} LastOptionsWin(mem: seq<byte>, n: nat, c: Cursor, end: nat, xs: seq<Item>)
    requires Holds(mem, c.at, end, xs) && Ended(mem, c, end) && n >= |xs|
    ensures Walk(mem, n, c) == Asked(LastMss(xs, c.mss), LastScale(xs, c.scale))
    decreases |xs|
  {
    if xs == [] {
      assert Turn(mem, c) == Halt(Asked(c.mss, c.scale));
    } else {
      OneTurn(mem, n, c, end, xs);
      LastOptionsWin(mem, n - 1, Found(c, xs[0]), end, xs[1..]);
      LastOfRest(xs, c.mss, c.scale);
    }
  }

  lemma SplitAt(mem: seq<byte>, at: nat, end: nat, p: seq<byte>, q: seq<byte>)
    requires at + |p| + |q| == end <= |mem| && mem[at..end] == p + q
    ensures mem[at..at + |p|] == p && mem[at + |p|..end] == q
  {
    var w := mem[at..end];
    assert w[..|p|] == p && w[|p|..] == q;
    assert forall k | 0 <= k < |w| :: mem[at + k] == w[k];
  }

  /** What handle_tcp takes from a SYN whose header holds these options, padded with zeros, before any payload. */
  lemma SynOptions(xs: seq<Item>, padding: nat, payload: seq<byte>, mss: u16)
    requires AllWellFormed(xs) && |PutAll(xs)| + padding < 0x100
    requires padding > 1 || payload != []
    ensures var mem := PutAll(xs) + seq(padding, _ => 0) + payload;
            Walk(mem, |xs|, Start(|PutAll(xs)| + padding, mss)) == Asked(LastMss(xs, mss), LastScale(xs, 0))
  {
    var mem := PutAll(xs) + seq(padding, _ => 0) + payload;
    assert mem[0..|PutAll(xs)|] == PutAll(xs);
    LastOptionsWin(mem, |xs|, Start(|PutAll(xs)| + padding, mss), |PutAll(xs)|, xs);
  }

  /** What the same grammar reads in the options write_tcp puts on a SYN: the window scale that was meant, and
      the MSS with its two bytes exchanged, which is the one that was meant only if they are equal. */
  lemma AnswerIsReadSwapped(h: SegmentWriter.TcpFields, mss: u16, scale: byte, after: seq<byte>, other: u16)
    requires h.syn && after != []
    ensures var mem := SegmentWriter.TcpOptions(h, mss, scale) + after;
            Walk(mem, 2, Start(8, other)) == Asked(Swap16(mss), scale)
    ensures Swap16(mss) == mss <==> mss / 0x100 == mss % 0x100
  {
    var xs := [Mss(Swap16(mss)), Scale(scale)];
    var mem := SegmentWriter.TcpOptions(h, mss, scale) + after;
    assert xs[1..] == [Scale(scale)] && xs[1..][1..] == [];
    assert PutAll(xs) == [2, 4] + Put16(Swap16(mss)) + [3, 3, scale] by {
      assert PutAll(xs[1..]) == [3, 3, scale];
    }
    assert mem[0..7] == PutAll(xs) && mem[7] == 0;
    LastOptionsWin(mem, 2, Start(8, other), 7, xs);
    assert xs[..1] == [Mss(Swap16(mss))];
  }
}
