/** The packets write_tcp and write_udp build, byte by byte, and the checksums in them. */
module SegmentWriter {
  import opened Serial
  import opened Bytes
  import opened InternetChecksum

  const PROTO_TCP: byte := 6
  const PROTO_UDP: byte := 17
  const DEFAULT_TTL: byte := 64

  // ----- bytes on the wire -----

  function Put32(x: u32): (r: seq<byte>)
    ensures |r| == 4
  {
    Put16(x / 0x1_0000) + Put16(x % 0x1_0000)
  }

  /** A uint16_t as a little-endian machine stores it. */
  function Le16(x: u16): (r: seq<byte>)
    ensures |r| == 2
  {
    [x % 0x100, x / 0x100]
  }

  function Be32(b: seq<byte>, at: nat): u32
    requires at + 4 <= |b|
  {
    0x1_0000 * (Be16(b, at) as int) + Be16(b, at + 2) as int
  }

  // ----- addresses and pseudo-headers -----

  /** Addresses (network order) and ports of a session, as the app's packets carry them: from source to dest. */
  datatype RawFlow = Flow(saddr: seq<byte>, daddr: seq<byte>, source: u16, dest: u16)
  type Flow = f: RawFlow | |f.saddr| == |f.daddr| && (|f.saddr| == 4 || |f.saddr| == 16)
    witness RawFlow.Flow([0, 0, 0, 0], [0, 0, 0, 0], 0, 0)

  /** The pseudo-header a receiver uses: RFC 9293 section 3.1 over IPv4, RFC 8200 section 8.1 over IPv6. */
  function StandardPseudo(src: seq<byte>, dst: seq<byte>, proto: byte, len: u16): seq<byte>
    requires |src| == |dst| && (|src| == 4 || |src| == 16)
  {
    if |src| == 4 then src + dst + [0, proto] + Put16(len)
    else src + dst + ([0, 0] + Put16(len)) + [0, 0, 0, proto]
  }

  /** The pseudo-header the source builds for an answer to flow f. For IPv6 it has the two addresses the other
      way round, and the 16-bit length in the first half of the 32-bit field. */
  function BuiltPseudo(f: Flow, proto: byte, len: u16): seq<byte> {
    if |f.saddr| == 4 then f.daddr + f.saddr + [0, proto] + Put16(len)
    else f.saddr + f.daddr + (Put16(len) + [0, 0]) + [0, 0, 0, proto]
  }

  lemma PairSum(a: seq<byte>, b: seq<byte>)
    requires |a| % 2 == 0
    ensures WordSum(a + b) == WordSum(a) + WordSum(b)
  {
    WordSumConcat(a, b);
  }

  /** Swapping 16-bit words does not change their sum. */
  lemma PseudoSums(f: Flow, proto: byte, len: u16)
    ensures |BuiltPseudo(f, proto, len)| % 2 == 0
    ensures WordSum(BuiltPseudo(f, proto, len)) == WordSum(StandardPseudo(f.daddr, f.saddr, proto, len))
  {
    if |f.saddr| == 16 {
      var l, p := Put16(len), [0, 0, 0, proto];
      var built, standard := l + [0, 0], [0, 0] + l;
      PairSum(l, [0, 0]);
      PairSum([0, 0], l);
      PairSum(f.saddr, f.daddr);
      PairSum(f.daddr, f.saddr);
      PairSum(f.saddr + f.daddr, built);
      PairSum(f.daddr + f.saddr, standard);
      PairSum(f.saddr + f.daddr + built, p);
      PairSum(f.daddr + f.saddr + standard, p);
    }
  }

  // ----- sealing: storing the complement of the sum in the zeroed checksum field -----

  lemma ComplementCompletes(n: nat)
    ensures Fold(n + Complement(Fold(n))) == 0xFFFF
  {
    FoldIsResidue(n);
    FoldIsResidue(n + Complement(Fold(n)));
    ResidueCompletes(n);
  }

  lemma ResidueCompletes(n: nat)
    ensures Residue(n + (0xFFFF - Residue(n))) == 0xFFFF
  {
    if n > 0 {
      var k := (n - 1) / 0xFFFF;
      assert n == 0xFFFF * k + Residue(n);
      assert n + (0xFFFF - Residue(n)) - 1 == 0xFFFE + 0xFFFF * k;
      AddMultiple(0xFFFE, k);
    }
  }

  lemma FieldSum(before: seq<byte>, x: u16, after: seq<byte>)
    requires |before| % 2 == 0
    ensures WordSum(before + Le16(x) + after) == WordSum(before) + x + WordSum(after)
  {
    PairSum(before, Le16(x));
    PairSum(before + Le16(x), after);
  }

  /** Once the complement of the sum of everything, checksum field zero, is stored in that field,
      everything sums to 0xFFFF: the test of RFC 1071 section 1. */
  lemma SealedSum(pseudo: seq<byte>, before: seq<byte>, after: seq<byte>, csum: u16)
    requires |pseudo| % 2 == 0 && |before| % 2 == 0
    requires csum == Fold(WordSum(pseudo) + WordSum(before + Le16(0) + after))
    ensures Checksum(0, pseudo + (before + Le16(Complement(csum)) + after)) == 0xFFFF
  {
    FieldSum(before, 0, after);
    FieldTotal(pseudo, before, Complement(csum), after);
    TotalCompletes(WordSum(pseudo) + WordSum(before + Le16(0) + after), csum,
                   WordSum(pseudo + (before + Le16(Complement(csum)) + after)));
  }

  lemma TotalCompletes(n: nat, csum: u16, total: nat)
    requires csum == Fold(n) && total == n + Complement(csum)
    ensures Fold(0 + total) == 0xFFFF
  {
    ComplementCompletes(n);
  }

  lemma FieldTotal(pseudo: seq<byte>, before: seq<byte>, x: u16, after: seq<byte>)
    requires |pseudo| % 2 == 0 && |before| % 2 == 0
    ensures WordSum(pseudo + (before + Le16(x) + after)) == WordSum(pseudo) + WordSum(before) + WordSum(after) + x
  {
    FieldSum(before, x, after);
    PairSum(pseudo, before + Le16(x) + after);
  }

  // ----- headers -----

  /** IPv4 header of an answer before its checksum field. */
  function Ip4Head(f: Flow, proto: byte, total: u16): (r: seq<byte>)
    ensures |r| == 10
  {
    [0x45, 0] + Put16(total) + [0, 0, 0, 0, DEFAULT_TTL, proto]
  }

  /** IPv6 header of an answer. */
  function Ip6Header(f: Flow, proto: byte, payload: u16): (r: seq<byte>)
    requires |f.saddr| == 16
    ensures |r| == 40
  {
    [0x60, 0, 0, 0] + Put16(payload) + [proto, DEFAULT_TTL] + f.daddr + f.saddr
  }

  datatype TcpFields = TcpFields(seqNo: u32, ackNo: u32, syn: bool, ack: bool, fin: bool, rst: bool, window: u16)

  function Bit(b: bool, value: nat): nat { if b then value else 0 }

  function FlagByte(h: TcpFields): byte {
    Bit(h.fin, 1) + Bit(h.syn, 2) + Bit(h.rst, 4) + Bit(h.ack, 16)
  }

  function OptionLength(h: TcpFields): nat { if h.syn then 8 else 0 }

  /** TCP header of an answer before its checksum field. */
  function TcpHead(f: Flow, h: TcpFields): (r: seq<byte>)
    ensures |r| == 16
  {
    Put16(f.dest) + Put16(f.source) + Put32(h.seqNo) + Put32(if h.ack then h.ackNo else 0)
    + [(20 + OptionLength(h)) / 4 * 16, FlagByte(h)] + Put16(h.window)
  }

  /** The options of a SYN: MSS in host byte order, as the source stores it, window scale, end. */
  function TcpOptions(h: TcpFields, mss: u16, scale: byte): (r: seq<byte>)
    ensures |r| == OptionLength(h)
  {
    if h.syn then [2, 4] + Le16(mss) + [3, 3, scale, 0] else []
  }

  // ----- write_tcp -----

  /** memcpy */
  method Put(buffer: array<byte>, at: nat, bytes: seq<byte>)
    requires at + |bytes| <= buffer.Length
    modifies buffer
    ensures buffer[..] == old(buffer[..at]) + bytes + old(buffer[at + |bytes|..])
  {
    ghost var was := buffer[..];
    var i := 0;
    while i < |bytes|
      invariant 0 <= i <= |bytes|
      invariant buffer[..] == was[..at] + bytes[..i] + was[at + i..]
    {
      ghost var now := buffer[..];
      buffer[at + i] := bytes[i];
      assert buffer[..] == now[at + i := bytes[i]];
      OneMore(was, bytes, at, i);
      i := i + 1;
    }
    assert bytes[..i] == bytes;
  }

  lemma OneMore(was: seq<byte>, bytes: seq<byte>, at: nat, i: nat)
    requires at + |bytes| <= |was| && i < |bytes|
    ensures (was[..at] + bytes[..i] + was[at + i..])[at + i := bytes[i]] ==
            was[..at] + bytes[..i + 1] + was[at + (i + 1)..]
  {
    var front, rest := was[..at] + bytes[..i], was[at + i..];
    assert |front| == at + i && rest[1..] == was[at + (i + 1)..];
    assert (front + rest)[at + i := bytes[i]] == front + [bytes[i]] + rest[1..];
    assert bytes[..i + 1] == bytes[..i] + [bytes[i]];
  }

  function HeaderLength(f: Flow): nat { if |f.saddr| == 4 then 20 else 40 }

  /** The IP header write_tcp and write_udp put in front of `len` bytes. */
  method PutIpHeader(buffer: array<byte>, f: Flow, proto: byte, len: nat)
    requires buffer.Length == HeaderLength(f) + len < 0x1_0000
    modifies buffer
    ensures IpHeaderOk(buffer[..HeaderLength(f)], f, proto, len)
    ensures buffer[HeaderLength(f)..] == old(buffer[HeaderLength(f)..])
  {
    if |f.saddr| == 4 {
      var head, addresses := Ip4Head(f, proto, 20 + len), f.daddr + f.saddr;
      var csum := CalcChecksum(0, head + Le16(0) + addresses);
      SealedSum([], head, addresses, csum);
      var header := head + Le16(Complement(csum)) + addresses;
      assert [] + header == header;
      Ip4Reads(f, proto, len, Le16(Complement(csum)));
      Put(buffer, 0, header);
      assert buffer[..20] == header;
    } else {
      var header := Ip6Header(f, proto, len);
      Ip6Reads(f, proto, len);
      Put(buffer, 0, header);
      assert buffer[..40] == header;
    }
  }

  lemma Ip4Reads(f: Flow, proto: byte, len: nat, check: seq<byte>)
    requires |f.saddr| == 4 && |check| == 2 && 20 + len < 0x1_0000
    ensures var b := Ip4Head(f, proto, 20 + len) + check + (f.daddr + f.saddr);
            && |b| == 20 && b[0] == 0x45 && Be16(b, 2) == 20 + len && b[9] == proto
            && b[12..16] == f.daddr && b[16..20] == f.saddr
            && b[1] == 0 && b[4..8] == [0, 0, 0, 0] && b[8] == 64
  {
    var head := Ip4Head(f, proto, 20 + len);
    assert head[2..4] == Put16(20 + len) && head[9] == proto;
    var b := head + check + (f.daddr + f.saddr);
    assert b[..10] == head && b[2..4] == head[2..4] && b[9] == head[9];
    assert b[1] == head[1] && b[4..8] == head[4..8] && b[8] == head[8];
  }

  lemma Ip6Reads(f: Flow, proto: byte, len: u16)
    requires |f.saddr| == 16
    ensures var b := Ip6Header(f, proto, len);
            && b[0] == 0x60 && Be16(b, 4) == len && b[6] == proto && b[8..24] == f.daddr && b[24..40] == f.saddr
            && b[1..4] == [0, 0, 0] && b[7] == 64
  {
    var start := [0x60, 0, 0, 0] + Put16(len) + [proto, DEFAULT_TTL];
    assert |start| == 8 && start[4..6] == Put16(len) && start[1..4] == [0, 0, 0] && start[7] == 64;
    FourParts(start, f.daddr, f.saddr);
    assert Ip6Header(f, proto, len) == start + f.daddr + f.saddr;
  }

  lemma FourParts(start: seq<byte>, daddr: seq<byte>, saddr: seq<byte>)
    requires |start| == 8 && |daddr| == |saddr| == 16
    ensures var b := start + daddr + saddr;
            && b[..8] == start && b[4..6] == start[4..6] && b[8..24] == daddr && b[24..40] == saddr
            && b[1..4] == start[1..4]
  {
  }

  /** The header leads back from dest to source, carries the lengths of the packet and a time to live of 64, neither
      fragment nor traffic class nor flow label, and an IPv4 header sums to 0xFFFF. */
  predicate IpHeaderOk(b: seq<byte>, f: Flow, proto: byte, len: nat)
    requires |b| == HeaderLength(f)
  {
    if |f.saddr| == 4 then
      && b[0] == 0x45 && Be16(b, 2) == 20 + len && b[9] == proto
      && b[12..16] == f.daddr && b[16..20] == f.saddr && Checksum(0, b) == 0xFFFF
      && b[1] == 0 && b[4..8] == [0, 0, 0, 0] && b[8] == 64
    else
      && b[0] == 0x60 && Be16(b, 4) == len && b[6] == proto
      && b[8..24] == f.daddr && b[24..40] == f.saddr
      && b[1..4] == [0, 0, 0] && b[7] == 64
  }

  /** Every field a receiver reads from the TCP header; no other flag is set and nothing is urgent. */
  predicate TcpHeaderOk(s: seq<byte>, f: Flow, h: TcpFields) {
    && |s| >= 20
    && Be16(s, 0) == f.dest && Be16(s, 2) == f.source
    && Be32(s, 4) == h.seqNo && Be32(s, 8) == (if h.ack then h.ackNo else 0)
    && s[12] / 16 * 4 == 20 + OptionLength(h)
    && (s[13] % 2 == 1 <==> h.fin) && (s[13] / 2 % 2 == 1 <==> h.syn)
    && (s[13] / 4 % 2 == 1 <==> h.rst) && (s[13] / 16 % 2 == 1 <==> h.ack)
    && s[13] / 8 % 2 == 0 && s[13] < 32 && s[12] % 16 == 0
    && Be16(s, 14) == h.window && s[18] == 0 && s[19] == 0
  }

  /** s sums to 0xFFFF with the standard pseudo-header of the answer to f. */
  predicate Verifies(s: seq<byte>, f: Flow, proto: byte) {
    |s| < 0x1_0000 && Checksum(0, StandardPseudo(f.daddr, f.saddr, proto, |s|) + s) == 0xFFFF
  }

  /** A segment of len bytes whose checksum field holds the complement of the sum over the built pseudo-header
      and the rest verifies against the standard one. */
  lemma BuiltSegmentVerifies(f: Flow, proto: byte, before: seq<byte>, after: seq<byte>,
                             len: u16, pseudo: nat, csum: u16)
    requires |before| % 2 == 0 && len == |before| + 2 + |after|
    requires pseudo == WordSum(BuiltPseudo(f, proto, len))
    requires csum == Fold(pseudo + WordSum(before + Le16(0) + after))
    ensures Verifies(before + Le16(Complement(csum)) + after, f, proto)
  {
    PseudoSums(f, proto, len);
    SealAgainst(StandardPseudo(f.daddr, f.saddr, proto, len), pseudo, before, after, csum);
    assert |before + Le16(Complement(csum)) + after| == len;
  }

  lemma SealAgainst(standard: seq<byte>, pseudo: nat, before: seq<byte>, after: seq<byte>, csum: u16)
    requires |standard| % 2 == 0 && |before| % 2 == 0 && WordSum(standard) == pseudo
    requires csum == Fold(pseudo + WordSum(before + Le16(0) + after))
    ensures Checksum(0, standard + (before + Le16(Complement(csum)) + after)) == 0xFFFF
  {
    SealedSum(standard, before, after, csum);
  }

  lemma HeadReads(f: Flow, h: TcpFields, rest: seq<byte>)
    requires |rest| >= 4 && rest[2] == 0 && rest[3] == 0
    ensures TcpHeaderOk(TcpHead(f, h) + rest, f, h)
  {
    var s := TcpHead(f, h) + rest;
    assert s[0..2] == Put16(f.dest) && s[2..4] == Put16(f.source);
    assert s[4..8] == Put32(h.seqNo) && s[8..12] == Put32(if h.ack then h.ackNo else 0);
    assert s[12] == (20 + OptionLength(h)) / 4 * 16 && s[13] == FlagByte(h);
    assert s[14..16] == Put16(h.window) && s[18] == rest[2] && s[19] == rest[3];
  }

  /** Continuing a checksum with another piece adds the piece to the total. */
  method Continue(csum: u16, piece: seq<byte>, ghost total: nat) returns (r: u16)
    requires csum == Fold(total) && |piece| <= MAX_EXACT
    ensures r == Fold(total + WordSum(piece))
  {
    r := CalcChecksum(csum, piece);
    FoldOfSum(total, WordSum(piece));
  }

  /** A segment checksummed in three pieces, with its checksum field inside the first. */
  lemma PiecesVerify(f: Flow, proto: byte, head: seq<byte>, tail: seq<byte>, options: seq<byte>, data: seq<byte>,
                     len: u16, pseudo: nat, csum: u16)
    requires |head| % 2 == 0 && |tail| % 2 == 0 && |options| % 2 == 0
    requires len == |head| + 2 + |tail| + |options| + |data|
    requires pseudo == WordSum(BuiltPseudo(f, proto, len))
    requires csum == Fold(pseudo + WordSum(head + Le16(0) + tail) + WordSum(options) + WordSum(data))
    ensures Verifies(head + Le16(Complement(csum)) + tail + options + data, f, proto)
  {
    var rest := tail + (options + data);
    PairSum(head + Le16(0) + tail, options + data);
    PairSum(options, data);
    Regroup(head, Le16(0), tail, options, data);
    BuiltSegmentVerifies(f, proto, head, rest, len, pseudo, csum);
    Regroup(head, Le16(Complement(csum)), tail, options, data);
  }

  lemma Regroup(head: seq<byte>, check: seq<byte>, tail: seq<byte>, options: seq<byte>, data: seq<byte>)
    ensures head + check + tail + (options + data) == head + check + (tail + (options + data))
    ensures head + check + tail + options + data == head + check + (tail + (options + data))
    ensures head + check + tail + options + data == head + (check + (tail + (options + data)))
  {
  }

  /** The TCP part of a built packet. */
  lemma TcpSegmentOk(f: Flow, h: TcpFields, options: seq<byte>, data: seq<byte>, len: u16, pseudo: nat, csum: u16)
    requires |options| % 2 == 0 && len == 20 + |options| + |data|
    requires pseudo == WordSum(BuiltPseudo(f, PROTO_TCP, len))
    requires csum == Fold(pseudo + WordSum(TcpHead(f, h) + Le16(0) + [0, 0]) + WordSum(options) + WordSum(data))
    ensures var s := TcpHead(f, h) + Le16(Complement(csum)) + [0, 0] + options + data;
            TcpHeaderOk(s, f, h) && Verifies(s, f, PROTO_TCP)
  {
    PiecesVerify(f, PROTO_TCP, TcpHead(f, h), [0, 0], options, data, len, pseudo, csum);
    HeadReads(f, h, Le16(Complement(csum)) + ([0, 0] + (options + data)));
    Regroup(TcpHead(f, h), Le16(Complement(csum)), [0, 0], options, data);
  }

  lemma SplitAt20(header: seq<byte>, options: seq<byte>, data: seq<byte>)
    requires |header| == 20
    ensures (header + options + data)[20..] == options + data
  {
  }

  /** write_tcp up to the write: for every header and every payload that fits a 16-bit length, the packet
      carries the fields and the data, and sums to 0xFFFF with its standard pseudo-header. */
  method BuildTcp(f: Flow, h: TcpFields, mss: u16, scale: byte, data: seq<byte>) returns (buffer: array<byte>)
    requires HeaderLength(f) + 20 + OptionLength(h) + |data| < 0x1_0000
    ensures fresh(buffer) && buffer.Length == HeaderLength(f) + 20 + OptionLength(h) + |data|
    ensures IpHeaderOk(buffer[..HeaderLength(f)], f, 6, 20 + OptionLength(h) + |data|)
    ensures var s := buffer[HeaderLength(f)..];
            && TcpHeaderOk(s, f, h) && Verifies(s, f, 6)
            && s[20..] == TcpOptions(h, mss, scale) + data
  {
    var ip := HeaderLength(f);
    var options := TcpOptions(h, mss, scale);
    var len: u16 := 20 + |options| + |data|;
    buffer := new byte[ip + len];
    ghost var pseudo := WordSum(BuiltPseudo(f, PROTO_TCP, len));
    var bare := TcpHead(f, h) + Le16(0) + [0, 0];
    var csum := CalcChecksum(0, BuiltPseudo(f, PROTO_TCP, len));
    csum := Continue(csum, bare, pseudo);
    csum := Continue(csum, options, pseudo + WordSum(bare));
    csum := Continue(csum, data, pseudo + WordSum(bare) + WordSum(options));
    TcpSegmentOk(f, h, options, data, len, pseudo, csum);
    var segment := TcpHead(f, h) + Le16(Complement(csum)) + [0, 0] + options + data;
    SplitAt20(TcpHead(f, h) + Le16(Complement(csum)) + [0, 0], options, data);
    Finish(buffer, f, PROTO_TCP, segment);
  }

  /** The packet is the IP header and the segment. */
  method Finish(buffer: array<byte>, f: Flow, proto: byte, segment: seq<byte>)
    requires buffer.Length == HeaderLength(f) + |segment| < 0x1_0000
    modifies buffer
    ensures IpHeaderOk(buffer[..HeaderLength(f)], f, proto, |segment|)
    ensures buffer[HeaderLength(f)..] == segment
  {
    Put(buffer, HeaderLength(f), segment);
    assert buffer[HeaderLength(f)..] == segment;
    PutIpHeader(buffer, f, proto, |segment|);
  }

  predicate UdpHeaderOk(s: seq<byte>, f: Flow) {
    |s| >= 8 && Be16(s, 0) == f.dest && Be16(s, 2) == f.source && Be16(s, 4) == |s|
  }

  /** What write_udp sums for a datagram: the pseudo-header, the header with a checksum of zero, and the data. */
  function UdpTotal(f: Flow, data: seq<byte>): nat
    requires 8 + |data| < 0x1_0000
  {
    var len: u16 := 8 + |data|;
    WordSum(StandardPseudo(f.daddr, f.saddr, 17, len)) + WordSum(UdpHead(f, len) + Le16(0)) + WordSum(data)
  }

  lemma TotalIsPositive(f: Flow, data: seq<byte>)
    requires 8 + |data| < 0x1_0000
    ensures UdpTotal(f, data) > 0
  {
    var len: u16 := 8 + |data|;
    var ports := Put16(f.dest) + Put16(f.source);
    PairSum(ports, Put16(len) + Le16(0));
    PairSum(Put16(len), Le16(0));
    assert UdpHead(f, len) + Le16(0) == ports + (Put16(len) + Le16(0));
    assert WordSum(Put16(len)) > 0;
  }

  /** The complement of a folded sum is 0 exactly when the sum is a multiple of 65535 other than 0. */
  lemma ComplementIsZero(n: nat)
    requires n > 0
    ensures Complement(Fold(n)) == 0 <==> n % 0xFFFF == 0
  {
    FoldIsResidue(n);
  }

  /** Every payload of even length, behind two more bytes that depend on it, is sent with a checksum field of 0:
      `no checksum' for RFC 768, and not allowed over IPv6 (RFC 8200 section 8.1). */
  lemma ZeroChecksumOccurs(f: Flow, data: seq<byte>)
    requires |data| % 2 == 0 && 10 + |data| < 0x1_0000
    ensures exists x: u16 :: UdpTotal(f, data + Le16(x)) % 0xFFFF == 0
  {
    var n := UdpTotal(f, data + Le16(0));
    var x := Complement(Fold(n));
    TotalOfWord(f, data, x);
    CompletedIsMultiple(n);
  }

  lemma TotalOfWord(f: Flow, data: seq<byte>, x: u16)
    requires |data| % 2 == 0 && 10 + |data| < 0x1_0000
    ensures UdpTotal(f, data + Le16(x)) == UdpTotal(f, data + Le16(0)) + x
  {
    PairSum(data, Le16(0));
    PairSum(data, Le16(x));
  }

  lemma CompletedIsMultiple(n: nat)
    ensures (n + Complement(Fold(n))) % 0xFFFF == 0
  {
    ComplementCompletes(n);
    MultipleAt(n + Complement(Fold(n)));
  }

  lemma MultipleAt(m: nat)
    requires Fold(m) == 0xFFFF
    ensures m % 0xFFFF == 0
  {
    FoldIsResidue(m);
  }

  function UdpHead(f: Flow, len: u16): (r: seq<byte>)
    ensures |r| == 6
  {
    Put16(f.dest) + Put16(f.source) + Put16(len)
  }

  /** The UDP part of a built packet. */
  lemma UdpSegmentOk(f: Flow, data: seq<byte>, len: u16, pseudo: nat, csum: u16)
    requires len == 8 + |data| && pseudo == WordSum(BuiltPseudo(f, PROTO_UDP, len))
    requires csum == Fold(pseudo + WordSum(UdpHead(f, len) + Le16(0)) + WordSum(data))
    ensures var s := UdpHead(f, len) + Le16(Complement(csum)) + data;
            && UdpHeaderOk(s, f) && Verifies(s, f, PROTO_UDP)
            && (Be16(s, 6) == 0 <==> UdpTotal(f, data) % 0xFFFF == 0)
  {
    StoredZero(f, data, len, pseudo, csum);
    TwoPiecesVerify(f, PROTO_UDP, UdpHead(f, len), data, len, pseudo, csum);
    var s := UdpHead(f, len) + Le16(Complement(csum)) + data;
    assert s[0..2] == Put16(f.dest) && s[2..4] == Put16(f.source) && s[4..6] == Put16(len);
  }

  lemma StoredZero(f: Flow, data: seq<byte>, len: u16, pseudo: nat, csum: u16)
    requires len == 8 + |data| && pseudo == WordSum(BuiltPseudo(f, PROTO_UDP, len))
    requires csum == Fold(pseudo + WordSum(UdpHead(f, len) + Le16(0)) + WordSum(data))
    ensures Be16(UdpHead(f, len) + Le16(Complement(csum)) + data, 6) == 0 <==> UdpTotal(f, data) % 0xFFFF == 0
  {
    PseudoSums(f, PROTO_UDP, len);
    TotalIsPositive(f, data);
    ComplementIsZero(UdpTotal(f, data));
    var s := UdpHead(f, len) + Le16(Complement(csum)) + data;
    assert s[6] == Complement(csum) % 0x100 && s[7] == Complement(csum) / 0x100;
  }

  lemma TwoPiecesVerify(f: Flow, proto: byte, head: seq<byte>, data: seq<byte>, len: u16, pseudo: nat, csum: u16)
    requires |head| % 2 == 0 && len == |head| + 2 + |data| && pseudo == WordSum(BuiltPseudo(f, proto, len))
    requires csum == Fold(pseudo + WordSum(head + Le16(0)) + WordSum(data))
    ensures Verifies(head + Le16(Complement(csum)) + data, f, proto)
  {
    PairSum(head + Le16(0), data);
    BuiltSegmentVerifies(f, proto, head, data, len, pseudo, csum);
  }

  /** write_udp up to the write. */
  method BuildUdp(f: Flow, data: seq<byte>) returns (buffer: array<byte>)
    requires HeaderLength(f) + 8 + |data| < 0x1_0000
    ensures fresh(buffer) && buffer.Length == HeaderLength(f) + 8 + |data|
    ensures IpHeaderOk(buffer[..HeaderLength(f)], f, 17, 8 + |data|)
    ensures var s := buffer[HeaderLength(f)..];
            && UdpHeaderOk(s, f) && Verifies(s, f, 17) && s[8..] == data
            && (Be16(s, 6) == 0 <==> UdpTotal(f, data) % 0xFFFF == 0)
  {
    var len: u16 := 8 + |data|;
    buffer := new byte[HeaderLength(f) + len];
    ghost var pseudo := WordSum(BuiltPseudo(f, PROTO_UDP, len));
    var csum := CalcChecksum(0, BuiltPseudo(f, PROTO_UDP, len));
    csum := Continue(csum, UdpHead(f, len) + Le16(0), pseudo);
    csum := Continue(csum, data, pseudo + WordSum(UdpHead(f, len) + Le16(0)));
    UdpSegmentOk(f, data, len, pseudo, csum);
    var segment := UdpHead(f, len) + Le16(Complement(csum)) + data;
    Finish(buffer, f, PROTO_UDP, segment);
    assert segment[8..] == data;
  }
}
