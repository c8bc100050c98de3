/** Where the forward queue loses data or stops, and exactly when. */
module TcpStalls {
  import opened Serial
  import opened TcpModel
  import opened TcpSequence
  import opened TcpStream
  import opened TcpDrain

  // ----- a shorter segment with the same number -----

  /** Some queued segment with n's number owes the socket at least as many bytes as n has. */
  predicate Owed(f: seq<Piece>, n: Piece) {
    exists q :: q in f && q.seqNo == n.seqNo && q.len - q.sent >= n.len
  }

  predicate ShorterQueued(f: seq<Piece>, n: Piece) {
    exists q :: q in f && q.seqNo == n.seqNo && q.len < n.len
  }

  lemma LaterNumbers(f: seq<Piece>, anchor: u32, pos: nat, stream: seq<byte>, lo: int, n: Piece)
    requires -BACK < lo && Untouched(f, anchor, pos, stream, lo) && Rel(anchor, n.seqNo) <= lo
    ensures forall q :: q in f ==> q.seqNo != n.seqNo
  {
    forall q | q in f ensures q.seqNo != n.seqNo {
      var j :| 0 <= j < |f| && f[j] == q;
      UntouchedSorted(f, anchor, pos, stream, lo, j);
    }
  }

  lemma {:induction false} OwedInRest(f: seq<Piece>, n: Piece, anchor: u32, pos: nat, stream: seq<byte>, lo: int)
    requires -BACK < lo && Untouched(f, anchor, pos, stream, lo) && n.sent == 0 && lo < Rel(anchor, n.seqNo) < FAR
    ensures Owed(Insert(f, n), n) <==> !ShorterQueued(f, n)
    decreases |f|
  {
    if f != [] {
      OwedAtHead(f, n, anchor, pos, stream);
      if CompareU32(f[0].seqNo, n.seqNo) < 0 {
        CompareByRel(anchor, f[0].seqNo, n.seqNo);
        OwedInRest(f[1..], n, anchor, pos, stream, Rel(anchor, f[0].seqNo));
      }
    } else {
      assert n in Insert(f, n);
    }
  }

  /** The head decides, unless it stands in front of n. */
  lemma OwedAtHead(f: seq<Piece>, n: Piece, anchor: u32, pos: nat, stream: seq<byte>)
    requires f != [] && n.sent == 0 && -BACK < Rel(anchor, f[0].seqNo) < FAR && -BACK < Rel(anchor, n.seqNo) < FAR
    requires Untouched(f[1..], anchor, pos, stream, Rel(anchor, f[0].seqNo))
    requires f[0].seqNo == n.seqNo ==> f[0].sent == 0
    ensures CompareU32(f[0].seqNo, n.seqNo) >= 0 ==> (Owed(Insert(f, n), n) <==> !ShorterQueued(f, n))
    ensures CompareU32(f[0].seqNo, n.seqNo) < 0 ==>
              (Owed(Insert(f, n), n) <==> Owed(Insert(f[1..], n), n)) &&
              (ShorterQueued(f, n) <==> ShorterQueued(f[1..], n))
  {
    var h := f[0];
    assert f == [h] + f[1..];
    CompareByRel(anchor, h.seqNo, n.seqNo);
    if CompareU32(h.seqNo, n.seqNo) < 0 {
      OwedBehind(h, f[1..], Insert(f[1..], n), n);
    } else {
      LaterNumbers(f[1..], anchor, pos, stream, Rel(anchor, h.seqNo), n);
      if h.seqNo != n.seqNo {
        assert n in [n] + f;
      } else {
        assert h in f;
      }
    }
  }

  lemma OwedBehind(h: Piece, f: seq<Piece>, g: seq<Piece>, n: Piece)
    requires h.seqNo != n.seqNo
    ensures Owed([h] + g, n) <==> Owed(g, n)
    ensures ShorterQueued([h] + f, n) <==> ShorterQueued(f, n)
  {
    if q :| q in [h] + g && q.seqNo == n.seqNo && q.len - q.sent >= n.len {
      assert q in g;
    }
    if q :| q in [h] + f && q.seqNo == n.seqNo && q.len < n.len {
      assert q in f;
    }
  }

  /** For every queue: an arriving segment is owed to the socket in full if and only if no shorter segment with its
      number is queued. A shorter one takes its bytes and keeps its own length. */
  lemma OwedUnlessShorter(f: seq<Piece>, n: Piece, anchor: u32, pos: nat, stream: seq<byte>)
    requires QueueInv(f, anchor, pos, stream) && n.sent == 0 && 0 <= Rel(anchor, n.seqNo) < FAR
    ensures Owed(Insert(f, n), n) <==> !ShorterQueued(f, n)
  {
    if f == [] {
      assert n in Insert(f, n);
    } else {
      OwedAtHead(f, n, anchor, pos, stream);
      if CompareU32(f[0].seqNo, n.seqNo) < 0 {
        CompareByRel(anchor, f[0].seqNo, n.seqNo);
        OwedInRest(f[1..], n, anchor, pos, stream, Rel(anchor, f[0].seqNo));
      }
    }
  }

  /** So the first data of a tunnelled session is lost behind the handshake's ACK, which is queued as an empty segment
      with the same number, until it is sent again after that one was handed over. */
  lemma EmptySegmentSwallowsData(t: Tcb, ack: Packet, hello: Packet)
    requires t.forward == [] && ack.data == [] && hello.data != [] && ack.seqNo == hello.seqNo == t.remoteSeq
    ensures var u := Queue(Queue(t, ack), hello);
            !Owed(u.forward, PieceOf(hello)) && Unsent(u.forward) == 0
  {
    RelSelf(t.remoteSeq);
    var f := Queue(t, ack).forward;
    assert f == [PieceOf(ack)] && PieceOf(ack) in f;
    assert QueueInv(f, t.remoteSeq, 0, []);
    OwedUnlessShorter(f, PieceOf(hello), t.remoteSeq, 0, []);
  }

  // ----- a head that starts behind remote_seq -----

  function QueueAfter(t: Tcb, ps: seq<Packet>): Tcb
    decreases |ps|
  {
    if ps == [] then t else QueueAfter(Queue(t, ps[0]), ps[1..])
  }

  /** Packets that arrive, and what the send loop that comes next gets from its calls of send(). */
  datatype Round = Round(ps: seq<Packet>, sends: nat -> ssize)

  function AfterRound(t: Tcb, r: Round, room: int): Tcb { Drain(QueueAfter(t, r.ps), room, r.sends, 0, false).t }

  function Rounds(t: Tcb, rounds: seq<Round>, room: int): Tcb
    decreases |rounds|
  {
    if rounds == [] then t else Rounds(AfterRound(t, rounds[0], room), rounds[1..], room)
  }

  /** The packet carries the app's stream where its number says, counted from the byte that is due. */
  predicate Arrives(t: Tcb, p: Packet, stream: seq<byte>) {
    var at := Rel(t.remoteSeq, p.seqNo);
    && -REACH < at < FAR && 0 <= |t.upstream| + at && |t.upstream| + at + |p.data| <= |stream|
    && p.data == stream[|t.upstream| + at..|t.upstream| + at + |p.data|]
  }

  predicate AllArrive(t: Tcb, ps: seq<Packet>, stream: seq<byte>) { forall p | p in ps :: Arrives(t, p, stream) }

  predicate ArrivingRounds(t: Tcb, rounds: seq<Round>, stream: seq<byte>, room: int)
    decreases |rounds|
  {
    rounds == [] ||
    (AllArrive(t, rounds[0].ps, stream) && ArrivingRounds(AfterRound(t, rounds[0], room), rounds[1..], stream, room))
  }

  /** Every send() returns the number of bytes it was given. */
  predicate ExactOn(f: seq<Piece>, sends: nat -> ssize) {
    forall i | 0 <= i < |f| :: sends(i) == f[i].len - f[i].sent
  }

  predicate ExactRounds(t: Tcb, rounds: seq<Round>, room: int)
    decreases |rounds|
  {
    rounds == [] ||
    (ExactOn(QueueAfter(t, rounds[0].ps).forward, rounds[0].sends) &&
     ExactRounds(AfterRound(t, rounds[0], room), rounds[1..], room))
  }

  function ExactSends(f: seq<Piece>): nat -> ssize { (k: nat) => if k < |f| then f[k].len - f[k].sent else 0 }

  predicate Progresses(t: Tcb, rounds: seq<Round>, stream: seq<byte>, room: int) {
    && ArrivingRounds(t, rounds, stream, room) && ExactRounds(t, rounds, room)
    && |Rounds(t, rounds, room).upstream| > |t.upstream|
  }

  /** Later arrivals, with every send() complete, can make the loop hand over another byte. */
  ghost predicate CanProgress(t: Tcb, stream: seq<byte>, room: int) {
    exists rounds :: Progresses(t, rounds, stream, room)
  }

  /** The front of a queue as insertion and the loop keep it: within reach of remote_seq, a partly sent head with its
      next byte there, and the second segment behind the head. */
  predicate Fronted(t: Tcb) {
    t.forward != [] &&
    var h := t.forward[0];
    var at := Rel(t.remoteSeq, h.seqNo);
    && -BACK < at < FAR && (h.sent > 0 ==> at == 0 - h.sent && h.sent < h.len)
    && (|t.forward| > 1 ==> at < Rel(t.remoteSeq, t.forward[1].seqNo) < FAR && t.forward[1].sent == 0)
  }

  lemma PlacedIsFronted(t: Tcb, stream: seq<byte>)
    requires Placed(t, stream) && t.forward != []
    ensures Fronted(t)
  {
    assert |t.forward| > 1 ==> t.forward[1] == t.forward[1..][0];
  }

  predicate Stale(t: Tcb) {
    t.forward != [] && -BACK < Rel(t.remoteSeq, t.forward[0].seqNo) < 0 - t.forward[0].sent
  }

  lemma NotDue(anchor: u32, at: u32, sent: nat)
    requires -BACK < Rel(anchor, at) && Rel(anchor, at) + sent < 0
    ensures Add32(at, sent) != anchor
  {
    if Add32(at, sent) == anchor { RelBack(at, sent); }
  }

  lemma {:induction false} ArrivalsStayBehind(t: Tcb, ps: seq<Packet>, stream: seq<byte>)
    requires Stale(t) && AllArrive(t, ps, stream)
    ensures var u := QueueAfter(t, ps); Stale(u) && u == t.(forward := u.forward)
    decreases |ps|
  {
    if ps != [] {
      var p := ps[0];
      assert p in ps;
      RelSelf(t.remoteSeq);
      CompareByRel(t.remoteSeq, p.seqNo, t.remoteSeq);
      CompareByRel(t.remoteSeq, t.forward[0].seqNo, p.seqNo);
      assert forall r | r in ps[1..] :: r in ps;
      ArrivalsStayBehind(Queue(t, p), ps[1..], stream);
    }
  }

  /** Nothing is handed over any more, whatever arrives and whatever send() returns. */
  lemma {:induction false} StaleStays(t: Tcb, rounds: seq<Round>, stream: seq<byte>, room: int)
    requires Stale(t) && ArrivingRounds(t, rounds, stream, room)
    ensures Rounds(t, rounds, room).upstream == t.upstream
    decreases |rounds|
  {
    if rounds != [] {
      ArrivalsStayBehind(t, rounds[0].ps, stream);
      var u := QueueAfter(t, rounds[0].ps);
      NotDue(u.remoteSeq, u.forward[0].seqNo, u.forward[0].sent);
      StaleStays(u, rounds[1..], stream, room);
    }
  }

  /** The single byte that is due. */
  function Due(t: Tcb, stream: seq<byte>): Packet
    requires |t.upstream| < |stream|
  {
    Packet(t.remoteSeq, 0, false, true, false, false, false, false, 0, [stream[|t.upstream|]])
  }

  lemma DueArrives(t: Tcb, stream: seq<byte>)
    requires |t.upstream| < |stream|
    ensures Arrives(t, Due(t, stream), stream)
  {
    RelSelf(t.remoteSeq);
    assert stream[|t.upstream|..|t.upstream| + 1] == [stream[|t.upstream|]];
  }

  /** The byte that is due goes to the head of a queue that begins behind it. */
  lemma DueGoesFirst(t: Tcb, stream: seq<byte>)
    requires |t.upstream| < |stream| && (t.forward != [] ==> 0 < Rel(t.remoteSeq, t.forward[0].seqNo) < FAR)
    ensures QueueAfter(t, [Due(t, stream)]) == t.(forward := [PieceOf(Due(t, stream))] + t.forward)
  {
    var p := Due(t, stream);
    RelSelf(t.remoteSeq);
    CompareByRel(t.remoteSeq, p.seqNo, t.remoteSeq);
    if t.forward != [] { CompareByRel(t.remoteSeq, t.forward[0].seqNo, p.seqNo); }
    assert [p][1..] == [];
    assert QueueAfter(t, [p]) == QueueAfter(Queue(t, p), []);
  }

  /** A ready head that owes bytes is handed over. */
  lemma OwingHeadMoves(t: Tcb, room: int, sends: nat -> ssize)
    requires HeadReady(t, room) && t.forward[0].sent < t.forward[0].len && ExactOn(t.forward, sends)
    ensures |Drain(t, room, sends, 0, false).t.upstream| > |t.upstream|
  {
    var len: nat := t.forward[0].len - t.forward[0].sent;
    assert sends(0) == len && Clip(sends(0), len) == len;
    HandedMoves(t, room, len);
    var n := DrainMoves(Handed(t, len), room - len, sends, 1, true);
  }

  /** One round in which the head is ready and owes bytes. */
  lemma OneRound(t: Tcb, ps: seq<Packet>, stream: seq<byte>, room: int)
    requires AllArrive(t, ps, stream)
    requires var u := QueueAfter(t, ps);
             HeadReady(u, room) && u.forward[0].sent < u.forward[0].len && u.upstream == t.upstream
    ensures CanProgress(t, stream, room)
  {
    var sends := ExactSends(QueueAfter(t, ps).forward);
    var r := Round(ps, sends);
    OwingHeadMoves(QueueAfter(t, ps), room, sends);
    RoundFirst(t, r, [], stream, room);
    assert Progresses(t, [r] + [], stream, room);
  }

  lemma RoundFirst(t: Tcb, r: Round, rest: seq<Round>, stream: seq<byte>, room: int)
    requires AllArrive(t, r.ps, stream) && ExactOn(QueueAfter(t, r.ps).forward, r.sends)
    requires var u := AfterRound(t, r, room); ArrivingRounds(u, rest, stream, room) && ExactRounds(u, rest, room)
    ensures ArrivingRounds(t, [r] + rest, stream, room) && ExactRounds(t, [r] + rest, room)
    ensures Rounds(t, [r] + rest, room) == Rounds(AfterRound(t, r, room), rest, room)
  {
    assert ([r] + rest)[0] == r && ([r] + rest)[1..] == rest;
  }

  /** A queue that begins behind the byte that is due, or is empty. */
  lemma GapCanBeFilled(t: Tcb, stream: seq<byte>, room: int)
    requires |t.upstream| < |stream| && (t.forward != [] ==> 0 < Rel(t.remoteSeq, t.forward[0].seqNo) < FAR)
    requires room > 0xFFFF
    ensures CanProgress(t, stream, room)
  {
    var p := Due(t, stream);
    DueArrives(t, stream);
    DueGoesFirst(t, stream);
    Add32Zero(p.seqNo);
    OneRound(t, [p], stream, room);
  }

  /** An empty segment at the byte that is due is unlinked by the loop, and then the queue begins behind that byte. */
  lemma EmptyHeadGoes(t: Tcb, stream: seq<byte>, room: int)
    requires Fronted(t) && |t.upstream| < |stream| && room > 0xFFFF
    requires Rel(t.remoteSeq, t.forward[0].seqNo) == 0 && t.forward[0].len == 0
    ensures CanProgress(t, stream, room)
  {
    var r := Round([], ExactSends(t.forward));
    EmptyHeadUnlinked(t, room, r.sends);
    var u := Handed(t, 0);
    assert AfterRound(t, r, room) == u;
    GapCanBeFilled(u, stream, room);
    var rounds :| Progresses(u, rounds, stream, room);
    RoundFirst(t, r, rounds, stream, room);
    assert Progresses(t, [r] + rounds, stream, room);
  }

  lemma EmptyHeadUnlinked(t: Tcb, room: int, sends: nat -> ssize)
    requires Fronted(t) && Rel(t.remoteSeq, t.forward[0].seqNo) == 0 && t.forward[0].len == 0 && room > 0xFFFF
    requires ExactOn(t.forward, sends)
    ensures var u := Handed(t, 0);
            && Drain(t, room, sends, 0, false).t == u
            && u.remoteSeq == t.remoteSeq && u.upstream == t.upstream && u.forward == t.forward[1..]
  {
    RelIff(t.remoteSeq, 0, t.forward[0].seqNo);
    Add32Zero(t.remoteSeq);
    assert sends(0) == 0;
    var u := Handed(t, 0);
    assert u.remoteSeq == t.remoteSeq && u.upstream == t.upstream && u.forward == t.forward[1..];
    if u.forward != [] { NotDueYet(u.remoteSeq, u.forward[0].seqNo); }
  }

  lemma NotDueYet(anchor: u32, at: u32)
    requires Rel(anchor, at) > 0
    ensures Add32(at, 0) != anchor
  {
    Add32Zero(at);
    RelSelf(anchor);
  }

  /** While bytes of the stream are left, arrivals with room and complete sends can make a queue hand over another one
      if and only if its head is not behind remote_seq. A head gets behind it when it is queued at the initial sequence
      number (data on a SYN, or a repeated SYN of a tunnelled session) or overlaps bytes handed over before it. */
  lemma ProgressUnlessStale(t: Tcb, stream: seq<byte>, room: int)
    requires Fronted(t) && |t.upstream| < |stream| && room > 0xFFFF
    ensures CanProgress(t, stream, room) <==> Rel(t.remoteSeq, t.forward[0].seqNo) + t.forward[0].sent >= 0
  {
    var h := t.forward[0];
    var at := Rel(t.remoteSeq, h.seqNo);
    if at + h.sent < 0 {
      forall rounds | ArrivingRounds(t, rounds, stream, room)
        ensures |Rounds(t, rounds, room).upstream| <= |t.upstream|
      {
        StaleStays(t, rounds, stream, room);
      }
    } else if at + h.sent > 0 {
      GapCanBeFilled(t, stream, room);
    } else if h.len == 0 {
      EmptyHeadGoes(t, stream, room);
    } else {
      DueHead(t.remoteSeq, h.seqNo, h.sent);
      assert QueueAfter(t, []) == t;
      OneRound(t, [], stream, room);
    }
  }

  lemma DueHead(anchor: u32, at: u32, sent: nat)
    requires Rel(anchor, at) + sent == 0
    ensures Add32(at, sent) == anchor
  {
    RelIff(anchor, 0 - sent, at);
    Add32Add(anchor, 0 - sent, sent);
    Add32Zero(anchor);
  }

  /** Data on a SYN is queued at the initial number, which the answer to the SYN leaves behind. */
  lemma SynDataGoesStale(b: Birth, e: SocketEvent)
    requires b.p.data != [] && !e.error && !e.readable && e.writeOk
    ensures Stale(CheckSocket(NewSession(b), e))
  {
    AfterAnswer(NewSession(b), e);
    RelBack(b.p.seqNo, 1);
  }

  /** So is a SYN that a tunnelled session gets twice before its socket connects: the CONNECT line goes out on it. */
  lemma RepeatedSynGoesStale(b: Birth, syn: Packet, i: TunInput, e: SocketEvent)
    requires b.dest == HTTPS_PORT && b.p.data == [] && syn.data == [] && syn.seqNo == b.p.seqNo && !syn.urg
    requires i.named && i.connectSent >= 0 && !e.error && !e.readable && e.writeOk
    ensures Stale(CheckSocket(HandlePacket(NewSession(b), syn, i), e))
  {
    var t := HandlePacket(NewSession(b), syn, i);
    RelSelf(b.p.seqNo);
    assert t == NewSession(b).(connect := Requested, state := LISTEN, forward := [PieceOf(syn)]);
    AfterAnswer(t, e);
    RelBack(b.p.seqNo, 1);
  }

  // ----- overlapping segments -----

  /** Segments that start in front of byte n do not overlap. */
  predicate ClearTo(f: seq<Piece>, anchor: u32, n: int) {
    forall i, j | 0 <= i < j < |f| && At(anchor, f[j]) < n :: At(anchor, f[i]) + f[i].len <= At(anchor, f[j])
  }

  /** The same from the front: each starts no earlier than `at`, where the one before it ends. */
  predicate Chained(f: seq<Piece>, anchor: u32, at: int, n: int)
    decreases |f|
  {
    f == [] || At(anchor, f[0]) >= n ||
    (At(anchor, f[0]) >= at && Chained(f[1..], anchor, At(anchor, f[0]) + f[0].len, n))
  }

  lemma {:induction false} RisingMember(f: seq<Piece>, anchor: u32, lo: int, j: nat)
    requires Rising(f, anchor, lo) && j < |f|
    ensures lo < At(anchor, f[j]) < FAR && f[j].len > 0
    decreases |f|
  {
    if j > 0 { RisingMember(f[1..], anchor, At(anchor, f[0]), j - 1); }
  }

  lemma {:induction false} ChainedIsClear(f: seq<Piece>, anchor: u32, lo: int, at: int, n: int)
    requires Rising(f, anchor, lo)
    ensures Chained(f, anchor, at, n) <==>
            ClearTo(f, anchor, n) && forall j | 0 <= j < |f| && At(anchor, f[j]) < n :: at <= At(anchor, f[j])
    decreases |f|
  {
    if f != [] {
      var g, a, len := f[1..], At(anchor, f[0]), f[0].len;
      forall j | 1 <= j < |f| ensures At(anchor, f[j]) > a && f[j] == g[j - 1] {
        RisingMember(g, anchor, a, j - 1);
      }
      ChainedIsClear(g, anchor, a, a + len, n);
      ClearBehind(f, anchor, n);
    }
  }

  lemma ClearBehind(f: seq<Piece>, anchor: u32, n: int)
    requires f != []
    ensures ClearTo(f, anchor, n) <==>
            ClearTo(f[1..], anchor, n) &&
            forall j | 0 <= j < |f[1..]| && At(anchor, f[1..][j]) < n ::
              At(anchor, f[0]) + f[0].len <= At(anchor, f[1..][j])
  {
    var g := f[1..];
    if ClearTo(f, anchor, n) {
      forall i, j | 0 <= i < j < |g| && At(anchor, g[j]) < n ensures At(anchor, g[i]) + g[i].len <= At(anchor, g[j]) {
        assert g[i] == f[i + 1] && g[j] == f[j + 1];
      }
      forall j | 0 <= j < |g| && At(anchor, g[j]) < n ensures At(anchor, f[0]) + f[0].len <= At(anchor, g[j]) {
        assert g[j] == f[j + 1];
      }
    }
    if ClearTo(g, anchor, n)
       && forall j | 0 <= j < |g| && At(anchor, g[j]) < n :: At(anchor, f[0]) + f[0].len <= At(anchor, g[j])
    {
      forall i, j | 0 <= i < j < |f| && At(anchor, f[j]) < n ensures At(anchor, f[i]) + f[i].len <= At(anchor, f[j]) {
        assert f[j] == g[j - 1];
        if i > 0 { assert f[i] == g[i - 1]; }
      }
    }
  }

  /** The loop gets to byte n, and leaves exactly segments behind it. */
  predicate GotTo(f: seq<Piece>, anchor: u32, at: int, n: int) {
    Reached(f, anchor, at) == n && forall q | q in Beyond(f, anchor, at) :: At(anchor, q) > n
  }

  lemma {:induction false} ArrivedIfChained(f: seq<Piece>, anchor: u32, lo: int, at: int, n: int)
    requires Rising(f, anchor, lo) && at <= n && !InPieces(f, anchor, n)
    requires forall m | at <= m < n :: InPieces(f, anchor, m)
    ensures GotTo(f, anchor, at, n) <==> Chained(f, anchor, at, n)
    decreases |f|
  {
    if f == [] {
      assert !InPieces(f, anchor, at);
    } else {
      var h, g := f[0], f[1..];
      var a, len := At(anchor, h), h.len;
      assert f == [h] + g && h in f;
      if a == at {
        assert !InPieces(f, anchor, n) && n >= at + len;
        forall m | at + len <= m < n ensures InPieces(g, anchor, m) {
          assert InPieces(f, anchor, m);
        }
        NotInRest(h, g, anchor, n);
        ArrivedIfChained(g, anchor, a, at + len, n);
      } else if a > at {
        NothingAt(f, anchor, lo, at);
        forall q | q in f ensures At(anchor, q) > n {
          var j :| 0 <= j < |f| && f[j] == q;
          if j > 0 { RisingMember(g, anchor, a, j - 1); }
        }
      }
    }
  }

  lemma NotInRest(h: Piece, g: seq<Piece>, anchor: u32, n: int)
    requires !InPieces([h] + g, anchor, n)
    ensures !InPieces(g, anchor, n)
  {
    assert forall q | q in g :: q in [h] + g;
  }

  lemma NothingAt(f: seq<Piece>, anchor: u32, lo: int, at: int)
    requires Rising(f, anchor, lo) && f != [] && At(anchor, f[0]) > at
    ensures !InPieces(f, anchor, at)
  {
    forall q | q in f ensures At(anchor, q) > at {
      var j :| 0 <= j < |f| && f[j] == q;
      if j > 0 { RisingMember(f[1..], anchor, At(anchor, f[0]), j - 1); }
    }
  }

  /** Whatever segments are queued, with room and full sends: the loop gets to the first missing byte n and leaves
      exactly segments behind it, if and only if the segments in front of n do not overlap. */
  lemma DrainReachesGapUnlessOverlap(t: Tcb, room: int, sends: nat -> ssize, n: nat)
    requires Rising(t.forward, t.remoteSeq, -1) && FullOn(t.forward, sends, 0) && room > Unsent(t.forward)
    requires !InPieces(t.forward, t.remoteSeq, n) && forall m | 0 <= m < n :: InPieces(t.forward, t.remoteSeq, m)
    ensures var u := Drain(t, room, sends, 0, false).t;
            (|u.upstream| == |t.upstream| + n && forall q | q in u.forward :: At(t.remoteSeq, q) > n) <==>
            ClearTo(t.forward, t.remoteSeq, n)
  {
    Add32Zero(t.remoteSeq);
    DrainTakesRun(t, room, sends, 0, false, t.remoteSeq, -1, 0);
    ArrivedIfChained(t.forward, t.remoteSeq, -1, 0, n);
    ChainedIsClear(t.forward, t.remoteSeq, -1, 0, n);
    forall j | 0 <= j < |t.forward| ensures At(t.remoteSeq, t.forward[j]) >= 0 {
      RisingMember(t.forward, t.remoteSeq, -1, j);
    }
  }
}
