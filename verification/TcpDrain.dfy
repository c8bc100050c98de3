/** Completeness of the queue: whatever the order of arrival, draining reaches the first missing byte. */
module TcpDrain {
  import opened Serial
  import opened TcpModel
  import opened TcpSequence
  import opened TcpStream

  function At(anchor: u32, q: Piece): int { Rel(anchor, q.seqNo) }

  /** Non-empty untouched pieces in order without overlap, the first not before signed distance lo. */
  predicate Apart(f: seq<Piece>, anchor: u32, lo: int)
    decreases |f|
  {
    f == [] ||
    (lo <= At(anchor, f[0]) < FAR && f[0].sent == 0 && f[0].len > 0 &&
     Apart(f[1..], anchor, At(anchor, f[0]) + f[0].len))
  }

  predicate Disjoint(anchor: u32, q: Piece, n: Piece) {
    At(anchor, q) + q.len <= At(anchor, n) || At(anchor, n) + n.len <= At(anchor, q)
  }

  lemma {:induction false} ApartMember(f: seq<Piece>, anchor: u32, lo: int, q: Piece)
    requires Apart(f, anchor, lo) && q in f
    ensures lo <= At(anchor, q) < FAR && q.sent == 0 && q.len > 0
    decreases |f|
  {
    if q != f[0] { ApartMember(f[1..], anchor, At(anchor, f[0]) + f[0].len, q); }
  }

  /** Every piece of f is a repeat of n or apart from it. */
  predicate RepeatOrDisjoint(f: seq<Piece>, n: Piece, anchor: u32) {
    forall q | q in f :: (q.seqNo == n.seqNo && q.len == n.len) || Disjoint(anchor, q, n)
  }

  predicate Numbers(f: seq<Piece>, seqNo: u32) { exists q :: q in f && q.seqNo == seqNo }

  lemma NumbersTail(f: seq<Piece>, n: Piece, anchor: u32)
    requires f != [] && RepeatOrDisjoint(f, n, anchor)
    ensures RepeatOrDisjoint(f[1..], n, anchor)
    ensures Numbers(f, n.seqNo) <==> f[0].seqNo == n.seqNo || Numbers(f[1..], n.seqNo)
    ensures (f[0].seqNo == n.seqNo && f[0].len == n.len) || Disjoint(anchor, f[0], n)
  {
    assert f == [f[0]] + f[1..];
    assert f[0] in f;
    if Numbers(f[1..], n.seqNo) {
      var q :| q in f[1..] && q.seqNo == n.seqNo;
      assert q in f;
    }
  }

  /** Nothing in the queue has a number in front of its first piece. */
  lemma NotNumbered(f: seq<Piece>, anchor: u32, lo: int, n: Piece)
    requires Apart(f, anchor, lo) && At(anchor, n) < lo
    ensures !Numbers(f, n.seqNo)
  {
    forall q | q in f ensures q.seqNo != n.seqNo { ApartMember(f, anchor, lo, q); }
  }

  lemma ApartCons(h: Piece, f: seq<Piece>, anchor: u32, lo: int)
    requires lo <= At(anchor, h) < FAR && h.sent == 0 && h.len > 0 && Apart(f, anchor, At(anchor, h) + h.len)
    ensures Apart([h] + f, anchor, lo)
  {
    assert ([h] + f)[1..] == f;
  }

  lemma ApartLowers(f: seq<Piece>, anchor: u32, lo: int, below: int)
    requires Apart(f, anchor, lo) && (f != [] ==> below <= At(anchor, f[0]))
    ensures Apart(f, anchor, below)
  {
  }

  /** A repeated segment leaves the queue alone, a new one joins it in its place. */
  lemma {:induction false} InsertApart(f: seq<Piece>, n: Piece, anchor: u32, lo: int)
    requires 0 <= lo && Apart(f, anchor, lo) && n.sent == 0 && n.len > 0 && lo <= At(anchor, n) < FAR
    requires RepeatOrDisjoint(f, n, anchor)
    ensures Apart(Insert(f, n), anchor, lo)
    ensures Numbers(f, n.seqNo) ==> Insert(f, n) == f
    ensures !Numbers(f, n.seqNo) ==> forall q :: q in Insert(f, n) <==> q in f || q == n
    decreases |f|
  {
    if f == [] {
      ApartCons(n, f, anchor, lo);
    } else {
      var h := f[0];
      NumbersTail(f, n, anchor);
      CompareByRel(anchor, h.seqNo, n.seqNo);
      if CompareU32(h.seqNo, n.seqNo) < 0 {
        assert f == [h] + f[1..];
        InsertApart(f[1..], n, anchor, At(anchor, h) + h.len);
        ApartCons(h, Insert(f[1..], n), anchor, lo);
      } else if CompareU32(h.seqNo, n.seqNo) > 0 {
        ApartLowers(f, anchor, lo, At(anchor, n) + n.len);
        ApartCons(n, f, anchor, lo);
        NotNumbered(f, anchor, At(anchor, h), n);
      }
    }
  }

  // ----- arrivals -----

  function QueueAll(t: Tcb, ps: seq<Packet>): Tcb {
    if ps == [] then t else Queue(QueueAll(t, ps[..|ps| - 1]), ps[|ps| - 1])
  }

  predicate Same(p: Packet, r: Packet) { p.seqNo == r.seqNo && p.data == r.data }

  /** Non-empty segments, each wholly before or wholly after the next byte due, any two of them disjoint or
      one a retransmission of the other. */
  predicate Clean(ps: seq<Packet>, anchor: u32) {
    && (forall p | p in ps :: p.data != [] && -REACH < At(anchor, PieceOf(p)) < FAR &&
          (At(anchor, PieceOf(p)) >= 0 || At(anchor, PieceOf(p)) + |p.data| <= 0))
    && (forall p, r | p in ps && r in ps :: Same(p, r) || Disjoint(anchor, PieceOf(p), PieceOf(r)))
  }

  predicate Matches(q: Piece, p: Packet) {
    q.seqNo == p.seqNo && q.len == |p.data| && q.data == p.data
  }

  predicate Queued(f: seq<Piece>, p: Packet) { exists q :: q in f && Matches(q, p) }

  predicate Arrived(ps: seq<Packet>, q: Piece) { exists p :: p in ps && Matches(q, p) }

  /** The queue holds one piece for every segment that is not old, and nothing else. */
  predicate Collected(f: seq<Piece>, ps: seq<Packet>, anchor: u32) {
    && (forall p | p in ps && At(anchor, PieceOf(p)) >= 0 :: Queued(f, p))
    && (forall q | q in f :: Arrived(ps, q))
  }

  /** From t to u nothing changed but the queue, which holds the segments in order without overlap. */
  predicate Gathered(t: Tcb, u: Tcb, ps: seq<Packet>) {
    u == t.(forward := u.forward) && Apart(u.forward, t.remoteSeq, 0) && Collected(u.forward, ps, t.remoteSeq)
  }

  lemma {:induction false} QueueAllCollects(t: Tcb, ps: seq<Packet>)
    requires t.forward == [] && Clean(ps, t.remoteSeq)
    ensures Gathered(t, QueueAll(t, ps), ps)
    decreases |ps|
  {
    if ps != [] {
      var qs, p := ps[..|ps| - 1], ps[|ps| - 1];
      assert ps == qs + [p];
      CleanPrefix(qs, p, t.remoteSeq);
      QueueAllCollects(t, qs);
      QueueOne(t, QueueAll(t, qs), qs, p);
    }
  }

  lemma CleanPrefix(qs: seq<Packet>, p: Packet, anchor: u32)
    requires Clean(qs + [p], anchor)
    ensures Clean(qs, anchor) && -REACH < At(anchor, PieceOf(p)) < FAR && p.data != []
    ensures At(anchor, PieceOf(p)) >= 0 || At(anchor, PieceOf(p)) + |p.data| <= 0
  {
    assert p in qs + [p];
    assert forall r | r in qs :: r in qs + [p];
  }

  lemma QueueOne(t: Tcb, v: Tcb, qs: seq<Packet>, p: Packet)
    requires Gathered(t, v, qs) && Clean(qs + [p], t.remoteSeq)
    ensures Gathered(t, Queue(v, p), qs + [p])
  {
    var anchor := t.remoteSeq;
    CleanPrefix(qs, p, anchor);
    RelSelf(anchor);
    CompareByRel(anchor, p.seqNo, anchor);
    if At(anchor, PieceOf(p)) >= 0 {
      CollectOne(v.forward, qs, p, anchor);
    } else {
      GrowOld(v.forward, qs, p, anchor);
    }
  }

  lemma GrowOld(f: seq<Piece>, qs: seq<Packet>, p: Packet, anchor: u32)
    requires Collected(f, qs, anchor) && At(anchor, PieceOf(p)) < 0
    ensures Collected(f, qs + [p], anchor)
  {
    forall q | q in f ensures Arrived(qs + [p], q) {
      assert Arrived(qs, q);
      var r :| r in qs && Matches(q, r);
      assert r in qs + [p];
    }
  }

  lemma CollectOne(f: seq<Piece>, qs: seq<Packet>, p: Packet, anchor: u32)
    requires Clean(qs + [p], anchor) && Apart(f, anchor, 0) && Collected(f, qs, anchor) && At(anchor, PieceOf(p)) >= 0
    ensures Apart(Insert(f, PieceOf(p)), anchor, 0) && Collected(Insert(f, PieceOf(p)), qs + [p], anchor)
  {
    var n := PieceOf(p);
    var ps := qs + [p];
    assert p in ps;
    forall q | q in f ensures Matches(q, p) || Disjoint(anchor, q, n) {
      QueuedApart(f, qs, p, anchor, q);
    }
    InsertPacket(f, p, anchor);
    GrowCollected(f, Insert(f, n), qs, p, anchor);
  }

  lemma InsertPacket(f: seq<Piece>, p: Packet, anchor: u32)
    requires p.data != [] && Apart(f, anchor, 0) && 0 <= At(anchor, PieceOf(p)) < FAR
    requires forall q | q in f :: Matches(q, p) || Disjoint(anchor, q, PieceOf(p))
    ensures var g := Insert(f, PieceOf(p));
            && Apart(g, anchor, 0) && Queued(g, p)
            && (forall q :: q in f ==> q in g) && (forall q :: q in g ==> q in f || Matches(q, p))
  {
    var n := PieceOf(p);
    InsertApart(f, n, anchor, 0);
    assert Matches(n, p);
    if Numbers(f, n.seqNo) {
      var q :| q in f && q.seqNo == n.seqNo;
      ApartMember(f, anchor, 0, q);
      assert Matches(q, p);
    } else {
      assert n in Insert(f, n);
    }
  }

  lemma QueuedApart(f: seq<Piece>, qs: seq<Packet>, p: Packet, anchor: u32, q: Piece)
    requires Clean(qs + [p], anchor) && Collected(f, qs, anchor) && q in f
    ensures Matches(q, p) || Disjoint(anchor, q, PieceOf(p))
  {
    assert Arrived(qs, q);
    var r :| r in qs && Matches(q, r);
    assert r in qs + [p] && p in qs + [p];
  }

  lemma GrowCollected(f: seq<Piece>, g: seq<Piece>, qs: seq<Packet>, p: Packet, anchor: u32)
    requires Collected(f, qs, anchor) && Queued(g, p)
    requires forall q :: q in f ==> q in g
    requires forall q :: q in g ==> q in f || Matches(q, p)
    ensures Collected(g, qs + [p], anchor)
  {
    var ps := qs + [p];
    forall r | r in ps && At(anchor, PieceOf(r)) >= 0 ensures Queued(g, r) {
      if r != p {
        assert r in qs;
        assert Queued(f, r);
        var q :| q in f && Matches(q, r);
        assert q in g;
      }
    }
    forall q | q in g ensures Arrived(ps, q) {
      if Matches(q, p) {
        assert p in ps;
      } else {
        assert Arrived(qs, q);
        var r :| r in qs && Matches(q, r);
        assert r in ps;
      }
    }
  }

  // ----- draining -----

  /** Where a contiguous run of pieces from signed distance `at` on ends. */
  function Reached(f: seq<Piece>, anchor: u32, at: int): int
    decreases |f|
  {
    if f == [] || At(anchor, f[0]) != at then at else Reached(f[1..], anchor, at + f[0].len)
  }

  function Beyond(f: seq<Piece>, anchor: u32, at: int): seq<Piece>
    decreases |f|
  {
    if f == [] || At(anchor, f[0]) != at then f else Beyond(f[1..], anchor, at + f[0].len)
  }

  /** From the k-th on, each send() takes all that is owed of its piece. */
  predicate FullOn(f: seq<Piece>, sends: nat -> ssize, k: nat) {
    forall i | 0 <= i < |f| :: sends(k + i) >= f[i].len - f[i].sent
  }

  lemma FullRest(f: seq<Piece>, sends: nat -> ssize, k: nat)
    requires f != [] && FullOn(f, sends, k)
    ensures FullOn(f[1..], sends, k + 1) && sends(k) >= f[0].len - f[0].sent
  {
    assert sends(k + 0) >= f[0].len - f[0].sent;
    forall i | 0 <= i < |f[1..]| ensures sends(k + 1 + i) >= f[1..][i].len - f[1..][i].sent {
      assert sends(k + (i + 1)) >= f[i + 1].len - f[i + 1].sent;
    }
  }

  /** The test of the send loop on an untouched head is a test of its place. */
  lemma ReadyIffDue(q: Piece, anchor: u32, at: nat)
    requires at < FAR + BACK && q.sent == 0
    ensures Add32(q.seqNo, q.sent) == Add32(anchor, at) <==> At(anchor, q) == at
  {
    RelIff(anchor, at, q.seqNo);
  }

  /** Non-empty untouched pieces in strict order, which may overlap, the first behind signed distance lo. */
  predicate Rising(f: seq<Piece>, anchor: u32, lo: int)
    decreases |f|
  {
    f == [] ||
    (lo < At(anchor, f[0]) < FAR && f[0].sent == 0 && f[0].len > 0 && Rising(f[1..], anchor, At(anchor, f[0])))
  }

  lemma {:induction false} ApartRises(f: seq<Piece>, anchor: u32, lo: int, below: int)
    requires Apart(f, anchor, lo) && below < lo
    ensures Rising(f, anchor, below)
    decreases |f|
  {
    if f != [] { ApartRises(f[1..], anchor, At(anchor, f[0]) + f[0].len, At(anchor, f[0])); }
  }

  /** With room and a full send the loop takes an untouched head that is due. */
  lemma TakeWhole(t: Tcb, room: int, sends: nat -> ssize, k: nat, moved: bool, anchor: u32, at: nat)
    requires t.forward != [] && t.forward[0].sent == 0 && at < FAR + BACK && At(anchor, t.forward[0]) == at
    requires t.remoteSeq == Add32(anchor, at) && FullOn(t.forward, sends, k) && room > Unsent(t.forward)
    ensures var len := t.forward[0].len;
            var u := Handed(t, len);
            && Drain(t, room, sends, k, moved) == Drain(u, room - len, sends, k + 1, true)
            && u.forward == t.forward[1..] && u.remoteSeq == Add32(anchor, at + len)
            && |u.upstream| == |t.upstream| + len && room - len > Unsent(u.forward) && FullOn(u.forward, sends, k + 1)
  {
    FullRest(t.forward, sends, k);
    EndOfHead(t.forward[0], anchor, at);
    TakeReady(t, room, sends, k, moved);
  }

  lemma EndOfHead(q: Piece, anchor: u32, at: nat)
    requires At(anchor, q) == at && at < FAR + BACK && q.sent == 0
    ensures Add32(q.seqNo, q.sent) == Add32(anchor, at) && Add32(q.seqNo, q.len) == Add32(anchor, at + q.len)
  {
    ReadyIffDue(q, anchor, at);
    Add32Zero(q.seqNo);
    Add32Add(anchor, at, q.len);
  }

  lemma TakeReady(t: Tcb, room: int, sends: nat -> ssize, k: nat, moved: bool)
    requires t.forward != [] && t.forward[0].sent == 0 && Add32(t.forward[0].seqNo, t.forward[0].sent) == t.remoteSeq
    requires sends(k) >= t.forward[0].len && room > Unsent(t.forward)
    ensures var len := t.forward[0].len;
            var u := Handed(t, len);
            && Drain(t, room, sends, k, moved) == Drain(u, room - len, sends, k + 1, true)
            && u.forward == t.forward[1..] && u.remoteSeq == Add32(t.forward[0].seqNo, len)
            && |u.upstream| == |t.upstream| + len && room - len > Unsent(u.forward)
  {
    var len: nat := t.forward[0].len;
    assert Clip(sends(k), len) == len;
    assert HeadReady(t, room);
  }

  lemma NotTaken(t: Tcb, room: int, sends: nat -> ssize, k: nat, moved: bool, anchor: u32, at: nat)
    requires t.forward != [] && t.forward[0].sent == 0 && at < FAR + BACK && At(anchor, t.forward[0]) != at
    requires t.remoteSeq == Add32(anchor, at)
    ensures Drain(t, room, sends, k, moved) == Drained(t, moved)
  {
    ReadyIffDue(t.forward[0], anchor, at);
  }

  /** With room and full sends the loop takes exactly the contiguous run. */
  lemma {:induction false} DrainTakesRun(t: Tcb, room: int, sends: nat -> ssize, k: nat, moved: bool,
                                         anchor: u32, lo: int, at: nat)
    requires Rising(t.forward, anchor, lo) && at < FAR + BACK && t.remoteSeq == Add32(anchor, at)
    requires FullOn(t.forward, sends, k) && room > Unsent(t.forward)
    ensures var u := Drain(t, room, sends, k, moved).t;
            && u.forward == Beyond(t.forward, anchor, at)
            && u.remoteSeq == Add32(anchor, Reached(t.forward, anchor, at))
            && |u.upstream| == |t.upstream| + Reached(t.forward, anchor, at) - at
    decreases |t.forward|
  {
    if t.forward != [] {
      if At(anchor, t.forward[0]) == at {
        TakeWhole(t, room, sends, k, moved, anchor, at);
        var len: nat := t.forward[0].len;
        DrainTakesRun(Handed(t, len), room - len, sends, k + 1, true, anchor, at, at + len);
      } else {
        NotTaken(t, room, sends, k, moved, anchor, at);
      }
    }
  }

  /** Byte m, counted from the anchor, is in one of the pieces. */
  predicate InPieces(f: seq<Piece>, anchor: u32, m: int) {
    exists q :: q in f && At(anchor, q) <= m < At(anchor, q) + q.len
  }

  lemma {:induction false} RunIsGapFree(f: seq<Piece>, anchor: u32, at: int)
    requires Apart(f, anchor, at)
    ensures at <= Reached(f, anchor, at)
    ensures forall m | at <= m < Reached(f, anchor, at) :: InPieces(f, anchor, m)
    ensures !InPieces(f, anchor, Reached(f, anchor, at))
    ensures forall q :: q in Beyond(f, anchor, at) <==> q in f && At(anchor, q) > Reached(f, anchor, at)
    decreases |f|
  {
    if f != [] {
      var h := f[0];
      assert f == [h] + f[1..];
      if At(anchor, h) == at {
        RunIsGapFree(f[1..], anchor, at + h.len);
        forall m | at <= m < Reached(f, anchor, at) ensures InPieces(f, anchor, m) {
          if m < at + h.len {
            assert h in f;
          } else {
            assert InPieces(f[1..], anchor, m);
          }
        }
      } else {
        forall q | q in f ensures At(anchor, q) > at {
          ApartMember(f, anchor, At(anchor, h), q);
        }
      }
    }
  }

  /** Byte m, counted from the next byte due, is in one of the segments that arrived. */
  predicate Received(ps: seq<Packet>, anchor: u32, m: int) {
    exists p :: p in ps && At(anchor, PieceOf(p)) <= m < At(anchor, PieceOf(p)) + |p.data|
  }

  /** n bytes on, the first missing byte; `rest` is what lies past it. */
  predicate FirstGap(ps: seq<Packet>, anchor: u32, n: int, rest: seq<Piece>) {
    && n >= 0
    && (forall m | 0 <= m < n :: Received(ps, anchor, m))
    && !Received(ps, anchor, n)
    && (forall p | p in ps :: At(anchor, PieceOf(p)) > n <==> Queued(rest, p))
    && (forall q | q in rest :: Arrived(ps, q))
  }

  /** What was handed over since t ends at the first missing byte, and remote_seq stands there. */
  predicate StandsAtGap(t: Tcb, u: Tcb, ps: seq<Packet>) {
    var n := |u.upstream| - |t.upstream|;
    u.remoteSeq == Add32(t.remoteSeq, n) && FirstGap(ps, t.remoteSeq, n, u.forward)
  }

  lemma GapOfQueue(f: seq<Piece>, ps: seq<Packet>, anchor: u32)
    requires Apart(f, anchor, 0) && Collected(f, ps, anchor) && Clean(ps, anchor)
    ensures FirstGap(ps, anchor, Reached(f, anchor, 0), Beyond(f, anchor, 0))
  {
    RunIsGapFree(f, anchor, 0);
    var n := Reached(f, anchor, 0);
    var rest := Beyond(f, anchor, 0);
    forall m: nat ensures Received(ps, anchor, m) <==> InPieces(f, anchor, m) {
      ReceivedIsQueued(f, ps, anchor, m);
    }
    forall p | p in ps ensures At(anchor, PieceOf(p)) > n <==> Queued(rest, p) {
      QueuedBeyond(f, rest, ps, anchor, n, p);
    }
  }

  /** Segments that are disjoint or repeated, in any order, then a drain with room and full sends: remote_seq
      stands at the first byte that has not arrived, and the queue holds exactly the segments past it. */
  lemma DrainReachesFirstGap(t: Tcb, ps: seq<Packet>, room: int, sends: nat -> ssize)
    requires t.forward == [] && Clean(ps, t.remoteSeq)
    requires FullOn(QueueAll(t, ps).forward, sends, 0) && room > Unsent(QueueAll(t, ps).forward)
    ensures StandsAtGap(t, Drain(QueueAll(t, ps), room, sends, 0, false).t, ps)
  {
    QueueAllCollects(t, ps);
    DrainQueued(QueueAll(t, ps), t, ps, room, sends);
  }

  lemma DrainQueued(v: Tcb, t: Tcb, ps: seq<Packet>, room: int, sends: nat -> ssize)
    requires v == t.(forward := v.forward) && Clean(ps, t.remoteSeq)
    requires Apart(v.forward, t.remoteSeq, 0) && Collected(v.forward, ps, t.remoteSeq)
    requires FullOn(v.forward, sends, 0) && room > Unsent(v.forward)
    ensures StandsAtGap(t, Drain(v, room, sends, 0, false).t, ps)
  {
    Add32Zero(t.remoteSeq);
    ApartRises(v.forward, t.remoteSeq, 0, -1);
    DrainTakesRun(v, room, sends, 0, false, t.remoteSeq, -1, 0);
    GapOfQueue(v.forward, ps, t.remoteSeq);
  }

  lemma ReceivedIsQueued(f: seq<Piece>, ps: seq<Packet>, anchor: u32, m: nat)
    requires Collected(f, ps, anchor) && Clean(ps, anchor)
    ensures Received(ps, anchor, m) <==> InPieces(f, anchor, m)
  {
    if InPieces(f, anchor, m) {
      var q :| q in f && At(anchor, q) <= m < At(anchor, q) + q.len;
      assert Arrived(ps, q);
      var p :| p in ps && Matches(q, p);
    }
    if Received(ps, anchor, m) {
      var p :| p in ps && At(anchor, PieceOf(p)) <= m < At(anchor, PieceOf(p)) + |p.data|;
      assert Queued(f, p);
      var q :| q in f && Matches(q, p);
    }
  }

  lemma QueuedBeyond(f: seq<Piece>, rest: seq<Piece>, ps: seq<Packet>, anchor: u32, n: int, p: Packet)
    requires Collected(f, ps, anchor) && p in ps && n >= 0
    requires forall q :: q in rest <==> q in f && At(anchor, q) > n
    ensures At(anchor, PieceOf(p)) > n <==> Queued(rest, p)
  {
    if At(anchor, PieceOf(p)) > n {
      assert Queued(f, p);
      var q :| q in f && Matches(q, p);
      assert q in rest;
    }
  }
}
