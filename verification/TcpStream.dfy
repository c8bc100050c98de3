/** The forward queue against the byte stream of the app: what is handed upstream is exactly that stream. */
module TcpStream {
  import opened Serial
  import opened TcpModel
  import opened TcpSafety
  import opened TcpSequence

  // Queued segments start less than this far behind, and less than FAR ahead of, the next byte to hand over.
  const BACK: int := 0x1_0000
  const FAR: int := REACH - BACK

  /** Piece q covers the stream from offset off on. */
  predicate Covers(q: Piece, off: int, stream: seq<byte>) {
    0 <= off && off + q.len <= |stream| && q.data[..q.len] == stream[off..off + q.len]
  }

  /** Pieces not yet touched by the send loop, in strict order, all later than the signed distance lo from
      `anchor`, the sequence number of stream offset pos. */
  predicate Untouched(f: seq<Piece>, anchor: u32, pos: nat, stream: seq<byte>, lo: int)
    decreases |f|
  {
    f == [] ||
    var at := Rel(anchor, f[0].seqNo);
    lo < at < FAR && f[0].sent == 0 && Covers(f[0], pos + at, stream) && Untouched(f[1..], anchor, pos, stream, at)
  }

  /** Only the head may be partly sent, and then its next byte is the byte at pos. */
  predicate QueueInv(f: seq<Piece>, anchor: u32, pos: nat, stream: seq<byte>) {
    f == [] ||
    var at := Rel(anchor, f[0].seqNo);
    && -BACK < at < FAR && (f[0].sent > 0 ==> at == 0 - f[0].sent && f[0].sent < f[0].len)
    && Covers(f[0], pos + at, stream) && Untouched(f[1..], anchor, pos, stream, at)
  }

  // ----- queueing -----

  lemma {:induction false} InsertUntouched(f: seq<Piece>, n: Piece, anchor: u32, pos: nat, stream: seq<byte>, lo: int)
    requires -BACK < lo && Untouched(f, anchor, pos, stream, lo)
    requires lo < Rel(anchor, n.seqNo) < FAR && n.sent == 0 && Covers(n, pos + Rel(anchor, n.seqNo), stream)
    ensures Untouched(Insert(f, n), anchor, pos, stream, lo)
    decreases |f|
  {
    if f != [] {
      CompareByRel(anchor, f[0].seqNo, n.seqNo);
      if CompareU32(f[0].seqNo, n.seqNo) < 0 {
        InsertUntouched(f[1..], n, anchor, pos, stream, Rel(anchor, f[0].seqNo));
        var r := [f[0]] + Insert(f[1..], n);
        assert r[1..] == Insert(f[1..], n);
      } else if CompareU32(f[0].seqNo, n.seqNo) > 0 {
        var r := [n] + f;
        assert r[1..] == f;
      } else if f[0].len < n.len {
        var r := [f[0].(data := n.data)] + f[1..];
        assert r[1..] == f[1..];
        ShorterCover(f[0], n, pos + Rel(anchor, n.seqNo), stream);
      }
    }
  }

  /** A longer retransmission of the same segment agrees with it on the bytes that count. */
  lemma ShorterCover(q: Piece, n: Piece, off: int, stream: seq<byte>)
    requires q.len < n.len && Covers(n, off, stream)
    ensures Covers(q.(data := n.data), off, stream)
  {
    assert n.data[..q.len] == n.data[..n.len][..q.len];
    assert stream[off..off + q.len] == stream[off..off + n.len][..q.len];
  }

  lemma InsertKeepsQueue(f: seq<Piece>, n: Piece, anchor: u32, pos: nat, stream: seq<byte>)
    requires QueueInv(f, anchor, pos, stream)
    requires 0 <= Rel(anchor, n.seqNo) < FAR && n.sent == 0 && Covers(n, pos + Rel(anchor, n.seqNo), stream)
    ensures QueueInv(Insert(f, n), anchor, pos, stream)
  {
    if f != [] {
      CompareByRel(anchor, f[0].seqNo, n.seqNo);
      if CompareU32(f[0].seqNo, n.seqNo) < 0 {
        InsertUntouched(f[1..], n, anchor, pos, stream, Rel(anchor, f[0].seqNo));
        HeadOfQueue(f[0], Insert(f[1..], n), anchor, pos, stream);
      } else if CompareU32(f[0].seqNo, n.seqNo) > 0 {
        HeadOfQueue(n, f, anchor, pos, stream);
      } else if f[0].len < n.len {
        ShorterCover(f[0], n, pos + Rel(anchor, n.seqNo), stream);
        HeadOfQueue(f[0].(data := n.data), f[1..], anchor, pos, stream);
      }
    }
  }

  lemma HeadOfQueue(h: Piece, f: seq<Piece>, anchor: u32, pos: nat, stream: seq<byte>)
    requires -BACK < Rel(anchor, h.seqNo) < FAR && Covers(h, pos + Rel(anchor, h.seqNo), stream)
    requires h.sent > 0 ==> Rel(anchor, h.seqNo) == 0 - h.sent && h.sent < h.len
    requires Untouched(f, anchor, pos, stream, Rel(anchor, h.seqNo))
    ensures QueueInv([h] + f, anchor, pos, stream)
  {
    assert ([h] + f)[1..] == f;
  }

  /** The queue is strictly sorted by compare_u32, so no two segments share a sequence number. */
  lemma {:induction false} UntouchedSorted(f: seq<Piece>, anchor: u32, pos: nat, stream: seq<byte>, lo: int, j: nat)
    requires -BACK < lo && Untouched(f, anchor, pos, stream, lo) && j < |f|
    ensures lo < Rel(anchor, f[j].seqNo) < FAR && f[j].sent == 0
    ensures Covers(f[j], pos + Rel(anchor, f[j].seqNo), stream)
    decreases |f|
  {
    if j > 0 { UntouchedSorted(f[1..], anchor, pos, stream, Rel(anchor, f[0].seqNo), j - 1); }
  }

  lemma {:induction false} SortedPair(f: seq<Piece>, anchor: u32, pos: nat, stream: seq<byte>, i: nat, j: nat)
    requires QueueInv(f, anchor, pos, stream) && i < j < |f|
    ensures CompareU32(f[i].seqNo, f[j].seqNo) < 0 && f[i].seqNo != f[j].seqNo && f[j].sent == 0
    decreases |f|
  {
    if i == 0 {
      UntouchedSorted(f[1..], anchor, pos, stream, Rel(anchor, f[0].seqNo), j - 1);
      CompareByRel(anchor, f[0].seqNo, f[j].seqNo);
    } else {
      SortedPair(f[1..], anchor, pos, stream, i - 1, j - 1);
    }
  }

  // ----- the send loop -----

  lemma {:induction false} UntouchedShift(f: seq<Piece>, anchor: u32, pos: nat, stream: seq<byte>, lo: int, n: nat)
    requires Untouched(f, anchor, pos, stream, lo) && -BACK <= lo - n
    ensures Untouched(f, Add32(anchor, n), pos + n, stream, lo - n)
    decreases |f|
  {
    if f != [] {
      RelShift(anchor, n, f[0].seqNo);
      UntouchedShift(f[1..], anchor, pos, stream, Rel(anchor, f[0].seqNo), n);
    }
  }

  /** The head of a ready queue continues exactly at pos. */
  lemma ReadyHead(t: Tcb, room: int, anchor: u32, pos: nat, stream: seq<byte>)
    requires QueueInv(t.forward, anchor, pos, stream) && t.remoteSeq == anchor && HeadReady(t, room)
    ensures Rel(anchor, t.forward[0].seqNo) == 0 - t.forward[0].sent
  {
    RelBack(t.forward[0].seqNo, t.forward[0].sent);
  }

  lemma SliceOfSlice(s: seq<byte>, lo: nat, hi: nat, a: nat, b: nat)
    requires lo <= hi <= |s| && a <= b <= hi - lo
    ensures s[lo..hi][a..b] == s[lo + a..lo + b]
  {
    var x, y := s[lo..hi][a..b], s[lo + a..lo + b];
    assert forall k | 0 <= k < |x| :: x[k] == s[lo + a + k] == y[k];
    assert x == y;
  }

  /** The unsent bytes of a piece are the bytes of the stream after the sent ones. */
  lemma CoverPart(h: Piece, off: int, stream: seq<byte>, n: nat)
    requires Covers(h, off, stream) && h.sent + n <= h.len
    ensures stream[..off + h.sent] + h.data[h.sent..h.sent + n] == stream[..off + h.sent + n]
  {
    assert h.data[0..h.len] == h.data[..h.len];
    SliceOfSlice(h.data, 0, h.len, h.sent, h.sent + n);
    SliceOfSlice(stream, off, off + h.len, h.sent, h.sent + n);
    var part := stream[off + h.sent..off + h.sent + n];
    assert stream[..off + h.sent] + part == stream[..off + h.sent + n];
  }

  /** remote_seq is the number of the next byte, everything before it was handed over, the queue fits. */
  predicate Placed(t: Tcb, stream: seq<byte>) {
    && |t.upstream| <= |stream| && t.upstream == stream[..|t.upstream|]
    && QueueInv(t.forward, t.remoteSeq, |t.upstream|, stream)
  }

  lemma TakeKeepsQueue(f: seq<Piece>, n: nat, anchor: u32, pos: nat, stream: seq<byte>)
    requires f != [] && n <= f[0].len - f[0].sent && Rel(anchor, f[0].seqNo) == 0 - f[0].sent
    requires QueueInv(f, anchor, pos, stream)
    ensures QueueInv(TakeFromHead(f, n), Add32(anchor, n), pos + n, stream)
  {
    var g := TakeFromHead(f, n);
    UntouchedShift(f[1..], anchor, pos, stream, 0 - f[0].sent, n);
    if g != f[1..] {
      RelShift(anchor, n, f[0].seqNo);
      assert g[1..] == f[1..];
    }
  }

  lemma HandedKeeps(t: Tcb, room: int, n: nat, stream: seq<byte>)
    requires Placed(t, stream) && HeadReady(t, room) && n <= t.forward[0].len - t.forward[0].sent
    ensures Placed(Handed(t, n), stream)
  {
    ReadyHead(t, room, t.remoteSeq, |t.upstream|, stream);
    HandedMoves(t, room, n);
    HandedBytes(t, n, stream);
    TakeKeepsQueue(t.forward, n, t.remoteSeq, |t.upstream|, stream);
  }

  lemma HandedBytes(t: Tcb, n: nat, stream: seq<byte>)
    requires Placed(t, stream) && t.forward != [] && n <= t.forward[0].len - t.forward[0].sent
    requires Rel(t.remoteSeq, t.forward[0].seqNo) == 0 - t.forward[0].sent
    ensures var u := Handed(t, n).upstream; |u| <= |stream| && u == stream[..|u|]
  {
    var h := t.forward[0];
    CoverPart(h, |t.upstream| - h.sent, stream, n);
  }

  lemma {:induction false} DrainKeeps(t: Tcb, room: int, sends: nat -> ssize, k: nat, moved: bool, stream: seq<byte>)
    requires Placed(t, stream)
    ensures Placed(Drain(t, room, sends, k, moved).t, stream)
    decreases |t.forward|
  {
    if HeadReady(t, room) {
      var len: nat := t.forward[0].len - t.forward[0].sent;
      var n := Clip(sends(k), len);
      HandedKeeps(t, room, n, stream);
      if n == len {
        DrainKeeps(Handed(t, n), room - n, sends, k + 1, true, stream);
      }
    }
  }

  // ----- whole runs -----

  /** The sequence number of the next byte of the app's stream to hand over. */
  function NextSeq(t: Tcb): u32 { Add32(t.conf.remoteStart, 1 + |t.upstream|) }

  /** What was handed upstream is a prefix of the app's stream, and the queue holds later pieces of it. */
  predicate OnStream(t: Tcb, stream: seq<byte>) {
    && |t.upstream| <= |stream| && t.upstream == stream[..|t.upstream|]
    && QueueInv(t.forward, NextSeq(t), |t.upstream|, stream)
  }

  predicate StreamInv(t: Tcb, stream: seq<byte>) {
    && SeqInv(t) && SocketInv(t) && OnStream(t, stream)
    && (RemoteAt(t, -1) ==> t.upstream == [])
  }

  /** The packet goes into the queue, if at all: data, or any packet of an ungranted tunnelled session. */
  predicate Queueable(t: Tcb, p: Packet) { p.data != [] || Ungranted(t) }

  /** The data of p is the app's stream at the place its sequence number says, taken less than 2^31 - 2
      bytes behind and less than FAR bytes ahead of the byte that is due. */
  predicate Genuine(t: Tcb, p: Packet, stream: seq<byte>) {
    Queueable(t, p) ==>
      var at := Rel(NextSeq(t), p.seqNo);
      && -REACH + 1 < at < FAR
      && 0 <= |t.upstream| + at && |t.upstream| + at + |p.data| <= |stream|
      && p.data == stream[|t.upstream| + at..|t.upstream| + at + |p.data|]
  }

  predicate GenuineEvent(t: Tcb, ev: Event, stream: seq<byte>) {
    ev.FromTun? ==> Genuine(t, ev.p, stream)
  }

  /** Every packet of the run is genuine when it arrives; loss, repetition and reordering are free. */
  predicate GenuineRun(t: Tcb, evs: seq<Event>, stream: seq<byte>)
    decreases |evs|
  {
    evs == [] || (GenuineEvent(t, evs[0], stream) && GenuineRun(Step(t, evs[0]), evs[1..], stream))
  }

  /** A closing session in which more than the SYN and the bytes was counted is told to write, and finds a segment at
      the number behind the byte that is due. Only the end of a waiting tunnelled session gets there. */
  predicate Skips(t: Tcb, ev: Event) {
    && ev.FromSocket? && !ev.e.error && ev.e.writable
    && Closed(t.state) && RemoteAt(t, 1) && HeadReady(t, ReceiveBuffer(t.socket, ev.e.before))
  }

  predicate SkipFree(t: Tcb, evs: seq<Event>)
    decreases |evs|
  {
    evs == [] || (!Skips(t, evs[0]) && SkipFree(Step(t, evs[0]), evs[1..]))
  }

  /** No run of any other session does. */
  lemma {:induction false} OtherPortsSkipNothing(t: Tcb, evs: seq<Event>)
    requires SeqInv(t) && SocketInv(t) && t.conf.dest != HTTPS_PORT
    ensures SkipFree(t, evs)
    decreases |evs|
  {
    if evs != [] {
      NothingSkipped(t, evs[0]);
      StepAdvances(t, evs[0]);
      StepKeepsSeq(t, evs[0]);
      StepKeepsConf(t, evs[0]);
      OtherPortsSkipNothing(Step(t, evs[0]), evs[1..]);
    }
  }

  lemma NothingSkipped(t: Tcb, ev: Event)
    requires SeqInv(t) && (t.conf.dest != HTTPS_PORT || !Closed(t.state))
    ensures !Skips(t, ev)
  {
    if RemoteAt(t, 1) {
      NotBoth(t, -1, 1);
      NotBoth(t, 0, 1);
    }
  }

  lemma NotBoth(t: Tcb, m: int, n: int)
    requires -2 <= m <= 2 && -2 <= n <= 2 && m != n
    ensures !(RemoteAt(t, m) && RemoteAt(t, n))
  {
    if RemoteAt(t, m) && RemoteAt(t, n) {
      Add32Injective(t.conf.remoteStart, 1 + |t.upstream| + m, 1 + |t.upstream| + n);
    }
  }

  /** Queue and stream are left alone, and remote_seq does not go back to the SYN. */
  predicate SameQueue(t: Tcb, u: Tcb) {
    && u.conf == t.conf && u.forward == t.forward && u.upstream == t.upstream
    && (u.remoteSeq == t.remoteSeq || u.remoteSeq == Add32(t.remoteSeq, 1))
  }

  lemma SameQueueKeeps(t: Tcb, u: Tcb, stream: seq<byte>)
    requires OnStream(t, stream) && SameQueue(t, u)
    requires RemoteAt(t, -1) || RemoteAt(t, 0) || RemoteAt(t, 1)
    requires RemoteAt(t, -1) ==> t.upstream == []
    ensures OnStream(u, stream) && (RemoteAt(u, -1) ==> u.upstream == [])
  {
    if RemoteAt(u, -1) && !RemoteAt(t, -1) {
      var k := if RemoteAt(t, 0) then 0 else 1;
      StepRemote(t, k);
      Add32Injective(t.conf.remoteStart, 1 + |t.upstream| + (k + 1), |t.upstream|);
    }
  }

  lemma CounterIsNext(t: Tcb)
    requires RemoteAt(t, 0)
    ensures t.remoteSeq == NextSeq(t)
  {
  }

  /** One short of the stream, where only the SYN could be due, nothing in the queue is ready. */
  lemma NothingReadyAtSyn(t: Tcb, room: int, stream: seq<byte>)
    requires StreamInv(t, stream) && RemoteAt(t, -1)
    ensures !HeadReady(t, room)
  {
    if HeadReady(t, room) {
      var h := t.forward[0];
      Add32Add(t.conf.remoteStart, 0, 1);
      Add32Add(h.seqNo, h.sent, 1);
      assert Add32(h.seqNo, h.sent + 1) == NextSeq(t);
      RelBack(h.seqNo, h.sent + 1);
    }
  }

  predicate Between(t: Tcb, stream: seq<byte>) {
    && OnStream(t, stream)
    && (RemoteAt(t, -1) || RemoteAt(t, 0) || RemoteAt(t, 1))
    && (RemoteAt(t, -1) ==> t.upstream == [])
  }

  lemma ForwardedOnStream(t: Tcb, e: SocketEvent, stream: seq<byte>)
    requires StreamInv(t, stream) && t.state != LISTEN && !Skips(t, FromSocket(e)) && !e.error
    ensures Between(Forwarded(t, e).t, stream)
  {
    ForwardedFrame(t, e);
    var room := ReceiveBuffer(t.socket, e.before);
    if e.writable && HeadReady(t, room) {
      if RemoteAt(t, -1) {
        NothingReadyAtSyn(t, room, stream);
      }
      LoopOnStream(t, e, stream);
    }
  }

  lemma LoopOnStream(t: Tcb, e: SocketEvent, stream: seq<byte>)
    requires OnStream(t, stream) && RemoteAt(t, 0) && e.writable && OnlyQueue(t, Forwarded(t, e).t)
    ensures Between(Forwarded(t, e).t, stream)
  {
    CounterIsNext(t);
    DrainKeeps(t, ReceiveBuffer(t.socket, e.before), e.sends, 0, false, stream);
    var n := ForwardedMoves(t, e);
    var u := Forwarded(t, e).t;
    RemoteMoves(t, u, n, 0);
    CounterIsNext(u);
    NotBoth(u, -1, 0);
  }

  lemma QueueOnStream(t: Tcb, p: Packet, stream: seq<byte>)
    requires Between(t, stream) && Genuine(t, p, stream) && Queueable(t, p)
    ensures OnStream(Queue(t, p), stream)
  {
    if CompareU32(p.seqNo, t.remoteSeq) >= 0 {
      NotBehind(t, p, stream);
      GenuineCovers(t, p, stream);
      InsertKeepsQueue(t.forward, PieceOf(p), NextSeq(t), |t.upstream|, stream);
      Requeued(t, Insert(t.forward, PieceOf(p)), stream);
    }
  }

  lemma GenuineCovers(t: Tcb, p: Packet, stream: seq<byte>)
    requires Genuine(t, p, stream) && Queueable(t, p)
    ensures Covers(PieceOf(p), |t.upstream| + Rel(NextSeq(t), p.seqNo), stream)
    ensures -REACH + 1 < Rel(NextSeq(t), p.seqNo) < FAR
  {
    assert p.data[..|p.data|] == p.data;
  }

  lemma Requeued(t: Tcb, f: seq<Piece>, stream: seq<byte>)
    requires OnStream(t, stream) && QueueInv(f, NextSeq(t), |t.upstream|, stream)
    ensures OnStream(t.(forward := f), stream)
  {
    assert NextSeq(t.(forward := f)) == NextSeq(t);
  }

  /** What passes the first test of queue_tcp starts at the next byte or later. */
  lemma NotBehind(t: Tcb, p: Packet, stream: seq<byte>)
    requires Between(t, stream) && Genuine(t, p, stream) && Queueable(t, p)
    requires CompareU32(p.seqNo, t.remoteSeq) >= 0
    ensures Rel(NextSeq(t), p.seqNo) >= 0
  {
    var anchor := NextSeq(t);
    if RemoteAt(t, -1) {
    } else {
      var k := if RemoteAt(t, 0) then 0 else 1;
      Add32Add(t.conf.remoteStart, 1 + |t.upstream|, k);
      RelOfAdd(anchor, k);
      CompareByRel(anchor, p.seqNo, t.remoteSeq);
    }
  }

  lemma RstSameQueue(t: Tcb, ok: bool)
    ensures SameQueue(t, WriteRst(t, ok))
  {
  }

  lemma ConnectingSameQueue(t: Tcb, e: SocketEvent)
    requires t.state == LISTEN
    ensures SameQueue(t, SocketConnecting(t, e))
  {
  }

  lemma RefreshSameQueue(t: Tcb, window: u32, e: SocketEvent, moved: bool)
    ensures SameQueue(t, Refresh(t, window, e, moved))
  {
  }

  lemma ReadSameQueue(t: Tcb, e: SocketEvent)
    requires Open(t.state)
    ensures SameQueue(t, ReadSocket(t, e))
  {
  }

  lemma CheckSocketOnStream(t: Tcb, e: SocketEvent, stream: seq<byte>)
    requires StreamInv(t, stream) && Tidy(t, FromSocket(e)) && !Skips(t, FromSocket(e))
    ensures StreamInv(CheckSocket(t, e), stream)
  {
    CheckSocketKeeps(t, e);
    CheckSocketAdvances(t, e);
    if e.error {
      RstSameQueue(t.(time := e.now), e.writeOk);
      SameQueueKeeps(t, CheckSocket(t, e), stream);
    } else if t.state == LISTEN {
      ConnectingSameQueue(t, e);
      SameQueueKeeps(t, CheckSocket(t, e), stream);
    } else {
      ForwardedOnStream(t, e, stream);
      ForwardedKeeps(t, e);
      var d := Forwarded(t, e);
      var t1 := Acknowledge(d.t, e, d.moved);
      RefreshSameQueue(d.t, ReceiveWindow(d.t, e.after), e, d.moved);
      SameQueueKeeps(d.t, t1, stream);
      AcknowledgeKeeps(d.t, e, d.moved);
      if Open(t1.state) {
        ReadSameQueue(t1, e);
        SameQueueKeeps(t1, ReadSocket(t1, e), stream);
      }
    }
  }

  lemma FlagsSameQueue(t: Tcb, p: Packet, ok: bool)
    ensures SameQueue(t, Flags(t, p, ok))
  {
  }

  lemma TouchOnStream(t: Tcb, p: Packet, now: int, stream: seq<byte>)
    requires Between(t, stream) && Genuine(t, p, stream) && p.data != []
    ensures Between(Touch(t, p, now), stream) && Genuine(Touch(t, p, now), p, stream)
  {
  }

  lemma QueueSameCounters(t: Tcb, p: Packet)
    ensures Queue(t, p) == t.(forward := Queue(t, p).forward)
  {
  }

  lemma InvIsBetween(t: Tcb, stream: seq<byte>)
    requires StreamInv(t, stream)
    ensures Between(t, stream)
  {
  }

  lemma DataOnStream(t: Tcb, p: Packet, ok: bool, stream: seq<byte>)
    requires Between(t, stream) && Genuine(t, p, stream) && p.data != []
    ensures var u := Flags(Queue(t, p), p, ok); OnStream(u, stream) && (RemoteAt(u, -1) ==> u.upstream == [])
  {
    var q := Queue(t, p);
    QueueOnStream(t, p, stream);
    QueueSameCounters(t, p);
    FlagsSameQueue(q, p, ok);
    SameQueueKeeps(q, Flags(q, p, ok), stream);
  }

  lemma SegmentOnStream(t: Tcb, p: Packet, i: TunInput, stream: seq<byte>)
    requires StreamInv(t, stream) && Genuine(t, p, stream) && !Ungranted(t)
    ensures var u := Segment(t, p, i); OnStream(u, stream) && (RemoteAt(u, -1) ==> u.upstream == [])
  {
    var t1 := Touch(t, p, i.now);
    var u := Segment(t, p, i);
    if Closed(t.state) {
      RstSameQueue(t, i.writeOk);
      SameQueueKeeps(t, u, stream);
    } else if p.data == [] {
      FlagsSameQueue(t1, p, i.writeOk);
      SameQueueKeeps(t, u, stream);
    } else if t.socket < 0 || t.state == CLOSE_WAIT {
      RstSameQueue(t1, i.writeOk);
      SameQueueKeeps(t, u, stream);
    } else {
      InvIsBetween(t, stream);
      TouchOnStream(t, p, i.now, stream);
      DataOnStream(t1, p, i.writeOk, stream);
    }
  }

  lemma ConnectOnStream(t: Tcb, p: Packet, i: TunInput, stream: seq<byte>)
    requires StreamInv(t, stream) && t.conf.dest == HTTPS_PORT && !p.urg && Tidy(t, FromTun(p, i))
    ensures var t1 := SendConnect(t, i);
            StreamInv(t1, stream) && t1.conf == t.conf && t1.upstream == t.upstream && (Ungranted(t1) <==> Ungranted(t))
  {
    ConnectKeeps(t, p, i);
    ConnectAdvances(t, i);
    SameQueueKeeps(t, SendConnect(t, i), stream);
  }

  /** The CONNECT line, and then the packet in the queue or, once granted, as of any session. */
  lemma TunnelOnStream(t: Tcb, p: Packet, i: TunInput, stream: seq<byte>)
    requires StreamInv(t, stream) && Genuine(t, p, stream) && t.conf.dest == HTTPS_PORT
    requires !p.urg && Tidy(t, FromTun(p, i))
    ensures var u := HandlePacket(t, p, i); OnStream(u, stream) && (RemoteAt(u, -1) ==> u.upstream == [])
  {
    var t1 := SendConnect(t, i);
    ConnectOnStream(t, p, i, stream);
    if t1.connect == Granted {
      SegmentOnStream(t1, p, i, stream);
    } else {
      QueueOnStream(t1, p, stream);
    }
  }

  lemma PacketOnStream(t: Tcb, p: Packet, i: TunInput, stream: seq<byte>)
    requires StreamInv(t, stream) && Genuine(t, p, stream) && Tidy(t, FromTun(p, i))
    ensures StreamInv(HandlePacket(t, p, i), stream)
  {
    PacketKeeps(t, p, i);
    PacketAdvances(t, p, i);
    if !p.urg {
      if t.conf.dest == HTTPS_PORT {
        TunnelOnStream(t, p, i, stream);
      } else {
        SegmentOnStream(t, p, i, stream);
      }
    }
  }

  lemma QuietSameQueue(t: Tcb, ev: Event)
    requires ev.Sweep? || ev.Watch? || ev.Terminate?
    ensures SameQueue(t, Step(t, ev))
  {
  }

  lemma StepOnStream(t: Tcb, ev: Event, stream: seq<byte>)
    requires StreamInv(t, stream) && GenuineEvent(t, ev, stream) && Tidy(t, ev) && !Skips(t, ev)
    ensures StreamInv(Step(t, ev), stream)
  {
    match ev
    case FromTun(p, i) => PacketOnStream(t, p, i, stream);
    case FromSocket(e) => CheckSocketOnStream(t, e, stream);
    case _ =>
      StepKeepsSeq(t, ev);
      StepAdvances(t, ev);
      QuietSameQueue(t, ev);
      SameQueueKeeps(t, Step(t, ev), stream);
  }

  lemma {:induction false} RunOnStream(t: Tcb, evs: seq<Event>, stream: seq<byte>)
    requires StreamInv(t, stream) && GenuineRun(t, evs, stream) && TidyRun(t, evs) && SkipFree(t, evs)
    ensures StreamInv(Run(t, evs), stream)
    decreases |evs|
  {
    if evs != [] {
      StepOnStream(t, evs[0], stream);
      RunOnStream(Step(t, evs[0]), evs[1..], stream);
    }
  }

  /** Over every run of a new session, whatever its port, whose packets carry the app's stream, in any order,
      lost or repeated: the bytes handed upstream are exactly the stream up to remote_seq, less the SYN and a
      counted FIN, and the queue is strictly sorted with every later segment untouched. */
  lemma UpstreamIsTheStream(b: Birth, evs: seq<Event>, stream: seq<byte>)
    requires b.p.data == [] && GenuineRun(NewSession(b), evs, stream)
    requires TidyRun(NewSession(b), evs) && SkipFree(NewSession(b), evs)
    ensures var t := Run(NewSession(b), evs);
            && |t.upstream| <= |stream| && t.upstream == stream[..|t.upstream|]
            && Balanced(t) && (!Closed(t.state) ==> t.sent == |t.upstream|)
            && (forall i, j | 0 <= i < j < |t.forward| ::
                  CompareU32(t.forward[i].seqNo, t.forward[j].seqNo) < 0 && t.forward[j].sent == 0)
  {
    NewSessionSeq(b);
    RunOnStream(NewSession(b), evs, stream);
    var t := Run(NewSession(b), evs);
    forall i, j | 0 <= i < j < |t.forward|
      ensures CompareU32(t.forward[i].seqNo, t.forward[j].seqNo) < 0 && t.forward[j].sent == 0
    {
      SortedPair(t.forward, NextSeq(t), |t.upstream|, stream, i, j);
    }
    InvIsBalanced(t);
  }

  // ----- what is skipped -----

  lemma {:induction false} DrainExtends(t: Tcb, room: int, sends: nat -> ssize, k: nat, moved: bool)
    ensures t.upstream <= Drain(t, room, sends, k, moved).t.upstream
    decreases |t.forward|
  {
    if HeadReady(t, room) {
      var len: nat := t.forward[0].len - t.forward[0].sent;
      var n := Clip(sends(k), len);
      if n == len { DrainExtends(Handed(t, n), room - n, sends, k + 1, true); }
    }
  }

  /** Nothing new, or first the byte behind the one at pos. */
  predicate HandsSecond(before: seq<byte>, after: seq<byte>, pos: nat, stream: seq<byte>) {
    after == before || (pos + 1 < |stream| && before + [stream[pos + 1]] <= after)
  }

  /** A head that is ready one behind the byte that is due starts there. */
  lemma ReadyBehind(h: Piece, anchor: u32, pos: nat, stream: seq<byte>)
    requires Covers(h, pos + Rel(anchor, h.seqNo), stream) && (h.sent > 0 ==> Rel(anchor, h.seqNo) == 0 - h.sent)
    requires Add32(h.seqNo, h.sent) == Add32(anchor, 1)
    ensures h.sent == 0 && Rel(anchor, h.seqNo) == 1
    ensures h.len > 0 ==> pos + 1 < |stream| && h.data[0] == stream[pos + 1]
  {
    if h.sent > 0 {
      RelIff(anchor, 0 - h.sent, h.seqNo);
      Add32Add(anchor, 0 - h.sent, h.sent);
      Add32Zero(anchor);
      Add32Moves(anchor, 1);
    } else {
      Add32Zero(h.seqNo);
      RelOfAdd(anchor, 1);
      if h.len > 0 { assert h.data[..h.len][0] == stream[pos + 1..pos + 1 + h.len][0]; }
    }
  }

  lemma {:induction false} DrainHandsSecond(t: Tcb, room: int, sends: nat -> ssize, k: nat, moved: bool,
                                            anchor: u32, pos: nat, stream: seq<byte>)
    requires QueueInv(t.forward, anchor, pos, stream) && t.remoteSeq == Add32(anchor, 1)
    ensures HandsSecond(t.upstream, Drain(t, room, sends, k, moved).t.upstream, pos, stream)
    decreases |t.forward|
  {
    if HeadReady(t, room) {
      var h := t.forward[0];
      ReadyBehind(h, anchor, pos, stream);
      var n := Clip(sends(k), h.len);
      var u := Handed(t, n);
      if n == 0 {
        if h.len == 0 {
          Add32Zero(h.seqNo);
          DrainHandsSecond(u, room, sends, k + 1, true, anchor, pos, stream);
        }
      } else {
        assert u.upstream[..|t.upstream| + 1] == t.upstream + [stream[pos + 1]];
        if n == h.len { DrainExtends(u, room - n, sends, k + 1, true); }
      }
    }
  }

  /** Where the next byte of the stream differs from the one behind it, what a step hands over belongs to the stream if
      and only if the step does not skip, or hands nothing over. */
  lemma SkippingLeavesTheStream(t: Tcb, ev: Event, stream: seq<byte>)
    requires StreamInv(t, stream) && GenuineEvent(t, ev, stream) && Tidy(t, ev)
    requires |t.upstream| + 1 < |stream| ==> stream[|t.upstream|] != stream[|t.upstream| + 1]
    ensures Step(t, ev).upstream <= stream <==> !Skips(t, ev) || Step(t, ev).upstream == t.upstream
  {
    if !Skips(t, ev) {
      StepOnStream(t, ev, stream);
      InvIsPrefix(Step(t, ev), stream);
    } else {
      InvIsPrefix(t, stream);
      SkipHandsSecond(t, ev.e, stream);
      SecondIsNotNext(t.upstream, CheckSocket(t, ev.e).upstream, stream);
    }
  }

  lemma InvIsPrefix(t: Tcb, stream: seq<byte>)
    requires StreamInv(t, stream)
    ensures t.upstream <= stream && OnStream(t, stream)
  {
  }

  lemma SkipHandsSecond(t: Tcb, e: SocketEvent, stream: seq<byte>)
    requires OnStream(t, stream) && Skips(t, FromSocket(e))
    ensures HandsSecond(t.upstream, CheckSocket(t, e).upstream, |t.upstream|, stream)
  {
    SocketUpstream(t, e);
    Add32Add(t.conf.remoteStart, 1 + |t.upstream|, 1);
    DrainHandsSecond(t, ReceiveBuffer(t.socket, e.before), e.sends, 0, false, NextSeq(t), |t.upstream|, stream);
  }

  lemma SecondIsNotNext(before: seq<byte>, after: seq<byte>, stream: seq<byte>)
    requires before <= stream && HandsSecond(before, after, |before|, stream)
    requires |before| + 1 < |stream| ==> stream[|before|] != stream[|before| + 1]
    ensures after <= stream <==> after == before
  {
    if after != before { assert after[|before|] == (before + [stream[|before| + 1]])[|before|]; }
  }

  // ----- a run -----

  /** A session that works: the socket connects, the app acknowledges the SYN and sends data in one segment, and
      the socket takes it. The run is tidy and genuine, and all the data has been handed upstream. */
  lemma DataGoesUpstream(b: Birth, p: Packet, e: SocketEvent, i: TunInput, f: SocketEvent)
    requires b.dest != HTTPS_PORT && b.p.data == [] && !e.error && !e.readable && e.writeOk
    requires p.data != [] && p.seqNo == Add32(b.p.seqNo, 1) && p.ack && p.ackNo == Add32(b.isn, 1)
    requires !p.urg && !p.rst && !p.syn && !p.fin
    requires !f.error && f.writable && |p.data| < ReceiveBuffer(b.socket, f.before) && f.sends(0) >= |p.data|
    ensures var evs := [FromSocket(e), FromTun(p, i), FromSocket(f)];
            && TidyRun(NewSession(b), evs) && SkipFree(NewSession(b), evs) && GenuineRun(NewSession(b), evs, p.data)
            && Run(NewSession(b), evs).upstream == p.data
  {
    var t0 := NewSession(b);
    var t1 := Connected(t0, e);
    AfterAnswer(t0, e);
    var t2 := HandlePacket(t1, p, i);
    AfterData(t1, p, i);
    TakesAll(t2, p, f);
    var x, y, z := FromSocket(e), FromTun(p, i), FromSocket(f);
    ThreeSteps(t0, x, y, z);
    FirstIsGenuine(t1, p);
    ThreeGood(t0, x, y, z, p.data);
    NewSessionSeq(b);
    OtherPortsSkipNothing(t0, [x, y, z]);
  }

  lemma AfterData(t: Tcb, p: Packet, i: TunInput)
    requires t.conf.dest != HTTPS_PORT && t.state == SYN_RECV && t.socket >= 0
    requires t.forward == [] && p.seqNo == t.remoteSeq
    requires p.data != [] && p.ack && p.ackNo == t.localSeq && !p.urg && !p.rst && !p.syn && !p.fin
    ensures var u := HandlePacket(t, p, i);
            && u.state == ESTABLISHED && u.forward == [PieceOf(p)] && u.upstream == t.upstream
            && u.remoteSeq == t.remoteSeq && u.socket == t.socket && u.conf == t.conf
  {
    assert Queue(Touch(t, p, i.now), p).forward == [PieceOf(p)];
  }

  lemma FirstIsGenuine(t: Tcb, p: Packet)
    requires t.upstream == [] && p.seqNo == Add32(t.conf.remoteStart, 1)
    ensures Genuine(t, p, p.data)
  {
    assert NextSeq(t) == p.seqNo;
    RelSelf(p.seqNo);
    assert p.data[0..|p.data|] == p.data;
  }

  lemma TakesAll(t: Tcb, p: Packet, f: SocketEvent)
    requires t.state == ESTABLISHED && t.forward == [PieceOf(p)] && t.upstream == [] && t.remoteSeq == p.seqNo
    requires !f.error && f.writable && |p.data| < ReceiveBuffer(t.socket, f.before) && f.sends(0) >= |p.data|
    ensures CheckSocket(t, f).upstream == p.data
  {
    DrainOne(t, ReceiveBuffer(t.socket, f.before), f.sends);
    SocketUpstream(t, f);
    assert [] + p.data[0..|p.data|] == p.data;
  }

  lemma DrainOne(t: Tcb, room: int, sends: nat -> ssize)
    requires |t.forward| == 1 && HeadReady(t, room) && sends(0) >= t.forward[0].len
    ensures Drain(t, room, sends, 0, false).t.upstream ==
            t.upstream + t.forward[0].data[t.forward[0].sent..t.forward[0].len]
  {
    var len: nat := t.forward[0].len - t.forward[0].sent;
    var u := Handed(t, len);
    assert u.forward == [] && Drain(u, room - len, sends, 1, true).t == u;
  }

  lemma SocketUpstream(t: Tcb, e: SocketEvent)
    requires !e.error && t.state != LISTEN
    ensures CheckSocket(t, e).upstream == Forwarded(t, e).t.upstream
  {
    var d := Forwarded(t, e);
    RefreshSameQueue(d.t, ReceiveWindow(d.t, e.after), e, d.moved);
    var t1 := Acknowledge(d.t, e, d.moved);
    if Open(t1.state) { ReadSameQueue(t1, e); }
  }

  lemma ThreeGood(t: Tcb, x: Event, y: Event, z: Event, stream: seq<byte>)
    requires Tidy(t, x) && Tidy(Step(t, x), y) && Tidy(Step(Step(t, x), y), z)
    requires GenuineEvent(t, x, stream) && GenuineEvent(Step(t, x), y, stream)
    requires GenuineEvent(Step(Step(t, x), y), z, stream)
    ensures TidyRun(t, [x, y, z]) && GenuineRun(t, [x, y, z], stream)
  {
    assert [x, y, z][1..] == [y, z] && [y, z][1..] == [z] && [z][1..] == [];
    var u := Step(t, x);
    var v := Step(u, y);
    assert TidyRun(v, [z]) && GenuineRun(v, [z], stream);
    assert TidyRun(u, [y, z]) && GenuineRun(u, [y, z], stream);
  }
}
