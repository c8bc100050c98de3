/** Runs in which the app is told that bytes arrived which were never handed upstream. */
module TcpAckLosses {
  import opened Serial
  import opened TcpModel
  import opened TcpSequence
  import opened TcpStream
  import opened TcpAcks

  /** The run keeps to everything that is asked of the app and of the socket. */
  predicate Proper(t: Tcb, evs: seq<Event>, stream: seq<byte>) {
    TidyRun(t, evs) && GenuineRun(t, evs, stream) && EndGenuineRun(t, evs, stream)
  }

  predicate ProperStep(t: Tcb, ev: Event, stream: seq<byte>) {
    Tidy(t, ev) && GenuineEvent(t, ev, stream) && EndGenuine(t, ev, stream)
  }

  lemma {:induction false} Append(t: Tcb, evs: seq<Event>, ev: Event, stream: seq<byte>)
    ensures var u := Run(t, evs);
            && Run(t, evs + [ev]) == Step(u, ev)
            && (Proper(t, evs + [ev], stream) <==> Proper(t, evs, stream) && ProperStep(u, ev, stream))
            && (TruthfulRun(t, evs + [ev], stream) <==>
                TruthfulRun(t, evs, stream) && StepTruthful(u, Step(u, ev), stream))
    decreases |evs|
  {
    if evs == [] {
      assert [] + [ev] == [ev] && [ev][1..] == [];
      LastEvent(t, ev, stream);
    } else {
      assert (evs + [ev])[0] == evs[0] && (evs + [ev])[1..] == evs[1..] + [ev];
      Append(Step(t, evs[0]), evs[1..], ev, stream);
    }
  }

  lemma LastEvent(t: Tcb, ev: Event, stream: seq<byte>)
    ensures Run(t, [ev]) == Step(t, ev)
    ensures Proper(t, [ev], stream) <==> ProperStep(t, ev, stream)
    ensures TruthfulRun(t, [ev], stream) <==> StepTruthful(t, Step(t, ev), stream)
  {
    assert [ev][1..] == [];
    var u := Step(t, ev);
    assert TidyRun(u, []) && GenuineRun(u, [], stream) && EndGenuineRun(u, [], stream) && TruthfulRun(u, [], stream);
  }

  /** A new session whose socket connected, by this event. */
  lemma Connects(b: Birth, e: SocketEvent, stream: seq<byte>)
    requires b.p.data == [] && !e.error && !e.readable && e.writeOk
    ensures var t := Run(NewSession(b), [FromSocket(e)]);
            && Proper(NewSession(b), [FromSocket(e)], stream) && AckInv(t, stream)
            && t.state == SYN_RECV && t.forward == [] && t.upstream == [] && t.socket == b.socket
            && t.conf == NewSession(b).conf && t.connect == NewSession(b).connect
            && t.remoteSeq == Add32(b.p.seqNo, 1) && t.localSeq == Add32(b.isn, 1)
  {
    var t0 := NewSession(b);
    NewSessionAcks(b, stream);
    AfterAnswer(t0, e);
    LastEvent(t0, FromSocket(e), stream);
    StepAcks(t0, FromSocket(e), stream);
  }

  predicate PlainAck(p: Packet, b: Birth) {
    p.ack && p.ackNo == Add32(b.isn, 1) && !p.urg && !p.rst && !p.syn && !p.fin
  }

  predicate PlainFin(p: Packet, b: Birth, stream: seq<byte>) {
    && p.fin && p.ack && p.ackNo == Add32(b.isn, 1) && !p.urg && !p.rst && !p.syn && p.data == []
    && p.seqNo == Add32(b.p.seqNo, 1 + |stream|)
  }

  /** The app's data is lost and its FIN arrives: the FIN is acknowledged at once, as if one byte had been sent, and no
      byte was. */
  lemma LostDataIsAcknowledged(b: Birth, stream: seq<byte>, e: SocketEvent, a: Packet, f: Packet,
                               i: TunInput, j: TunInput)
    requires b.dest != HTTPS_PORT && b.p.data == [] && 0 < |stream| < HALF
    requires !e.error && !e.readable && e.writeOk && j.writeOk
    requires PlainAck(a, b) && a.data == [] && PlainFin(f, b, stream)
    ensures var t0, evs := NewSession(b), [FromSocket(e)] + [FromTun(a, i)] + [FromTun(f, j)];
            var u := Run(t0, evs);
            && Proper(t0, evs, stream) && u.upstream == [] && u.state == CLOSE_WAIT
            && u.wire != [] && u.wire[|u.wire| - 1].ack && u.wire[|u.wire| - 1].ackNo == Add32(b.p.seqNo, 2)
            && !TruthfulRun(t0, evs, stream)
  {
    var t0 := NewSession(b);
    Connects(b, e, stream);
    var t1 := Run(t0, [FromSocket(e)]);
    AfterAck(t1, a, i);
    StepAcks(t1, FromTun(a, i), stream);
    Append(t0, [FromSocket(e)], FromTun(a, i), stream);
    FinCountedAhead(HandlePacket(t1, a, i), f, b, stream, j);
    Append(t0, [FromSocket(e)] + [FromTun(a, i)], FromTun(f, j), stream);
  }

  lemma FinCountedAhead(t: Tcb, f: Packet, b: Birth, stream: seq<byte>, j: TunInput)
    requires AckInv(t, stream) && b.dest != HTTPS_PORT && t.conf == NewSession(b).conf && 0 < |stream| < HALF
    requires t.state == ESTABLISHED && t.forward == [] && t.upstream == []
    requires t.remoteSeq == Add32(b.p.seqNo, 1) && t.localSeq == Add32(b.isn, 1) && PlainFin(f, b, stream) && j.writeOk
    ensures var u := HandlePacket(t, f, j);
            && ProperStep(t, FromTun(f, j), stream) && u.upstream == [] && u.state == CLOSE_WAIT
            && u.wire != [] && u.wire[|u.wire| - 1].ack && u.wire[|u.wire| - 1].ackNo == Add32(b.p.seqNo, 2)
            && !StepTruthful(t, u, stream)
  {
    FinAhead(t, f, b, stream);
    CountedFin(t, f, j);
    LateFin(t, f, j, stream);
    Add32Add(b.p.seqNo, 1, 1);
  }

  lemma AfterAck(t: Tcb, p: Packet, i: TunInput)
    requires t.conf.dest != HTTPS_PORT && t.state == SYN_RECV && p.data == []
    requires p.ack && p.ackNo == t.localSeq && !p.urg && !p.rst && !p.syn && !p.fin
    ensures var u := HandlePacket(t, p, i);
            && u.state == ESTABLISHED && u.forward == t.forward && u.upstream == t.upstream && u.localSeq == t.localSeq
            && u.remoteSeq == t.remoteSeq && u.socket == t.socket && u.conf == t.conf
  {
  }

  /** A FIN behind bytes that are still missing. */
  lemma FinAhead(t: Tcb, f: Packet, b: Birth, stream: seq<byte>)
    requires 0 < |stream| < HALF && PlainFin(f, b, stream) && t.upstream == [] && t.conf.remoteStart == b.p.seqNo
    ensures EndGenuine(t, FromTun(f, TunInput(0, false, 0, false)), stream)
    ensures |t.upstream| + Rel(NextSeq(t), Add32(f.seqNo, |f.data|)) == |stream|
    ensures Add32(f.seqNo, |f.data|) != Add32(b.p.seqNo, 1)
  {
    var due := Add32(b.p.seqNo, 1);
    Add32Zero(f.seqNo);
    Add32Add(b.p.seqNo, 1, |stream|);
    assert f.seqNo == Add32(due, |stream|) && NextSeq(t) == due;
    RelOfAdd(due, |stream|);
    Add32Moves(due, |stream|);
  }

  /** Of two segments the second is lost and the FIN arrives: once the first is handed over the FIN is confirmed. */
  lemma LostTailIsAcknowledged(b: Birth, p: Packet, lost: seq<byte>, f: Packet,
                               e: SocketEvent, i: TunInput, j: TunInput, w: SocketEvent)
    requires b.dest != HTTPS_PORT && b.p.data == [] && lost != [] && |p.data| + |lost| < HALF
    requires !e.error && !e.readable && e.writeOk && !w.error && w.writable && w.ackOk
    requires PlainAck(p, b) && p.data != [] && p.seqNo == Add32(b.p.seqNo, 1) && PlainFin(f, b, p.data + lost)
    requires |p.data| < ReceiveBuffer(b.socket, w.before) && w.sends(0) >= |p.data|
    ensures var t0, evs := NewSession(b), [FromSocket(e)] + [FromTun(p, i)] + [FromTun(f, j)] + [FromSocket(w)];
            && Proper(t0, evs, p.data + lost) && Run(t0, evs).upstream == p.data
            && !TruthfulRun(t0, evs, p.data + lost)
  {
    var t0, stream := NewSession(b), p.data + lost;
    var x, y, z := FromSocket(e), FromTun(p, i), FromTun(f, j);
    FirstSegment(b, p, lost, e, i);
    TailConfirmed(Run(t0, [x] + [y]), b, p, lost, f, j, w);
    Append(t0, [x] + [y], z, stream);
    Append(t0, [x] + [y] + [z], FromSocket(w), stream);
  }

  lemma TailConfirmed(t: Tcb, b: Birth, p: Packet, lost: seq<byte>, f: Packet, j: TunInput, w: SocketEvent)
    requires AckInv(t, p.data + lost) && t.state == ESTABLISHED && t.forward == [PieceOf(p)] && t.upstream == []
    requires t.remoteSeq == p.seqNo && t.localSeq == Add32(b.isn, 1)
    requires t.conf == NewSession(b).conf && t.socket == b.socket
    requires b.dest != HTTPS_PORT && lost != [] && |p.data| + |lost| < HALF
    requires !w.error && w.writable && w.ackOk && p.seqNo == Add32(b.p.seqNo, 1) && PlainFin(f, b, p.data + lost)
    requires |p.data| < ReceiveBuffer(b.socket, w.before) && w.sends(0) >= |p.data|
    ensures var stream, z := p.data + lost, FromTun(f, j);
            var u := Step(t, z);
            && ProperStep(t, z, stream) && ProperStep(u, FromSocket(w), stream)
            && CheckSocket(u, w).upstream == p.data && !StepTruthful(u, CheckSocket(u, w), stream)
  {
    var stream := p.data + lost;
    FinAhead(t, f, b, stream);
    DeferredFin(t, f, j);
    StepAcks(t, FromTun(f, j), stream);
    var u := HandlePacket(t, f, j);
    ConfirmsOne(u, p, w);
    EndOfFirst(u, p, b, lost);
    EarlyConfirmation(u, w, stream);
  }

  lemma FirstSegment(b: Birth, p: Packet, lost: seq<byte>, e: SocketEvent, i: TunInput)
    requires b.dest != HTTPS_PORT && b.p.data == [] && !e.error && !e.readable && e.writeOk
    requires PlainAck(p, b) && p.data != [] && p.seqNo == Add32(b.p.seqNo, 1)
    ensures var t0, evs, stream := NewSession(b), [FromSocket(e)] + [FromTun(p, i)], p.data + lost;
            var t := Run(t0, evs);
            && Proper(t0, evs, stream) && AckInv(t, stream) && t.state == ESTABLISHED && t.forward == [PieceOf(p)]
            && t.upstream == [] && t.remoteSeq == p.seqNo && t.localSeq == Add32(b.isn, 1) && t.conf == t0.conf
            && t.socket == b.socket && !Ungranted(t)
  {
    var t0, stream := NewSession(b), p.data + lost;
    var x, y := FromSocket(e), FromTun(p, i);
    Connects(b, e, stream);
    var t1 := Run(t0, [x]);
    AfterData(t1, p, i);
    DataKeepsLocal(t1, p, i);
    StartsStream(t1, p, lost);
    StepAcks(t1, y, stream);
    Append(t0, [x], y, stream);
  }

  lemma DataKeepsLocal(t: Tcb, p: Packet, i: TunInput)
    requires t.conf.dest != HTTPS_PORT && t.state == SYN_RECV && t.socket >= 0 && p.data != []
    requires p.ack && p.ackNo == t.localSeq && !p.urg && !p.rst && !p.syn && !p.fin
    ensures HandlePacket(t, p, i).localSeq == t.localSeq
  {
  }

  lemma StartsStream(t: Tcb, p: Packet, lost: seq<byte>)
    requires t.upstream == [] && p.seqNo == Add32(t.conf.remoteStart, 1)
    ensures Genuine(t, p, p.data + lost)
  {
    RelSelf(p.seqNo);
    assert NextSeq(t) == p.seqNo;
    assert (p.data + lost)[0..|p.data|] == p.data;
  }

  lemma DeferredFin(t: Tcb, f: Packet, j: TunInput)
    requires t.state == ESTABLISHED && t.forward != [] && !Ungranted(t) && t.conf.dest != HTTPS_PORT
    requires f.fin && f.ack && f.ackNo == t.localSeq && !f.urg && !f.rst && !f.syn && f.data == []
    ensures var u := HandlePacket(t, f, j);
            && u.state == CLOSE_WAIT && u.forward == t.forward && u.upstream == t.upstream
            && u.remoteSeq == t.remoteSeq && u.socket == t.socket && u.conf == t.conf
    ensures !CountsFin(t, f)
  {
  }

  lemma ConfirmsOne(t: Tcb, p: Packet, w: SocketEvent)
    requires t.state == CLOSE_WAIT && t.forward == [PieceOf(p)] && t.upstream == [] && t.remoteSeq == p.seqNo
    requires !w.error && w.writable && |p.data| < ReceiveBuffer(t.socket, w.before) && w.sends(0) >= |p.data|
    ensures ConfirmsFin(t, w) && CheckSocket(t, w).upstream == p.data
  {
    Add32Zero(p.seqNo);
    DrainOne(t, ReceiveBuffer(t.socket, w.before), w.sends);
    SocketUpstream(t, w);
    var u := Handed(t, |p.data|);
    assert u.forward == [] && Forwarded(t, w) == Drained(u, true);
    assert [] + p.data[0..|p.data|] == p.data;
  }

  lemma EndOfFirst(t: Tcb, p: Packet, b: Birth, lost: seq<byte>)
    requires t.forward == [PieceOf(p)] && t.conf.remoteStart == b.p.seqNo && p.seqNo == Add32(b.p.seqNo, 1)
    requires lost != [] && |p.data| + |lost| < HALF
    ensures LastEnd(t.forward) != EndSeq(t, p.data + lost)
  {
    Add32Add(b.p.seqNo, 1, |p.data|);
    if Add32(b.p.seqNo, 1 + |p.data|) == Add32(b.p.seqNo, 1 + |p.data + lost|) {
      Add32Injective(b.p.seqNo, 1 + |p.data|, 1 + |p.data + lost|);
    }
  }

  /** A tunnelled session whose proxy fails: the reset acknowledges a byte, and none was handed over. */
  lemma RefusedTunnelAcknowledges(b: Birth, hello: Packet, e: SocketEvent, i: TunInput, r: SocketEvent)
    requires b.dest == HTTPS_PORT && b.p.data == [] && hello.data != []
    requires !e.error && !e.readable && e.writeOk && i.named && i.connectSent >= 0
    requires hello.seqNo == Add32(b.p.seqNo, 1) && !hello.urg && !hello.fin
    requires !r.error && r.readable && r.recv.Failed? && r.ackOk && r.writeOk
    ensures var t0, evs := NewSession(b), [FromSocket(e)] + [FromTun(hello, i)] + [FromSocket(r)];
            var u := Run(t0, evs);
            && Proper(t0, evs, hello.data) && u.upstream == []
            && u.wire != [] && u.wire[|u.wire| - 1].ack && u.wire[|u.wire| - 1].ackNo == Add32(b.p.seqNo, 2)
            && !TruthfulRun(t0, evs, hello.data)
  {
    var t0, stream := NewSession(b), hello.data;
    var x, y, z := FromSocket(e), FromTun(hello, i), FromSocket(r);
    Connects(b, e, stream);
    var t1 := Run(t0, [x]);
    AfterConnect(t1, hello, i);
    FirstIsGenuine(t1, hello);
    StepAcks(t1, y, stream);
    Append(t0, [x], y, stream);
    var t2 := HandlePacket(t1, hello, i);
    Append(t0, [x] + [y], z, stream);
    EarlyReset(t2, z, stream);
    Add32Add(b.p.seqNo, 1, 1);
  }

  // ----- a byte that is skipped -----

  /** Of two segments of a tunnelled session the first, of one byte, is lost, and the proxy fails. The reset counts that
      byte as if it had been handed over; if the closed session is then told to write, the second segment goes upstream
      without it. */
  lemma RefusedTunnelSkips(b: Birth, lost: byte, tail: Packet,
                           e: SocketEvent, i: TunInput, r: SocketEvent, w: SocketEvent)
    requires b.dest == HTTPS_PORT && b.p.data == [] && tail.data != []
    requires !e.error && !e.readable && e.writeOk && i.named && i.connectSent >= 0
    requires tail.seqNo == Add32(b.p.seqNo, 2) && !tail.urg && !tail.fin
    requires !r.error && r.readable && r.recv.Failed?
    requires !w.error && w.writable && |tail.data| < ReceiveBuffer(b.socket, w.before) && w.sends(0) == |tail.data|
    ensures var t0, evs := NewSession(b), [FromSocket(e)] + [FromTun(tail, i)] + [FromSocket(r)] + [FromSocket(w)];
            Proper(t0, evs, [lost] + tail.data) && !SkipFree(t0, evs) && Run(t0, evs).upstream == tail.data
  {
    var t0, stream := NewSession(b), [lost] + tail.data;
    var x, y, z := FromSocket(e), FromTun(tail, i), FromSocket(r);
    Connects(b, e, stream);
    var t1 := Run(t0, [x]);
    SecondByteArrives(t1, tail, i, lost);
    Append(t0, [x], y, stream);
    var t2 := HandlePacket(t1, tail, i);
    Append(t0, [x] + [y], z, stream);
    var t3 := CheckSocket(t2, r);
    Add32Add(b.p.seqNo, 1, 1);
    assert t3 == WriteRst(t2, r.writeOk);
    SkipsFirst(t3, tail, w);
    Append(t0, [x] + [y] + [z], FromSocket(w), stream);
    SkipAtEnd(t0, [x] + [y] + [z], FromSocket(w));
  }

  lemma SecondByteArrives(t: Tcb, tail: Packet, i: TunInput, lost: byte)
    requires t.conf.dest == HTTPS_PORT && t.state == SYN_RECV && t.connect == NotSent && t.socket >= 0
    requires t.forward == [] && t.upstream == [] && i.named && i.connectSent >= 0 && !tail.urg
    requires t.remoteSeq == Add32(t.conf.remoteStart, 1) && tail.seqNo == Add32(t.conf.remoteStart, 2)
    ensures HandlePacket(t, tail, i) == t.(connect := Requested, state := LISTEN, forward := [PieceOf(tail)])
    ensures Genuine(t, tail, [lost] + tail.data)
  {
    var stream := [lost] + tail.data;
    Add32Add(t.conf.remoteStart, 1, 1);
    RelOfAdd(t.remoteSeq, 1);
    RelSelf(t.remoteSeq);
    CompareByRel(t.remoteSeq, tail.seqNo, t.remoteSeq);
    assert NextSeq(t) == t.remoteSeq;
    assert stream[1..1 + |tail.data|] == tail.data;
  }

  lemma SkipsFirst(t: Tcb, tail: Packet, w: SocketEvent)
    requires t.state == CLOSING && t.forward == [PieceOf(tail)] && t.upstream == [] && t.remoteSeq == tail.seqNo
    requires t.remoteSeq == Add32(t.conf.remoteStart, 2)
    requires !w.error && w.writable && |tail.data| < ReceiveBuffer(t.socket, w.before) && w.sends(0) == |tail.data|
    ensures Skips(t, FromSocket(w)) && CheckSocket(t, w).upstream == tail.data
  {
    Add32Zero(tail.seqNo);
    DrainOne(t, ReceiveBuffer(t.socket, w.before), w.sends);
    SocketUpstream(t, w);
    assert [] + tail.data[0..|tail.data|] == tail.data;
  }

  lemma {:induction false} SkipAtEnd(t: Tcb, evs: seq<Event>, ev: Event)
    requires Skips(Run(t, evs), ev)
    ensures !SkipFree(t, evs + [ev])
    decreases |evs|
  {
    if evs == [] {
      assert [] + [ev] == [ev];
    } else {
      assert (evs + [ev])[0] == evs[0] && (evs + [ev])[1..] == evs[1..] + [ev];
      SkipAtEnd(Step(t, evs[0]), evs[1..], ev);
    }
  }
}
