/** What the app is told of its own bytes: an acknowledgement covers no byte that was not handed upstream, as long as
    the app's FIN and the reset of a waiting session find nothing outstanding. */
module TcpAcks {
  import opened Serial
  import opened TcpModel
  import opened TcpSafety
  import opened TcpSequence
  import opened TcpStream
  import opened TcpWire

  /** The number acknowledges the SYN and at most the bytes handed upstream, or the FIN behind the whole stream. */
  predicate Truthful(t: Tcb, ack: u32, stream: seq<byte>) {
    || ack == Add32(t.conf.remoteStart, |t.upstream|)
    || ack == Add32(t.conf.remoteStart, 1 + |t.upstream|)
    || (t.upstream == stream && ack == Add32(t.conf.remoteStart, 2 + |t.upstream|))
  }

  /** Every acknowledgement written on the way from t to u is. */
  predicate StepTruthful(t: Tcb, u: Tcb, stream: seq<byte>) {
    t.wire <= u.wire &&
    forall i | |t.wire| <= i < |u.wire| && u.wire[i].ack :: Truthful(u, u.wire[i].ackNo, stream)
  }

  predicate TruthfulRun(t: Tcb, evs: seq<Event>, stream: seq<byte>)
    decreases |evs|
  {
    evs == [] || (StepTruthful(t, Step(t, evs[0]), stream) && TruthfulRun(Step(t, evs[0]), evs[1..], stream))
  }

  // ----- where a FIN is counted -----

  /** The number of the app's FIN. */
  function EndSeq(t: Tcb, stream: seq<byte>): u32 { Add32(t.conf.remoteStart, 1 + |stream|) }

  /** A FIN stands behind the app's stream, taken less than 2^31 bytes from the byte that is due. */
  predicate EndGenuine(t: Tcb, ev: Event, stream: seq<byte>) {
    ev.FromTun? && ev.p.fin ==> |t.upstream| + Rel(NextSeq(t), Add32(ev.p.seqNo, |ev.p.data|)) == |stream|
  }

  predicate EndGenuineRun(t: Tcb, evs: seq<Event>, stream: seq<byte>)
    decreases |evs|
  {
    evs == [] || (EndGenuine(t, evs[0], stream) && EndGenuineRun(Step(t, evs[0]), evs[1..], stream))
  }

  function Queued(t: Tcb, p: Packet): Tcb { if p.data != [] then Queue(t, p) else t }

  /** The branches that count a FIN as it arrives: none of them looks at its sequence number. */
  predicate CountsFin(t: Tcb, p: Packet) {
    && !p.urg && !Ungranted(t) && (p.data == [] || t.socket >= 0)
    && p.fin && !p.rst && !p.syn && (!p.ack || p.ackNo == t.localSeq)
    && (t.state == FIN_WAIT1 || (t.state == ESTABLISHED && Queued(t, p).forward == []))
  }

  /** The branch that counts it later, when the queue has emptied. */
  predicate ConfirmsFin(t: Tcb, e: SocketEvent) {
    !e.error && t.state == CLOSE_WAIT && Forwarded(t, e).moved && Forwarded(t, e).t.forward == []
  }

  /** The reset of a session that waits for its proxy counts one more, as if the SYN had not been answered; so does
      a second answer to the SYN. */
  predicate CountsWaiting(t: Tcb, ev: Event) {
    Waiting(t) &&
    match ev
    case FromSocket(e) => e.error || !e.readable || Refuses(Receive(t.socket, e.recv, 12))
    case Terminate(_) => true
    case _ => false
  }

  predicate Refuses(r: Recv) { r.Failed? || !ProxyAccepted(r.bytes) }

  function LastEnd(f: seq<Piece>): u32
    requires f != []
  {
    Add32(f[|f| - 1].seqNo, f[|f| - 1].len)
  }

  /** A FIN counted on arrival is the byte due, a FIN counted later follows the last segment queued, and a waiting
      session is ended only when nothing is outstanding. */
  predicate InOrder(t: Tcb, ev: Event, stream: seq<byte>) {
    && (ev.FromTun? && CountsFin(t, ev.p) ==> Add32(ev.p.seqNo, |ev.p.data|) == t.remoteSeq)
    && (ev.FromSocket? && ConfirmsFin(t, ev.e) && t.forward != [] ==> LastEnd(t.forward) == EndSeq(t, stream))
    && (CountsWaiting(t, ev) ==> |t.upstream| == |stream|)
  }

  predicate InOrderRun(t: Tcb, evs: seq<Event>, stream: seq<byte>)
    decreases |evs|
  {
    evs == [] || (InOrder(t, evs[0], stream) && InOrderRun(Step(t, evs[0]), evs[1..], stream))
  }

  // ----- the invariant -----

  /** One more than the bytes is counted only behind the whole stream. */
  predicate FinInv(t: Tcb, stream: seq<byte>) {
    && (RemoteAt(t, 1) ==> t.upstream == stream)
    && (t.state == CLOSE_WAIT ==> |stream| - |t.upstream| < HALF)
  }

  predicate AckInv(t: Tcb, stream: seq<byte>) { StreamInv(t, stream) && FinInv(t, stream) }

  /** Such a session has nothing to skip: whatever is queued ends where the stream does at the latest. */
  lemma NothingBehindEnd(t: Tcb, room: int, stream: seq<byte>)
    requires AckInv(t, stream) && RemoteAt(t, 1)
    ensures !HeadReady(t, room)
  {
    if HeadReady(t, room) {
      Add32Add(t.conf.remoteStart, 1 + |t.upstream|, 1);
      ReadyBehind(t.forward[0], NextSeq(t), |t.upstream|, stream);
    }
  }

  lemma NeverSkips(t: Tcb, ev: Event, stream: seq<byte>)
    requires AckInv(t, stream)
    ensures !Skips(t, ev)
  {
    if Skips(t, ev) { NothingBehindEnd(t, ReceiveBuffer(t.socket, ev.e.before), stream); }
  }

  /** A part of a step that hands nothing over and writes truthful acknowledgements. */
  predicate Acks(t: Tcb, u: Tcb, stream: seq<byte>) {
    && u.conf == t.conf && u.upstream == t.upstream && FinInv(u, stream)
    && StepTruthful(t, u, stream)
  }

  lemma AcksTrans(t: Tcb, u: Tcb, v: Tcb, stream: seq<byte>)
    requires Acks(t, u, stream) && Acks(u, v, stream)
    ensures Acks(t, v, stream)
  {
    forall i | |t.wire| <= i < |v.wire| && v.wire[i].ack ensures Truthful(v, v.wire[i].ackNo, stream) {
      if i < |u.wire| { assert v.wire[i] == u.wire[i]; }
    }
  }

  predicate Paced(t: Tcb, stream: seq<byte>) {
    RemoteAt(t, -1) || RemoteAt(t, 0) || (RemoteAt(t, 1) && t.upstream == stream)
  }

  /** One segment with the current remote_seq, or none. */
  lemma OneAck(t: Tcb, u: Tcb, stream: seq<byte>)
    requires u.conf == t.conf && u.upstream == t.upstream && FinInv(u, stream)
    requires u.wire == t.wire || (u.wire != [] && u.wire == t.wire + [u.wire[|u.wire| - 1]])
    requires u.wire != t.wire && u.wire[|u.wire| - 1].ack ==> Truthful(u, u.wire[|u.wire| - 1].ackNo, stream)
    ensures Acks(t, u, stream)
  {
  }

  // ----- each part of a step -----

  lemma RstAcks(t: Tcb, ok: bool, stream: seq<byte>)
    requires SeqInv(t) && FinInv(t, stream) && (Waiting(t) ==> t.upstream == stream)
    ensures Acks(t, WriteRst(t, ok), stream)
  {
    var u := WriteRst(t, ok);
    if t.state == LISTEN {
      StepRemote(t, if Waiting(t) then 0 else -1);
      NotBoth(u, 0, 1);
    }
    OneAck(t, u, stream);
  }

  /** A session is at one place only. */
  lemma ConnectingAcks(t: Tcb, e: SocketEvent, stream: seq<byte>)
    requires SeqInv(t) && FinInv(t, stream) && t.state == LISTEN && !e.error && !AnswersAgain(t, e)
    requires CountsWaiting(t, FromSocket(e)) ==> t.upstream == stream
    ensures Acks(t, SocketConnecting(t, e), stream)
  {
    if e.readable {
      AnswerAcks(t, e, stream);
    } else {
      ConnectedAcks(t, e, stream);
    }
  }

  lemma AnswerAcks(t: Tcb, e: SocketEvent, stream: seq<byte>)
    requires SeqInv(t) && FinInv(t, stream) && t.state == LISTEN && !e.error && e.readable
    requires CountsWaiting(t, FromSocket(e)) ==> t.upstream == stream
    ensures Acks(t, ProxyAnswer(t, e), stream)
  {
    if !Waiting(t) || Refuses(Receive(t.socket, e.recv, 12)) { RstAcks(t, e.writeOk, stream); }
    if ProxyAnswer(t, e).wire == t.wire && ProxyAnswer(t, e).remoteSeq == t.remoteSeq {
      OneAck(t, ProxyAnswer(t, e), stream);
    }
  }

  lemma ConnectedAcks(t: Tcb, e: SocketEvent, stream: seq<byte>)
    requires SeqInv(t) && FinInv(t, stream) && t.state == LISTEN && !e.readable && !e.error && !AnswersAgain(t, e)
    requires Waiting(t) ==> t.upstream == stream
    ensures Acks(t, Connected(t, e), stream)
  {
    StepRemote(t, if Waiting(t) then 0 else -1);
    NotBoth(Connected(t, e), 0, 1);
    OneAck(t, Connected(t, e), stream);
  }

  lemma RefreshAcks(t: Tcb, window: u32, e: SocketEvent, moved: bool, stream: seq<byte>)
    requires BetweenLoopAndAck(t, moved) && FinInv(t, stream)
    requires moved && t.forward == [] && t.state == CLOSE_WAIT ==> t.upstream == stream
    ensures Acks(t, Refresh(t, window, e, moved), stream)
  {
    RefreshKeeps(t, window, e, moved);
    var u := Refresh(t, window, e, moved);
    if moved && t.forward == [] && t.state == CLOSE_WAIT { StepRemote(t, 0); }
    OneAck(t, u, stream);
  }

  lemma RemoteClosedAcks(t: Tcb, ok: bool, stream: seq<byte>)
    requires SeqInv(t) && FinInv(t, stream) && Open(t.state)
    ensures Acks(t, RemoteClosed(t, ok), stream)
  {
    RstAcks(t, ok, stream);
    OneAck(t, RemoteClosed(t, ok), stream);
  }

  lemma DeliverAcks(t: Tcb, bytes: seq<byte>, ok: bool, stream: seq<byte>)
    requires SeqInv(t) && FinInv(t, stream) && Open(t.state)
    ensures Acks(t, Deliver(t, bytes, ok), stream)
  {
    OneAck(t, Deliver(t, bytes, ok), stream);
  }

  lemma ReadAcks(t: Tcb, e: SocketEvent, stream: seq<byte>)
    requires SeqInv(t) && FinInv(t, stream) && Open(t.state)
    ensures Acks(t, ReadSocket(t, e), stream)
  {
    var t1 := t.(time := e.now);
    RstAcks(t1, e.writeOk, stream);
    match Receive(t.socket, e.recv, Min(SendWindow(t), t.conf.mss))
    case Failed(_) =>
    case Got(bytes) =>
      RemoteClosedAcks(t1, e.writeOk, stream);
      DeliverAcks(t1, bytes, e.writeOk, stream);
  }

  /** A loop that empties the queue leaves remote_seq at the end of the last segment. */
  lemma {:induction false} DrainReachesEnd(t: Tcb, room: int, sends: nat -> ssize, k: nat, moved: bool)
    requires t.forward != [] && Drain(t, room, sends, k, moved).t.forward == []
    ensures Drain(t, room, sends, k, moved).t.remoteSeq == LastEnd(t.forward)
    decreases |t.forward|
  {
    if HeadReady(t, room) {
      var len: nat := t.forward[0].len - t.forward[0].sent;
      var n := Clip(sends(k), len);
      if n == len && |t.forward| > 1 {
        DrainReachesEnd(Handed(t, n), room - n, sends, k + 1, true);
      }
    }
  }

  lemma ForwardedFin(t: Tcb, e: SocketEvent, stream: seq<byte>)
    requires AckInv(t, stream) && t.state != LISTEN && !e.error
    ensures FinInv(Forwarded(t, e).t, stream)
  {
    ForwardedFrame(t, e);
    var n := ForwardedMoves(t, e);
    var u := Forwarded(t, e).t;
    var room := ReceiveBuffer(t.socket, e.before);
    if e.writable && HeadReady(t, room) {
      var k := if RemoteAt(t, 0) then 0 else -1;
      if RemoteAt(t, 1) { NothingBehindEnd(t, room, stream); }
      RemoteMoves(t, u, n, k);
      NotBoth(u, k, 1);
    }
  }

  /** The FIN is confirmed behind the whole stream exactly if the last segment queued ends where the stream does. */
  lemma ConfirmedAtEnd(t: Tcb, e: SocketEvent, stream: seq<byte>)
    requires AckInv(t, stream) && Tidy(t, FromSocket(e)) && ConfirmsFin(t, e)
    ensures var d := Forwarded(t, e).t;
            t.forward != [] && RemoteAt(d, 0) && (d.upstream == stream <==> LastEnd(t.forward) == EndSeq(t, stream))
  {
    ForwardedFrame(t, e);
    NeverSkips(t, FromSocket(e), stream);
    assert Between(Forwarded(t, e).t, stream) by { ForwardedOnStream(t, e, stream); }
    var n := ForwardedMoves(t, e);
    var d := Forwarded(t, e).t;
    DrainReachesEnd(t, ReceiveBuffer(t.socket, e.before), e.sends, 0, false);
    RemoteMoves(t, d, n, 0);
    AtEnd(d, stream);
  }

  lemma AtEnd(t: Tcb, stream: seq<byte>)
    requires RemoteAt(t, 0) && |t.upstream| <= |stream| && t.upstream == stream[..|t.upstream|]
    requires |stream| - |t.upstream| < HALF
    ensures t.upstream == stream <==> t.remoteSeq == EndSeq(t, stream)
  {
    if t.remoteSeq == EndSeq(t, stream) {
      Add32Injective(t.conf.remoteStart, 1 + |t.upstream|, 1 + |stream|);
      assert stream[..|stream|] == stream;
    }
  }

  lemma CheckSocketAcks(t: Tcb, e: SocketEvent, stream: seq<byte>)
    requires AckInv(t, stream) && Tidy(t, FromSocket(e)) && InOrder(t, FromSocket(e), stream)
    ensures StepTruthful(t, CheckSocket(t, e), stream) && FinInv(CheckSocket(t, e), stream)
  {
    if e.error {
      RstAcks(t.(time := e.now), e.writeOk, stream);
    } else if t.state == LISTEN {
      ConnectingAcks(t, e, stream);
    } else {
      ForwardedFrame(t, e);
      ForwardedFin(t, e, stream);
      ForwardedKeeps(t, e);
      var d := Forwarded(t, e);
      if ConfirmsFin(t, e) { ConfirmedAtEnd(t, e, stream); }
      AfterLoop(d.t, e, d.moved, stream);
    }
  }

  /** The part of check_tcp_socket behind the send loop. */
  lemma AfterLoop(t: Tcb, e: SocketEvent, moved: bool, stream: seq<byte>)
    requires BetweenLoopAndAck(t, moved) && FinInv(t, stream)
    requires moved && t.forward == [] && t.state == CLOSE_WAIT ==> t.upstream == stream
    ensures var t1 := Acknowledge(t, e, moved);
            Acks(t, if Open(t1.state) then ReadSocket(t1, e) else t1, stream)
  {
    var t1 := Acknowledge(t, e, moved);
    RefreshAcks(t, ReceiveWindow(t, e.after), e, moved, stream);
    AcknowledgeKeeps(t, e, moved);
    if Open(t1.state) {
      ReadAcks(t1, e, stream);
      AcksTrans(t, t1, ReadSocket(t1, e), stream);
    }
  }

  // ----- packets -----

  /** A FIN counted as it arrives is counted behind the whole stream exactly if its number is the one due. */
  lemma FinAtEnd(t: Tcb, p: Packet, stream: seq<byte>)
    requires RemoteAt(t, 0) && |t.upstream| <= |stream| && t.upstream == stream[..|t.upstream|]
    requires |t.upstream| + Rel(NextSeq(t), Add32(p.seqNo, |p.data|)) == |stream|
    ensures t.upstream == stream <==> Add32(p.seqNo, |p.data|) == t.remoteSeq
    ensures |stream| - |t.upstream| < HALF
  {
    var end := Add32(p.seqNo, |p.data|);
    RelSelf(end);
    RelIff(NextSeq(t), 0, end);
    Add32Zero(NextSeq(t));
    if |t.upstream| == |stream| { assert stream[..|stream|] == stream; }
  }

  lemma FinAcks(t: Tcb, ok: bool, stream: seq<byte>)
    requires SeqInv(t) && FinInv(t, stream)
    requires t.state == ESTABLISHED ==> |stream| - |t.upstream| < HALF
    requires (t.state == ESTABLISHED && t.forward == []) || t.state == FIN_WAIT1 ==> t.upstream == stream
    ensures Acks(t, Fin(t, ok), stream)
  {
    var u := Fin(t, ok);
    if RemoteAt(t, 0) { StepRemote(t, 0); }
    FinKeeps(t, ok);
    OneAck(t, u, stream);
  }

  predicate FinNow(t: Tcb, p: Packet) {
    && p.fin && !p.rst && !p.syn && (!p.ack || p.ackNo == t.localSeq)
    && ((t.state == ESTABLISHED && t.forward == []) || t.state == FIN_WAIT1)
  }

  lemma FlagsAcks(t: Tcb, p: Packet, ok: bool, stream: seq<byte>)
    requires SeqInv(t) && FinInv(t, stream) && !Closed(t.state) && !Waiting(t)
    requires p.fin && t.state == ESTABLISHED ==> |stream| - |t.upstream| < HALF
    requires FinNow(t, p) ==> t.upstream == stream
    ensures Acks(t, Flags(t, p, ok), stream)
  {
    if p.rst {
    } else if !p.ack || p.ackNo == t.localSeq {
      if p.fin && !p.syn { FinAcks(t, ok, stream); }
    } else {
      OtherAckAcks(t, p, ok, stream);
    }
  }

  lemma OtherAckAcks(t: Tcb, p: Packet, ok: bool, stream: seq<byte>)
    requires SeqInv(t) && FinInv(t, stream) && !Waiting(t)
    ensures Acks(t, OtherAck(t, p, ok), stream)
  {
    RstAcks(t, ok, stream);
  }

  /** Touching and queueing write nothing. */
  lemma QueuedAcks(t: Tcb, p: Packet, now: int, stream: seq<byte>)
    requires FinInv(t, stream)
    ensures var t1 := Touch(t, p, now); Acks(t, Queued(t1, p), stream) && Queued(t1, p).forward == Queued(t, p).forward
  {
  }

  lemma SegmentAcks(t: Tcb, p: Packet, i: TunInput, stream: seq<byte>)
    requires AckInv(t, stream) && !Ungranted(t) && !p.urg
    requires EndGenuine(t, FromTun(p, i), stream) && InOrder(t, FromTun(p, i), stream)
    ensures Acks(t, Segment(t, p, i), stream)
  {
    if Closed(t.state) {
      RstAcks(t, i.writeOk, stream);
    } else {
      TouchedRst(t, p, i, stream);
      if p.data == [] || (t.socket >= 0 && t.state != CLOSE_WAIT) { QueuedFlagsAck(t, p, i, stream); }
    }
  }

  lemma TouchedRst(t: Tcb, p: Packet, i: TunInput, stream: seq<byte>)
    requires SeqInv(t) && FinInv(t, stream) && !Waiting(t)
    ensures Acks(t, WriteRst(Touch(t, p, i.now), i.writeOk), stream)
  {
    RstAcks(Touch(t, p, i.now), i.writeOk, stream);
  }

  lemma QueuedFlagsAck(t: Tcb, p: Packet, i: TunInput, stream: seq<byte>)
    requires AckInv(t, stream) && !Ungranted(t) && !p.urg && !Closed(t.state)
    requires p.data == [] || (t.socket >= 0 && t.state != CLOSE_WAIT)
    requires EndGenuine(t, FromTun(p, i), stream) && InOrder(t, FromTun(p, i), stream)
    ensures Acks(t, Flags(Queued(Touch(t, p, i.now), p), p, i.writeOk), stream)
  {
    var t1 := Touch(t, p, i.now);
    var q := Queued(t1, p);
    QueuedAcks(t, p, i.now, stream);
    if p.data != [] { QueueKeeps(t1, p); }
    if p.fin && RemoteAt(t, 0) { FinAtEnd(t, p, stream); }
    assert FinNow(q, p) ==> CountsFin(t, p);
    FlagsAcks(q, p, i.writeOk, stream);
    AcksTrans(t, q, Flags(q, p, i.writeOk), stream);
  }

  lemma ConnectAcks(t: Tcb, p: Packet, i: TunInput, stream: seq<byte>)
    requires AckInv(t, stream) && t.conf.dest == HTTPS_PORT && !p.urg && Tidy(t, FromTun(p, i))
    ensures Acks(t, SendConnect(t, i), stream)
  {
    if t.connect == NotSent { RstAcks(t, i.writeOk, stream); }
  }

  lemma PacketAcks(t: Tcb, p: Packet, i: TunInput, stream: seq<byte>)
    requires AckInv(t, stream) && Tidy(t, FromTun(p, i))
    requires EndGenuine(t, FromTun(p, i), stream) && InOrder(t, FromTun(p, i), stream)
    ensures Acks(t, HandlePacket(t, p, i), stream)
  {
    if p.urg {
    } else if Ungranted(t) {
      var t1 := SendConnect(t, i);
      ConnectAcks(t, p, i, stream);
      assert Acks(t1, Queue(t1, p), stream);
      AcksTrans(t, t1, Queue(t1, p), stream);
    } else {
      SegmentAcks(t, p, i, stream);
    }
  }

  // ----- the other steps -----

  lemma KeepAliveAcks(t: Tcb, i: MonitorInput, stream: seq<byte>)
    requires SeqInv(t) && FinInv(t, stream) && Open(t.state)
    ensures Acks(t, KeepAlive(t, i), stream)
  {
    var n := if RemoteAt(t, 0) then 0 else 1;
    Add32Add(t.conf.remoteStart, 1 + |t.upstream| + n, -1);
    OneAck(t, KeepAlive(t, i), stream);
  }

  lemma MonitorAcks(t: Tcb, i: MonitorInput, stream: seq<byte>)
    requires SeqInv(t) && FinInv(t, stream)
    ensures Acks(t, Monitor(t, i).t, stream)
  {
    if Open(t.state) { KeepAliveAcks(t, i, stream); }
    var t1 := if Open(t.state) && SendWindow(t) == 0 then KeepAlive(t, i) else t;
    var u := Monitor(t, i).t;
    assert u == t1.(watch := u.watch, state := u.state);
    assert Acks(t1, u, stream);
    AcksTrans(t, t1, u, stream);
  }

  lemma SweepAcks(t: Tcb, now: int, l: LoadOk, ok: bool, stream: seq<byte>)
    requires SeqInv(t) && FinInv(t, stream)
    ensures Acks(t, CheckSession(t, now, l, ok), stream)
  {
    if !Waiting(t) { RstAcks(t, ok, stream); }
    var t1 := Expire(t, now, l, ok);
    assert Acks(t, t1, stream);
    assert Acks(t1, Finish(t1, now), stream);
    AcksTrans(t, t1, Finish(t1, now), stream);
  }

  lemma StepAcks(t: Tcb, ev: Event, stream: seq<byte>)
    requires AckInv(t, stream) && Tidy(t, ev) && GenuineEvent(t, ev, stream)
    requires EndGenuine(t, ev, stream) && InOrder(t, ev, stream)
    ensures StepTruthful(t, Step(t, ev), stream) && AckInv(Step(t, ev), stream)
  {
    NeverSkips(t, ev, stream);
    StepOnStream(t, ev, stream);
    match ev
    case FromTun(p, i) => PacketAcks(t, p, i, stream);
    case FromSocket(e) => CheckSocketAcks(t, e, stream);
    case Sweep(now, load, ok) => SweepAcks(t, now, load, ok, stream);
    case Watch(m) => MonitorAcks(t, m, stream);
    case Terminate(ok) => RstAcks(t, ok, stream);
  }

  lemma NewSessionAcks(b: Birth, stream: seq<byte>)
    requires b.p.data == []
    ensures AckInv(NewSession(b), stream)
  {
    NewSessionSeq(b);
    NotBoth(NewSession(b), -1, 1);
  }

  // ----- how far the order is needed -----

  predicate WritesOk(ev: Event) {
    match ev
    case FromTun(_, i) => i.writeOk
    case FromSocket(e) => e.ackOk && e.writeOk
    case Terminate(ok) => ok
    case _ => true
  }

  lemma BehindTheEnd(t: Tcb, u: Tcb, stream: seq<byte>)
    requires |u.wire| > |t.wire| && u.wire[|t.wire|].ack && u.upstream != stream
    requires u.wire[|t.wire|].ackNo == Add32(u.conf.remoteStart, 2 + |u.upstream|)
    ensures !StepTruthful(t, u, stream)
  {
    NextBut(u.conf.remoteStart, |u.upstream|, 2);
    NextBut(u.conf.remoteStart, 1 + |u.upstream|, 1);
    assert !Truthful(u, u.wire[|t.wire|].ackNo, stream);
  }

  lemma NextBut(a: u32, n: nat, d: nat)
    requires 0 < d <= 2
    ensures Add32(a, n + d) != Add32(a, n)
  {
    if Add32(a, n + d) == Add32(a, n) { Add32Injective(a, n + d, n); }
  }

  lemma CountedFin(t: Tcb, p: Packet, i: TunInput)
    requires CountsFin(t, p) && i.writeOk
    ensures var u := HandlePacket(t, p, i);
            && u.conf == t.conf && u.upstream == t.upstream && |u.wire| == |t.wire| + 1
            && u.wire[|t.wire|].ack && u.wire[|t.wire|].ackNo == Add32(t.remoteSeq, 1)
  {
    var q := Queued(Touch(t, p, i.now), p);
    assert Queued(t, p).forward == q.forward;
    assert Flags(q, p, true) == Fin(q, true);
  }

  lemma LateFin(t: Tcb, p: Packet, i: TunInput, stream: seq<byte>)
    requires AckInv(t, stream) && CountsFin(t, p) && i.writeOk && EndGenuine(t, FromTun(p, i), stream)
    requires Add32(p.seqNo, |p.data|) != t.remoteSeq
    ensures !StepTruthful(t, HandlePacket(t, p, i), stream)
  {
    CountedFin(t, p, i);
    FinAtEnd(t, p, stream);
    StepRemote(t, 0);
    BehindTheEnd(t, HandlePacket(t, p, i), stream);
  }

  lemma EarlyConfirmation(t: Tcb, e: SocketEvent, stream: seq<byte>)
    requires AckInv(t, stream) && Tidy(t, FromSocket(e)) && ConfirmsFin(t, e) && e.ackOk
    requires t.forward != [] && LastEnd(t.forward) != EndSeq(t, stream)
    ensures !StepTruthful(t, CheckSocket(t, e), stream)
  {
    var d := Forwarded(t, e).t;
    ConfirmedAtEnd(t, e, stream);
    ProgressIsAcknowledged(t, e);
    StepRemote(d, 0);
    SocketUpstream(t, e);
    ForwardedFrame(t, e);
    SocketKeepsConf(t, e);
    BehindTheEnd(t, CheckSocket(t, e), stream);
  }

  lemma EarlyReset(t: Tcb, ev: Event, stream: seq<byte>)
    requires AckInv(t, stream) && Tidy(t, ev) && CountsWaiting(t, ev) && WritesOk(ev) && t.upstream != stream
    ensures !StepTruthful(t, Step(t, ev), stream)
  {
    StepRemote(t, 0);
    BehindTheEnd(t, Step(t, ev), stream);
  }

  /** With writes that reach tun a step acknowledges truthfully if and only if it is in order: a FIN on arrival has the
      number that is due, a FIN confirmed later follows the last segment queued, and a waiting session is reset with
      nothing outstanding. */
  lemma OrderIsNeeded(t: Tcb, ev: Event, stream: seq<byte>)
    requires AckInv(t, stream) && Tidy(t, ev) && GenuineEvent(t, ev, stream) && EndGenuine(t, ev, stream)
    requires WritesOk(ev)
    ensures StepTruthful(t, Step(t, ev), stream) <==> InOrder(t, ev, stream)
  {
    if InOrder(t, ev, stream) {
      StepAcks(t, ev, stream);
    } else if CountsWaiting(t, ev) && |t.upstream| != |stream| {
      EarlyReset(t, ev, stream);
    } else if ev.FromTun? {
      LateFin(t, ev.p, ev.i, stream);
    } else {
      EarlyConfirmation(t, ev.e, stream);
    }
  }

  // ----- whole runs -----

  predicate AllWritesOk(evs: seq<Event>) { evs == [] || (WritesOk(evs[0]) && AllWritesOk(evs[1..])) }

  lemma {:induction false} RunAcks(t: Tcb, evs: seq<Event>, stream: seq<byte>)
    requires AckInv(t, stream) && TidyRun(t, evs) && GenuineRun(t, evs, stream) && EndGenuineRun(t, evs, stream)
    ensures InOrderRun(t, evs, stream) ==> TruthfulRun(t, evs, stream) && SkipFree(t, evs)
    ensures AllWritesOk(evs) && TruthfulRun(t, evs, stream) ==> InOrderRun(t, evs, stream)
    decreases |evs|
  {
    if evs != [] {
      NeverSkips(t, evs[0], stream);
      if WritesOk(evs[0]) { OrderIsNeeded(t, evs[0], stream); }
      if InOrder(t, evs[0], stream) {
        StepAcks(t, evs[0], stream);
        RunAcks(Step(t, evs[0]), evs[1..], stream);
      }
    }
  }

  /** Over every run of a new session in which every FIN is counted in order, no segment acknowledges a byte that was
      not handed upstream when it was written, or a FIN before the whole stream was; and with writes that reach tun only
      over such runs. */
  lemma AcknowledgementsAreTruthful(b: Birth, evs: seq<Event>, stream: seq<byte>)
    requires b.p.data == [] && TidyRun(NewSession(b), evs)
    requires GenuineRun(NewSession(b), evs, stream) && EndGenuineRun(NewSession(b), evs, stream)
    ensures InOrderRun(NewSession(b), evs, stream) ==>
              TruthfulRun(NewSession(b), evs, stream) && SkipFree(NewSession(b), evs)
    ensures AllWritesOk(evs) ==> (TruthfulRun(NewSession(b), evs, stream) <==> InOrderRun(NewSession(b), evs, stream))
  {
    NewSessionAcks(b, stream);
    RunAcks(NewSession(b), evs, stream);
  }
}
