/** The event mask of monitor_tcp_session: no session sleeps while there is something it could do. */
module TcpWakeups {
  import opened Serial
  import opened TcpModel
  import opened TcpSafety
  import opened TcpSequence
  import opened TcpWindow
  import opened TcpReads
  import opened TcpStalls

  /** This event takes bytes from the socket. */
  predicate TakesBytes(t: Tcb, e: SocketEvent) {
    !e.error && e.readable && !e.writable && |CheckSocket(t, e).taken| > |t.taken|
  }

  /** This event notices that the socket was closed at the other end. */
  predicate SeesEnd(t: Tcb, e: SocketEvent) {
    !e.error && e.readable && !e.writable && CheckSocket(t, e).socket != t.socket
  }

  /** This event, with these socket buffers, hands bytes to the socket or unlinks the head of the queue. */
  predicate Sends(t: Tcb, e: SocketEvent, b: Buffers) {
    !e.error && e.writable && e.before == b && CheckSocket(t, e).forward != t.forward
  }

  ghost predicate CanTake(t: Tcb) { exists e :: TakesBytes(t, e) }

  ghost predicate CanEnd(t: Tcb) { exists e :: SeesEnd(t, e) }

  ghost predicate CanSend(t: Tcb, b: Buffers) { exists e :: Sends(t, e, b) }

  function Readable(r: Recv): SocketEvent {
    SocketEvent(false, true, false, 0, Buffers(0, 0), Buffers(0, 0), (k: nat) => 0, r, true, true)
  }

  function Writable(b: Buffers, sends: nat -> ssize): SocketEvent {
    SocketEvent(false, false, true, 0, b, b, sends, Failed(true), true, true)
  }

  /** An open session has something to read exactly if the peer's window has room. */
  lemma CanReadIff(t: Tcb)
    requires FlightInv(t) && SocketInv(t) && Open(t.state)
    ensures CanEnd(t) <==> InFlight(t) < t.sendWindow
    ensures t.conf.mss > 0 ==> (CanTake(t) <==> InFlight(t) < t.sendWindow)
  {
    if InFlight(t) < t.sendWindow {
      var end, one := Readable(Got([])), Readable(Got([0]));
      ReadLaw(t, end);
      WithoutReadKeeps(t, end);
      assert SeesEnd(t, end);
      if t.conf.mss > 0 {
        ReadableIsRead(t, one);
        assert TakesBytes(t, one);
      }
    } else {
      forall e: SocketEvent | !e.error && !e.writable
        ensures CheckSocket(t, e).taken == t.taken && CheckSocket(t, e).socket == t.socket
      {
        NothingRead(t, e);
      }
    }
  }

  lemma NothingRead(t: Tcb, e: SocketEvent)
    requires FlightInv(t) && SocketInv(t) && Open(t.state) && InFlight(t) >= t.sendWindow && !e.error
    ensures CheckSocket(t, e).taken == t.taken && CheckSocket(t, e).socket == t.socket
  {
    ReadLaw(t, e);
    RestLeavesSocket(t, e);
  }

  lemma RestLeavesSocket(t: Tcb, e: SocketEvent)
    requires !e.error && t.state != LISTEN
    ensures var v := WithoutRead(t, e);
            && v.taken == t.taken && v.socket == t.socket && v.localSeq == t.localSeq && v.acked == t.acked
            && v.sendWindow == t.sendWindow
  {
    ForwardedFrame(t, e.(readable := false));
    var d := Forwarded(t, e.(readable := false));
    RefreshLeavesSocket(d.t, ReceiveWindow(d.t, e.after), e.(readable := false), d.moved);
  }

  lemma RefreshLeavesSocket(t: Tcb, window: u32, e: SocketEvent, moved: bool)
    ensures var v := Refresh(t, window, e, moved);
            && v.taken == t.taken && v.socket == t.socket && v.localSeq == t.localSeq && v.acked == t.acked
            && v.sendWindow == t.sendWindow
  {
  }

  /** The loop has something to do exactly if the head of the queue is due and fits the socket's buffer. */
  lemma CanSendIff(t: Tcb, b: Buffers)
    requires t.state != LISTEN
    ensures CanSend(t, b) <==>
            t.forward != [] && Add32(t.forward[0].seqNo, t.forward[0].sent) == t.remoteSeq
            && t.forward[0].len - t.forward[0].sent < ReceiveBuffer(t.socket, b)
  {
    var e := Writable(b, ExactSends(t.forward));
    QueueIsDrained(t, e);
    if HeadReady(t, ReceiveBuffer(t.socket, b)) {
      HeadGoes(t, ReceiveBuffer(t.socket, b), e.sends);
      assert Sends(t, e, b);
    }
    forall f: SocketEvent | Sends(t, f, b) ensures HeadReady(t, ReceiveBuffer(t.socket, b)) {
      QueueIsDrained(t, f);
    }
  }

  lemma QueueIsDrained(t: Tcb, e: SocketEvent)
    requires !e.error && t.state != LISTEN
    ensures CheckSocket(t, e).forward == Forwarded(t, e).t.forward
  {
    var d := Forwarded(t, e);
    RefreshKeepsQueue(d.t, ReceiveWindow(d.t, e.after), e, d.moved);
    ReadKeepsQueue(Acknowledge(d.t, e, d.moved), e);
  }

  lemma HeadGoes(t: Tcb, room: int, sends: nat -> ssize)
    requires HeadReady(t, room) && sends(0) == t.forward[0].len - t.forward[0].sent
    ensures Drain(t, room, sends, 0, false).t.forward != t.forward
  {
    var len: nat := t.forward[0].len - t.forward[0].sent;
    assert Clip(sends(0), len) == len;
    DrainShortens(Handed(t, len), room - len, sends, 1, true);
  }

  lemma {:induction false} DrainShortens(t: Tcb, room: int, sends: nat -> ssize, k: nat, moved: bool)
    ensures |Drain(t, room, sends, k, moved).t.forward| <= |t.forward|
    decreases |t.forward|
  {
    if HeadReady(t, room) {
      var len: nat := t.forward[0].len - t.forward[0].sent;
      var n := Clip(sends(k), len);
      if n == len { DrainShortens(Handed(t, n), room - n, sends, k + 1, true); }
    }
  }

  /** The mask asks to read and to write exactly what an open session can, and whatever it cannot is looked at again
      soon if there is anything: bytes that may wait behind the peer's full window, or a queue that cannot be
      drained. */
  lemma NoLostWakeup(t: Tcb, i: MonitorInput)
    requires FlightInv(t) && SocketInv(t) && Open(t.state) && i.modOk
    ensures var m := Monitor(t, i);
            && (m.t.watch.readable <==> CanEnd(t))
            && (t.conf.mss > 0 ==> (m.t.watch.readable <==> CanTake(t)))
            && (m.t.watch.writable <==> CanSend(t, i.buffers))
            && (m.recheck <==> !CanEnd(t) || (t.forward != [] && !CanSend(t, i.buffers)))
  {
    CanReadIff(t);
    CanSendIff(t, i.buffers);
    SendWindowIsExact(t);
  }

  /** This event answers the SYN, or finishes the proxy's handshake, without counting anything twice. */
  predicate MovesOn(t: Tcb, e: SocketEvent) {
    !e.error && Tidy(t, FromSocket(e)) && CheckSocket(t, e).state == SYN_RECV
  }

  ghost predicate ReadMovesOn(t: Tcb) { exists e: SocketEvent :: e.readable && MovesOn(t, e) }

  ghost predicate WriteMovesOn(t: Tcb) { exists e: SocketEvent :: !e.readable && e.writable && MovesOn(t, e) }

  /** In LISTEN the mask asks for exactly the event that moves the session on. */
  lemma ListeningMask(t: Tcb, i: MonitorInput)
    requires SeqInv(t) && SocketInv(t) && t.state == LISTEN && i.modOk
    ensures var m := Monitor(t, i);
            && (m.t.watch.readable <==> ReadMovesOn(t)) && (m.t.watch.writable <==> WriteMovesOn(t))
            && m.t.watch.readable != m.t.watch.writable && !m.recheck
  {
    if Waiting(t) {
      var e := Readable(Got(Ascii("HTTP/1.0 200")));
      assert MovesOn(t, e);
      assert !WriteMovesOn(t);
    } else {
      var e := Writable(i.buffers, ExactSends([]));
      assert MovesOn(t, e);
      assert !ReadMovesOn(t);
    }
  }

  /** Every other session with a socket is asked for nothing, and none is looked at again. */
  lemma OtherMask(t: Tcb, i: MonitorInput)
    requires t.state != LISTEN && !Open(t.state) && i.modOk
    ensures var m := Monitor(t, i);
            !m.t.watch.readable && !m.t.watch.writable && !m.recheck && m.t == t.(watch := m.t.watch)
  {
  }

  /** A mask that cannot be set closes the session; one that need not be set is not. */
  lemma MaskFails(t: Tcb, i: MonitorInput)
    requires !i.modOk
    ensures var u, v := Monitor(t, i).t, Monitor(t, i.(modOk := true)).t;
            && u.watch == v.watch && u.state == if v.watch == t.watch then v.state else CLOSING
  {
  }

  /** The keep-alive: while the peer's window is full, an open session acknowledges one number less than it has, at most
      once in a tenth of a second, and nothing but that is written. */
  lemma KeepAliveLaw(t: Tcb, i: MonitorInput)
    requires FlightInv(t) && SocketInv(t) && i.modOk && i.ackOk
    ensures var u := Monitor(t, i).t;
            && u == t.(watch := u.watch, lastKeepAlive := u.lastKeepAlive, wire := u.wire)
            && if Open(t.state) && InFlight(t) >= t.sendWindow && i.ms - t.lastKeepAlive > 100 then
                 && u.lastKeepAlive == i.ms
                 && WritesOne(t.(remoteSeq := Add32(t.remoteSeq, -1)), u, true, false, false, [])
               else u.lastKeepAlive == t.lastKeepAlive && u.wire == t.wire
  {
    if Open(t.state) { SendWindowIsExact(t); }
  }
}
