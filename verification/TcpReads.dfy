/** When bytes are read from the socket, how many, and what becomes of them. */
module TcpReads {
  import opened Serial
  import opened TcpModel
  import opened TcpSafety
  import opened TcpWindow

  /** The same event with nothing to read: what the send loop and the acknowledgement make of the session first. */
  function WithoutRead(t: Tcb, e: SocketEvent): Tcb { CheckSocket(t, e.(readable := false)) }

  /** From t to u one segment was written, with these flags and this data, under the number that was next. */
  predicate WritesOne(t: Tcb, u: Tcb, ack: bool, fin: bool, rst: bool, data: seq<byte>) {
    && |u.wire| == |t.wire| + 1 && u.wire[..|t.wire|] == t.wire
    && var o := u.wire[|t.wire|];
       && o.seqNo == t.localSeq && o.ackNo == (if ack then t.remoteSeq else 0) && o.window == WindowField(t)
       && !o.syn && o.ack == ack && o.fin == fin && o.rst == rst && o.data == data
  }

  /** Only these parts may differ between t and u. */
  predicate OnlyRead(t: Tcb, u: Tcb) {
    u == t.(time := u.time, taken := u.taken, received := u.received, localSeq := u.localSeq,
            state := u.state, socket := u.socket, wire := u.wire)
  }

  /** The room the peer has left, and not more than its segments hold. */
  function ReadSize(t: Tcb): nat
    requires InFlight(t) < t.sendWindow
  {
    Min(t.sendWindow - InFlight(t), t.conf.mss)
  }

  /** n bytes were taken; if the write fell short the session closes and they are lost. */
  predicate TookBytes(t: Tcb, u: Tcb, bytes: seq<byte>, now: int, ok: bool) {
    && OnlyRead(t, u) && u.time == now && u.socket == t.socket
    && u.taken == t.taken + bytes && u.received == t.received + |bytes|
    && if ok then
         && WritesOne(t, u, true, false, false, bytes) && u.localSeq == Add32(t.localSeq, |bytes|)
         && u.state == t.state
       else u.wire == t.wire && u.localSeq == t.localSeq && u.state == CLOSING
  }

  /** End of file closes the socket: with a FIN if nothing is left to hand upstream, and with a reset otherwise. */
  predicate TookEnd(t: Tcb, u: Tcb, now: int, ok: bool) {
    && OnlyRead(t, u) && u.time == now && u.socket == -1 && u.taken == t.taken && u.received == t.received
    && if t.forward != [] then
         && u.state == CLOSING && u.localSeq == t.localSeq
         && if ok then WritesOne(t, u, false, false, true, []) else u.wire == t.wire
       else if ok then
         && WritesOne(t, u, true, true, false, []) && u.localSeq == Add32(t.localSeq, 1)
         && u.state == (if t.state == ESTABLISHED then FIN_WAIT1 else LAST_ACK)
       else u.wire == t.wire && u.localSeq == t.localSeq && u.state == CLOSING
  }

  /** A failed recv() changes nothing if it is to be tried again, and resets the session otherwise. */
  predicate FailedToRead(t: Tcb, u: Tcb, transient: bool, now: int, ok: bool) {
    && OnlyRead(t, u) && u.time == now && u.taken == t.taken && u.received == t.received
    && u.localSeq == t.localSeq && u.socket == t.socket
    && if transient then u.state == t.state && u.wire == t.wire
       else u.state == CLOSING && if ok then WritesOne(t, u, false, false, true, []) else u.wire == t.wire
  }

  /** A session that is open after the rest of a readable event, with room in the peer's window, reads, and exactly as
      much as fits; any other leaves the socket alone. A peer that announced segments of no size gets the end of the
      connection instead of its bytes. */
  lemma ReadLaw(t: Tcb, e: SocketEvent)
    requires FlightInv(t) && SocketInv(t) && !e.error && t.state != LISTEN
    ensures var v, u := WithoutRead(t, e), CheckSocket(t, e);
            && FlightInv(v)
            && if !(e.readable && Open(v.state) && InFlight(v) < v.sendWindow) then u == v
               else
                 match e.recv
                 case Failed(transient) => FailedToRead(v, u, transient, e.now, e.writeOk)
                 case Got(bytes) =>
                   if bytes == [] || v.conf.mss == 0 then TookEnd(v, u, e.now, e.writeOk)
                   else TookBytes(v, u, bytes[..Min(|bytes|, ReadSize(v))], e.now, e.writeOk)
  {
    var v := WithoutRead(t, e);
    StepFlight(t, FromSocket(e.(readable := false)));
    CheckSocketAdvances(t, e.(readable := false));
    ReadIsLast(t, e);
    if Open(v.state) {
      SendWindowIsExact(v);
      ReadCases(v, e);
    }
  }

  lemma ReadIsLast(t: Tcb, e: SocketEvent)
    requires !e.error && t.state != LISTEN
    ensures var v := WithoutRead(t, e); CheckSocket(t, e) == if Open(v.state) then ReadSocket(v, e) else v
  {
    assert Forwarded(t, e.(readable := false)) == Forwarded(t, e);
  }

  lemma ReadCases(t: Tcb, e: SocketEvent)
    requires Open(t.state) && t.socket >= 0
    requires SendWindow(t) == if InFlight(t) < t.sendWindow then t.sendWindow - InFlight(t) else 0
    ensures var u := ReadSocket(t, e);
            if !(e.readable && InFlight(t) < t.sendWindow) then u == t
            else
              match e.recv
              case Failed(transient) => FailedToRead(t, u, transient, e.now, e.writeOk)
              case Got(bytes) =>
                if bytes == [] || t.conf.mss == 0 then TookEnd(t, u, e.now, e.writeOk)
                else TookBytes(t, u, bytes[..Min(|bytes|, ReadSize(t))], e.now, e.writeOk)
  {
    if e.readable && InFlight(t) < t.sendWindow {
      match e.recv
      case Failed(_) =>
      case Got(bytes) =>
        var n := ReadSize(t);
        assert Receive(t.socket, e.recv, n) == Got(bytes[..Min(|bytes|, n)]);
        if bytes != [] && t.conf.mss > 0 {
          BytesTaken(t.(time := e.now), bytes[..Min(|bytes|, n)], e.writeOk, e.now);
        } else {
          EndTaken(t.(time := e.now), e.writeOk);
        }
    }
  }

  lemma BytesTaken(t: Tcb, bytes: seq<byte>, ok: bool, now: int)
    requires t.time == now
    ensures TookBytes(t, Deliver(t, bytes, ok), bytes, now, ok)
  {
  }

  lemma EndTaken(t: Tcb, ok: bool)
    requires Open(t.state)
    ensures TookEnd(t, RemoteClosed(t, ok), t.time, ok)
  {
  }

  /** So bytes that wait are read by the event that reports them, whatever else the event does, unless the peer's window
      is full or an acknowledgement cannot be written: an open session takes all that fit if and only if its segments
      have a size. If they have none it takes the bytes for the end of the connection. */
  lemma ReadableIsRead(t: Tcb, e: SocketEvent)
    requires FlightInv(t) && SocketInv(t) && Open(t.state) && InFlight(t) < t.sendWindow
    requires !e.error && e.readable && e.recv.Got? && e.recv.bytes != [] && e.ackOk
    ensures var u := CheckSocket(t, e);
            && u.taken == t.taken + e.recv.bytes[..Min(|e.recv.bytes|, ReadSize(t))]
            && (|u.taken| > |t.taken| <==> t.conf.mss > 0)
            && (u.socket == -1 <==> t.conf.mss == 0)
  {
    ReadLaw(t, e);
    WithoutReadKeeps(t, e);
  }

  lemma WithoutReadKeeps(t: Tcb, e: SocketEvent)
    requires Open(t.state) && !e.error && e.ackOk
    ensures var v := WithoutRead(t, e);
            && v.state == t.state && v.taken == t.taken && v.localSeq == t.localSeq && v.acked == t.acked
            && v.sendWindow == t.sendWindow && v.conf == t.conf && v.socket == t.socket
  {
    ForwardedFrame(t, e);
    assert Forwarded(t, e.(readable := false)) == Forwarded(t, e);
    var d := Forwarded(t, e);
    RefreshOk(d.t, ReceiveWindow(d.t, e.after), e, d.moved);
  }

  lemma RefreshOk(t: Tcb, window: u32, e: SocketEvent, moved: bool)
    requires e.ackOk
    ensures var v := Refresh(t, window, e, moved);
            && v.state == t.state && v.taken == t.taken && v.localSeq == t.localSeq && v.acked == t.acked
            && v.sendWindow == t.sendWindow && v.conf == t.conf && v.socket == t.socket
  {
  }
}
