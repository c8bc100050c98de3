/** Flow control in both directions: the peer's window bounds what is in flight, the advertised window
    bounds what can be buffered. */
module TcpWindow {
  import opened Serial
  import opened TcpModel
  import opened TcpSafety

  // RFC 7323 section 2.3: the largest shift a window scale option may ask for.
  const MAX_SHIFT: nat := 14
  const MAX_FLIGHT: nat := 0x4000_0000

  lemma {:induction false} Pow2Bound(n: nat, m: nat)
    requires n <= m
    ensures Pow2(n) <= Pow2(m)
  {
    if n < m { Pow2Bound(n, m - 1); }
  }

  lemma ScaledFits(w: u16, scale: nat)
    requires scale <= MAX_SHIFT
    ensures w * Pow2(scale) <= 0xFFFF * Pow2(scale) <= 0xFFFF * 0x4000 < MAX_FLIGHT
    ensures Wrap32(w * Pow2(scale)) == w * Pow2(scale)
  {
    Pow2Bound(scale, MAX_SHIFT);
    MulOrder(w, 0xFFFF, Pow2(scale));
    assert Pow2(MAX_SHIFT) == 0x4000;
  }

  lemma MulOrder(a: nat, b: nat, c: nat)
    requires a <= b
    ensures a * c <= b * c
  {
  }

  // ----- the peer's window -----

  /** Bytes sent to the app and not acknowledged. */
  function InFlight(t: Tcb): u32 { Add32(t.localSeq, 0 - t.acked) }

  predicate FlightInv(t: Tcb) {
    && t.conf.sendScale <= MAX_SHIFT
    && t.sendWindow <= MAX_FLIGHT
    && (Open(t.state) ==> InFlight(t) <= MAX_FLIGHT)
  }

  /** The comparison in get_send_window always finds acked behind local_seq, so its fallback is never used. */
  lemma SendWindowIsExact(t: Tcb)
    requires FlightInv(t) && Open(t.state)
    ensures CompareU32(t.acked, t.localSeq) <= 0
    ensures SendWindow(t) == if InFlight(t) < t.sendWindow then t.sendWindow - InFlight(t) else 0
  {
    CompareIsRfc1982(t.acked, t.localSeq);
  }

  /** Acknowledgement numbers are taken within 2^31 - 2 of what was sent. */
  predicate AckNear(t: Tcb, ev: Event) {
    ev.FromTun? && ev.p.ack ==> -REACH < Rel(t.localSeq, ev.p.ackNo) < REACH
  }

  /** acked moves forward only, and not past local_seq. */
  predicate AckedAdvances(t: Tcb, u: Tcb) {
    Open(t.state) && Open(u.state) ==>
      u.acked == t.acked || (u.localSeq == t.localSeq && InFlight(u) < InFlight(t))
  }

  /** A step that took new bytes from the socket left no more in flight than the peer's window. */
  predicate WithinWindow(t: Tcb, u: Tcb) {
    |u.taken| > |t.taken| && Open(u.state) ==> InFlight(u) <= u.sendWindow
  }

  predicate FlightKept(t: Tcb, u: Tcb) {
    FlightInv(u) && AckedAdvances(t, u) && WithinWindow(t, u)
  }

  /** Steps that leave acknowledgements and windows alone. */
  predicate SameFlight(t: Tcb, u: Tcb) {
    && u.conf == t.conf && u.sendWindow == t.sendWindow && u.taken == t.taken
    && (Open(u.state) ==> Open(t.state) && u.acked == t.acked && u.localSeq == t.localSeq)
  }

  lemma OtherAckFlight(t: Tcb, p: Packet, ok: bool)
    requires FlightInv(t) && p.ack && p.ackNo != t.localSeq && -REACH < Rel(t.localSeq, p.ackNo) < REACH
    ensures FlightKept(t, OtherAck(t, p, ok))
  {
    if Open(t.state) && CompareU32(p.ackNo, t.localSeq) < 0 && CompareU32(p.ackNo, t.acked) > 0 {
      AckBetween(t, p.ackNo);
    }
  }

  lemma AckBetween(t: Tcb, ack: u32)
    requires InFlight(t) <= MAX_FLIGHT && -REACH < Rel(t.localSeq, ack) < REACH
    requires CompareU32(ack, t.localSeq) < 0 && CompareU32(ack, t.acked) > 0
    ensures InFlight(t.(acked := ack)) < InFlight(t)
  {
    RelIsDifference(t.localSeq, ack);
    RelIsDifference(ack, t.localSeq);
    RelIsDifference(t.localSeq, t.acked);
    CompareIsRfc1982(ack, t.localSeq);
    CompareByRel(t.localSeq, ack, t.acked);
  }

  lemma AckedFlight(t: Tcb, p: Packet)
    requires FlightInv(t) && p.ackNo == t.localSeq
    ensures FlightKept(t, Acked(t, p))
  {
  }

  lemma FlagsFlight(t: Tcb, p: Packet, ok: bool)
    requires FlightInv(t) && (p.ack ==> -REACH < Rel(t.localSeq, p.ackNo) < REACH)
    ensures FlightKept(t, Flags(t, p, ok))
  {
    if p.rst {
    } else if !p.ack || p.ackNo == t.localSeq {
      if !p.syn && !p.fin && p.ack { AckedFlight(t, p); }
    } else {
      OtherAckFlight(t, p, ok);
    }
  }

  lemma ReadFlight(t: Tcb, e: SocketEvent)
    requires FlightInv(t) && Open(t.state)
    ensures FlightKept(t, ReadSocket(t, e))
  {
    SendWindowIsExact(t);
    match Receive(t.socket, e.recv, Min(SendWindow(t), t.conf.mss))
    case Failed(_) =>
    case Got(bytes) =>
      if bytes != [] && SendWindow(t) > 0 {
        FlightAfter(t, |bytes|);
      }
  }

  lemma FlightAfter(t: Tcb, n: nat)
    requires InFlight(t) + n < 0x1_0000_0000
    ensures InFlight(t.(localSeq := Add32(t.localSeq, n))) == InFlight(t) + n
  {
  }

  lemma CheckSocketFlight(t: Tcb, e: SocketEvent)
    requires FlightInv(t)
    ensures FlightKept(t, CheckSocket(t, e))
  {
    if !e.error && t.state != LISTEN {
      var d := Forwarded(t, e);
      var t1 := Acknowledge(d.t, e, d.moved);
      RestFlight(t, e);
      if Open(t1.state) {
        ReadFlight(t1, e);
        FlightOn(t, t1, ReadSocket(t1, e));
      }
    }
  }

  lemma RestFlight(t: Tcb, e: SocketEvent)
    requires FlightInv(t)
    ensures var d := Forwarded(t, e);
            var t1 := Acknowledge(d.t, e, d.moved);
            SameFlight(t, t1) && FlightInv(t1) && FlightKept(t, t1)
  {
    ForwardedFrame(t, e);
    var d := Forwarded(t, e);
    RefreshFlight(d.t, ReceiveWindow(d.t, e.after), e, d.moved);
  }

  lemma FlightOn(t: Tcb, t1: Tcb, u: Tcb)
    requires SameFlight(t, t1) && Open(t1.state) && FlightKept(t1, u)
    ensures FlightKept(t, u)
  {
  }

  lemma RefreshFlight(t: Tcb, window: u32, e: SocketEvent, moved: bool)
    ensures SameFlight(t, Refresh(t, window, e, moved))
  {
  }

  lemma SegmentFlight(t: Tcb, p: Packet, i: TunInput)
    requires FlightInv(t) && AckNear(t, FromTun(p, i))
    ensures FlightKept(t, Segment(t, p, i))
  {
    if !Closed(t.state) {
      ScaledFits(p.window, t.conf.sendScale);
      var t1 := Touch(t, p, i.now);
      FlagsFlight(if p.data != [] then Queue(t1, p) else t1, p, i.writeOk);
    }
  }

  lemma ConnectFlight(t: Tcb, i: TunInput)
    ensures SameFlight(t, SendConnect(t, i)) && SendConnect(t, i).localSeq == t.localSeq
  {
  }

  lemma PacketFlight(t: Tcb, p: Packet, i: TunInput)
    requires FlightInv(t) && AckNear(t, FromTun(p, i))
    ensures FlightKept(t, HandlePacket(t, p, i))
  {
    var t1 := if t.conf.dest == HTTPS_PORT then SendConnect(t, i) else t;
    ConnectFlight(t, i);
    SegmentFlight(t1, p, i);
  }

  lemma StepFlight(t: Tcb, ev: Event)
    requires FlightInv(t) && AckNear(t, ev)
    ensures FlightKept(t, Step(t, ev))
  {
    match ev
    case FromTun(p, i) => PacketFlight(t, p, i);
    case FromSocket(e) => CheckSocketFlight(t, e);
    case _ => assert SameFlight(t, Step(t, ev));
  }

  /** The session takes the segment in: it is not dropped for its URG flag, nor only queued until the proxy's answer,
      nor answered with a reset because the session was closed. */
  predicate TakesIn(t: Tcb, ev: Event) {
    ev.FromTun? && !ev.p.urg && !(t.conf.dest == 443 && t.connect != Granted) && !Closed(t.state)
  }

  /** Data for a session that has no socket or has seen the app's FIN. */
  predicate RefusesData(t: Tcb, p: Packet) { p.data != [] && (t.socket < 0 || t.state == CLOSE_WAIT) }

  /** The segment acknowledges what was not acknowledged before: everything, unless it is a SYN or a FIN, or something
      short of the last byte. A number one short of everything counts as a keep-alive, whatever it acknowledges. */
  predicate AckCounts(t: Tcb, p: Packet) {
    && p.ack && !p.rst
    && if p.ackNo == t.localSeq then !p.syn && !p.fin
       else 0 < Rel(t.acked, p.ackNo) && Rel(t.acked, p.ackNo) + 1 < InFlight(t)
  }

  /** acked becomes the number of exactly these segments. */
  lemma AckedExactly(t: Tcb, p: Packet, i: TunInput)
    requires FlightInv(t) && Open(t.state) && TakesIn(t, FromTun(p, i)) && AckNear(t, FromTun(p, i))
    ensures HandlePacket(t, p, i).acked == if AckCounts(t, p) && !RefusesData(t, p) then p.ackNo else t.acked
  {
    var t1 := Touch(t, p, i.now);
    if !RefusesData(t, p) {
      FlagsAcked(if p.data != [] then Queue(t1, p) else t1, p, i.writeOk);
    }
  }

  lemma FlagsAcked(t: Tcb, p: Packet, ok: bool)
    requires Open(t.state) && InFlight(t) <= MAX_FLIGHT && (p.ack ==> -REACH < Rel(t.localSeq, p.ackNo) < REACH)
    ensures Flags(t, p, ok).acked == if AckCounts(t, p) then p.ackNo else t.acked
  {
    if !p.rst && p.ack && p.ackNo != t.localSeq { OlderAck(t, p, ok); }
  }

  lemma OlderAck(t: Tcb, p: Packet, ok: bool)
    requires Open(t.state) && InFlight(t) <= MAX_FLIGHT && p.ackNo != t.localSeq
    requires -REACH < Rel(t.localSeq, p.ackNo) < REACH
    ensures OtherAck(t, p, ok).acked ==
            if 0 < Rel(t.acked, p.ackNo) && Rel(t.acked, p.ackNo) + 1 < InFlight(t) then p.ackNo else t.acked
  {
    BeforeLocal(p.ackNo, t.localSeq);
    NearCompare(t.acked, p.ackNo, t.localSeq);
  }

  lemma BeforeLocal(ack: u32, local: u32)
    requires -REACH < Rel(local, ack) < REACH
    ensures CompareU32(ack, local) < 0 <==> Rel(local, ack) < 0
    ensures Add32(ack, 1) == local <==> Rel(local, ack) == -1
    ensures ack == local <==> Rel(local, ack) == 0
  {
    RelSelf(local);
    CompareByRel(local, ack, local);
    RelIff(local, -1, ack);
    Add32Add(local, -1, 1);
    Add32Add(ack, 1, -1);
    Add32Zero(local);
    Add32Zero(ack);
  }

  /** What is in flight, as a signed distance. */
  lemma RelOfFlight(acked: u32, local: u32)
    requires Add32(local, 0 - acked) <= MAX_FLIGHT
    ensures Rel(acked, local) == Add32(local, 0 - acked) && Rel(local, acked) == 0 - Add32(local, 0 - acked)
  {
  }

  lemma NearCompare(acked: u32, ack: u32, local: u32)
    requires Add32(local, 0 - acked) <= MAX_FLIGHT && -REACH < Rel(local, ack) < REACH
    ensures Rel(local, ack) < 0 ==> (CompareU32(ack, acked) > 0 <==> Rel(acked, ack) > 0)
    ensures Rel(local, ack) < 0 && Rel(acked, ack) > 0 ==> Rel(acked, ack) == Add32(local, 0 - acked) + Rel(local, ack)
    ensures Rel(local, ack) > 0 ==> Rel(acked, ack) <= 0 || Rel(acked, ack) > Add32(local, 0 - acked)
  {
    RelOfFlight(acked, local);
    RelIsDifference(local, ack);
    RelIsDifference(acked, ack);
    RelIsDifference(acked, local);
  }

  predicate AcksNear(t: Tcb, evs: seq<Event>)
    decreases |evs|
  {
    evs == [] || (AckNear(t, evs[0]) && AcksNear(Step(t, evs[0]), evs[1..]))
  }

  /** The window the peer has announced after this event, which it was w before: the window field of the last segment
      that was taken in, shifted by the scale of the SYN. */
  function PeerAfter(t: Tcb, ev: Event, w: nat): nat {
    if TakesIn(t, ev) then ev.p.window * Pow2(t.conf.sendScale) else w
  }

  function PeerWindow(t: Tcb, evs: seq<Event>, w: nat): nat
    decreases |evs|
  {
    if evs == [] then w else PeerWindow(Step(t, evs[0]), evs[1..], PeerAfter(t, evs[0], w))
  }

  /** Every step of the run moves acked forward only, and one that takes bytes from the socket leaves no more in flight
      than the window the peer has announced, w before the run. */
  predicate FlightControlled(t: Tcb, evs: seq<Event>, w: nat)
    decreases |evs|
  {
    evs == [] ||
    var u := Step(t, evs[0]);
    var w1 := PeerAfter(t, evs[0], w);
    && AckedAdvances(t, u)
    && (|u.taken| > |t.taken| && Open(u.state) ==> InFlight(u) <= w1)
    && FlightControlled(u, evs[1..], w1)
  }

  /** The stored window is the one the peer has announced. */
  lemma StepStoresWindow(t: Tcb, ev: Event)
    requires t.conf.sendScale <= MAX_SHIFT
    ensures Step(t, ev).sendWindow == PeerAfter(t, ev, t.sendWindow) && Step(t, ev).conf == t.conf
  {
    StepKeepsConf(t, ev);
    match ev
    case FromTun(p, i) =>
      ScaledFits(p.window, t.conf.sendScale);
      PacketStoresWindow(t, p, i);
    case FromSocket(e) => SocketKeepsSendWindow(t, e);
    case _ => assert SameFlight(t, Step(t, ev));
  }

  lemma SocketKeepsSendWindow(t: Tcb, e: SocketEvent)
    ensures CheckSocket(t, e).sendWindow == t.sendWindow
  {
    ForwardedFrame(t, e);
    var d := Forwarded(t, e);
    RefreshFlight(d.t, ReceiveWindow(d.t, e.after), e, d.moved);
    ReadKeepsSendWindow(Acknowledge(d.t, e, d.moved), e);
  }

  lemma ReadKeepsSendWindow(t: Tcb, e: SocketEvent)
    ensures ReadSocket(t, e).sendWindow == t.sendWindow
  {
  }

  lemma PacketStoresWindow(t: Tcb, p: Packet, i: TunInput)
    ensures HandlePacket(t, p, i).sendWindow ==
            if TakesIn(t, FromTun(p, i)) then Wrap32(p.window * Pow2(t.conf.sendScale)) else t.sendWindow
  {
    var t1 := if t.conf.dest == HTTPS_PORT then SendConnect(t, i) else t;
    ConnectFlight(t, i);
    var t2 := Touch(t1, p, i.now);
    FlagsKeepSendWindow(if p.data != [] then Queue(t2, p) else t2, p, i.writeOk);
  }

  lemma FlagsKeepSendWindow(t: Tcb, p: Packet, ok: bool)
    ensures Flags(t, p, ok).sendWindow == t.sendWindow
  {
  }

  lemma {:induction false} RunFlight(t: Tcb, evs: seq<Event>)
    requires FlightInv(t) && AcksNear(t, evs)
    ensures FlightControlled(t, evs, t.sendWindow)
    ensures FlightInv(Run(t, evs)) && Run(t, evs).sendWindow == PeerWindow(t, evs, t.sendWindow)
    decreases |evs|
  {
    if evs != [] {
      StepFlight(t, evs[0]);
      StepStoresWindow(t, evs[0]);
      RunFlight(Step(t, evs[0]), evs[1..]);
    }
  }

  /** Send-window safety over every run of a new session, against the windows in the segments of the app. */
  lemma SendWindowSafety(b: Birth, evs: seq<Event>)
    requires b.scale <= MAX_SHIFT && AcksNear(NewSession(b), evs)
    ensures FlightControlled(NewSession(b), evs, b.p.window * Pow2(b.scale))
    ensures var t := Run(NewSession(b), evs);
            && t.sendWindow == PeerWindow(NewSession(b), evs, b.p.window * Pow2(b.scale))
            && (Open(t.state) ==> InFlight(t) <= MAX_FLIGHT && CompareU32(t.acked, t.localSeq) <= 0)
  {
    ScaledFits(b.p.window, b.scale);
    RunFlight(NewSession(b), evs);
    var t := Run(NewSession(b), evs);
    if Open(t.state) { SendWindowIsExact(t); }
  }

  // ----- the window advertised to the app -----

  /** What the peer makes of the window field: the field shifted back. */
  function Decoded(t: Tcb): nat { WindowField(t) * Pow2(t.conf.recvScale) }

  lemma WindowForBounds(toforward: u32, buffer: int32nat, scale: byte)
    requires scale <= MAX_SHIFT
    ensures var w := WindowFor(toforward, buffer, scale);
            && (w == 0 || w + toforward <= buffer)
            && w <= 0xFFFF * Pow2(scale)
            && (w / Pow2(scale) == 0 ==> w == 0)
  {
    ScaledFits(0xFFFF, scale);
    DivMul(0, Pow2(scale));
  }

  lemma DivMul(x: nat, d: nat)
    requires d > 0
    ensures x / d * d <= x < x / d * d + d
  {
  }

  /** Shifting a window right and left again, in units of p. */
  lemma ShiftedWindow(w: nat, p: nat)
    requires p > 0 && w <= 0xFFFF * p && (w / p == 0 ==> w == 0)
    ensures w / p <= 0xFFFF
    ensures w / p * p <= w < w / p * p + p
    ensures w / p * p == 0 <==> w == 0
  {
    DivMul(w, p);
    var f := w / p;
    if f > 0xFFFF { MulOrder(0x1_0000, f, p); }
    if f > 0 { MulOrder(1, f, p); }
  }

  /** The window stored in recv_window is a number of whole 16-bit units of the scale, or nothing. */
  predicate Advertisable(window: u32, scale: byte) {
    window <= 0xFFFF * Pow2(scale) && (window / Pow2(scale) == 0 ==> window == 0)
  }

  /** Receive window: the counter `toforward` is the exact unsent total, and the window is 0 or fits the
      socket's buffer beside what is queued. */
  lemma ReceiveWindowFits(t: Tcb, b: Buffers)
    requires t.conf.recvScale <= MAX_SHIFT && Unsent(t.forward) < 0x1_0000_0000
    ensures var w := ReceiveWindow(t, b); w == 0 || w + Unsent(t.forward) <= ReceiveBuffer(t.socket, b)
  {
    WindowForBounds(Wrap32(Unsent(t.forward)), ReceiveBuffer(t.socket, b), t.conf.recvScale);
  }

  /** get_receive_buffer: half of the socket's send buffer, 16384 bytes if that is not known, less what it holds. */
  lemma BufferIsExact(socket: int, b: Buffers)
    ensures var half := (if b.sndbuf == 0 then 0x4000 else b.sndbuf) / 2;
            && (ReceiveBuffer(socket, b) > 0 <==> socket >= 0 && b.unsent < half)
            && (ReceiveBuffer(socket, b) > 0 ==> ReceiveBuffer(socket, b) + b.unsent == half)
  {
  }

  /** The window is all the room beside what is queued, in half of the socket's send buffer less what it holds and in
      0xFFFF units of the scale, or 0 if that is less than one unit. */
  lemma WindowIsExact(t: Tcb, b: Buffers)
    requires t.conf.recvScale <= MAX_SHIFT && Unsent(t.forward) < 0x1_0000_0000
    ensures var w, unit, queued := ReceiveWindow(t, b), Pow2(t.conf.recvScale), Unsent(t.forward);
            var half := (if b.sndbuf == 0 then 0x4000 else b.sndbuf) / 2;
            && (w > 0 <==> t.socket >= 0 && queued + unit + b.unsent <= half && queued + unit <= 0xFFFF * unit)
            && (w > 0 ==> queued + w == Min(half - b.unsent, 0xFFFF * unit))
  {
    var unit := Pow2(t.conf.recvScale);
    ScaledFits(0xFFFF, t.conf.recvScale);
    BufferIsExact(t.socket, b);
    var limit := Min(ReceiveBuffer(t.socket, b), 0xFFFF * unit);
    if Unsent(t.forward) < limit { QuotientIsZero(limit - Unsent(t.forward), unit); }
    QuotientIsZero(0, unit);
  }

  lemma QuotientIsZero(x: nat, d: nat)
    requires d > 0
    ensures x / d == 0 <==> x < d
  {
  }

  /** After a socket event past LISTEN the stored window is that of the queue that is left. */
  lemma WindowIsStored(t: Tcb, e: SocketEvent)
    requires !e.error && t.state != LISTEN
    ensures var u := CheckSocket(t, e); u.recvWindow == ReceiveWindow(u.(socket := t.socket), e.after)
  {
    ForwardedFrame(t, e);
    var d := Forwarded(t, e);
    var w := ReceiveWindow(d.t, e.after);
    RefreshStores(d.t, w, e, d.moved);
    RefreshKeepsQueue(d.t, w, e, d.moved);
    ReadKeepsWindow(Acknowledge(d.t, e, d.moved), e);
    ReadKeepsQueue(Acknowledge(d.t, e, d.moved), e);
  }

  lemma RefreshKeepsQueue(t: Tcb, window: u32, e: SocketEvent, moved: bool)
    ensures Refresh(t, window, e, moved).forward == t.forward
  {
  }

  lemma ReadKeepsQueue(t: Tcb, e: SocketEvent)
    ensures ReadSocket(t, e).forward == t.forward
  {
  }

  /** What a step does to recv_window. */
  predicate WindowRefreshed(t: Tcb, u: Tcb) {
    u.conf == t.conf && (u.recvWindow == t.recvWindow || Advertisable(u.recvWindow, t.conf.recvScale))
  }

  lemma RefreshStores(t: Tcb, window: u32, e: SocketEvent, moved: bool)
    ensures Refresh(t, window, e, moved).recvWindow == window && Refresh(t, window, e, moved).conf == t.conf
  {
  }

  lemma ReadKeepsWindow(t: Tcb, e: SocketEvent)
    ensures ReadSocket(t, e).recvWindow == t.recvWindow && ReadSocket(t, e).conf == t.conf
  {
  }

  lemma CheckSocketRefreshes(t: Tcb, e: SocketEvent)
    requires t.conf.recvScale <= MAX_SHIFT
    ensures WindowRefreshed(t, CheckSocket(t, e))
  {
    if !e.error && t.state != LISTEN {
      ForwardedFrame(t, e);
      var d := Forwarded(t, e);
      WindowForBounds(Wrap32(Unsent(d.t.forward)), ReceiveBuffer(d.t.socket, e.after), t.conf.recvScale);
      RefreshStores(d.t, ReceiveWindow(d.t, e.after), e, d.moved);
      ReadKeepsWindow(Acknowledge(d.t, e, d.moved), e);
    }
  }

  lemma PacketKeepsWindow(t: Tcb, p: Packet, i: TunInput)
    ensures HandlePacket(t, p, i).recvWindow == t.recvWindow && HandlePacket(t, p, i).conf == t.conf
  {
    var t1 := if t.conf.dest == HTTPS_PORT then SendConnect(t, i) else t;
    assert t1.recvWindow == t.recvWindow && t1.conf == t.conf;
    var t2 := Touch(t1, p, i.now);
    FlagsKeepWindow(if p.data != [] then Queue(t2, p) else t2, p, i.writeOk);
  }

  lemma FlagsKeepWindow(t: Tcb, p: Packet, ok: bool)
    ensures Flags(t, p, ok).recvWindow == t.recvWindow && Flags(t, p, ok).conf == t.conf
  {
  }

  lemma QuietKeepsWindow(t: Tcb, ev: Event)
    requires ev.Sweep? || ev.Watch? || ev.Terminate?
    ensures Step(t, ev).recvWindow == t.recvWindow && Step(t, ev).conf == t.conf
  {
  }

  lemma StepRefreshes(t: Tcb, ev: Event)
    requires t.conf.recvScale <= MAX_SHIFT
    ensures WindowRefreshed(t, Step(t, ev))
  {
    match ev
    case FromSocket(e) => CheckSocketRefreshes(t, e);
    case FromTun(p, i) => PacketKeepsWindow(t, p, i);
    case _ => QuietKeepsWindow(t, ev);
  }

  lemma {:induction false} RunKeepsWindow(t: Tcb, evs: seq<Event>)
    requires t.conf.recvScale <= MAX_SHIFT && Advertisable(t.recvWindow, t.conf.recvScale)
    ensures var u := Run(t, evs); u.conf == t.conf && Advertisable(u.recvWindow, u.conf.recvScale)
    decreases |evs|
  {
    if evs != [] {
      StepRefreshes(t, evs[0]);
      RunKeepsWindow(Step(t, evs[0]), evs[1..]);
    }
  }

  lemma DecodedWindow(t: Tcb)
    requires Advertisable(t.recvWindow, t.conf.recvScale)
    ensures WindowField(t) == t.recvWindow / Pow2(t.conf.recvScale)
    ensures Decoded(t) <= t.recvWindow < Decoded(t) + Pow2(t.conf.recvScale)
    ensures Decoded(t) == 0 <==> t.recvWindow == 0
  {
    var p := Pow2(t.conf.recvScale);
    ShiftedWindow(t.recvWindow, p);
    FitsField(t.recvWindow / p);
  }

  lemma FitsField(f: nat)
    requires f <= 0xFFFF
    ensures f % 0x1_0000 == f
  {
  }

  /** After every run of a new session: the 16-bit window field loses no high bits, and the peer decodes the
      stored window rounded down by less than one unit, and zero exactly when it is zero. */
  lemma AdvertisedWindow(b: Birth, evs: seq<Event>)
    requires b.scale <= MAX_SHIFT
    ensures var t := Run(NewSession(b), evs);
            && WindowField(t) == t.recvWindow / Pow2(t.conf.recvScale)
            && Decoded(t) <= t.recvWindow < Decoded(t) + Pow2(t.conf.recvScale)
            && (Decoded(t) == 0 <==> t.recvWindow == 0)
  {
    var t0 := NewSession(b);
    WindowForBounds(Wrap32(Unsent(t0.forward)), ReceiveBuffer(t0.socket, b.b), b.scale);
    RunKeepsWindow(t0, evs);
    DecodedWindow(Run(t0, evs));
  }
}
