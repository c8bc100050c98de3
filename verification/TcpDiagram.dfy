/** The state diagram of a session: which steps enter which state, and what is written on the way. */
module TcpDiagram {
  import opened Serial
  import opened TcpModel
  import opened TcpSafety
  import opened TcpSequence
  import opened TcpWindow
  import opened TcpReads

  // ----- a packet from tun -----

  /** The segment gets as far as its FIN and ACK flags. */
  predicate Accepts(t: Tcb, p: Packet) {
    !RefusesData(t, p) && !p.rst && !p.syn && (p.ack ==> p.ackNo == t.localSeq)
  }

  /** It acknowledges what was never sent. */
  predicate FutureAck(t: Tcb, p: Packet) {
    && !RefusesData(t, p) && !p.rst && p.ack && p.ackNo != t.localSeq && Add32(p.ackNo, 1) != t.localSeq
    && CompareU32(p.ackNo, t.localSeq) > 0
  }

  /** Nothing is queued, and nothing will be for this segment. */
  predicate NothingQueued(t: Tcb, p: Packet) {
    t.forward == [] && (p.data == [] || CompareU32(p.seqNo, t.remoteSeq) < 0)
  }

  predicate FinCounted(t: Tcb, p: Packet) {
    Accepts(t, p) && p.fin && ((t.state == ESTABLISHED && NothingQueued(t, p)) || t.state == FIN_WAIT1)
  }

  /** The first packet that could carry the CONNECT line out fails to. */
  predicate ConnectFails(t: Tcb, p: Packet, i: TunInput) {
    t.conf.dest == 443 && !p.urg && t.connect == NotSent && i.named && SendOn(t.socket, i.connectSent) < 0
  }

  predicate ConnectGoesOut(t: Tcb, p: Packet, i: TunInput) { t.conf.dest == 443 && SendsConnect(t, p, i) }

  // ----- a socket event -----

  predicate AnswersSyn(t: Tcb, e: SocketEvent) { !e.error && t.state == LISTEN && !e.readable && e.writeOk }

  /** "HTTP/1.0 200" or "HTTP/1.1 200". */
  predicate Grants(line: seq<byte>) {
    && |line| == 12 && (line[7] == 0x30 || line[7] == 0x31)
    && line[..7] == [0x48, 0x54, 0x54, 0x50, 0x2F, 0x31, 0x2E] && line[8..] == [0x20, 0x32, 0x30, 0x30]
  }

  /** The first twelve bytes the proxy sent, or all of them if there are fewer. */
  function Line(bytes: seq<byte>): seq<byte> { bytes[..Min(|bytes|, 12)] }

  predicate ProxyGrants(t: Tcb, e: SocketEvent) {
    !e.error && Waiting(t) && e.readable && e.recv.Got? && Grants(Line(e.recv.bytes))
  }

  predicate ProxyFails(t: Tcb, e: SocketEvent) {
    && !e.error && t.state == LISTEN && e.readable
    && (e.recv.Failed? || (Waiting(t) && !Grants(Line(e.recv.bytes))))
  }

  /** Progress, or a reopened window, is to be acknowledged. */
  predicate Acknowledges(t: Tcb, e: SocketEvent) {
    var d := Forwarded(t, e);
    !e.error && t.state != LISTEN && (d.moved || (t.recvWindow == 0 && ReceiveWindow(d.t, e.after) > 0))
  }

  predicate Reads(t: Tcb, e: SocketEvent) {
    && !e.error && Open(t.state) && e.readable && InFlight(t) < t.sendWindow
    && (Acknowledges(t, e) ==> e.ackOk)
  }

  predicate ReadsEnd(t: Tcb, e: SocketEvent) {
    Reads(t, e) && e.recv.Got? && (e.recv.bytes == [] || t.conf.mss == 0)
  }

  predicate ReadsBytes(t: Tcb, e: SocketEvent) { Reads(t, e) && e.recv.Got? && !ReadsEnd(t, e) }

  predicate ReadFails(t: Tcb, e: SocketEvent) { Reads(t, e) && e.recv == Failed(false) }

  /** Something is left to hand upstream after the loop of this event. */
  predicate LeavesQueue(t: Tcb, e: SocketEvent) { Forwarded(t, e).t.forward != [] }

  predicate Expires(t: Tcb, now: int, l: LoadOk) {
    !Closed(t.state) && t.time + Timeout(t.state, l.sessions, l.maxSessions) < now
  }

  // ----- the diagram -----

  predicate TunEnters(t: Tcb, p: Packet, i: TunInput, s: State) {
    match s
    case LISTEN => ConnectGoesOut(t, p, i)
    case ESTABLISHED => TakesIn(t, FromTun(p, i)) && Accepts(t, p) && t.state == SYN_RECV && p.ack && !p.fin
    case CLOSE_WAIT =>
      && TakesIn(t, FromTun(p, i)) && Accepts(t, p) && t.state == ESTABLISHED && p.fin
      && (NothingQueued(t, p) ==> i.writeOk)
    case CLOSE => TakesIn(t, FromTun(p, i)) && Accepts(t, p) && t.state == FIN_WAIT1 && p.fin && i.writeOk
    case CLOSING =>
      || (ConnectFails(t, p, i) && t.state != CLOSE)
      || (TakesIn(t, FromTun(p, i)) &&
          (RefusesData(t, p) || p.rst || FutureAck(t, p) || (FinCounted(t, p) && !i.writeOk) ||
           (Accepts(t, p) && t.state == LAST_ACK && p.ack && !p.fin)))
    case _ => false
  }

  predicate SocketEnters(t: Tcb, e: SocketEvent, s: State) {
    match s
    case SYN_RECV => AnswersSyn(t, e) || ProxyGrants(t, e)
    case FIN_WAIT1 => t.state == ESTABLISHED && ReadsEnd(t, e) && !LeavesQueue(t, e) && e.writeOk
    case LAST_ACK => t.state == CLOSE_WAIT && ReadsEnd(t, e) && !LeavesQueue(t, e) && e.writeOk
    case CLOSING =>
      || (e.error && t.state != CLOSE)
      || ProxyFails(t, e)
      || (!e.error && t.state == LISTEN && !e.readable && !e.writeOk)
      || (Acknowledges(t, e) && !e.ackOk)
      || ReadFails(t, e)
      || (ReadsBytes(t, e) && !e.writeOk)
      || (ReadsEnd(t, e) && (LeavesQueue(t, e) || !e.writeOk))
    case _ => false
  }

  predicate WatchEnters(t: Tcb, m: MonitorInput, s: State) {
    && s == CLOSING && t.socket >= 0
    && (|| (Open(t.state) && InFlight(t) >= t.sendWindow && m.ms - t.lastKeepAlive > 100 && !m.ackOk)
        || (!m.modOk && Monitor(t, m.(modOk := true)).t.watch != t.watch))
  }

  /** The step takes a session that is in another state to s. */
  predicate Enters(t: Tcb, ev: Event, s: State) {
    match ev
    case FromTun(p, i) => TunEnters(t, p, i, s)
    case FromSocket(e) => SocketEnters(t, e, s)
    case Sweep(now, l, _) => s == CLOSE && (t.state == CLOSING || Expires(t, now, l))
    case Watch(m) => WatchEnters(t, m, s)
    case Terminate(_) => s == CLOSING && !Closed(t.state)
  }

  /** The CONNECT line is for port 443 only, and nothing but the SYN is answered before it is granted. */
  predicate ConnectInv(t: Tcb) {
    && (t.conf.dest != HTTPS_PORT ==> t.connect != Requested)
    && (Ungranted(t) ==> t.state == LISTEN || t.state == SYN_RECV || Closed(t.state))
  }

  predicate DiagramInv(t: Tcb) { ConnectInv(t) && SocketInv(t) && FlightInv(t) }

  lemma FinEnters(t: Tcb, ok: bool, s: State)
    requires s != t.state
    ensures Fin(t, ok).state == s <==>
            match s
            case CLOSE_WAIT => t.state == ESTABLISHED && (t.forward == [] ==> ok)
            case CLOSE => t.state == FIN_WAIT1 && ok
            case CLOSING => ((t.state == ESTABLISHED && t.forward == []) || t.state == FIN_WAIT1) && !ok
            case _ => false
  {
  }

  /** An acknowledgement number is at local_seq, one before it, behind or ahead. */
  lemma Compared(ack: u32, local: u32)
    ensures CompareU32(ack, local) == 0 <==> ack == local
  {
  }

  lemma FlagsEnter(t: Tcb, p: Packet, i: TunInput, s: State, q: Tcb)
    requires DiagramInv(t) && TakesIn(t, FromTun(p, i)) && !RefusesData(t, p) && s != t.state
    requires q.state == t.state && q.localSeq == t.localSeq && q.acked == t.acked
    requires q.forward == [] <==> NothingQueued(t, p)
    ensures Flags(q, p, i.writeOk).state == s <==> TunEnters(t, p, i, s)
  {
    Compared(p.ackNo, t.localSeq);
    if Accepts(t, p) && p.fin { FinEnters(q, i.writeOk, s); }
  }

  lemma QueuedOrNot(t: Tcb, p: Packet, now: int)
    ensures var t1 := Touch(t, p, now);
            var q := if p.data != [] then Queue(t1, p) else t1;
            && q.state == t.state && q.localSeq == t.localSeq && q.acked == t.acked
            && (q.forward == [] <==> NothingQueued(t, p))
  {
    InsertNotEmpty(t.forward, PieceOf(p));
  }

  lemma InsertNotEmpty(f: seq<Piece>, n: Piece)
    ensures Insert(f, n) != []
  {
  }

  lemma TunDiagram(t: Tcb, p: Packet, i: TunInput, s: State)
    requires DiagramInv(t) && s != t.state
    ensures HandlePacket(t, p, i).state == s <==> TunEnters(t, p, i, s)
  {
    if TakesIn(t, FromTun(p, i)) {
      if !RefusesData(t, p) {
        var t1 := Touch(t, p, i.now);
        QueuedOrNot(t, p, i.now);
        FlagsEnter(t, p, i, s, if p.data != [] then Queue(t1, p) else t1);
      }
    } else {
      NotTakenIn(t, p, i, s);
    }
  }

  lemma NotTakenIn(t: Tcb, p: Packet, i: TunInput, s: State)
    requires DiagramInv(t) && s != t.state && !TakesIn(t, FromTun(p, i))
    ensures HandlePacket(t, p, i).state == s <==> TunEnters(t, p, i, s)
  {
  }

  // ----- socket events -----

  lemma GrantsAre(line: seq<byte>)
    ensures ProxyAccepted(line) <==> Grants(line)
  {
    var v0, v1 := Ascii("HTTP/1.0 200"), Ascii("HTTP/1.1 200");
    if Grants(line) {
      assert forall k | 0 <= k < 7 :: line[k] == line[..7][k];
      assert forall k | 8 <= k < 12 :: line[k] == line[8..][k - 8];
      assert line == if line[7] == 0x30 then v0 else v1;
    }
  }

  lemma ListenEnters(t: Tcb, e: SocketEvent, s: State)
    requires DiagramInv(t) && t.state == LISTEN && s != LISTEN
    ensures CheckSocket(t, e).state == s <==> SocketEnters(t, e, s)
  {
    if !e.error && e.readable && e.recv.Got? { GrantsAre(Line(e.recv.bytes)); }
  }

  /** What is left for the part that reads. */
  lemma BeforeRead(t: Tcb, e: SocketEvent)
    requires DiagramInv(t) && !e.error && t.state != LISTEN
    ensures var v := WithoutRead(t, e);
            && v.state == (if Acknowledges(t, e) && !e.ackOk then CLOSING else t.state)
            && v.forward == Forwarded(t, e).t.forward && v.conf == t.conf && v.socket == t.socket
            && v.acked == t.acked && v.localSeq == t.localSeq && v.sendWindow == t.sendWindow
  {
    var f := e.(readable := false);
    assert Forwarded(t, f) == Forwarded(t, e);
    ForwardedFrame(t, e);
    var d := Forwarded(t, e);
    AfterRefresh(d.t, ReceiveWindow(d.t, e.after), e, d.moved);
    assert WithoutRead(t, e) == Acknowledge(d.t, f, d.moved);
  }

  lemma AfterRefresh(t: Tcb, window: u32, e: SocketEvent, moved: bool)
    ensures var v := Refresh(t, window, e, moved);
            && v == Refresh(t, window, e.(readable := false), moved)
            && v.state == (if (moved || (t.recvWindow == 0 && window > 0)) && !e.ackOk then CLOSING else t.state)
            && v.forward == t.forward && v.conf == t.conf && v.socket == t.socket
            && v.acked == t.acked && v.localSeq == t.localSeq && v.sendWindow == t.sendWindow
  {
  }

  lemma SocketDiagram(t: Tcb, e: SocketEvent, s: State)
    requires DiagramInv(t) && s != t.state
    ensures CheckSocket(t, e).state == s <==> SocketEnters(t, e, s)
  {
    if !e.error && t.state == LISTEN {
      ListenEnters(t, e, s);
    } else if !e.error {
      if t.socket < 0 { NoSocketNoForward(t, e); }
      BeforeRead(t, e);
      ReadLaw(t, e);
      ReadEnters(t, e, s, WithoutRead(t, e), CheckSocket(t, e));
    }
  }

  lemma ReadEnters(t: Tcb, e: SocketEvent, s: State, v: Tcb, u: Tcb)
    requires DiagramInv(t) && !e.error && t.state != LISTEN && s != t.state
    requires v.state == if Acknowledges(t, e) && !e.ackOk then CLOSING else t.state
    requires v.forward == Forwarded(t, e).t.forward && v.conf == t.conf
    requires v.acked == t.acked && v.localSeq == t.localSeq && v.sendWindow == t.sendWindow
    requires if !(e.readable && Open(v.state) && InFlight(v) < v.sendWindow) then u == v
             else
               match e.recv
               case Failed(transient) => FailedToRead(v, u, transient, e.now, e.writeOk)
               case Got(bytes) =>
                 if bytes == [] || v.conf.mss == 0 then TookEnd(v, u, e.now, e.writeOk)
                 else TookBytes(v, u, bytes[..Min(|bytes|, ReadSize(v))], e.now, e.writeOk)
    ensures u.state == s <==> SocketEnters(t, e, s)
  {
  }

  // ----- sweep, monitor, termination -----

  lemma WatchDiagram(t: Tcb, m: MonitorInput, s: State)
    requires DiagramInv(t) && s != t.state && t.socket >= 0
    ensures Monitor(t, m).t.state == s <==> WatchEnters(t, m, s)
  {
    if Open(t.state) { SendWindowIsExact(t); }
  }

  lemma SweepDiagram(t: Tcb, now: int, l: LoadOk, ok: bool, s: State)
    requires s != t.state
    ensures CheckSession(t, now, l, ok).state == s <==> s == CLOSE && (t.state == CLOSING || Expires(t, now, l))
  {
  }

  /** The diagram: in every step, a session comes to another state exactly as `Enters` says. */
  lemma Diagram(t: Tcb, ev: Event, s: State)
    requires DiagramInv(t) && s != t.state
    ensures Step(t, ev).state == s <==> Enters(t, ev, s)
  {
    match ev
    case FromTun(p, i) => TunDiagram(t, p, i, s);
    case FromSocket(e) => SocketDiagram(t, e, s);
    case Sweep(now, l, ok) => SweepDiagram(t, now, l, ok, s);
    case Watch(m) => if t.socket >= 0 { WatchDiagram(t, m, s); }
    case Terminate(_) =>
  }

  /** The CONNECT phase moves only by the CONNECT line and the proxy's answer. */
  lemma ConnectMoves(t: Tcb, ev: Event)
    requires DiagramInv(t)
    ensures Step(t, ev).conf == t.conf
    ensures Step(t, ev).connect ==
            if ev.FromTun? && ConnectGoesOut(t, ev.p, ev.i) then Requested
            else if ev.FromSocket? && ProxyGrants(t, ev.e) then Granted
            else t.connect
  {
    StepKeepsConf(t, ev);
    match ev
    case FromTun(p, i) => TunConnect(t, p, i);
    case FromSocket(e) => SocketConnect(t, e);
    case _ =>
  }

  lemma TunConnect(t: Tcb, p: Packet, i: TunInput)
    ensures HandlePacket(t, p, i).connect == if ConnectGoesOut(t, p, i) then Requested else t.connect
  {
    var t1 := if t.conf.dest == HTTPS_PORT then SendConnect(t, i) else t;
    var t2 := Touch(t1, p, i.now);
    FlagsConnect(if p.data != [] then Queue(t2, p) else t2, p, i.writeOk);
  }

  lemma FlagsConnect(t: Tcb, p: Packet, ok: bool)
    ensures Flags(t, p, ok).connect == t.connect
  {
  }

  lemma SocketConnect(t: Tcb, e: SocketEvent)
    requires DiagramInv(t)
    ensures CheckSocket(t, e).connect == if ProxyGrants(t, e) then Granted else t.connect
  {
    if !e.error && t.state == LISTEN {
      if e.readable && e.recv.Got? { GrantsAre(Line(e.recv.bytes)); }
    } else if !e.error {
      ForwardedFrame(t, e);
      var d := Forwarded(t, e);
      RefreshConnect(d.t, ReceiveWindow(d.t, e.after), e, d.moved);
      ReadConnect(Acknowledge(d.t, e, d.moved), e);
    }
  }

  lemma RefreshConnect(t: Tcb, window: u32, e: SocketEvent, moved: bool)
    ensures Refresh(t, window, e, moved).connect == t.connect
  {
  }

  lemma ReadConnect(t: Tcb, e: SocketEvent)
    ensures ReadSocket(t, e).connect == t.connect
  {
  }

  lemma StepKeepsDiagram(t: Tcb, ev: Event)
    requires DiagramInv(t) && AckNear(t, ev)
    ensures DiagramInv(Step(t, ev))
  {
    StepAdvances(t, ev);
    StepFlight(t, ev);
    ConnectMoves(t, ev);
    var u := Step(t, ev);
    if u.state != t.state { Diagram(t, ev, u.state); }
  }

  /** Every change of state in the run is one of the diagram, and every step the diagram has is taken. */
  ghost predicate FollowsDiagram(t: Tcb, evs: seq<Event>)
    decreases |evs|
  {
    evs == [] ||
    (&& (forall s | s != t.state :: Step(t, evs[0]).state == s <==> Enters(t, evs[0], s))
     && FollowsDiagram(Step(t, evs[0]), evs[1..]))
  }

  lemma {:induction false} RunFollowsDiagram(t: Tcb, evs: seq<Event>)
    requires DiagramInv(t) && AcksNear(t, evs)
    ensures FollowsDiagram(t, evs)
    decreases |evs|
  {
    if evs != [] {
      forall s | s != t.state ensures Step(t, evs[0]).state == s <==> Enters(t, evs[0], s) {
        Diagram(t, evs[0], s);
      }
      StepKeepsDiagram(t, evs[0]);
      RunFollowsDiagram(Step(t, evs[0]), evs[1..]);
    }
  }

  /** Over every run of a new session, tidy or not. */
  lemma NewSessionFollowsDiagram(b: Birth, evs: seq<Event>)
    requires b.scale <= MAX_SHIFT && AcksNear(NewSession(b), evs)
    ensures FollowsDiagram(NewSession(b), evs)
  {
    ScaledFits(b.p.window, b.scale);
    RunFollowsDiagram(NewSession(b), evs);
  }
}
