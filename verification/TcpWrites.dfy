/** What a step writes to tun, and when. */
module TcpWrites {
  import opened Serial
  import opened TcpModel
  import opened TcpSafety
  import opened TcpSequence
  import opened TcpWindow
  import opened TcpReads
  import opened TcpDiagram

  /** The last segment of a step that wrote one. */
  function Last(t: Tcb, u: Tcb): Out
    requires |u.wire| > |t.wire|
  {
    u.wire[|u.wire| - 1]
  }

  /** The steps that write a reset. */
  predicate Resets(t: Tcb, ev: Event) {
    match ev
    case FromTun(p, i) =>
      && i.writeOk && !p.urg
      && (ConnectFails(t, p, i) || (!Ungranted(t) && (Closed(t.state) || RefusesData(t, p) || FutureAck(t, p))))
    case FromSocket(e) =>
      && e.writeOk
      && (e.error || ProxyFails(t, e) || ReadFails(t, e) || (ReadsEnd(t, e) && LeavesQueue(t, e)))
    case Sweep(now, l, ok) => ok && t.state != LISTEN && Expires(t, now, l)
    case Watch(_) => false
    case Terminate(ok) => ok && !Closed(t.state)
  }

  /** The flags of the last segment: a reset for those reasons only, a FIN exactly when FIN_WAIT1 or LAST_ACK is
      entered, a SYN exactly when the SYN is answered. */
  predicate FlagsAreDue(t: Tcb, ev: Event, u: Tcb) {
    && (Resets(t, ev) <==> |u.wire| > |t.wire| && Last(t, u).rst)
    && (u.state != t.state && (u.state == FIN_WAIT1 || u.state == LAST_ACK) <==> |u.wire| > |t.wire| && Last(t, u).fin)
    && (ev.FromSocket? && AnswersSyn(t, ev.e) <==> |u.wire| > |t.wire| && Last(t, u).syn)
  }

  /** Every segment of the step has the number that was next, the window that is stored now, and acknowledges what is
      counted now; a keep-alive acknowledges one less. */
  predicate Carries(t: Tcb, u: Tcb, alive: bool) {
    t.wire <= u.wire && u.conf == t.conf &&
    forall i | |t.wire| <= i < |u.wire| ::
      var o := u.wire[i];
      && o.seqNo == t.localSeq && o.window == WindowField(u)
      && o.ackNo == if !o.ack then 0 else if alive then Add32(u.remoteSeq, -1) else u.remoteSeq
  }

  function One(b: bool): nat { if b then 1 else 0 }

  /** The keep-alive is due. */
  predicate KeepsAlive(t: Tcb, m: MonitorInput) {
    t.socket >= 0 && Open(t.state) && InFlight(t) >= t.sendWindow && m.ms - t.lastKeepAlive > 100
  }

  /** How many segments the step writes. */
  function Segments(t: Tcb, ev: Event): nat {
    match ev
    case FromTun(p, i) => One(Resets(t, ev) || (TakesIn(t, ev) && FinCounted(t, p) && i.writeOk))
    case FromSocket(e) =>
      One(Acknowledges(t, e) && e.ackOk) +
      One(Resets(t, ev) || (e.writeOk && (AnswersSyn(t, e) || ReadsBytes(t, e) || ReadsEnd(t, e))))
    case Watch(m) => One(KeepsAlive(t, m) && m.ackOk)
    case _ => One(Resets(t, ev))
  }

  predicate WrittenAsDue(t: Tcb, ev: Event) {
    var u := Step(t, ev);
    FlagsAreDue(t, ev, u) && Carries(t, u, ev.Watch?) && |u.wire| == |t.wire| + Segments(t, ev)
  }

  /** A part of a step that writes nothing, or one segment with these flags. */
  predicate WritesAtMost(t: Tcb, u: Tcb, one: bool, syn: bool, fin: bool, rst: bool) {
    && u.conf == t.conf && u.recvWindow == t.recvWindow
    && if !one then u.wire == t.wire
       else
         && |u.wire| == |t.wire| + 1 && u.wire[..|t.wire|] == t.wire
         && var o := u.wire[|t.wire|];
            && o.seqNo == t.localSeq && o.window == WindowField(u) && o.ackNo == (if o.ack then u.remoteSeq else 0)
            && o.syn == syn && o.fin == fin && o.rst == rst
  }

  lemma OnePart(t: Tcb, u: Tcb, one: bool, syn: bool, fin: bool, rst: bool)
    requires WritesAtMost(t, u, one, syn, fin, rst)
    ensures Carries(t, u, false) && (|u.wire| > |t.wire| <==> one)
    ensures one ==> Last(t, u).syn == syn && Last(t, u).fin == fin && Last(t, u).rst == rst
  {
    if one { assert u.wire == t.wire + [u.wire[|t.wire|]]; }
  }

  lemma RstWrites(t: Tcb, ok: bool)
    ensures WritesAtMost(t, WriteRst(t, ok), ok, false, false, true)
  {
  }

  lemma FinWrites(t: Tcb, ok: bool)
    ensures WritesAtMost(t, Fin(t, ok), ok && ((t.state == ESTABLISHED && t.forward == []) || t.state == FIN_WAIT1),
                         false, false, false)
  {
  }

  lemma FlagsWrite(t: Tcb, p: Packet, ok: bool)
    ensures var future := !p.rst && p.ack && p.ackNo != t.localSeq && Add32(p.ackNo, 1) != t.localSeq
                          && CompareU32(p.ackNo, t.localSeq) > 0;
            var fin := !p.rst && !p.syn && p.fin && (p.ack ==> p.ackNo == t.localSeq)
                       && ((t.state == ESTABLISHED && t.forward == []) || t.state == FIN_WAIT1);
            WritesAtMost(t, Flags(t, p, ok), ok && (future || fin), false, false, future)
  {
    RstWrites(t, ok);
    FinWrites(t, ok);
    Compared(p.ackNo, t.localSeq);
  }

  lemma SegmentWrites(t: Tcb, p: Packet, i: TunInput)
    requires TakesIn(t, FromTun(p, i))
    ensures var rst := RefusesData(t, p) || FutureAck(t, p);
            WritesAtMost(t, HandlePacket(t, p, i), i.writeOk && (rst || FinCounted(t, p)), false, false, rst)
  {
    var t1 := Touch(t, p, i.now);
    RstWrites(t1, i.writeOk);
    QueuedOrNot(t, p, i.now);
    FlagsWrite(if p.data != [] then Queue(t1, p) else t1, p, i.writeOk);
  }

  lemma OtherPacketWrites(t: Tcb, p: Packet, i: TunInput)
    requires DiagramInv(t) && !TakesIn(t, FromTun(p, i))
    ensures var rst := !p.urg && (ConnectFails(t, p, i) || (!Ungranted(t) && Closed(t.state)));
            WritesAtMost(t, HandlePacket(t, p, i), i.writeOk && rst, false, false, true)
  {
    RstWrites(t, i.writeOk);
  }

  lemma TunWrites(t: Tcb, p: Packet, i: TunInput)
    requires DiagramInv(t)
    ensures WrittenAsDue(t, FromTun(p, i))
  {
    var u := HandlePacket(t, p, i);
    if TakesIn(t, FromTun(p, i)) {
      SegmentWrites(t, p, i);
      var rst := RefusesData(t, p) || FutureAck(t, p);
      OnePart(t, u, i.writeOk && (rst || FinCounted(t, p)), false, false, rst);
    } else {
      OtherPacketWrites(t, p, i);
      var rst := !p.urg && (ConnectFails(t, p, i) || (!Ungranted(t) && Closed(t.state)));
      OnePart(t, u, i.writeOk && rst, false, false, true);
    }
    NoFinFromTun(t, p, i);
  }

  lemma NoFinFromTun(t: Tcb, p: Packet, i: TunInput)
    requires DiagramInv(t)
    ensures var u := HandlePacket(t, p, i); u.state == t.state || (u.state != FIN_WAIT1 && u.state != LAST_ACK)
  {
    var u := HandlePacket(t, p, i);
    if u.state != t.state { TunDiagram(t, p, i, u.state); }
  }

  lemma ListenWrites(t: Tcb, e: SocketEvent)
    requires DiagramInv(t) && t.state == LISTEN && !e.error
    ensures WritesAtMost(t, CheckSocket(t, e), e.writeOk && (ProxyFails(t, e) || !e.readable),
                         !e.readable, false, e.readable)
  {
    RstWrites(t, e.writeOk);
    if e.readable && e.recv.Got? { GrantsAre(Line(e.recv.bytes)); }
  }

  /** The acknowledgement of a socket event, and then the part that reads. */
  lemma RestWrites(t: Tcb, e: SocketEvent)
    requires DiagramInv(t) && !e.error && t.state != LISTEN
    ensures var v := WithoutRead(t, e);
            && Carries(t, v, false) && v.conf == t.conf
            && |v.wire| == |t.wire| + One(Acknowledges(t, e) && e.ackOk)
            && (|v.wire| > |t.wire| ==> !Last(t, v).syn && !Last(t, v).fin && !Last(t, v).rst)
  {
    var f := e.(readable := false);
    ForwardedFrame(t, f);
    var d := Forwarded(t, f);
    assert d == Forwarded(t, e);
    RefreshWrites(d.t, ReceiveWindow(d.t, f.after), f, d.moved);
  }

  lemma RefreshWrites(t: Tcb, window: u32, e: SocketEvent, moved: bool)
    ensures var v := Refresh(t, window, e, moved);
            && Carries(t, v, false)
            && |v.wire| == |t.wire| + One((moved || (t.recvWindow == 0 && window > 0)) && e.ackOk)
            && (|v.wire| > |t.wire| ==> !Last(t, v).syn && !Last(t, v).fin && !Last(t, v).rst)
  {
  }

  /** Two parts of a step, of which the second writes one segment or none. */
  lemma ThenOne(t: Tcb, v: Tcb, u: Tcb, ack: bool, fin: bool, rst: bool, data: seq<byte>)
    requires Carries(t, v, false) && WritesOne(v, u, ack, fin, rst, data)
    requires u.conf == v.conf && u.remoteSeq == v.remoteSeq && v.localSeq == t.localSeq && u.recvWindow == v.recvWindow
    ensures Carries(t, u, false) && |u.wire| == |v.wire| + 1
    ensures !Last(t, u).syn && Last(t, u).fin == fin && Last(t, u).rst == rst
  {
    forall i | |t.wire| <= i < |u.wire| ensures i == |v.wire| || u.wire[i] == v.wire[i] {
      if i < |v.wire| { assert u.wire[i] == u.wire[..|v.wire|][i]; }
    }
    assert u.wire[..|t.wire|] == v.wire[..|t.wire|] == t.wire;
  }

  /** The flags of the segment the part that reads writes, if it writes one. */
  predicate ReadPart(t: Tcb, e: SocketEvent, v: Tcb, u: Tcb) {
    && Carries(t, u, false)
    && |u.wire| == |v.wire| + One(e.writeOk && (ReadFails(t, e) || ReadsBytes(t, e) || ReadsEnd(t, e)))
    && (|u.wire| > |v.wire| ==>
          && |u.wire| > |t.wire| && !Last(t, u).syn && Last(t, u).fin == (ReadsEnd(t, e) && !LeavesQueue(t, e))
          && Last(t, u).rst == (ReadFails(t, e) || (ReadsEnd(t, e) && LeavesQueue(t, e))))
    && (|u.wire| == |v.wire| ==> u.wire == v.wire)
  }

  lemma ReadWrites(t: Tcb, e: SocketEvent, v: Tcb, u: Tcb)
    requires DiagramInv(t) && !e.error && t.state != LISTEN && v == WithoutRead(t, e) && u == CheckSocket(t, e)
    ensures ReadPart(t, e, v, u)
  {
    ReadsIff(t, e, v);
    RestWrites(t, e);
    ReadLaw(t, e);
    if Reads(t, e) {
      match e.recv
      case Failed(transient) => FailWrites(t, e, v, u, transient);
      case Got(bytes) =>
        if ReadsEnd(t, e) {
          EndWrites(t, e, v, u);
        } else {
          BytesWrite(t, e, v, u, bytes[..Min(|bytes|, ReadSize(v))]);
        }
    }
  }

  lemma ReadsIff(t: Tcb, e: SocketEvent, v: Tcb)
    requires DiagramInv(t) && !e.error && t.state != LISTEN && v == WithoutRead(t, e)
    ensures Reads(t, e) <==> e.readable && Open(v.state) && InFlight(v) < v.sendWindow
    ensures v.localSeq == t.localSeq && v.conf == t.conf && (v.forward != [] <==> LeavesQueue(t, e))
  {
    BeforeRead(t, e);
  }

  lemma BytesWrite(t: Tcb, e: SocketEvent, v: Tcb, u: Tcb, bytes: seq<byte>)
    requires Carries(t, v, false) && v.localSeq == t.localSeq && TookBytes(v, u, bytes, e.now, e.writeOk)
    ensures Carries(t, u, false) && |u.wire| == |v.wire| + One(e.writeOk)
    ensures |u.wire| > |v.wire| ==> |u.wire| > |t.wire| && !Last(t, u).syn && !Last(t, u).fin && !Last(t, u).rst
    ensures |u.wire| == |v.wire| ==> u.wire == v.wire
  {
    if e.writeOk { ThenOne(t, v, u, true, false, false, bytes); }
  }

  lemma FailWrites(t: Tcb, e: SocketEvent, v: Tcb, u: Tcb, transient: bool)
    requires Carries(t, v, false) && v.localSeq == t.localSeq && FailedToRead(v, u, transient, e.now, e.writeOk)
    ensures Carries(t, u, false) && |u.wire| == |v.wire| + One(!transient && e.writeOk)
    ensures |u.wire| > |v.wire| ==> |u.wire| > |t.wire| && !Last(t, u).syn && !Last(t, u).fin && Last(t, u).rst
    ensures |u.wire| == |v.wire| ==> u.wire == v.wire
  {
    if e.writeOk && !transient { ThenOne(t, v, u, false, false, true, []); }
  }

  lemma EndWrites(t: Tcb, e: SocketEvent, v: Tcb, u: Tcb)
    requires Carries(t, v, false) && v.localSeq == t.localSeq && TookEnd(v, u, e.now, e.writeOk)
    ensures Carries(t, u, false) && |u.wire| == |v.wire| + One(e.writeOk)
    ensures |u.wire| > |v.wire| ==>
              && |u.wire| > |t.wire| && !Last(t, u).syn
              && Last(t, u).fin == (v.forward == []) && Last(t, u).rst == (v.forward != [])
    ensures |u.wire| == |v.wire| ==> u.wire == v.wire
  {
    if e.writeOk {
      if v.forward != [] { ThenOne(t, v, u, false, false, true, []); } else { ThenOne(t, v, u, true, true, false, []); }
    }
  }

  lemma RunningWrites(t: Tcb, e: SocketEvent)
    requires DiagramInv(t) && !e.error && t.state != LISTEN
    ensures WrittenAsDue(t, FromSocket(e))
  {
    var v, u := WithoutRead(t, e), CheckSocket(t, e);
    RestWrites(t, e);
    ReadWrites(t, e, v, u);
    FinStates(t, e);
    RunningFlags(t, e, v, u);
  }

  lemma RunningFlags(t: Tcb, e: SocketEvent, v: Tcb, u: Tcb)
    requires !e.error && t.state != LISTEN && ReadPart(t, e, v, u)
    requires |v.wire| == |t.wire| + One(Acknowledges(t, e) && e.ackOk)
    requires |v.wire| > |t.wire| ==> !Last(t, v).syn && !Last(t, v).fin && !Last(t, v).rst
    requires u.state != t.state && (u.state == FIN_WAIT1 || u.state == LAST_ACK) <==>
             ReadsEnd(t, e) && !LeavesQueue(t, e) && e.writeOk
    ensures FlagsAreDue(t, FromSocket(e), u) && |u.wire| == |t.wire| + Segments(t, FromSocket(e))
  {
  }

  lemma FinStates(t: Tcb, e: SocketEvent)
    requires DiagramInv(t)
    ensures var u := CheckSocket(t, e);
            u.state != t.state && (u.state == FIN_WAIT1 || u.state == LAST_ACK) <==>
            ReadsEnd(t, e) && !LeavesQueue(t, e) && e.writeOk
  {
    var u := CheckSocket(t, e);
    if u.state != t.state { SocketDiagram(t, e, u.state); }
    if ReadsEnd(t, e) && !LeavesQueue(t, e) && e.writeOk {
      SocketDiagram(t, e, if t.state == ESTABLISHED then FIN_WAIT1 else LAST_ACK);
    }
  }

  lemma SocketWrites(t: Tcb, e: SocketEvent)
    requires DiagramInv(t)
    ensures WrittenAsDue(t, FromSocket(e))
  {
    var u := CheckSocket(t, e);
    if e.error {
      RstWrites(t.(time := e.now), e.writeOk);
      OnePart(t, u, e.writeOk, false, false, true);
      FinStates(t, e);
    } else if t.state == LISTEN {
      ListenWrites(t, e);
      OnePart(t, u, e.writeOk && (ProxyFails(t, e) || !e.readable), !e.readable, false, e.readable);
      FinStates(t, e);
    } else {
      RunningWrites(t, e);
    }
  }

  lemma WatchWrites(t: Tcb, m: MonitorInput)
    requires DiagramInv(t)
    ensures WrittenAsDue(t, Watch(m))
  {
    if t.socket >= 0 { MonitorWrites(t, m); }
  }

  lemma MonitorWrites(t: Tcb, m: MonitorInput)
    requires DiagramInv(t) && t.socket >= 0
    ensures var u := Monitor(t, m).t;
            && Carries(t, u, true) && |u.wire| == |t.wire| + One(KeepsAlive(t, m) && m.ackOk)
            && (|u.wire| > |t.wire| ==> !Last(t, u).syn && !Last(t, u).fin && !Last(t, u).rst)
            && (u.state == t.state || u.state == CLOSING)
  {
    var t1 := if Open(t.state) && SendWindow(t) == 0 then KeepAlive(t, m) else t;
    if Open(t.state) { SendWindowIsExact(t); }
    KeepAliveWrites(t, m);
    var u := Monitor(t, m).t;
    assert u == SetMask(t1, u.watch, m.modOk);
    MaskWritesNothing(t1, u.watch, m.modOk);
    OnlyAlive(t, t1, u, KeepsAlive(t, m) && m.ackOk);
  }

  /** The keep-alive and nothing else. */
  predicate Alive(t: Tcb, u: Tcb, one: bool) {
    && u.conf == t.conf && u.recvWindow == t.recvWindow && u.remoteSeq == t.remoteSeq
    && if one then WritesOne(t.(remoteSeq := Add32(t.remoteSeq, -1)), u, true, false, false, []) else u.wire == t.wire
  }

  lemma KeepAliveWrites(t: Tcb, m: MonitorInput)
    ensures Alive(t, KeepAlive(t, m), m.ms - t.lastKeepAlive > 100 && m.ackOk)
  {
  }

  lemma MaskWritesNothing(t: Tcb, watch: Mask, ok: bool)
    ensures var u := SetMask(t, watch, ok);
            && u.wire == t.wire && u.conf == t.conf && u.recvWindow == t.recvWindow && u.remoteSeq == t.remoteSeq
            && (u.state == t.state || u.state == CLOSING)
  {
  }

  lemma OnlyAlive(t: Tcb, v: Tcb, u: Tcb, one: bool)
    requires Alive(t, v, one)
    requires u.wire == v.wire && u.conf == v.conf && u.recvWindow == v.recvWindow && u.remoteSeq == v.remoteSeq
    ensures Carries(t, u, true) && |u.wire| == |t.wire| + One(one)
    ensures one ==> !Last(t, u).syn && !Last(t, u).fin && !Last(t, u).rst
  {
  }

  /** In every step of every session on its diagram: resets, FINs and SYNs are written for those reasons and no other,
      and every segment carries the current numbers and the current window. */
  lemma WritesLaw(t: Tcb, ev: Event)
    requires DiagramInv(t)
    ensures WrittenAsDue(t, ev)
  {
    match ev
    case FromTun(p, i) => TunWrites(t, p, i);
    case FromSocket(e) => SocketWrites(t, e);
    case Sweep(now, l, ok) => SweepWrites(t, now, l, ok);
    case Watch(m) => WatchWrites(t, m);
    case Terminate(ok) => TerminateWrites(t, ok);
  }

  lemma SweepWrites(t: Tcb, now: int, l: LoadOk, ok: bool)
    requires DiagramInv(t)
    ensures WrittenAsDue(t, Sweep(now, l, ok))
  {
    var u := CheckSession(t, now, l, ok);
    RstWrites(t, ok);
    OnePart(t, u, ok && t.state != LISTEN && Expires(t, now, l), false, false, true);
  }

  lemma TerminateWrites(t: Tcb, ok: bool)
    requires DiagramInv(t)
    ensures WrittenAsDue(t, Terminate(ok))
  {
    RstWrites(t, ok);
    OnePart(t, Step(t, Terminate(ok)), ok && !Closed(t.state), false, false, true);
  }
}
