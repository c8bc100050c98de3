/** What the app receives: the bytes of the socket in order, each under its number, and every progress of its own
    bytes acknowledged. */
module TcpWire {
  import opened Serial
  import opened TcpModel
  import opened TcpSafety
  import opened TcpSequence
  import opened TcpWritten

  /** A SYN has the initial number, data the number of its first byte, a FIN the number behind the last byte
      that was written. */
  predicate WellNumbered(o: Out, start: u32, written: nat) {
    && (o.syn ==> o.seqNo == start)
    && (o.data != [] || o.fin ==> o.seqNo == Add32(start, 1 + written))
  }

  predicate Numbered(w: seq<Out>, start: u32)
    decreases |w|
  {
    w == [] ||
    var front, last := w[..|w| - 1], w[|w| - 1];
    Numbered(front, start) && WellNumbered(last, start, |Payload(front)|)
  }

  /** The SYN was answered, or never will be. */
  predicate SynDone(t: Tcb) { t.state != LISTEN || Waiting(t) }

  /** All bytes taken from the socket were written, in order and correctly numbered; once the session closes,
      those up to a write that fell short. At most one SYN was written. */
  predicate Downstream(t: Tcb) {
    && Numbered(t.wire, t.conf.localStart)
    && Payload(t.wire) <= t.taken
    && (!Closed(t.state) ==> Payload(t.wire) == t.taken)
    && Syns(t.wire) <= 1 && (Syns(t.wire) == 1 ==> SynDone(t))
  }

  lemma NumberedSnoc(w: seq<Out>, o: Out, start: u32)
    ensures Numbered(w + [o], start) <==> Numbered(w, start) && WellNumbered(o, start, |Payload(w)|)
  {
    assert (w + [o])[..|w|] == w;
  }

  // ----- what a part of a step may write -----

  /** Nothing, or one well-numbered segment without data. */
  predicate Says(t: Tcb, u: Tcb) {
    && u.conf == t.conf && u.taken == t.taken
    && (Closed(t.state) ==> Closed(u.state) || t.taken == []) && (SynDone(t) ==> SynDone(u))
    && (u.wire == t.wire ||
        (u.wire != [] && u.wire == t.wire + [u.wire[|u.wire| - 1]] &&
         var o := u.wire[|u.wire| - 1];
         && o.data == [] && (o.fin ==> !Closed(t.state)) && (o.syn ==> !SynDone(t) && SynDone(u))
         && WellNumbered(o, t.conf.localStart, |t.taken|)))
  }

  lemma SaysKeeps(t: Tcb, u: Tcb)
    requires Downstream(t) && Says(t, u)
    ensures Downstream(u)
  {
    if u.wire != t.wire {
      Snoc(t.wire, u.wire[|u.wire| - 1]);
      NumberedSnoc(t.wire, u.wire[|u.wire| - 1], t.conf.localStart);
      assert Payload(t.wire) + [] == Payload(t.wire);
    }
  }

  // ----- what must be written -----

  /** Whatever was handed upstream, or a receive window that reopens, is acknowledged in the same event: the next
      segment carries the new remote_seq, with a FIN confirmed once the queue is empty, and the new window. */
  lemma ProgressIsAcknowledged(t: Tcb, e: SocketEvent)
    requires !e.error && t.state != LISTEN && e.ackOk
    requires Forwarded(t, e).moved || (t.recvWindow == 0 && ReceiveWindow(Forwarded(t, e).t, e.after) > 0)
    ensures var d := Forwarded(t, e);
            var u := CheckSocket(t, e);
            var confirmed := d.moved && d.t.forward == [] && t.state == CLOSE_WAIT;
            && |u.wire| > |t.wire| && t.wire <= u.wire
            && var o := u.wire[|t.wire|];
               && o.ack && !o.syn && !o.fin && !o.rst && o.data == []
               && o.ackNo == (if confirmed then Add32(d.t.remoteSeq, 1) else d.t.remoteSeq)
               && o.window == WindowField(d.t.(recvWindow := ReceiveWindow(d.t, e.after)))
  {
    ForwardedFrame(t, e);
    var d := Forwarded(t, e);
    var t1 := Acknowledge(d.t, e, d.moved);
    RefreshAcknowledges(d.t, ReceiveWindow(d.t, e.after), e, d.moved);
    if Open(t1.state) { ReadAppends(t1, e); }
  }

  lemma RefreshAcknowledges(t: Tcb, window: u32, e: SocketEvent, moved: bool)
    requires e.ackOk && (moved || (t.recvWindow == 0 && window > 0))
    ensures var n := if moved && t.forward == [] && t.state == CLOSE_WAIT then Add32(t.remoteSeq, 1) else t.remoteSeq;
            Refresh(t, window, e, moved).wire ==
            t.wire + [Out(t.localSeq, n, false, true, false, false, WindowField(t.(recvWindow := window)), [])]
  {
  }

  lemma ReadAppends(t: Tcb, e: SocketEvent)
    ensures t.wire <= ReadSocket(t, e).wire
  {
  }

  // ----- each part of a step -----

  lemma RstSays(t: Tcb, ok: bool)
    requires SeqInv(t)
    ensures Says(t, WriteRst(t, ok))
  {
  }

  lemma ConnectingSays(t: Tcb, e: SocketEvent)
    requires SeqInv(t) && t.state == LISTEN && !e.error && !AnswersAgain(t, e)
    ensures Says(t, SocketConnecting(t, e))
  {
    if e.readable {
      RstSays(t, e.writeOk);
    } else {
      ConnectedSays(t, e);
    }
  }

  lemma ConnectedSays(t: Tcb, e: SocketEvent)
    requires SeqInv(t) && t.state == LISTEN && !AnswersAgain(t, e) && !e.error && !e.readable
    ensures Says(t, Connected(t, e))
  {
    if e.writeOk {
      Add32Zero(t.conf.localStart);
    }
  }

  lemma RefreshSays(t: Tcb, window: u32, e: SocketEvent, moved: bool)
    ensures Says(t, Refresh(t, window, e, moved))
  {
  }

  lemma RemoteClosedSays(t: Tcb, ok: bool)
    requires SeqInv(t) && Open(t.state)
    ensures Says(t, RemoteClosed(t, ok))
  {
    RstSays(t, ok);
  }

  lemma DeliverDownstream(t: Tcb, bytes: seq<byte>, ok: bool)
    requires Downstream(t) && LocalAt(t, 0) && Open(t.state)
    ensures Downstream(Deliver(t, bytes, ok))
  {
    var u := Deliver(t, bytes, ok);
    if ok {
      var o := Out(t.localSeq, t.remoteSeq, false, true, false, false, WindowField(t), bytes);
      assert u.wire == t.wire + [o];
      Snoc(t.wire, o);
      NumberedSnoc(t.wire, o, t.conf.localStart);
    } else {
      assert Payload(t.wire) == t.taken <= t.taken + bytes;
    }
  }

  lemma ReadKeepsWire(t: Tcb, e: SocketEvent)
    requires Downstream(t) && SeqInv(t) && Open(t.state)
    ensures Downstream(ReadSocket(t, e))
  {
    var t1 := t.(time := e.now);
    SaysKeeps(t, t1);
    assert SeqInv(t1);
    match Receive(t.socket, e.recv, Min(SendWindow(t), t.conf.mss))
    case Failed(_) =>
      RstSays(t1, e.writeOk);
      SaysKeeps(t1, WriteRst(t1, e.writeOk));
    case Got(bytes) =>
      RemoteClosedSays(t1, e.writeOk);
      SaysKeeps(t1, RemoteClosed(t1, e.writeOk));
      DeliverDownstream(t1, bytes, e.writeOk);
  }

  lemma ForwardedSays(t: Tcb, e: SocketEvent)
    ensures Says(t, Forwarded(t, e).t)
  {
    ForwardedFrame(t, e);
  }

  lemma CheckSocketKeepsWire(t: Tcb, e: SocketEvent)
    requires Downstream(t) && SeqInv(t) && Tidy(t, FromSocket(e))
    ensures Downstream(CheckSocket(t, e))
  {
    if e.error {
      var t1 := t.(time := e.now);
      RstSays(t1, e.writeOk);
      SaysKeeps(t, t1);
      SaysKeeps(t1, WriteRst(t1, e.writeOk));
    } else if t.state == LISTEN {
      ConnectingSays(t, e);
      SaysKeeps(t, SocketConnecting(t, e));
    } else {
      ForwardedSays(t, e);
      ForwardedKeeps(t, e);
      var d := Forwarded(t, e);
      SaysKeeps(t, d.t);
      var t1 := Acknowledge(d.t, e, d.moved);
      RefreshSays(d.t, ReceiveWindow(d.t, e.after), e, d.moved);
      AcknowledgeKeeps(d.t, e, d.moved);
      SaysKeeps(d.t, t1);
      if Open(t1.state) { ReadKeepsWire(t1, e); }
    }
  }

  lemma FlagsSay(t: Tcb, p: Packet, ok: bool)
    requires SeqInv(t) && !Closed(t.state)
    ensures Says(t, Flags(t, p, ok))
  {
    RstSays(t, ok);
  }

  lemma TouchSays(t: Tcb, p: Packet, now: int)
    ensures Says(t, Touch(t, p, now))
  {
  }

  lemma SegmentSays(t: Tcb, p: Packet, i: TunInput)
    requires SeqInv(t) && SocketInv(t) && !Ungranted(t)
    ensures Says(t, Segment(t, p, i))
  {
    RstSays(t, i.writeOk);
    if !Closed(t.state) {
      var t1 := Touch(t, p, i.now);
      TouchKeeps(t, p, i.now);
      TouchSays(t, p, i.now);
      RstSays(t1, i.writeOk);
      if p.data == [] {
        FlagsSay(t1, p, i.writeOk);
      } else if t.socket >= 0 && t.state != CLOSE_WAIT {
        QueueKeeps(t1, p);
        FlagsSay(Queue(t1, p), p, i.writeOk);
      }
    }
  }

  lemma ConnectSays(t: Tcb, p: Packet, i: TunInput)
    requires SeqInv(t) && t.conf.dest == HTTPS_PORT && !p.urg && Tidy(t, FromTun(p, i))
    ensures Says(t, SendConnect(t, i))
  {
    RstSays(t, i.writeOk);
  }

  lemma TunnelKeepsWire(t: Tcb, p: Packet, i: TunInput)
    requires Downstream(t) && SeqInv(t) && SocketInv(t) && Tidy(t, FromTun(p, i)) && t.conf.dest == HTTPS_PORT && !p.urg
    ensures Downstream(HandlePacket(t, p, i))
  {
    ConnectSays(t, p, i);
    ConnectKeeps(t, p, i);
    ConnectAdvances(t, i);
    var t1 := SendConnect(t, i);
    SaysKeeps(t, t1);
    if t1.connect != Granted {
      QueueSays(t1, p);
      SaysKeeps(t1, Queue(t1, p));
    } else {
      SegmentSays(t1, p, i);
      SaysKeeps(t1, Segment(t1, p, i));
    }
  }

  lemma QueueSays(t: Tcb, p: Packet)
    ensures Says(t, Queue(t, p))
  {
  }

  lemma PacketKeepsWire(t: Tcb, p: Packet, i: TunInput)
    requires Downstream(t) && SeqInv(t) && SocketInv(t) && Tidy(t, FromTun(p, i))
    ensures Downstream(HandlePacket(t, p, i))
  {
    if p.urg {
    } else if t.conf.dest == HTTPS_PORT {
      TunnelKeepsWire(t, p, i);
    } else {
      SegmentSays(t, p, i);
      SaysKeeps(t, Segment(t, p, i));
    }
  }

  lemma SweepSays(t: Tcb, now: int, l: LoadOk, ok: bool)
    requires SeqInv(t)
    ensures Says(t, CheckSession(t, now, l, ok))
  {
    RstSays(t, ok);
  }

  lemma KeepAliveSays(t: Tcb, i: MonitorInput)
    requires SeqInv(t) && Open(t.state)
    ensures Says(t, KeepAlive(t, i))
  {
  }

  lemma MaskSays(t: Tcb, watch: Mask, ok: bool)
    ensures Says(t, SetMask(t, watch, ok))
  {
  }

  lemma MonitorKeepsWire(t: Tcb, i: MonitorInput)
    requires Downstream(t) && SeqInv(t)
    ensures Downstream(Monitor(t, i).t)
  {
    var t1 := if Open(t.state) && SendWindow(t) == 0 then KeepAlive(t, i) else t;
    if Open(t.state) { KeepAliveSays(t, i); }
    SaysKeeps(t, t1);
    MaskSays(t1, Monitor(t, i).t.watch, i.modOk);
    SaysKeeps(t1, SetMask(t1, Monitor(t, i).t.watch, i.modOk));
  }

  lemma StepKeepsWire(t: Tcb, ev: Event)
    requires Downstream(t) && SeqInv(t) && SocketInv(t) && Tidy(t, ev)
    ensures Downstream(Step(t, ev))
  {
    match ev
    case FromTun(p, i) => PacketKeepsWire(t, p, i);
    case FromSocket(e) => CheckSocketKeepsWire(t, e);
    case Sweep(now, load, ok) =>
      SweepSays(t, now, load, ok);
      SaysKeeps(t, CheckSession(t, now, load, ok));
    case Watch(m) => MonitorKeepsWire(t, m);
    case Terminate(ok) =>
      RstSays(t, ok);
      SaysKeeps(t, Step(t, ev));
  }

  // ----- whole runs -----

  lemma {:induction false} RunKeepsWire(t: Tcb, evs: seq<Event>)
    requires Downstream(t) && SeqInv(t) && SocketInv(t) && TidyRun(t, evs)
    ensures Downstream(Run(t, evs))
    decreases |evs|
  {
    if evs != [] {
      StepKeepsWire(t, evs[0]);
      StepAdvances(t, evs[0]);
      StepKeepsSeq(t, evs[0]);
      RunKeepsWire(Step(t, evs[0]), evs[1..]);
    }
  }

  /** Over every run of a new session: the data segments, each under the number of its first byte, spell the bytes
      taken from the socket, all of them as long as the session is not closing; the SYN is written at most once;
      and a FIN has the number behind all of them and no data follows it. */
  lemma AppGetsTheBytes(b: Birth, evs: seq<Event>)
    requires TidyRun(NewSession(b), evs)
    ensures var t := Run(NewSession(b), evs);
            && Downstream(t)
            && forall i, j | 0 <= i < j < |t.wire| && t.wire[i].fin :: t.wire[j].data == [] && !t.wire[j].fin
  {
    NewSessionSeq(b);
    RunKeepsWire(NewSession(b), evs);
    LocalSeqIsWritten(b, evs);
  }

  /** So a segment is where its number says: a SYN at the initial number, data segment i at the bytes of the
      socket's stream that follow those of the segments before it, a FIN behind all of them. */
  lemma {:induction false} SegmentInStream(t: Tcb, i: nat)
    requires Downstream(t) && i < |t.wire|
    ensures var off := |Payload(t.wire[..i])|;
            && WellNumbered(t.wire[i], t.conf.localStart, off)
            && off + |t.wire[i].data| <= |t.taken| && t.wire[i].data == t.taken[off..off + |t.wire[i].data|]
  {
    Prefixes(t.wire, t.conf.localStart, i);
    PartOfPrefix(Payload(t.wire[..i]), t.wire[i].data, Payload(t.wire), t.taken);
  }

  lemma PartOfPrefix(front: seq<byte>, part: seq<byte>, whole: seq<byte>, taken: seq<byte>)
    requires front + part <= whole && |whole| <= |taken| && taken[..|whole|] == whole
    ensures taken[|front|..|front| + |part|] == part
  {
    assert part == (front + part)[|front|..];
    assert front + part == whole[..|front| + |part|] == taken[..|front| + |part|];
  }

  lemma {:induction false} Prefixes(w: seq<Out>, start: u32, i: nat)
    requires Numbered(w, start) && i < |w|
    ensures Payload(w[..i]) + w[i].data <= Payload(w)
    ensures WellNumbered(w[i], start, |Payload(w[..i])|)
    decreases |w|
  {
    var front := w[..|w| - 1];
    assert WellNumbered(w[|w| - 1], start, |Payload(front)|);
    if i < |w| - 1 {
      Prefixes(front, start, i);
      assert front[..i] == w[..i];
    }
  }
}
