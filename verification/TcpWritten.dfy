/** What local_seq counts: exactly what was written to tun, over every run of every session. */
module TcpWritten {
  import opened Serial
  import opened TcpModel
  import opened TcpSafety

  /** The data of the segments written, one after the other. */
  function Payload(w: seq<Out>): seq<byte> {
    if w == [] then [] else Payload(w[..|w| - 1]) + w[|w| - 1].data
  }

  function One(b: bool): nat { if b then 1 else 0 }

  function Syns(w: seq<Out>): nat {
    if w == [] then 0 else Syns(w[..|w| - 1]) + One(w[|w| - 1].syn)
  }

  function Fins(w: seq<Out>): nat {
    if w == [] then 0 else Fins(w[..|w| - 1]) + One(w[|w| - 1].fin)
  }

  /** Sequence numbers used up: one for each SYN, each byte and each FIN. */
  function Written(w: seq<Out>): nat { Syns(w) + |Payload(w)| + Fins(w) }

  function Size(o: Out): nat { One(o.syn) + |o.data| + One(o.fin) }

  /** Whatever follows a FIN uses up no sequence number. */
  predicate FinLast(w: seq<Out>)
    decreases |w|
  {
    w == [] ||
    var front, last := w[..|w| - 1], w[|w| - 1];
    FinLast(front) && (Fins(front) > 0 ==> Size(last) == 0)
  }

  lemma Snoc(w: seq<Out>, o: Out)
    ensures Payload(w + [o]) == Payload(w) + o.data && Syns(w + [o]) == Syns(w) + One(o.syn)
    ensures Fins(w + [o]) == Fins(w) + One(o.fin) && Written(w + [o]) == Written(w) + Size(o)
    ensures FinLast(w + [o]) <==> FinLast(w) && (Fins(w) > 0 ==> Size(o) == 0)
  {
    assert (w + [o])[..|w|] == w;
  }

  // ----- the invariant -----

  /** The states a session is in once its FIN was written; the socket is closed by then. */
  predicate FinDone(t: Tcb) { t.socket == -1 && !NeedsSocket(t.state) }

  predicate WrittenInv(t: Tcb) {
    && t.localSeq == Add32(t.conf.localStart, Written(t.wire))
    && FinLast(t.wire) && (Fins(t.wire) > 0 ==> FinDone(t))
  }

  /** Nothing is written, or one segment, and local_seq moves on by what it uses up. */
  predicate Adds(t: Tcb, u: Tcb) {
    && u.conf == t.conf && (FinDone(t) ==> FinDone(u))
    && if u.wire == t.wire then u.localSeq == t.localSeq
       else
         && u.wire != [] && u.wire == t.wire + [u.wire[|u.wire| - 1]]
         && var o := u.wire[|u.wire| - 1];
            u.localSeq == Add32(t.localSeq, Size(o)) && (FinDone(t) ==> Size(o) == 0) && (o.fin ==> FinDone(u))
  }

  lemma AddsKeeps(t: Tcb, u: Tcb)
    requires WrittenInv(t) && Adds(t, u)
    ensures WrittenInv(u)
  {
    if u.wire != t.wire {
      var o := u.wire[|u.wire| - 1];
      Snoc(t.wire, o);
      NumberMoves(t.conf.localStart, t.localSeq, u.localSeq, Written(t.wire), Size(o));
    }
  }

  lemma NumberMoves(start: u32, before: u32, after: u32, written: nat, n: nat)
    requires before == Add32(start, written) && after == Add32(before, n)
    ensures after == Add32(start, written + n)
  {
    Add32Add(start, written, n);
  }

  // ----- each part of a step -----

  lemma RstAdds(t: Tcb, ok: bool)
    requires SocketInv(t)
    ensures Adds(t, WriteRst(t, ok))
  {
    Add32Zero(t.localSeq);
  }

  lemma ConnectingAdds(t: Tcb, e: SocketEvent)
    requires SocketInv(t) && t.state == LISTEN
    ensures Adds(t, SocketConnecting(t, e))
  {
    RstAdds(t, e.writeOk);
  }

  lemma RefreshAdds(t: Tcb, window: u32, e: SocketEvent, moved: bool)
    ensures Adds(t, Refresh(t, window, e, moved))
  {
    Add32Zero(t.localSeq);
  }

  lemma RemoteClosedAdds(t: Tcb, ok: bool)
    requires SocketInv(t) && Open(t.state)
    ensures Adds(t, RemoteClosed(t, ok))
  {
    RstAdds(t, ok);
  }

  lemma ReadAdds(t: Tcb, e: SocketEvent)
    requires SocketInv(t) && Open(t.state)
    ensures Adds(t, ReadSocket(t, e))
  {
    var t1 := t.(time := e.now);
    RstAdds(t1, e.writeOk);
    RemoteClosedAdds(t1, e.writeOk);
  }

  lemma ForwardedAdds(t: Tcb, e: SocketEvent)
    ensures Adds(t, Forwarded(t, e).t)
  {
    ForwardedFrame(t, e);
  }

  lemma CheckSocketWritten(t: Tcb, e: SocketEvent)
    requires WrittenInv(t) && SocketInv(t)
    ensures WrittenInv(CheckSocket(t, e))
  {
    if e.error {
      RstAdds(t.(time := e.now), e.writeOk);
      AddsKeeps(t, CheckSocket(t, e));
    } else if t.state == LISTEN {
      ConnectingAdds(t, e);
      AddsKeeps(t, CheckSocket(t, e));
    } else {
      ForwardedAdds(t, e);
      ForwardedFrame(t, e);
      if t.socket < 0 { NoSocketNoForward(t, e); }
      var d := Forwarded(t, e);
      AddsKeeps(t, d.t);
      RefreshAdds(d.t, ReceiveWindow(d.t, e.after), e, d.moved);
      AcknowledgeAdvances(d.t, e, d.moved);
      var t1 := Acknowledge(d.t, e, d.moved);
      AddsKeeps(d.t, t1);
      if Open(t1.state) {
        ReadAdds(t1, e);
        AddsKeeps(t1, ReadSocket(t1, e));
      }
    }
  }

  lemma FlagsAdd(t: Tcb, p: Packet, ok: bool)
    requires SocketInv(t) && !Closed(t.state)
    ensures Adds(t, Flags(t, p, ok))
  {
    Add32Zero(t.localSeq);
  }

  lemma SegmentAdds(t: Tcb, p: Packet, i: TunInput)
    requires SocketInv(t)
    ensures Adds(t, Segment(t, p, i))
  {
    if Closed(t.state) {
      RstAdds(t, i.writeOk);
    } else {
      var t1 := Touch(t, p, i.now);
      TouchedAdds(t1, p, i.writeOk);
      assert t1.wire == t.wire && t1.localSeq == t.localSeq && t1.conf == t.conf;
    }
  }

  lemma TouchedAdds(t: Tcb, p: Packet, ok: bool)
    requires SocketInv(t) && !Closed(t.state)
    ensures Adds(t, WriteRst(t, ok)) && Adds(t, Flags(t, p, ok)) && Adds(t, Flags(Queue(t, p), p, ok))
  {
    RstAdds(t, ok);
    FlagsAdd(t, p, ok);
    FlagsAdd(Queue(t, p), p, ok);
  }

  lemma ConnectAdds(t: Tcb, i: TunInput)
    requires SocketInv(t)
    ensures Adds(t, SendConnect(t, i))
  {
    RstAdds(t, i.writeOk);
  }

  lemma PacketWritten(t: Tcb, p: Packet, i: TunInput)
    requires WrittenInv(t) && SocketInv(t)
    ensures WrittenInv(HandlePacket(t, p, i))
  {
    if p.urg {
    } else if t.conf.dest == HTTPS_PORT {
      var t1 := SendConnect(t, i);
      ConnectAdds(t, i);
      ConnectAdvances(t, i);
      AddsKeeps(t, t1);
      TunnelAdds(t1, p, i);
      AddsKeeps(t1, HandlePacket(t, p, i));
    } else {
      SegmentAdds(t, p, i);
      AddsKeeps(t, Segment(t, p, i));
    }
  }

  lemma TunnelAdds(t: Tcb, p: Packet, i: TunInput)
    requires SocketInv(t)
    ensures Adds(t, if t.connect != Granted then Queue(t, p) else Segment(t, p, i))
  {
    SegmentAdds(t, p, i);
  }

  lemma SweepAdds(t: Tcb, now: int, l: LoadOk, ok: bool)
    requires SocketInv(t)
    ensures Adds(t, CheckSession(t, now, l, ok))
  {
    Add32Zero(t.localSeq);
  }

  lemma MonitorAdds(t: Tcb, i: MonitorInput)
    requires SocketInv(t) && t.socket >= 0
    ensures Adds(t, Monitor(t, i).t)
  {
    Add32Zero(t.localSeq);
  }

  lemma StepKeepsWritten(t: Tcb, ev: Event)
    requires WrittenInv(t) && SocketInv(t)
    ensures WrittenInv(Step(t, ev))
  {
    match ev
    case FromTun(p, i) => PacketWritten(t, p, i);
    case FromSocket(e) => CheckSocketWritten(t, e);
    case Sweep(now, load, ok) =>
      SweepAdds(t, now, load, ok);
      AddsKeeps(t, Step(t, ev));
    case Watch(m) =>
      if t.socket >= 0 { MonitorAdds(t, m); }
      AddsKeeps(t, Step(t, ev));
    case Terminate(ok) =>
      RstAdds(t, ok);
      AddsKeeps(t, Step(t, ev));
  }

  lemma {:induction false} RunKeepsWritten(t: Tcb, evs: seq<Event>)
    requires WrittenInv(t) && SocketInv(t)
    ensures WrittenInv(Run(t, evs))
    decreases |evs|
  {
    if evs != [] {
      StepKeepsWritten(t, evs[0]);
      StepAdvances(t, evs[0]);
      RunKeepsWritten(Step(t, evs[0]), evs[1..]);
    }
  }

  // ----- what it says -----

  lemma {:induction false} AfterFin(w: seq<Out>, i: nat, j: nat)
    requires FinLast(w) && i < j < |w| && w[i].fin
    ensures Size(w[j]) == 0
    decreases |w|
  {
    var front := w[..|w| - 1];
    if j < |front| {
      AfterFin(front, i, j);
    } else {
      FinCounted(front, i);
    }
  }

  lemma {:induction false} FinCounted(w: seq<Out>, i: nat)
    requires i < |w| && w[i].fin
    ensures Fins(w) > 0
    decreases |w|
  {
    if i < |w| - 1 { FinCounted(w[..|w| - 1], i); }
  }

  lemma {:induction false} OneFin(w: seq<Out>)
    requires FinLast(w)
    ensures Fins(w) <= 1
    decreases |w|
  {
    if w != [] { OneFin(w[..|w| - 1]); }
  }

  /** Over every run of a new session, whatever its port and its events: local_seq is the initial number plus what
      was written, a FIN is written at most once, and no SYN, no data and no FIN follows it. */
  lemma LocalSeqIsWritten(b: Birth, evs: seq<Event>)
    ensures var t := Run(NewSession(b), evs);
            && t.localSeq == Add32(b.isn, Written(t.wire)) && Fins(t.wire) <= 1
            && forall i, j | 0 <= i < j < |t.wire| && t.wire[i].fin ::
                 !t.wire[j].syn && t.wire[j].data == [] && !t.wire[j].fin
  {
    var t0 := NewSession(b);
    Add32Zero(b.isn);
    RunKeepsWritten(t0, evs);
    RunKeepsConf(t0, evs);
    var t := Run(t0, evs);
    OneFin(t.wire);
    forall i, j | 0 <= i < j < |t.wire| && t.wire[i].fin ensures Size(t.wire[j]) == 0 {
      AfterFin(t.wire, i, j);
    }
  }
}
