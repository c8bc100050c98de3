/** Sequence number conservation: what remote_seq and local_seq count, over every run. */
module TcpSequence {
  import opened Serial
  import opened TcpModel
  import opened TcpSafety
  import opened TcpWritten

  /** remote_seq stands n past the bytes handed upstream, the SYN counted. */
  predicate RemoteAt(t: Tcb, n: int) {
    t.remoteSeq == Add32(t.conf.remoteStart, 1 + |t.upstream| + n)
  }

  /** local_seq stands n past the bytes received from the socket, the SYN counted. */
  predicate LocalAt(t: Tcb, n: int) {
    t.localSeq == Add32(t.conf.localStart, 1 + |t.taken| + n)
  }

  predicate CountersExact(t: Tcb) { t.sent == |t.upstream| && t.received == |t.taken| }

  /** A tunnelled session (destination port 443) before the proxy has granted its CONNECT. */
  predicate Ungranted(t: Tcb) { t.conf.dest == HTTPS_PORT && t.connect != Granted }

  /** Waiting in LISTEN for the answer to CONNECT, with the SYN already answered. */
  predicate Waiting(t: Tcb) { t.state == LISTEN && t.connect == Requested }

  predicate SeqInv(t: Tcb) {
    && (t.conf.dest != HTTPS_PORT ==> t.connect != Requested)
    && (Ungranted(t) ==> t.state == LISTEN || t.state == SYN_RECV || Closed(t.state))
    && (Ungranted(t) ==> t.taken == [])
    && (!Closed(t.state) || t.socket >= 0 ==> CountersExact(t))
    && match t.state
       case LISTEN =>
         if Waiting(t) then RemoteAt(t, 0) && LocalAt(t, 0)
         else RemoteAt(t, -1) && LocalAt(t, -1) && t.upstream == [] && t.taken == []
       case SYN_RECV => RemoteAt(t, 0) && LocalAt(t, 0)
       case ESTABLISHED => RemoteAt(t, 0) && LocalAt(t, 0)
       case CLOSE_WAIT => RemoteAt(t, if t.forward == [] then 1 else 0) && LocalAt(t, 0)
       case FIN_WAIT1 => t.forward == [] && RemoteAt(t, 0) && LocalAt(t, 1)
       case LAST_ACK => t.forward == [] && RemoteAt(t, 1) && LocalAt(t, 1)
       case _ => RemoteClosedAt(t)
  }

  /** After the end: the SYN may never have been counted, and at most one more after the last byte. */
  predicate RemoteClosedAt(t: Tcb) {
    RemoteAt(t, -1) || RemoteAt(t, 0) || (RemoteAt(t, 1) && (t.forward == [] || t.conf.dest == HTTPS_PORT))
  }

  /** What a tunnelled session needs of its events, and no other session does: the CONNECT line goes out only after
      the SYN was answered, or, from a closing session, where the SYN and nothing else was counted in both directions;
      and the socket does not report "connected" a second time while the proxy's answer is awaited. */
  predicate Tidy(t: Tcb, ev: Event) {
    t.conf.dest == HTTPS_PORT ==>
      match ev
      case FromTun(p, i) => SendsConnect(t, p, i) ==> t.state == SYN_RECV || JustAnswered(t)
      case FromSocket(e) => !AnswersAgain(t, e)
      case _ => true
  }

  predicate JustAnswered(t: Tcb) { Closed(t.state) && RemoteAt(t, 0) && LocalAt(t, 0) }

  predicate SendsConnect(t: Tcb, p: Packet, i: TunInput) {
    !p.urg && t.connect == NotSent && i.named && SendOn(t.socket, i.connectSent) >= 0
  }

  predicate AnswersAgain(t: Tcb, e: SocketEvent) { Waiting(t) && !e.error && !e.readable && e.writeOk }

  predicate TidyRun(t: Tcb, evs: seq<Event>)
    decreases |evs|
  {
    evs == [] || (Tidy(t, evs[0]) && TidyRun(Step(t, evs[0]), evs[1..]))
  }

  /** Every run of any other session is tidy. */
  lemma {:induction false} OtherPortsAreTidy(t: Tcb, evs: seq<Event>)
    requires SocketInv(t) && t.conf.dest != HTTPS_PORT
    ensures TidyRun(t, evs)
    decreases |evs|
  {
    if evs != [] {
      StepAdvances(t, evs[0]);
      StepKeepsConf(t, evs[0]);
      OtherPortsAreTidy(Step(t, evs[0]), evs[1..]);
    }
  }

  // ----- the send loop -----

  predicate Moved(t: Tcb, u: Tcb, n: nat) {
    && u.remoteSeq == Add32(t.remoteSeq, n)
    && |u.upstream| == |t.upstream| + n
    && u.sent == t.sent + n
  }

  lemma HandedMoves(t: Tcb, room: int, n: nat)
    requires HeadReady(t, room) && n <= t.forward[0].len - t.forward[0].sent
    ensures Moved(t, Handed(t, n), n)
  {
    Add32Add(t.forward[0].seqNo, t.forward[0].sent, n);
  }

  lemma MovedTrans(t: Tcb, u: Tcb, v: Tcb, m: nat, n: nat)
    requires Moved(t, u, m) && Moved(u, v, n)
    ensures Moved(t, v, m + n)
  {
    Add32Add(t.remoteSeq, m, n);
  }

  lemma {:induction false} DrainMoves(t: Tcb, room: int, sends: nat -> ssize, k: nat, moved: bool) returns (n: nat)
    ensures var d := Drain(t, room, sends, k, moved);
            Moved(t, d.t, n) && (d.moved ==> moved || t.forward != []) && (!d.moved ==> d.t == t)
    ensures moved ==> Drain(t, room, sends, k, moved).moved
    decreases |t.forward|
  {
    n := 0;
    if HeadReady(t, room) {
      var len: nat := t.forward[0].len - t.forward[0].sent;
      n := Clip(sends(k), len);
      HandedMoves(t, room, n);
      if n == len {
        var t1 := Handed(t, n);
        var m := DrainMoves(t1, room - n, sends, k + 1, true);
        MovedTrans(t, t1, Drain(t1, room - n, sends, k + 1, true).t, n, m);
        n := n + m;
      }
    }
  }

  /** What the send loop does to the counters; it only moves if there was something queued. */
  lemma ForwardedMoves(t: Tcb, e: SocketEvent) returns (n: nat)
    ensures var d := Forwarded(t, e);
            Moved(t, d.t, n) && (d.moved ==> t.forward != []) && (!d.moved ==> d.t == t)
  {
    n := 0;
    if e.writable {
      n := DrainMoves(t, ReceiveBuffer(t.socket, e.before), e.sends, 0, false);
    }
  }

  // ----- each part of a step -----

  lemma StepRemote(t: Tcb, n: int)
    requires RemoteAt(t, n)
    ensures Add32(t.remoteSeq, 1) == Add32(t.conf.remoteStart, 1 + |t.upstream| + (n + 1))
  {
    Add32Add(t.conf.remoteStart, 1 + |t.upstream| + n, 1);
  }

  lemma StepLocal(t: Tcb, n: int, m: nat)
    requires LocalAt(t, n)
    ensures Add32(t.localSeq, m) == Add32(t.conf.localStart, 1 + |t.taken| + (n + m))
  {
    Add32Add(t.conf.localStart, 1 + |t.taken| + n, m);
  }

  lemma RstKeeps(t: Tcb, ok: bool)
    requires SeqInv(t)
    ensures SeqInv(WriteRst(t, ok))
  {
    if t.state == LISTEN { StepRemote(t, if Waiting(t) then 0 else -1); }
  }

  lemma ConnectingKeeps(t: Tcb, e: SocketEvent)
    requires SeqInv(t) && t.state == LISTEN && !e.error && !AnswersAgain(t, e)
    ensures SeqInv(SocketConnecting(t, e))
  {
    if Waiting(t) {
      StepRemote(t, 0);
    } else {
      StepRemote(t, -1);
      StepLocal(t, -1, 1);
    }
  }

  /** The queue part of the invariant while the loop has run and the acknowledgement has not been sent. */
  predicate BetweenLoopAndAck(t: Tcb, moved: bool) {
    if moved && t.state == CLOSE_WAIT
    then SeqInv(t.(state := ESTABLISHED))
    else SeqInv(t)
  }

  lemma ForwardedKeeps(t: Tcb, e: SocketEvent)
    requires SeqInv(t) && t.state != LISTEN && Tidy(t, FromSocket(e)) && !e.error
    ensures var d := Forwarded(t, e); BetweenLoopAndAck(d.t, d.moved) && OnlyQueue(t, d.t)
  {
    ForwardedFrame(t, e);
    var n := ForwardedMoves(t, e);
    var u := Forwarded(t, e).t;
    if Forwarded(t, e).moved {
      var k := if RemoteAt(t, 0) then 0 else if RemoteAt(t, -1) then -1 else 1;
      RemoteMoves(t, u, n, k);
    }
  }

  lemma RemoteMoves(t: Tcb, u: Tcb, n: nat, k: int)
    requires RemoteAt(t, k) && Moved(t, u, n) && u.conf == t.conf
    ensures RemoteAt(u, k)
  {
    Add32Add(t.conf.remoteStart, 1 + |t.upstream| + k, n);
  }

  lemma AcknowledgeKeeps(t: Tcb, e: SocketEvent, moved: bool)
    requires BetweenLoopAndAck(t, moved)
    ensures SeqInv(Acknowledge(t, e, moved))
  {
    RefreshKeeps(t, ReceiveWindow(t, e.after), e, moved);
  }

  lemma RefreshKeeps(t: Tcb, window: u32, e: SocketEvent, moved: bool)
    requires BetweenLoopAndAck(t, moved)
    ensures SeqInv(Refresh(t, window, e, moved))
  {
    var t1 := t.(recvWindow := window);
    if moved && t.forward == [] && t.state == CLOSE_WAIT {
      StepRemote(t, 0);
      AckKeeps(t1.(remoteSeq := Add32(t.remoteSeq, 1)), e);
    } else {
      assert SeqInv(t1);
      AckKeeps(t1, e);
    }
  }

  lemma AckKeeps(t: Tcb, e: SocketEvent)
    requires SeqInv(t)
    ensures var t1 := WriteAck(t, e.ackOk); SeqInv(t1) && SeqInv(t1.(time := e.now))
  {
  }

  lemma ReadKeeps(t: Tcb, e: SocketEvent)
    requires SeqInv(t) && Open(t.state)
    ensures SeqInv(ReadSocket(t, e))
  {
    var t1 := t.(time := e.now);
    RstKeeps(t1, e.writeOk);
    match Receive(t.socket, e.recv, Min(SendWindow(t), t.conf.mss))
    case Failed(_) =>
    case Got(bytes) =>
      RemoteClosedKeeps(t1, e.writeOk);
      DeliverKeeps(t1, bytes, e.writeOk);
  }

  lemma RemoteClosedKeeps(t: Tcb, ok: bool)
    requires SeqInv(t) && Open(t.state)
    ensures SeqInv(RemoteClosed(t, ok))
  {
    RstKeeps(t, ok);
    StepLocal(t, 0, 1);
  }

  lemma DeliverKeeps(t: Tcb, bytes: seq<byte>, ok: bool)
    requires SeqInv(t) && Open(t.state)
    ensures SeqInv(Deliver(t, bytes, ok))
  {
    StepLocal(t, 0, |bytes|);
  }

  lemma CheckSocketKeeps(t: Tcb, e: SocketEvent)
    requires SeqInv(t) && Tidy(t, FromSocket(e))
    ensures SeqInv(CheckSocket(t, e))
  {
    if e.error {
      RstKeeps(t.(time := e.now), e.writeOk);
    } else if t.state == LISTEN {
      ConnectingKeeps(t, e);
    } else {
      ForwardedKeeps(t, e);
      var d := Forwarded(t, e);
      AcknowledgeKeeps(d.t, e, d.moved);
      var t1 := Acknowledge(d.t, e, d.moved);
      if Open(t1.state) { ReadKeeps(t1, e); }
    }
  }

  lemma FinKeeps(t: Tcb, ok: bool)
    requires SeqInv(t)
    ensures SeqInv(Fin(t, ok))
  {
    if RemoteAt(t, 0) { StepRemote(t, 0); }
  }

  lemma FlagsKeep(t: Tcb, p: Packet, ok: bool)
    requires SeqInv(t) && !Closed(t.state) && !Ungranted(t)
    ensures SeqInv(Flags(t, p, ok))
  {
    FinKeeps(t, ok);
    AckedKeeps(t, p);
    OtherAckKeeps(t, p, ok);
  }

  lemma AckedKeeps(t: Tcb, p: Packet)
    requires SeqInv(t) && !Closed(t.state) && !Ungranted(t)
    ensures SeqInv(Acked(t, p))
  {
  }

  lemma OtherAckKeeps(t: Tcb, p: Packet, ok: bool)
    requires SeqInv(t)
    ensures SeqInv(OtherAck(t, p, ok))
  {
    RstKeeps(t, ok);
  }

  lemma QueueKeeps(t: Tcb, p: Packet)
    requires SeqInv(t) && (t.state == LISTEN || t.state == SYN_RECV || t.state == ESTABLISHED || Ungranted(t))
    ensures SeqInv(Queue(t, p))
  {
  }

  lemma ConnectKeeps(t: Tcb, p: Packet, i: TunInput)
    requires SeqInv(t) && t.conf.dest == HTTPS_PORT && !p.urg && Tidy(t, FromTun(p, i))
    ensures SeqInv(SendConnect(t, i))
  {
    RstKeeps(t, i.writeOk);
  }

  lemma SegmentKeeps(t: Tcb, p: Packet, i: TunInput)
    requires SeqInv(t) && SocketInv(t) && !Ungranted(t)
    ensures SeqInv(Segment(t, p, i))
  {
    if Closed(t.state) {
      RstKeeps(t, i.writeOk);
    } else {
      var t1 := Touch(t, p, i.now);
      TouchKeeps(t, p, i.now);
      if p.data != [] && (t.socket < 0 || t.state == CLOSE_WAIT) {
        RstKeeps(t1, i.writeOk);
      } else {
        QueuedFlagsKeep(t1, p, i.writeOk);
      }
    }
  }

  lemma TouchKeeps(t: Tcb, p: Packet, now: int)
    requires SeqInv(t)
    ensures SeqInv(Touch(t, p, now))
  {
  }

  lemma QueuedFlagsKeep(t: Tcb, p: Packet, ok: bool)
    requires SeqInv(t) && SocketInv(t) && !Closed(t.state) && !Ungranted(t)
    requires p.data == [] || (t.socket >= 0 && t.state != CLOSE_WAIT)
    ensures SeqInv(Flags(if p.data != [] then Queue(t, p) else t, p, ok))
  {
    if p.data == [] {
      FlagsKeep(t, p, ok);
    } else {
      QueueKeeps(t, p);
      FlagsKeep(Queue(t, p), p, ok);
    }
  }

  lemma PacketKeeps(t: Tcb, p: Packet, i: TunInput)
    requires SeqInv(t) && SocketInv(t) && Tidy(t, FromTun(p, i))
    ensures SeqInv(HandlePacket(t, p, i))
  {
    if !p.urg {
      if t.conf.dest == HTTPS_PORT {
        ConnectKeeps(t, p, i);
        ConnectAdvances(t, i);
        var t1 := SendConnect(t, i);
        if t1.connect != Granted { QueueKeeps(t1, p); } else { SegmentKeeps(t1, p, i); }
      } else {
        SegmentKeeps(t, p, i);
      }
    }
  }

  lemma SweepKeeps(t: Tcb, now: int, l: LoadOk, ok: bool)
    requires SeqInv(t) && SocketInv(t)
    ensures SeqInv(CheckSession(t, now, l, ok))
  {
    RstKeeps(t, ok);
    var t1 := Expire(t, now, l, ok);
    assert SeqInv(t1) && SocketInv(t1);
    FinishKeeps(t1, now);
  }

  lemma FinishKeeps(t: Tcb, now: int)
    requires SeqInv(t) && SocketInv(t)
    ensures SeqInv(Finish(t, now))
  {
  }

  lemma MonitorKeeps(t: Tcb, i: MonitorInput)
    requires SeqInv(t)
    ensures SeqInv(Monitor(t, i).t)
  {
    if Open(t.state) { KeepAliveKeeps(t, i); }
    var t1 := if Open(t.state) && SendWindow(t) == 0 then KeepAlive(t, i) else t;
    MaskKeeps(t1, Monitor(t, i).t.watch, i.modOk);
  }

  lemma KeepAliveKeeps(t: Tcb, i: MonitorInput)
    requires SeqInv(t) && Open(t.state)
    ensures SeqInv(KeepAlive(t, i))
  {
  }

  lemma MaskKeeps(t: Tcb, watch: Mask, ok: bool)
    requires SeqInv(t)
    ensures SeqInv(SetMask(t, watch, ok))
  {
  }

  lemma StepKeepsSeq(t: Tcb, ev: Event)
    requires SeqInv(t) && SocketInv(t) && Tidy(t, ev)
    ensures SeqInv(Step(t, ev))
  {
    match ev
    case FromTun(p, i) => PacketKeeps(t, p, i);
    case FromSocket(e) => CheckSocketKeeps(t, e);
    case Sweep(now, load, ok) => SweepKeeps(t, now, load, ok);
    case Watch(m) => MonitorKeeps(t, m);
    case Terminate(ok) => RstKeeps(t, ok);
  }

  lemma {:induction false} RunKeepsSeq(t: Tcb, evs: seq<Event>)
    requires SeqInv(t) && SocketInv(t) && TidyRun(t, evs)
    ensures SeqInv(Run(t, evs)) && SocketInv(Run(t, evs))
    decreases |evs|
  {
    if evs != [] {
      StepAdvances(t, evs[0]);
      StepKeepsSeq(t, evs[0]);
      RunKeepsSeq(Step(t, evs[0]), evs[1..]);
    }
  }

  /** Bytes sent and received, plus one for each SYN and each FIN, are the distances from the initial
      sequence numbers. */
  predicate Balanced(t: Tcb) {
    var remote := Add32(t.remoteSeq, 0 - t.conf.remoteStart);
    var local := Add32(t.localSeq, 0 - t.conf.localStart);
    match t.state
    case LISTEN =>
      if Waiting(t) then remote == Wrap32(1 + t.sent) && local == Wrap32(1 + t.received)
      else remote == 0 && local == 0
    case SYN_RECV => remote == Wrap32(1 + t.sent) && local == Wrap32(1 + t.received)
    case ESTABLISHED => remote == Wrap32(1 + t.sent) && local == Wrap32(1 + t.received)
    case CLOSE_WAIT =>
      remote == Wrap32(1 + t.sent + if t.forward == [] then 1 else 0) && local == Wrap32(1 + t.received)
    case FIN_WAIT1 => t.forward == [] && remote == Wrap32(1 + t.sent) && local == Wrap32(2 + t.received)
    case LAST_ACK => t.forward == [] && remote == Wrap32(2 + t.sent) && local == Wrap32(2 + t.received)
    // the counters are zeroed here; what is left is that at most one FIN was ever counted
    case _ => remote in {Wrap32(|t.upstream|), Wrap32(1 + |t.upstream|), Wrap32(2 + |t.upstream|)}
  }

  lemma InvIsBalanced(t: Tcb)
    requires SeqInv(t)
    ensures Balanced(t)
  {
    match t.state
    case LISTEN => var n := if Waiting(t) then 0 else -1; RemoteDistance(t, n); LocalDistance(t, n);
    case SYN_RECV => RemoteDistance(t, 0); LocalDistance(t, 0);
    case ESTABLISHED => RemoteDistance(t, 0); LocalDistance(t, 0);
    case CLOSE_WAIT => RemoteDistance(t, if t.forward == [] then 1 else 0); LocalDistance(t, 0);
    case FIN_WAIT1 => RemoteDistance(t, 0); LocalDistance(t, 1);
    case LAST_ACK => RemoteDistance(t, 1); LocalDistance(t, 1);
    case _ =>
      if RemoteAt(t, 0) { RemoteDistance(t, 0); }
      else if RemoteAt(t, 1) { RemoteDistance(t, 1); }
      else { RemoteDistance(t, -1); }
  }

  lemma RemoteDistance(t: Tcb, n: int)
    requires RemoteAt(t, n) && n >= -1
    ensures Add32(t.remoteSeq, 0 - t.conf.remoteStart) == Wrap32(1 + |t.upstream| + n)
  {
    Distance(t.conf.remoteStart, 1 + |t.upstream| + n);
  }

  lemma LocalDistance(t: Tcb, n: int)
    requires LocalAt(t, n) && n >= -1
    ensures Add32(t.localSeq, 0 - t.conf.localStart) == Wrap32(1 + |t.taken| + n)
  {
    Distance(t.conf.localStart, 1 + |t.taken| + n);
  }

  lemma Distance(start: u32, n: nat)
    ensures Add32(Add32(start, n), 0 - start) == Wrap32(n)
  {
  }

  lemma NewSessionSeq(b: Birth)
    ensures SeqInv(NewSession(b)) && SocketInv(NewSession(b))
  {
  }

  /** Conservation over every run of a new session, whatever its port: each SYN and each FIN is counted at
      most once, in either direction and in every state. */
  lemma Conservation(b: Birth, evs: seq<Event>)
    requires TidyRun(NewSession(b), evs)
    ensures var t := Run(NewSession(b), evs);
            && Balanced(t)
            && Add32(t.localSeq, 0 - t.conf.localStart) == Wrap32(Written(t.wire)) && Fins(t.wire) <= 1
  {
    NewSessionSeq(b);
    RunKeepsSeq(NewSession(b), evs);
    InvIsBalanced(Run(NewSession(b), evs));
    LocalSeqIsWritten(b, evs);
    RunKeepsConf(NewSession(b), evs);
    Distance(b.isn, Written(Run(NewSession(b), evs).wire));
  }

  // ----- how far the condition on tunnelled sessions is needed -----

  /** In every state a step keeps the count exactly if it is tidy: a second "connected" counts the SYN twice, and a
      CONNECT that goes out before the first one never counts it. */
  lemma TidyIsNeeded(t: Tcb, ev: Event)
    requires SeqInv(t) && SocketInv(t)
    ensures Balanced(Step(t, ev)) <==> Tidy(t, ev)
  {
    if Tidy(t, ev) {
      StepKeepsSeq(t, ev);
      InvIsBalanced(Step(t, ev));
    } else if ev.FromSocket? {
      CountsTwice(t, ev.e);
    } else {
      ConnectsEarly(t, ev.p, ev.i);
    }
  }

  /** The session is balanced after every event. */
  predicate BalancedRun(t: Tcb, evs: seq<Event>)
    decreases |evs|
  {
    evs == [] || (Balanced(Step(t, evs[0])) && BalancedRun(Step(t, evs[0]), evs[1..]))
  }

  /** So a run of a new session is balanced all the way exactly if it is tidy. */
  lemma BalancedIffTidy(b: Birth, evs: seq<Event>)
    ensures BalancedRun(NewSession(b), evs) <==> TidyRun(NewSession(b), evs)
  {
    NewSessionSeq(b);
    BalancedRunIffTidy(NewSession(b), evs);
  }

  lemma {:induction false} BalancedRunIffTidy(t: Tcb, evs: seq<Event>)
    requires SeqInv(t) && SocketInv(t)
    ensures BalancedRun(t, evs) <==> TidyRun(t, evs)
    decreases |evs|
  {
    if evs != [] {
      TidyIsNeeded(t, evs[0]);
      if Tidy(t, evs[0]) {
        StepAdvances(t, evs[0]);
        StepKeepsSeq(t, evs[0]);
        BalancedRunIffTidy(Step(t, evs[0]), evs[1..]);
      }
    }
  }

  lemma CountsTwice(t: Tcb, e: SocketEvent)
    requires SeqInv(t) && AnswersAgain(t, e)
    ensures !Balanced(CheckSocket(t, e))
  {
    AfterAnswer(t, e);
    StepRemote(t, 0);
    OneTooMany(Connected(t, e), |t.upstream|);
  }

  lemma OneTooMany(t: Tcb, n: nat)
    requires t.state == SYN_RECV && t.sent == n && t.remoteSeq == Add32(t.conf.remoteStart, 1 + n + 1)
    ensures !Balanced(t)
  {
    Distance(t.conf.remoteStart, 1 + n + 1);
    NextWraps(1 + n);
  }

  lemma NextWraps(n: nat)
    ensures Wrap32(n) != Wrap32(n + 1)
  {
  }

  lemma ConnectsEarly(t: Tcb, p: Packet, i: TunInput)
    requires SeqInv(t) && SocketInv(t) && !Tidy(t, FromTun(p, i))
    ensures !Balanced(HandlePacket(t, p, i))
  {
    if t.state == LISTEN {
      RemoteDistance(t, -1);
    } else {
      DistanceIs(t.conf.remoteStart, t.remoteSeq, 1 + |t.upstream|);
      DistanceIs(t.conf.localStart, t.localSeq, 1 + |t.taken|);
    }
  }

  lemma DistanceIs(start: u32, at: u32, n: nat)
    ensures Add32(at, 0 - start) == Wrap32(n) <==> at == Add32(start, n)
  {
    Distance(start, n);
    Add32Add(at, 0 - start, start);
    Add32Add(start, 0 - start, start);
  }

  /** One run that is not tidy: SYN, socket connected, CONNECT sent, socket reported without data once more.
      The SYN is counted twice, and the first byte of the app can no longer be handed over. */
  lemma SynCountedTwice(b: Birth, hello: Packet, e: SocketEvent, i: TunInput)
    requires b.dest == HTTPS_PORT && b.p.data == [] && i.named && i.connectSent >= 0
    requires !e.error && !e.readable && e.writeOk && !hello.urg && hello.seqNo == Add32(b.p.seqNo, 1)
    ensures var t := Run(NewSession(b), [FromSocket(e), FromTun(hello, i), FromSocket(e)]);
            && t.remoteSeq == Add32(b.p.seqNo, 2) && t.upstream == []
            && Add32(t.localSeq, 0 - b.isn) == 2 && t.taken == []
            && forall room: int :: !HeadReady(t, room)
  {
    var t0 := NewSession(b);
    var t1 := Connected(t0, e);
    AfterAnswer(t0, e);
    var t2 := Queue(SendConnect(t1, i), hello);
    AfterConnect(t1, hello, i);
    var t3 := Connected(t2, e);
    AfterAnswer(t2, e);
    ThreeSteps(t0, FromSocket(e), FromTun(hello, i), FromSocket(e));
    TwoOn(t3, b.p.seqNo, b.isn);
  }

  lemma AfterAnswer(t: Tcb, e: SocketEvent)
    requires t.state == LISTEN && !e.error && !e.readable && e.writeOk
    ensures CheckSocket(t, e) == Connected(t, e)
    ensures var u := Connected(t, e);
            && u.remoteSeq == Add32(t.remoteSeq, 1) && u.localSeq == Add32(t.localSeq, 1)
            && u.forward == t.forward && u.connect == t.connect && u.socket == t.socket && u.conf == t.conf
            && u.upstream == t.upstream && u.taken == t.taken && u.state == SYN_RECV
  {
  }

  lemma TwoOn(t: Tcb, start: u32, isn: u32)
    requires t.remoteSeq == Add32(Add32(start, 1), 1) && t.localSeq == Add32(Add32(isn, 1), 1)
    requires t.forward != [] && t.forward[0].seqNo == Add32(start, 1) && t.forward[0].sent == 0
    ensures t.remoteSeq == Add32(start, 2) && Add32(t.localSeq, 0 - isn) == 2
    ensures forall room: int :: !HeadReady(t, room)
  {
    Add32Add(start, 1, 1);
    Add32Add(isn, 1, 1);
    Distance(isn, 2);
    Add32Add(start, 1, 0);
    if Add32(start, 1) == Add32(start, 2) { Add32Injective(start, 1, 2); }
  }

  lemma AfterConnect(t: Tcb, hello: Packet, i: TunInput)
    requires t.connect == NotSent && t.socket >= 0 && t.forward == [] && hello.seqNo == t.remoteSeq
    requires t.conf.dest == HTTPS_PORT && i.named && i.connectSent >= 0 && !hello.urg
    ensures HandlePacket(t, hello, i) == Queue(SendConnect(t, i), hello)
    ensures HandlePacket(t, hello, i) == t.(connect := Requested, state := LISTEN, forward := [PieceOf(hello)])
  {
  }

  lemma ThreeSteps(t: Tcb, x: Event, y: Event, z: Event)
    ensures Run(t, [x, y, z]) == Step(Step(Step(t, x), y), z)
  {
    assert [x, y, z][1..] == [y, z] && [y, z][1..] == [z] && [z][1..] == [];
    assert Run(Step(t, x), [y, z]) == Run(Step(Step(t, x), y), [z]);
    assert Run(Step(Step(t, x), y), [z]) == Run(Step(Step(Step(t, x), y), z), []);
  }
}
