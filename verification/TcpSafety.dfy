/** What every run of a TCP session keeps: who owns the socket, and the order of states. */
module TcpSafety {
  import opened Serial
  import opened TcpModel

  /** The send loop touches nothing but the queue and the counters of what it handed over. */
  predicate OnlyQueue(t: Tcb, u: Tcb) {
    u == t.(sent := u.sent, remoteSeq := u.remoteSeq, upstream := u.upstream, forward := u.forward)
  }

  lemma {:induction false} DrainFrame(t: Tcb, room: int, sends: nat -> ssize, k: nat, moved: bool)
    ensures OnlyQueue(t, Drain(t, room, sends, k, moved).t)
    decreases |t.forward|
  {
    if HeadReady(t, room) {
      var len: nat := t.forward[0].len - t.forward[0].sent;
      var n := Clip(sends(k), len);
      if n == len {
        DrainFrame(Handed(t, n), room - n, sends, k + 1, true);
      }
    }
  }

  lemma ForwardedFrame(t: Tcb, e: SocketEvent)
    ensures OnlyQueue(t, Forwarded(t, e).t)
  {
    DrainFrame(t, ReceiveBuffer(t.socket, e.before), e.sends, 0, false);
  }

  /** A session without a socket hands nothing over. */
  lemma NoSocketNoForward(t: Tcb, e: SocketEvent)
    requires t.socket < 0
    ensures Forwarded(t, e) == Drained(t, false)
    ensures ReceiveWindow(t, e.after) == 0
    ensures Acknowledge(t, e, false) == t.(recvWindow := 0)
  {
  }

  // ----- socket ownership and the order of states -----

  predicate NeedsSocket(s: State) { s == LISTEN || s == SYN_RECV || Open(s) }

  predicate SocketInv(t: Tcb) {
    && t.socket >= -1
    && (NeedsSocket(t.state) ==> t.socket >= 0)
    && (t.state == FIN_WAIT1 || t.state == LAST_ACK || t.state == CLOSE ==> t.socket == -1)
  }

  function StateRank(s: State): nat {
    match s
    case LISTEN => 0
    case SYN_RECV => 1
    case ESTABLISHED => 2
    case CLOSE_WAIT => 3
    case FIN_WAIT1 => 3
    case LAST_ACK => 4
    case CLOSING => 5
    case CLOSE => 6
  }

  function ConnectRank(c: Connect): nat {
    match c
    case NotSent => 0
    case Requested => 1
    case Granted => 2
  }

  const MAX_PROGRESS: nat := 20

  /** The lexicographic pair (connect_sent, state) as one number. */
  function Progress(t: Tcb): (n: nat)
    ensures n <= MAX_PROGRESS
  {
    7 * ConnectRank(t.connect) + StateRank(t.state)
  }

  predicate Changed(t: Tcb, u: Tcb) { u.state != t.state || u.connect != t.connect }

  /** From t to u the socket invariant holds, the pair does not fall, and it rises if either part changed;
      and a session that was in CLOSE still is. */
  predicate Advances(t: Tcb, u: Tcb) {
    && SocketInv(u)
    && Progress(t) <= Progress(u)
    && (Changed(t, u) ==> Progress(t) < Progress(u))
    && (t.state == CLOSE ==> u.state == CLOSE)
  }

  lemma RstAdvances(t: Tcb, ok: bool)
    requires SocketInv(t)
    ensures Advances(t, WriteRst(t, ok))
  {
  }

  lemma ConnectingAdvances(t: Tcb, e: SocketEvent)
    requires SocketInv(t) && t.state == LISTEN
    ensures Advances(t, SocketConnecting(t, e))
  {
  }

  lemma AcknowledgeAdvances(t: Tcb, e: SocketEvent, moved: bool)
    requires SocketInv(t) && (t.socket < 0 ==> !moved)
    ensures Advances(t, Acknowledge(t, e, moved))
  {
  }

  lemma ReadAdvances(t: Tcb, e: SocketEvent)
    requires SocketInv(t) && Open(t.state)
    ensures Advances(t, ReadSocket(t, e))
  {
  }

  lemma CheckSocketAdvances(t: Tcb, e: SocketEvent)
    requires SocketInv(t)
    ensures Advances(t, CheckSocket(t, e))
  {
    if e.error {
      RstAdvances(t.(time := e.now), e.writeOk);
    } else if t.state == LISTEN {
      ConnectingAdvances(t, e);
    } else {
      ForwardedFrame(t, e);
      if t.socket < 0 { NoSocketNoForward(t, e); }
      var d := Forwarded(t, e);
      AcknowledgeAdvances(d.t, e, d.moved);
      var t1 := Acknowledge(d.t, e, d.moved);
      if Open(t1.state) { ReadAdvances(t1, e); }
    }
  }

  lemma ConnectAdvances(t: Tcb, i: TunInput)
    requires SocketInv(t)
    ensures Advances(t, SendConnect(t, i))
  {
  }

  lemma FlagsAdvance(t: Tcb, p: Packet, ok: bool)
    requires SocketInv(t) && !Closed(t.state)
    ensures Advances(t, Flags(t, p, ok))
  {
  }

  lemma SegmentAdvances(t: Tcb, p: Packet, i: TunInput)
    requires SocketInv(t)
    ensures Advances(t, Segment(t, p, i))
  {
    if Closed(t.state) {
      RstAdvances(t, i.writeOk);
    } else {
      var t1 := Touch(t, p, i.now);
      RstAdvances(t1, i.writeOk);
      var t2 := if p.data != [] then Queue(t1, p) else t1;
      FlagsAdvance(t2, p, i.writeOk);
    }
  }

  lemma PacketAdvances(t: Tcb, p: Packet, i: TunInput)
    requires SocketInv(t)
    ensures Advances(t, HandlePacket(t, p, i))
  {
    ConnectAdvances(t, i);
    var t1 := if t.conf.dest == HTTPS_PORT then SendConnect(t, i) else t;
    SegmentAdvances(t1, p, i);
  }

  lemma SweepAdvances(t: Tcb, now: int, l: LoadOk, ok: bool)
    requires SocketInv(t)
    ensures Advances(t, CheckSession(t, now, l, ok))
  {
  }

  lemma MonitorAdvances(t: Tcb, i: MonitorInput)
    requires SocketInv(t) && t.socket >= 0
    ensures Advances(t, Monitor(t, i).t)
  {
  }

  lemma StepAdvances(t: Tcb, ev: Event)
    requires SocketInv(t)
    ensures Advances(t, Step(t, ev))
  {
    match ev
    case FromTun(p, i) => PacketAdvances(t, p, i);
    case FromSocket(e) => CheckSocketAdvances(t, e);
    case Sweep(now, load, ok) => SweepAdvances(t, now, load, ok);
    case Watch(m) => if t.socket >= 0 { MonitorAdvances(t, m); }
    case Terminate(ok) => RstAdvances(t, ok);
  }

  // ----- what never changes -----

  lemma StepKeepsConf(t: Tcb, ev: Event)
    ensures Step(t, ev).conf == t.conf
  {
    match ev
    case FromTun(p, i) =>
      var t1 := if t.conf.dest == HTTPS_PORT then SendConnect(t, i) else t;
      SegmentKeepsConf(t1, p, i);
    case FromSocket(e) => SocketKeepsConf(t, e);
    case _ =>
  }

  lemma SegmentKeepsConf(t: Tcb, p: Packet, i: TunInput)
    ensures Segment(t, p, i).conf == t.conf
  {
    FlagsKeepConf(Touch(t, p, i.now), p, i.writeOk);
    FlagsKeepConf(Queue(Touch(t, p, i.now), p), p, i.writeOk);
  }

  lemma FlagsKeepConf(t: Tcb, p: Packet, ok: bool)
    ensures Flags(t, p, ok).conf == t.conf
  {
  }

  lemma SocketKeepsConf(t: Tcb, e: SocketEvent)
    ensures CheckSocket(t, e).conf == t.conf
  {
    ForwardedFrame(t, e);
    var d := Forwarded(t, e);
    RefreshKeepsConf(d.t, ReceiveWindow(d.t, e.after), e, d.moved);
    ReadKeepsConf(Acknowledge(d.t, e, d.moved), e);
  }

  lemma RefreshKeepsConf(t: Tcb, window: u32, e: SocketEvent, moved: bool)
    ensures Refresh(t, window, e, moved).conf == t.conf
  {
  }

  lemma ReadKeepsConf(t: Tcb, e: SocketEvent)
    ensures ReadSocket(t, e).conf == t.conf
  {
  }

  lemma {:induction false} RunKeepsConf(t: Tcb, evs: seq<Event>)
    ensures Run(t, evs).conf == t.conf
    decreases |evs|
  {
    if evs != [] {
      StepKeepsConf(t, evs[0]);
      RunKeepsConf(Step(t, evs[0]), evs[1..]);
    }
  }

  // ----- whole runs -----

  lemma AdvancesTrans(t: Tcb, u: Tcb, v: Tcb)
    requires Advances(t, u) && Advances(u, v)
    ensures Advances(t, v)
  {
  }

  /** Steps of a run at which the state or the CONNECT phase changes. */
  function Changes(t: Tcb, evs: seq<Event>): nat
    decreases |evs|
  {
    if evs == [] then 0 else
      (if Changed(t, Step(t, evs[0])) then 1 else 0) + Changes(Step(t, evs[0]), evs[1..])
  }

  /** Over every run: the socket invariant holds, the pair (connect_sent, state) only rises, so that at most
      20 steps of any run change it, and CLOSE is never left. */
  lemma {:induction false} RunAdvances(t: Tcb, evs: seq<Event>)
    requires SocketInv(t)
    ensures Advances(t, Run(t, evs))
    ensures Changes(t, evs) <= Progress(Run(t, evs)) - Progress(t) <= MAX_PROGRESS
    decreases |evs|
  {
    if evs != [] {
      StepAdvances(t, evs[0]);
      RunAdvances(Step(t, evs[0]), evs[1..]);
      AdvancesTrans(t, Step(t, evs[0]), Run(t, evs));
    }
  }

  /** A session that the sweep may unlink no longer holds a socket, whatever happened before. */
  lemma RemovedSessionHasNoSocket(b: Birth, evs: seq<Event>, now: int)
    ensures var t := Run(NewSession(b), evs); SocketInv(t) && (Removable(t, now) ==> t.socket == -1)
  {
    RunAdvances(NewSession(b), evs);
  }

  /** A closing session comes back to life in exactly one way: port 443, the CONNECT line not sent yet, the
      socket not swept yet, and a packet that carries the line out. */
  predicate Revives(t: Tcb, ev: Event) {
    && t.state == CLOSING && t.conf.dest == HTTPS_PORT && t.connect == NotSent && t.socket >= 0
    && ev.FromTun? && !ev.p.urg && ev.i.named && ev.i.connectSent >= 0
  }

  lemma ClosingIsLeftOnlyByConnect(t: Tcb, ev: Event)
    requires SocketInv(t) && Closed(t.state)
    ensures !Closed(Step(t, ev).state) <==> Revives(t, ev)
  {
    match ev
    case FromSocket(e) =>
      ForwardedFrame(t, e);
    case FromTun(p, i) =>
    case Sweep(now, load, ok) =>
    case Watch(m) =>
    case Terminate(ok) =>
  }
}
