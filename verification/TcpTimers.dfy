/** What keeps a session alive, and for how long. */
module TcpTimers {
  import opened Serial
  import opened TcpModel
  import opened TcpSafety
  import opened TcpSequence
  import opened TcpWindow
  import opened TcpReads
  import opened TcpDiagram
  import SessionModel

  /** The clock a step stores, if it stores one: the session took in a segment, answered a SYN, acknowledged, read, saw
      an error, or was closed by the sweep. */
  function Clock(t: Tcb, ev: Event): int {
    match ev
    case FromTun(_, i) => if TakesIn(t, ev) then i.now else t.time
    case FromSocket(e) =>
      if e.error || AnswersSyn(t, e) || (Acknowledges(t, e) && e.ackOk) || Reads(t, e) then e.now else t.time
    case Sweep(now, l, _) => if t.state == CLOSING || Expires(t, now, l) then now else t.time
    case Watch(_) => t.time
    case Terminate(_) => t.time
  }

  lemma ClockIsStored(t: Tcb, ev: Event)
    requires DiagramInv(t)
    ensures Step(t, ev).time == Clock(t, ev)
  {
    match ev
    case FromTun(p, i) => TunClock(t, p, i);
    case FromSocket(e) => SocketClock(t, e);
    case _ =>
  }

  lemma TunClock(t: Tcb, p: Packet, i: TunInput)
    ensures HandlePacket(t, p, i).time == if TakesIn(t, FromTun(p, i)) then i.now else t.time
  {
    var t1 := if t.conf.dest == HTTPS_PORT then SendConnect(t, i) else t;
    var t2 := Touch(t1, p, i.now);
    FlagsClock(if p.data != [] then Queue(t2, p) else t2, p, i.writeOk);
  }

  lemma FlagsClock(t: Tcb, p: Packet, ok: bool)
    ensures Flags(t, p, ok).time == t.time
  {
  }

  lemma SocketClock(t: Tcb, e: SocketEvent)
    requires DiagramInv(t)
    ensures CheckSocket(t, e).time == Clock(t, FromSocket(e))
  {
    if !e.error && t.state != LISTEN {
      RestClock(t, e);
      BeforeRead(t, e);
      ReadLaw(t, e);
    }
  }

  lemma RestClock(t: Tcb, e: SocketEvent)
    requires !e.error && t.state != LISTEN
    ensures WithoutRead(t, e).time == if Acknowledges(t, e) && e.ackOk then e.now else t.time
  {
    var f := e.(readable := false);
    assert Forwarded(t, f) == Forwarded(t, e);
    ForwardedFrame(t, e);
    var d := Forwarded(t, e);
    RefreshClock(d.t, ReceiveWindow(d.t, e.after), f, d.moved);
  }

  lemma RefreshClock(t: Tcb, window: u32, e: SocketEvent, moved: bool)
    ensures Refresh(t, window, e, moved).time ==
            if (moved || (t.recvWindow == 0 && window > 0)) && e.ackOk then e.now else t.time
  {
  }

  // ----- timeouts -----

  /** Seconds a session may be idle with no other session: half a minute while it connects or closes, an hour in
      between. */
  lemma IdleSeconds(s: State, limit: nat)
    requires limit > 0
    ensures Timeout(s, 0, limit) == if s == ESTABLISHED then 3600 else 30
    ensures Timeout(s, limit, limit) == 0
  {
    Unscaled(BaseTimeout(s), limit);
    FullyScaled(BaseTimeout(s), limit);
  }

  lemma Unscaled(base: nat, limit: nat)
    requires limit > 0
    ensures Scaled(base, 0, limit) == base
  {
    assert 0 * 100 / limit == 0;
  }

  lemma FullyScaled(base: nat, limit: nat)
    requires limit > 0
    ensures Scaled(base, limit, limit) == 0
  {
    SessionModel.FullShare(limit);
    assert base * (100 - limit * 100 / limit) == 0;
  }

  /** The timeout is the base less its share, in whole percent of the limit, truncated towards zero. */
  lemma ScaledExactly(base: nat, sessions: nat, limit: nat)
    requires limit > 0
    ensures var left := base * (100 - sessions * 100 / limit);
            var s := Scaled(base, sessions, limit);
            && (left >= 0 ==> 100 * s <= left < 100 * s + 100)
            && (left < 0 ==> left <= 100 * s < left + 100)
  {
  }

  /** Activity at some second keeps a session through its timeout from there: no sweep until then changes it. */
  lemma ActivityDefers(t: Tcb, ev: Event, now: int, l: LoadOk, ok: bool)
    requires DiagramInv(t) && !Closed(Step(t, ev).state)
    requires now <= Clock(t, ev) + Timeout(Step(t, ev).state, l.sessions, l.maxSessions)
    ensures CheckSession(Step(t, ev), now, l, ok) == Step(t, ev)
  {
    ClockIsStored(t, ev);
  }

  /** What the sweep leaves of a closed session: no socket, counters of zero, and the entry until its 300 seconds are
      over. */
  lemma SweptClosed(t: Tcb, now: int, l: LoadOk, ok: bool)
    requires SocketInv(t)
    ensures var u := CheckSession(t, now, l, ok);
            && (u.state == CLOSE ==> u.socket == -1 && u.sent == 0 && u.received == 0)
            && (Removable(u, now) <==> t.state == CLOSE && t.time + 300 < now)
  {
  }

  // ----- what never changes -----

  /** Over every run a session keeps the port, segment size, scale and initial numbers it was created with. */
  lemma SessionKeepsOptions(b: Birth, evs: seq<Event>)
    ensures var c := Run(NewSession(b), evs).conf;
            && c.dest == b.dest && c.mss == b.mss && c.recvScale == b.scale && c.sendScale == b.scale
            && c.remoteStart == b.p.seqNo && c.localStart == b.isn
  {
    RunKeepsConf(NewSession(b), evs);
  }
}
