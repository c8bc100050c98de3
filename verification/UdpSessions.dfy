/** One UDP session of udp.c: what ends it, what it counts, and what keeps it alive. */
module UdpSessions {
  import opened TcpModel
  import opened SessionModel

  datatype UdpEvent =
    | Datagram(now: int, dhcp: bool, len: nat, result: UdpSend)  // from the app
    | Answer(error: bool, now: int, r: Recv, ok: bool)           // from the socket
    | Check(now: int, load: LoadOk)                              // of the sweep
    | End                                                        // check_allowed

  function UdpStep(u: Udb, ev: UdpEvent): Udb {
    match ev
    case Datagram(now, dhcp, len, result) => UdpPacket(u, now, dhcp, len, result)
    case Answer(error, now, r, ok) => if u.socket >= 0 then UdpSocket(u, error, now, r, ok) else u
    case Check(now, l) => CheckUdp(u, now, l)
    case End => Terminated(Udp(Key(4, [], 0, [], u.dest), u), true).u
  }

  function UdpRun(u: Udb, evs: seq<UdpEvent>): Udb
    decreases |evs|
  {
    if evs == [] then u else UdpRun(UdpStep(u, evs[0]), evs[1..])
  }

  /** A session has its socket until it is closed, and none afterwards. */
  predicate UdpInv(u: Udb) { u.socket >= -1 && (u.socket >= 0 <==> u.state == ACTIVE || u.state == FINISHING) }

  // ----- the diagram -----

  /** Seconds without traffic and with no other session. */
  function IdleLimit(u: Udb): nat { if u.dest == 53 then 15 else 300 }

  predicate Idle(u: Udb, now: int, l: LoadOk) {
    u.state == ACTIVE && u.time + Scaled(IdleLimit(u), l.sessions, l.maxSessions) < now
  }

  /** The datagram goes to the socket. */
  predicate GoesOut(u: Udb, ev: UdpEvent) { ev.Datagram? && u.state == ACTIVE && !ev.dhcp }

  /** The answer is the last one: an error that is not to be tried again, the end of file, one that cannot be written to
      tun, or any answer to a DNS query. */
  predicate LastAnswer(u: Udb, ev: UdpEvent) {
    ev.Answer? &&
    (ev.error || ev.r == Failed(false) || (ev.r.Got? && (ev.r.bytes == [] || !ev.ok || u.dest == 53)))
  }

  /** The step takes a session in another state to s. */
  predicate UdpEnters(u: Udb, ev: UdpEvent, s: UdpState) {
    match s
    case FINISHING =>
      u.state == ACTIVE && ((GoesOut(u, ev) && ev.result == SendFailed(false)) || LastAnswer(u, ev) || ev.End?)
    case CLOSED => ev.Check? && (u.state == FINISHING || Idle(u, ev.now, ev.load))
    case _ => false
  }

  /** Every step of a UDP session follows the diagram, and the session has its socket until it is closed. */
  lemma UdpDiagram(u: Udb, ev: UdpEvent, s: UdpState)
    requires UdpInv(u)
    ensures s != u.state ==> (UdpStep(u, ev).state == s <==> UdpEnters(u, ev, s))
    ensures UdpInv(UdpStep(u, ev))
  {
  }

  // ----- conservation -----

  function SentIn(u: Udb, ev: UdpEvent): nat { if GoesOut(u, ev) && ev.result == Sent(ev.len) then ev.len else 0 }

  function ReceivedIn(u: Udb, ev: UdpEvent): nat {
    if ev.Answer? && u.socket >= 0 && !ev.error && ev.r.Got? then |ev.r.bytes| else 0
  }

  function SentInRun(u: Udb, evs: seq<UdpEvent>): nat
    decreases |evs|
  {
    if evs == [] then 0 else SentIn(u, evs[0]) + SentInRun(UdpStep(u, evs[0]), evs[1..])
  }

  function ReceivedInRun(u: Udb, evs: seq<UdpEvent>): nat
    decreases |evs|
  {
    if evs == [] then 0 else ReceivedIn(u, evs[0]) + ReceivedInRun(UdpStep(u, evs[0]), evs[1..])
  }

  function UdpRank(s: UdpState): nat {
    match s
    case ACTIVE => 0
    case FINISHING => 1
    case CLOSED => 2
    case BLOCKED => 2
  }

  lemma {:induction false} UdpRunKeeps(u: Udb, evs: seq<UdpEvent>)
    requires UdpInv(u)
    ensures var v := UdpRun(u, evs);
            && UdpInv(v) && UdpRank(u.state) <= UdpRank(v.state) && (u.state == CLOSED ==> v.state == CLOSED)
            && (v.state != CLOSED ==>
                  v.sent == u.sent + SentInRun(u, evs) && v.received == u.received + ReceivedInRun(u, evs))
    decreases |evs|
  {
    if evs != [] {
      var w := UdpStep(u, evs[0]);
      UdpDiagram(u, evs[0], w.state);
      UdpCounts(u, evs[0]);
      UdpRunKeeps(w, evs[1..]);
    }
  }

  lemma UdpCounts(u: Udb, ev: UdpEvent)
    requires UdpInv(u)
    ensures var v := UdpStep(u, ev);
            v.state != CLOSED ==> v.sent == u.sent + SentIn(u, ev) && v.received == u.received + ReceivedIn(u, ev)
  {
  }

  /** Over every run of a new session: until it is closed it holds its socket and has counted every complete datagram
      and every byte that came back; afterwards it has no socket and stays closed. */
  lemma UdpConserves(u: Udb, evs: seq<UdpEvent>)
    requires u.state == ACTIVE && u.socket >= 0 && u.sent == 0 && u.received == 0
    ensures var v := UdpRun(u, evs);
            if v.state == CLOSED then v.socket == -1
            else v.socket >= 0 && v.sent == SentInRun(u, evs) && v.received == ReceivedInRun(u, evs)
  {
    UdpRunKeeps(u, evs);
    NeverBlocked(u, evs);
  }

  lemma {:induction false} NeverBlocked(u: Udb, evs: seq<UdpEvent>)
    requires UdpInv(u) && u.state != BLOCKED
    ensures UdpRun(u, evs).state != BLOCKED
    decreases |evs|
  {
    if evs != [] {
      UdpDiagram(u, evs[0], BLOCKED);
      NeverBlocked(UdpStep(u, evs[0]), evs[1..]);
    }
  }

  // ----- what keeps it alive -----

  /** Traffic in either direction keeps a session through its timeout from there. */
  lemma TrafficDefers(u: Udb, ev: UdpEvent, now: int, l: LoadOk)
    requires UdpInv(u) && (GoesOut(u, ev) || (ev.Answer? && u.socket >= 0)) && UdpStep(u, ev).state == ACTIVE
    requires now <= ev.now + Scaled(IdleLimit(u), l.sessions, l.maxSessions)
    ensures UdpStep(UdpStep(u, ev), Check(now, l)) == UdpStep(u, ev)
  {
  }

  /** A session that its check closes has counters of zero, and is to be removed from 60 seconds after that on. */
  lemma ClosedIsSwept(u: Udb, now: int, l: LoadOk, later: int)
    requires UdpInv(u) && (u.state == FINISHING || Idle(u, now, l))
    ensures var v := UdpStep(u, Check(now, l));
            && v.sent == 0 && v.received == 0 && v.socket == -1
            && (UdpRemovable(v, later) <==> later > now + 60)
  {
  }
}
