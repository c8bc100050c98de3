/** The table of sessions (session.c, udp.c) on values: what the event loop does to the list as a whole. */
module SessionModel {
  import opened Serial
  import opened TcpModel

  const EPOLL_TIMEOUT: int := 3600
  const ICMP_TIMEOUT: nat := 15
  const UDP_TIMEOUT_53: nat := 15
  const UDP_TIMEOUT_ANY: nat := 300
  const UDP_KEEP_TIMEOUT: int := 60
  const DNS_PORT: u16 := 53

  datatype UdpState = ACTIVE | FINISHING | CLOSED | BLOCKED

  datatype Udb = Udb(dest: u16, time: int, state: UdpState, socket: int, sent: nat, received: nat)

  datatype Icb = Icb(time: int, stop: bool, socket: int)

  /** What the lookups compare: version, both addresses, both ports. */
  datatype Key = Key(version: nat, saddr: seq<byte>, source: u16, daddr: seq<byte>, dest: u16)

  datatype Session = Tcp(key: Key, t: Tcb) | Udp(key: Key, u: Udb) | Icmp(i: Icb)

  function SocketOf(s: Session): int {
    match s
    case Tcp(_, t) => t.socket
    case Udp(_, u) => u.socket
    case Icmp(i) => i.socket
  }

  // ----- what clear gives back -----

  /** The descriptor a session holds, if any. */
  function SocketsOf(s: Session): seq<int> { if SocketOf(s) >= 0 then [SocketOf(s)] else [] }

  function OpenSockets(ss: seq<Session>): seq<int> {
    if ss == [] then [] else SocketsOf(ss[0]) + OpenSockets(ss[1..])
  }

  /** clear_tcp_data */
  function PiecesOf(s: Session): seq<Piece> { if s.Tcp? then s.t.forward else [] }

  function QueuedPieces(ss: seq<Session>): seq<Piece> {
    if ss == [] then [] else PiecesOf(ss[0]) + QueuedPieces(ss[1..])
  }

  /** What clear closes are the sockets of the sessions, none besides and none left out. */
  lemma {:induction false} OpenSocketsAreHeld(ss: seq<Session>, fd: int)
    ensures fd in OpenSockets(ss) <==> fd >= 0 && exists s :: s in ss && SocketOf(s) == fd
    decreases |ss|
  {
    if ss != [] {
      OpenSocketsAreHeld(ss[1..], fd);
      assert ss == [ss[0]] + ss[1..];
    }
  }

  /** What clear frees are the queued segments of the TCP sessions, all of them and no other. */
  lemma {:induction false} QueuedPiecesAreHeld(ss: seq<Session>, q: Piece)
    ensures q in QueuedPieces(ss) <==> exists s :: s in ss && s.Tcp? && q in s.t.forward
    decreases |ss|
  {
    if ss != [] {
      QueuedPiecesAreHeld(ss[1..], q);
      assert ss == [ss[0]] + ss[1..];
    }
  }

  // ----- timeouts -----

  function IcmpTimeout(l: LoadOk): int { Scaled(ICMP_TIMEOUT, l.sessions, l.maxSessions) }

  function UdpBase(dest: u16): nat { if dest == DNS_PORT then UDP_TIMEOUT_53 else UDP_TIMEOUT_ANY }

  function UdpTimeout(u: Udb, l: LoadOk): int { Scaled(UdpBase(u.dest), l.sessions, l.maxSessions) }

  /** Scaling only shortens a timeout, keeps it non-negative up to the session limit, and more sessions never
      lengthen it. */
  lemma ScaledBounds(base: nat, l: LoadOk, more: nat)
    requires l.sessions <= more
    ensures Scaled(base, l.sessions, l.maxSessions) <= base
    ensures l.sessions <= l.maxSessions ==> 0 <= Scaled(base, l.sessions, l.maxSessions)
    ensures Scaled(base, more, l.maxSessions) <= Scaled(base, l.sessions, l.maxSessions)
  {
    var share := l.sessions * 100 / l.maxSessions;
    ShareOrder(l.sessions, more, l.maxSessions);
    ProductOrder(base, 100 - more * 100 / l.maxSessions, 100 - share);
    ProductOrder(base, 100 - share, 100);
    if l.sessions <= l.maxSessions {
      ShareOrder(l.sessions, l.maxSessions, l.maxSessions);
      FullShare(l.maxSessions);
      ProductOrder(base, 0, 100 - share);
    }
  }

  lemma ShareOrder(a: nat, b: nat, m: nat)
    requires m > 0 && a <= b
    ensures 0 <= a * 100 / m <= b * 100 / m
  {
    QuotientOrder(a * 100, b * 100, m);
  }

  lemma QuotientOrder(x: nat, y: nat, m: nat)
    requires m > 0 && x <= y
    ensures 0 <= x / m <= y / m
  {
    if x / m > y / m {
      ProductOrder(m, y / m + 1, x / m);
    }
  }

  lemma FullShare(m: nat)
    requires m > 0
    ensures m * 100 / m == 100
  {
  }

  lemma ProductOrder(base: nat, a: int, b: int)
    requires a <= b
    ensures base * a <= base * b
  {
  }

  // ----- one session in a sweep -----

  /** check_udp_session */
  function CheckUdp(u: Udb, now: int, l: LoadOk): Udb {
    var u1 := if u.state == ACTIVE && u.time + UdpTimeout(u, l) < now then u.(state := FINISHING) else u;
    var u2 := if u1.state == FINISHING then u1.(socket := -1, time := now, state := CLOSED) else u1;
    if u2.state == CLOSED then u2.(sent := 0, received := 0) else u2
  }

  predicate UdpRemovable(u: Udb, now: int) {
    (u.state == CLOSED || u.state == BLOCKED) && u.time + UDP_KEEP_TIMEOUT < now
  }

  predicate IcmpExpired(i: Icb, now: int, l: LoadOk) { i.stop || i.time + IcmpTimeout(l) < now }

  /** The per-session call of the sweep: check_icmp_session, check_udp_session or check_tcp_session. */
  function Checked(s: Session, now: int, l: LoadOk, ok: bool): Session {
    match s
    case Tcp(_, t) => s.(t := CheckSession(t, now, l, ok))
    case Udp(_, u) => s.(u := CheckUdp(u, now, l))
    case Icmp(i) => if IcmpExpired(i, now, l) then s.(i := i.(socket := -1)) else s
  }

  /** Its result: the session is to be unlinked. */
  predicate Deleted(s: Session, now: int, l: LoadOk) {
    match s
    case Tcp(_, t) => Removable(t, now)
    case Udp(_, u) => UdpRemovable(u, now)
    case Icmp(i) => IcmpExpired(i, now, l)
  }

  predicate Live(s: Session) {
    match s
    case Tcp(_, t) => !TcpModel.Closed(t.state)
    case Udp(_, u) => u.state == ACTIVE
    case Icmp(i) => !i.stop
  }

  /** Seconds until the session times out, plus one. */
  function Remaining(s: Session, now: int, l: LoadOk): int {
    match s
    case Tcp(_, t) => t.time + Timeout(t.state, l.sessions, l.maxSessions) - now + 1
    case Udp(_, u) => u.time + UdpTimeout(u, l) - now + 1
    case Icmp(i) => i.time + IcmpTimeout(l) - now + 1
  }

  // ----- the sweep of handle_events -----

  /** `now` is read before the walk; clock(k) is what the check of the k-th session reads. */
  datatype RawSweep = SweepInput(now: int, clock: nat -> int, ok: nat -> bool, load: LoadOk)

  ghost predicate ClockRuns(e: RawSweep) { forall k: nat :: e.clock(k) >= e.now }

  function After(ss: seq<Session>, e: RawSweep, k: nat): Session
    requires k < |ss|
  {
    Checked(ss[k], e.clock(k), e.load, e.ok(k))
  }

  predicate Dropped(ss: seq<Session>, e: RawSweep, k: nat)
    requires k < |ss|
  {
    Deleted(After(ss, e, k), e.clock(k), e.load)
  }

  /** The sessions kept among the first n, in order. */
  function Swept(ss: seq<Session>, e: RawSweep, n: nat): seq<Session>
    requires n <= |ss|
  {
    if n == 0 then [] else
      Swept(ss, e, n - 1) + if Dropped(ss, e, n - 1) then [] else [After(ss, e, n - 1)]
  }

  function Shorter(wait: int, s: Session, now: int, l: LoadOk): int {
    var left := Remaining(s, now, l);
    if 0 < left < wait then left else wait
  }

  /** The epoll wait in seconds after the first n sessions. */
  function Wait(ss: seq<Session>, e: RawSweep, n: nat): int
    requires n <= |ss|
  {
    if n == 0 then EPOLL_TIMEOUT else
      var s := After(ss, e, n - 1);
      var wait := Wait(ss, e, n - 1);
      if Live(s) && !Dropped(ss, e, n - 1) then Shorter(wait, s, e.now, e.load) else wait
  }

  /** A session that is still live after its check has at least one second left, so the test `stimeout > 0`
      never discards one. */
  lemma LiveHasTime(s: Session, now: int, clock: int, l: LoadOk, ok: bool)
    requires now <= clock
    requires var c := Checked(s, clock, l, ok); Live(c) && !Deleted(c, clock, l)
    ensures Remaining(Checked(s, clock, l, ok), now, l) >= 1
  {
  }

  /** The wait is at least 1 and exactly the least of 3600 and what each live session has left. */
  lemma {:induction false} WaitIsMinimum(ss: seq<Session>, e: RawSweep, n: nat)
    requires n <= |ss| && ClockRuns(e)
    ensures 1 <= Wait(ss, e, n) <= 3600
    ensures forall s | s in Swept(ss, e, n) && Live(s) :: Wait(ss, e, n) <= Remaining(s, e.now, e.load)
    ensures Wait(ss, e, n) == 3600 ||
            exists s :: s in Swept(ss, e, n) && Live(s) && Wait(ss, e, n) == Remaining(s, e.now, e.load)
  {
    if n > 0 {
      WaitIsMinimum(ss, e, n - 1);
      var s := After(ss, e, n - 1);
      if Live(s) && !Dropped(ss, e, n - 1) {
        assert e.clock(n - 1) >= e.now;
        LiveHasTime(ss[n - 1], e.now, e.clock(n - 1), e.load, e.ok(n - 1));
        assert s in Swept(ss, e, n);
      }
    }
  }

  // ----- UDP -----

  datatype UdpSend = Sent(n: nat) | SendFailed(transient: bool)

  /** handle_udp for a session already in the table; dhcp: the packet was answered as DHCP. */
  function UdpPacket(u: Udb, now: int, dhcp: bool, len: nat, result: UdpSend): Udb {
    if u.state != ACTIVE || dhcp then u
    else
      var u1 := u.(time := now);
      match result
      case Sent(n) => if n == len then u1.(sent := u1.sent + len) else u1
      case SendFailed(transient) => if transient then u1 else u1.(state := FINISHING)
  }

  /** check_udp_socket */
  function UdpSocket(u: Udb, error: bool, now: int, r: Recv, ok: bool): Udb {
    if error then u.(time := now, state := FINISHING)
    else
      var u1 := u.(time := now);
      match r
      case Failed(transient) => if transient then u1 else u1.(state := FINISHING)
      case Got(bytes) =>
        var u2 := if bytes == [] then u1 else u1.(received := u1.received + |bytes|);
        if bytes == [] || !ok || u.dest == DNS_PORT then u2.(state := FINISHING) else u2
  }

  // ----- events of the whole table -----

  predicate SameFlow(a: Session, b: Session) {
    (a.Tcp? && b.Tcp? && a.key == b.key) || (a.Udp? && b.Udp? && a.key == b.key)
  }

  /** The lookup loops of handle_tcp and handle_udp: the first session of that kind with the key. */
  function Find(ss: seq<Session>, probe: Session): nat {
    if ss == [] || SameFlow(ss[0], probe) then 0 else 1 + Find(ss[1..], probe)
  }

  datatype TableEvent =
    | TcpArrives(key: Key, p: Packet, i: TunInput, birth: Birth, gotSocket: bool)
    | UdpArrives(key: Key, now: int, socket: int, dhcp: bool, len: nat, result: UdpSend)
    | IcmpArrives(icb: Icb)
    | TcpReady(k: nat, e: SocketEvent)
    | UdpReady(k: nat, error: bool, now: int, r: Recv, ok: bool)
    | IcmpReady(k: nat, now: int, stop: bool)
    | WatchAll(m: nat -> MonitorInput)
    | SweepAll(sweep: RawSweep)
    | CheckAllowed(oks: nat -> bool)

  /** handle_tcp: an unknown SYN creates a session at the head of the list if its socket opens. */
  function TcpPacketIn(ss: seq<Session>, key: Key, p: Packet, i: TunInput, birth: Birth,
                       gotSocket: bool): seq<Session>
  {
    var created := Tcp(key, NewSession(birth.(p := p, dest := key.dest)));
    var k := Find(ss, created);
    if k < |ss| && ss[k].Tcp? then ss[k := ss[k].(t := HandlePacket(ss[k].t, p, i))]
    else if !p.urg && p.syn && gotSocket then [created] + ss
    else ss
  }

  /** handle_udp: an unknown flow creates a session if its socket opens, and then handles the packet. */
  function UdpPacketIn(ss: seq<Session>, key: Key, now: int, socket: int, dhcp: bool, len: nat,
                       result: UdpSend): seq<Session>
  {
    var u := Udb(key.dest, now, ACTIVE, socket, 0, 0);
    var k := Find(ss, Udp(key, u));
    if k < |ss| && ss[k].Udp? then ss[k := ss[k].(u := UdpPacket(ss[k].u, now, dhcp, len, result))]
    else if socket < 0 then ss
    else [Udp(key, UdpPacket(u, now, dhcp, len, result))] + ss
  }

  function Watched(s: Session, m: MonitorInput): Session {
    if s.Tcp? && s.t.socket >= 0 then s.(t := Monitor(s.t, m).t) else s
  }

  function WatchedAll(ss: seq<Session>, m: nat -> MonitorInput, n: nat): (r: seq<Session>)
    requires n <= |ss|
    ensures |r| == n
  {
    if n == 0 then [] else WatchedAll(ss, m, n - 1) + [Watched(ss[n - 1], m(n - 1))]
  }

  /** check_allowed on one session that stays */
  function Terminated(s: Session, ok: bool): Session {
    match s
    case Tcp(_, t) => if TcpModel.Closed(t.state) then s else s.(t := WriteRst(t, ok))
    case Udp(_, u) => if u.state == ACTIVE then s.(u := u.(state := FINISHING)) else s
    case Icmp(i) => s.(i := i.(stop := true))
  }

  predicate Forbidden(s: Session) { s.Udp? && s.u.state == BLOCKED }

  /** check_allowed on the first n sessions */
  function Allowed(ss: seq<Session>, ok: nat -> bool, n: nat): seq<Session>
    requires n <= |ss|
  {
    if n == 0 then [] else
      Allowed(ss, ok, n - 1) + if Forbidden(ss[n - 1]) then [] else [Terminated(ss[n - 1], ok(n - 1))]
  }

  function TableStep(ss: seq<Session>, ev: TableEvent): seq<Session> {
    match ev
    case TcpArrives(key, p, i, birth, gotSocket) => TcpPacketIn(ss, key, p, i, birth, gotSocket)
    case UdpArrives(key, now, socket, dhcp, len, result) => UdpPacketIn(ss, key, now, socket, dhcp, len, result)
    case IcmpArrives(icb) => [Icmp(icb)] + ss
    case TcpReady(k, e) => if k < |ss| && ss[k].Tcp? then ss[k := ss[k].(t := CheckSocket(ss[k].t, e))] else ss
    case UdpReady(k, error, now, r, ok) =>
      if k < |ss| && ss[k].Udp? && ss[k].u.socket >= 0
      then ss[k := ss[k].(u := UdpSocket(ss[k].u, error, now, r, ok))] else ss
    case IcmpReady(k, now, stop) =>
      if k < |ss| && ss[k].Icmp? then ss[k := Icmp(ss[k].i.(time := now, stop := ss[k].i.stop || stop))] else ss
    case WatchAll(m) => WatchedAll(ss, m, |ss|)
    case SweepAll(e) => Swept(ss, e, |ss|)
    case CheckAllowed(ok) => Allowed(ss, ok, |ss|)
  }

  function TableRun(ss: seq<Session>, evs: seq<TableEvent>): seq<Session>
    decreases |evs|
  {
    if evs == [] then ss else TableRun(TableStep(ss, evs[0]), evs[1..])
  }

  // ----- counting and monitoring, at the top of the event loop -----

  /** Sessions that count against the limit. */
  function Count(ss: seq<Session>, n: nat): nat
    requires n <= |ss|
  {
    if n == 0 then 0 else Count(ss, n - 1) + if Live(ss[n - 1]) then 1 else 0
  }

  predicate Recheck(s: Session, m: MonitorInput) {
    s.Tcp? && s.t.socket >= 0 && Monitor(s.t, m).recheck
  }

  predicate AnyRecheck(ss: seq<Session>, m: nat -> MonitorInput, n: nat)
    requires n <= |ss|
  {
    n > 0 && (AnyRecheck(ss, m, n - 1) || Recheck(ss[n - 1], m(n - 1)))
  }

  // ----- the three walks over the list as one -----

  datatype Visited = Visited(s: Session, del: bool)

  /** The first n sessions after each was visited and the dropped ones were unlinked. */
  function Walked(ss: seq<Session>, visit: (nat, Session) -> Visited, n: nat): seq<Session>
    requires n <= |ss|
  {
    if n == 0 then [] else
      var v := visit(n - 1, ss[n - 1]);
      Walked(ss, visit, n - 1) + if v.del then [] else [v.s]
  }

  /** What a walk accumulates besides. */
  function Noted<A>(ss: seq<Session>, note: (A, nat, Session) -> A, start: A, n: nat): A
    requires n <= |ss|
  {
    if n == 0 then start else note(Noted(ss, note, start, n - 1), n - 1, ss[n - 1])
  }

  /** The same from the k-th session on. */
  function WalkedFrom(rest: seq<Session>, visit: (nat, Session) -> Visited, k: nat): seq<Session> {
    if rest == [] then [] else
      var v := visit(k, rest[0]);
      (if v.del then [] else [v.s]) + WalkedFrom(rest[1..], visit, k + 1)
  }

  function NotedFrom<A>(rest: seq<Session>, note: (A, nat, Session) -> A, acc: A, k: nat): A {
    if rest == [] then acc else NotedFrom(rest[1..], note, note(acc, k, rest[0]), k + 1)
  }

  lemma {:induction false} WalkSplits<A>(ss: seq<Session>, visit: (nat, Session) -> Visited,
                                         note: (A, nat, Session) -> A, start: A, k: nat)
    requires k <= |ss|
    ensures Walked(ss, visit, k) + WalkedFrom(ss[k..], visit, k) == Walked(ss, visit, |ss|)
    ensures NotedFrom(ss[k..], note, Noted(ss, note, start, k), k) == Noted(ss, note, start, |ss|)
    decreases |ss| - k
  {
    if k < |ss| {
      assert ss[k..][1..] == ss[k + 1..];
      WalkSplits(ss, visit, note, start, k + 1);
    }
  }

  lemma VisitNext<A>(done: seq<Session>, rest: seq<Session>, visit: (nat, Session) -> Visited,
                     note: (A, nat, Session) -> A, acc: A, k: nat)
    requires rest != []
    ensures var v := visit(k, rest[0]);
            (if v.del then done else done + [v.s]) + WalkedFrom(rest[1..], visit, k + 1) ==
            done + WalkedFrom(rest, visit, k)
    ensures NotedFrom(rest[1..], note, note(acc, k, rest[0]), k + 1) == NotedFrom(rest, note, acc, k)
  {
    var tail := WalkedFrom(rest[1..], visit, k + 1);
    var v := visit(k, rest[0]);
    assert done + [v.s] + tail == done + ([v.s] + tail);
    assert [] + tail == tail;
  }

  function SweepVisit(e: RawSweep): (nat, Session) -> Visited {
    (k: nat, s: Session) => var c := Checked(s, e.clock(k), e.load, e.ok(k)); Visited(c, Deleted(c, e.clock(k), e.load))
  }

  function SweepNote(e: RawSweep): (int, nat, Session) -> int {
    (wait: int, k: nat, s: Session) =>
      var c := Checked(s, e.clock(k), e.load, e.ok(k));
      if Live(c) && !Deleted(c, e.clock(k), e.load) then Shorter(wait, c, e.now, e.load) else wait
  }

  lemma {:induction false} SweepIsWalk(ss: seq<Session>, e: RawSweep, n: nat)
    requires n <= |ss|
    ensures Walked(ss, SweepVisit(e), n) == Swept(ss, e, n)
    ensures Noted(ss, SweepNote(e), EPOLL_TIMEOUT, n) == Wait(ss, e, n)
  {
    if n > 0 { SweepIsWalk(ss, e, n - 1); }
  }

  function AllowVisit(ok: nat -> bool): (nat, Session) -> Visited {
    (k: nat, s: Session) => Visited(Terminated(s, ok(k)), Forbidden(s))
  }

  lemma {:induction false} AllowedIsWalk(ss: seq<Session>, ok: nat -> bool, n: nat)
    requires n <= |ss|
    ensures Walked(ss, AllowVisit(ok), n) == Allowed(ss, ok, n)
  {
    if n > 0 { AllowedIsWalk(ss, ok, n - 1); }
  }

  datatype Tally = Tally(sessions: nat, recheck: bool)

  function WatchVisit(m: nat -> MonitorInput): (nat, Session) -> Visited {
    (k: nat, s: Session) => Visited(Watched(s, m(k)), false)
  }

  function WatchNote(m: nat -> MonitorInput): (Tally, nat, Session) -> Tally {
    (t: Tally, k: nat, s: Session) =>
      Tally(if Live(s) then t.sessions + 1 else t.sessions, t.recheck || Recheck(s, m(k)))
  }

  lemma {:induction false} WatchIsWalk(ss: seq<Session>, m: nat -> MonitorInput, n: nat)
    requires n <= |ss|
    ensures Walked(ss, WatchVisit(m), n) == WatchedAll(ss, m, n)
    ensures Noted(ss, WatchNote(m), Tally(0, false), n) == Tally(Count(ss, n), AnyRecheck(ss, m, n))
  {
    if n > 0 { WatchIsWalk(ss, m, n - 1); }
  }
}
