/** Flows and their sessions, by kind and key: which packet goes to which session. */
module SessionFlows {
  import opened Serial
  import opened TcpModel
  import opened SessionModel
  import opened UdpSessions

  // ----- lookup -----

  predicate IsTcp(s: Session, key: Key) { s.Tcp? && s.key == key }

  predicate IsUdp(s: Session, key: Key) { s.Udp? && s.key == key }

  /** The lookup for a packet of this key comes to the first TCP session with the very same key, or there is none. */
  lemma {:induction false} TcpLookup(ss: seq<Session>, key: Key, t: Tcb)
    ensures var k := Find(ss, Tcp(key, t));
            && k <= |ss| && (k < |ss| ==> IsTcp(ss[k], key))
            && forall j | 0 <= j < k :: !IsTcp(ss[j], key)
  {
    if ss != [] && !IsTcp(ss[0], key) {
      TcpLookup(ss[1..], key, t);
      assert forall j | 1 <= j < |ss| :: ss[j] == ss[1..][j - 1];
    }
  }

  lemma {:induction false} UdpLookup(ss: seq<Session>, key: Key, u: Udb)
    ensures var k := Find(ss, Udp(key, u));
            && k <= |ss| && (k < |ss| ==> IsUdp(ss[k], key))
            && forall j | 0 <= j < k :: !IsUdp(ss[j], key)
  {
    if ss != [] && !IsUdp(ss[0], key) {
      UdpLookup(ss[1..], key, u);
      assert forall j | 1 <= j < |ss| :: ss[j] == ss[1..][j - 1];
    }
  }

  /** The session at k, and no other, was changed. */
  predicate OnlyAt(before: seq<Session>, after: seq<Session>, k: nat) {
    |after| == |before| && forall j | 0 <= j < |before| && j != k :: after[j] == before[j]
  }

  /** A packet of a known flow goes to the session of that flow and to no other. */
  lemma TcpKnown(ss: seq<Session>, k: nat, key: Key, p: Packet, i: TunInput, b: Birth, gotSocket: bool)
    requires k < |ss| && IsTcp(ss[k], key) && forall j | 0 <= j < k :: !IsTcp(ss[j], key)
    ensures var after := TcpPacketIn(ss, key, p, i, b, gotSocket);
            OnlyAt(ss, after, k) && after[k] == Tcp(key, Step(ss[k].t, FromTun(p, i)))
  {
    TcpLookup(ss, key, NewSession(b.(p := p, dest := key.dest)));
  }

  /** A session fresh from its SYN: nothing sent, received, acknowledged or written, the numbers and the shifted window
      of the SYN, and the receive window of a queue that holds the SYN's data and nothing else. */
  predicate Fresh(t: Tcb, key: Key, p: Packet, b: Birth) {
    && t.state == LISTEN && t.socket == b.socket && t.time == b.now && t.watch == Mask(false, true)
    && t.conf == Conf(key.dest, b.mss, b.scale, b.scale, p.seqNo, b.isn)
    && t.remoteSeq == p.seqNo && t.localSeq == b.isn && t.acked == 0
    && t.sendWindow == Wrap32(p.window * Pow2(b.scale)) && t.recvWindow == ReceiveWindow(t, b.b)
    && t.connect == (if key.dest == 80 then Granted else NotSent)
    && t.sent == 0 && t.received == 0 && t.lastKeepAlive == 0 && t.upstream == [] && t.taken == [] && t.wire == []
    && t.forward == if p.data == [] then [] else [Piece(p.seqNo, |p.data|, 0, p.psh, p.data)]
  }

  /** A packet of an unknown flow changes no session. A SYN without URG whose socket opens puts a fresh session of its
      flow in front; any other packet leaves the table as it is. */
  lemma TcpUnknown(ss: seq<Session>, key: Key, p: Packet, i: TunInput, b: Birth, gotSocket: bool)
    requires forall s | s in ss :: !IsTcp(s, key)
    ensures var after := TcpPacketIn(ss, key, p, i, b, gotSocket);
            if p.syn && !p.urg && gotSocket then
              && after != [] && after[1..] == ss && IsTcp(after[0], key) && Fresh(after[0].t, key, p, b)
            else after == ss
  {
    var created := NewSession(b.(p := p, dest := key.dest));
    TcpLookup(ss, key, created);
    assert ([Tcp(key, created)] + ss)[1..] == ss;
  }

  lemma UdpKnown(ss: seq<Session>, k: nat, key: Key, now: int, socket: int, dhcp: bool, len: nat, result: UdpSend)
    requires k < |ss| && IsUdp(ss[k], key) && forall j | 0 <= j < k :: !IsUdp(ss[j], key)
    ensures var after := UdpPacketIn(ss, key, now, socket, dhcp, len, result);
            OnlyAt(ss, after, k) && after[k] == Udp(key, UdpStep(ss[k].u, Datagram(now, dhcp, len, result)))
  {
    UdpLookup(ss, key, Udb(key.dest, now, ACTIVE, socket, 0, 0));
  }

  /** A datagram of an unknown flow opens a session of that flow if its socket opens, and is sent on that socket. */
  lemma UdpUnknown(ss: seq<Session>, key: Key, now: int, socket: int, dhcp: bool, len: nat, result: UdpSend)
    requires forall s | s in ss :: !IsUdp(s, key)
    ensures var after := UdpPacketIn(ss, key, now, socket, dhcp, len, result);
            if socket < 0 then after == ss
            else
              && after != [] && after[1..] == ss && IsUdp(after[0], key)
              && after[0].u == UdpStep(Udb(key.dest, now, ACTIVE, socket, 0, 0), Datagram(now, dhcp, len, result))
  {
    var u := Udb(key.dest, now, ACTIVE, socket, 0, 0);
    UdpLookup(ss, key, u);
    var after := UdpPacketIn(ss, key, now, socket, dhcp, len, result);
    assert socket >= 0 ==> after[1..] == ss;
  }

  /** A packet of one protocol leaves every session of another alone, whatever its key. */
  lemma OtherProtocol(ss: seq<Session>, key: Key, p: Packet, i: TunInput, b: Birth, gotSocket: bool,
                      now: int, socket: int, dhcp: bool, len: nat, result: UdpSend)
    ensures forall s | s in ss && !s.Tcp? :: s in TcpPacketIn(ss, key, p, i, b, gotSocket)
    ensures forall s | s in ss && !s.Udp? :: s in UdpPacketIn(ss, key, now, socket, dhcp, len, result)
  {
    var t := NewSession(b.(p := p, dest := key.dest));
    TcpLookup(ss, key, t);
    var k := Find(ss, Tcp(key, t));
    if k < |ss| { OthersStay(ss, TcpPacketIn(ss, key, p, i, b, gotSocket), k); }
    var u := Udb(key.dest, now, ACTIVE, socket, 0, 0);
    UdpLookup(ss, key, u);
    var m := Find(ss, Udp(key, u));
    if m < |ss| { OthersStay(ss, UdpPacketIn(ss, key, now, socket, dhcp, len, result), m); }
  }

  lemma OthersStay(before: seq<Session>, after: seq<Session>, k: nat)
    requires k < |before| && OnlyAt(before, after, k)
    ensures forall s | s in before && s != before[k] :: s in after
  {
    forall s | s in before && s != before[k] ensures s in after {
      var j :| 0 <= j < |before| && before[j] == s;
      assert after[j] == s;
    }
  }

  // ----- counting, watching and ending -----

  predicate StillLive(s: Session) {
    match s
    case Tcp(_, t) => t.state != CLOSING && t.state != CLOSE
    case Udp(_, u) => u.state == ACTIVE
    case Icmp(i) => !i.stop
  }

  ghost function LiveAmong(ss: seq<Session>, n: nat): set<nat>
    requires n <= |ss|
  {
    set k: nat | k < n && StillLive(ss[k])
  }

  /** What counts against the limit is the number of sessions that are still live. */
  lemma {:induction false} CountsLive(ss: seq<Session>, n: nat)
    requires n <= |ss|
    ensures Count(ss, n) == |LiveAmong(ss, n)|
    decreases n
  {
    if n > 0 {
      CountsLive(ss, n - 1);
      var rest := LiveAmong(ss, n - 1);
      assert LiveAmong(ss, n) == if StillLive(ss[n - 1]) then rest + {n - 1} else rest;
    }
  }

  predicate OpenTcp(s: Session) { s.Tcp? && s.t.socket >= 0 }

  /** The monitor passes over every TCP session with a socket and nothing else. */
  lemma {:induction false} WatchesOpen(ss: seq<Session>, m: nat -> MonitorInput, n: nat)
    requires n <= |ss|
    ensures |WatchedAll(ss, m, n)| == n
    ensures forall k | 0 <= k < n ::
              WatchedAll(ss, m, n)[k] == if OpenTcp(ss[k]) then Tcp(ss[k].key, Step(ss[k].t, Watch(m(k)))) else ss[k]
    decreases n
  {
    if n > 0 { WatchesOpen(ss, m, n - 1); }
  }

  /** A recheck is asked for exactly if one of them asks for it. */
  lemma {:induction false} RecheckIff(ss: seq<Session>, m: nat -> MonitorInput, n: nat)
    requires n <= |ss|
    ensures AnyRecheck(ss, m, n) <==> exists k :: 0 <= k < n && OpenTcp(ss[k]) && Monitor(ss[k].t, m(k)).recheck
    decreases n
  {
    if n > 0 { RecheckIff(ss, m, n - 1); }
  }

  predicate Blocked(s: Session) { s.Udp? && s.u.state == BLOCKED }

  ghost function BlockedAmong(ss: seq<Session>, n: nat): set<nat>
    requires n <= |ss|
  {
    set k: nat | k < n && Blocked(ss[k])
  }

  /** At the start of the event loop no session is left live, and blocked UDP sessions, and only those, are gone. */
  lemma {:induction false} AllowedEndsAll(ss: seq<Session>, ok: nat -> bool, n: nat)
    requires n <= |ss|
    ensures forall s | s in Allowed(ss, ok, n) :: !StillLive(s) && !Blocked(s)
    ensures |Allowed(ss, ok, n)| == n - |BlockedAmong(ss, n)|
    decreases n
  {
    if n > 0 {
      AllowedEndsAll(ss, ok, n - 1);
      EndsOne(ss[n - 1], ok(n - 1));
      var rest := BlockedAmong(ss, n - 1);
      assert BlockedAmong(ss, n) == if Blocked(ss[n - 1]) then rest + {n - 1} else rest;
    }
  }

  lemma EndsOne(s: Session, ok: bool)
    ensures !StillLive(Terminated(s, ok)) && (Blocked(Terminated(s, ok)) <==> Blocked(s))
  {
  }

  /** A check asks for removal of exactly the sessions that were done for 300 or 60 seconds, and of ICMP sessions that
      were stopped or idle for their scaled 15 seconds. */
  lemma RemovedExactly(s: Session, now: int, l: LoadOk, ok: bool)
    ensures Deleted(Checked(s, now, l, ok), now, l) <==>
            match s
            case Tcp(_, t) => t.state == CLOSE && t.time + 300 < now
            case Udp(_, u) => (u.state == CLOSED || u.state == BLOCKED) && u.time + 60 < now
            case Icmp(i) => i.stop || i.time + Scaled(15, l.sessions, l.maxSessions) < now
  {
  }

  /** The numbers below n that have the property. */
  ghost function Where(p: nat -> bool, n: nat): set<nat> { set k: nat | k < n && p(k) }

  lemma WhereStep(p: nat -> bool, n: nat)
    requires n > 0
    ensures |Where(p, n)| == |Where(p, n - 1)| + if p(n - 1) then 1 else 0
  {
    var rest := Where(p, n - 1);
    assert Where(p, n) == if p(n - 1) then rest + {n - 1} else rest;
  }

  function Stays(ss: seq<Session>, e: RawSweep): nat -> bool { (k: nat) => k < |ss| && !Dropped(ss, e, k) }

  /** A session stays in the table, checked, unless its check asks for removal. */
  lemma {:induction false} SweepKeepsOthers(ss: seq<Session>, e: RawSweep, n: nat)
    requires n <= |ss|
    ensures forall k | 0 <= k < n && !Dropped(ss, e, k) :: After(ss, e, k) in Swept(ss, e, n)
    decreases n
  {
    if n > 0 {
      SweepKeepsOthers(ss, e, n - 1);
      var before, after := Swept(ss, e, n - 1), Swept(ss, e, n);
      assert forall s | s in before :: s in after;
    }
  }

  /** And none comes in. */
  lemma {:induction false} SweepAddsNone(ss: seq<Session>, e: RawSweep, n: nat)
    requires n <= |ss|
    ensures |Swept(ss, e, n)| == |Where(Stays(ss, e), n)|
    decreases n
  {
    if n > 0 {
      SweepAddsNone(ss, e, n - 1);
      WhereStep(Stays(ss, e), n);
    }
  }

  /** An event of one socket changes the session that holds it and no other. */
  lemma ReadyIsLocal(ss: seq<Session>, k: nat, e: SocketEvent, error: bool, now: int, r: Recv, ok: bool)
    requires k < |ss|
    ensures var after := TableStep(ss, TcpReady(k, e));
            OnlyAt(ss, after, k) && (ss[k].Tcp? ==> after[k] == Tcp(ss[k].key, Step(ss[k].t, FromSocket(e))))
    ensures var after := TableStep(ss, UdpReady(k, error, now, r, ok));
            OnlyAt(ss, after, k) &&
            (ss[k].Udp? ==> after[k] == Udp(ss[k].key, UdpStep(ss[k].u, Answer(error, now, r, ok))))
  {
  }

  /** An ICMP session comes in front; an event of its socket is noted, and one that stops it stops it for good. */
  lemma IcmpEvents(ss: seq<Session>, icb: Icb, k: nat, now: int, stop: bool)
    ensures var after := TableStep(ss, IcmpArrives(icb)); after != [] && after[0] == Icmp(icb) && after[1..] == ss
    ensures k < |ss| ==>
              var after := TableStep(ss, IcmpReady(k, now, stop));
              && OnlyAt(ss, after, k)
              && (ss[k].Icmp? ==> after[k] == Icmp(Icb(now, ss[k].i.stop || stop, ss[k].i.socket)))
              && (!ss[k].Icmp? ==> after[k] == ss[k])
  {
    assert ([Icmp(icb)] + ss)[1..] == ss;
  }
}
