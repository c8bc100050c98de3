/** What every run of the event loop keeps about the table of sessions, and when sessions leave it. */
module TableSafety {
  import opened TcpModel
  import opened TcpSafety
  import opened SessionModel

  /** One TCP and one UDP session at most per flow. */
  predicate Unique(ss: seq<Session>) {
    forall i, j | 0 <= i < j < |ss| :: !SameFlow(ss[i], ss[j])
  }

  /** A UDP session that is done, and every TCP session by its own invariant, does not hold a socket it should not. */
  predicate SessionInv(s: Session) {
    match s
    case Tcp(_, t) => SocketInv(t)
    case Udp(_, u) => u.state == CLOSED || u.state == BLOCKED ==> u.socket == -1
    case Icmp(_) => true
  }

  predicate TableInv(ss: seq<Session>) {
    Unique(ss) && forall s | s in ss :: SessionInv(s)
  }

  predicate SameName(a: Session, b: Session) {
    (a.Tcp? && b.Tcp? && a.key == b.key) || (a.Udp? && b.Udp? && a.key == b.key) || (a.Icmp? && b.Icmp?)
  }

  // ----- lookup -----

  /** The lookup finds the only session of the flow, or there is none. */
  lemma {:induction false} FindIsUnique(ss: seq<Session>, probe: Session)
    requires !probe.Icmp?
    ensures Find(ss, probe) <= |ss|
    ensures Find(ss, probe) < |ss| ==> SameFlow(ss[Find(ss, probe)], probe)
    ensures forall j | 0 <= j < Find(ss, probe) :: !SameFlow(ss[j], probe)
    ensures Unique(ss) ==> forall j | 0 <= j < |ss| && SameFlow(ss[j], probe) :: j == Find(ss, probe)
  {
    if ss != [] && !SameFlow(ss[0], probe) {
      FindIsUnique(ss[1..], probe);
      assert forall j | 1 <= j < |ss| :: ss[j] == ss[1..][j - 1];
    }
    if Unique(ss) {
      var k := Find(ss, probe);
      forall j | 0 <= j < |ss| && SameFlow(ss[j], probe) ensures j == k {
        if j != k { assert SameFlow(ss[k], ss[j]); }
      }
    }
  }

  // ----- the steps -----

  lemma ReplaceKeeps(ss: seq<Session>, k: nat, s: Session)
    requires TableInv(ss) && k < |ss| && SameName(ss[k], s) && SessionInv(s)
    ensures TableInv(ss[k := s])
  {
    var r := ss[k := s];
    forall i, j | 0 <= i < j < |r| ensures !SameFlow(r[i], r[j]) {
      assert !SameFlow(ss[i], ss[j]);
    }
  }

  lemma PrependKeeps(ss: seq<Session>, s: Session)
    requires TableInv(ss) && SessionInv(s) && forall j | 0 <= j < |ss| :: !SameFlow(ss[j], s)
    ensures TableInv([s] + ss)
  {
    var r := [s] + ss;
    forall i, j | 0 <= i < j < |r| ensures !SameFlow(r[i], r[j]) {
      assert r[j] == ss[j - 1];
      if i > 0 { assert r[i] == ss[i - 1]; }
    }
  }

  lemma CheckedKeeps(s: Session, now: int, l: LoadOk, ok: bool)
    requires SessionInv(s)
    ensures SameName(s, Checked(s, now, l, ok)) && SessionInv(Checked(s, now, l, ok))
    ensures Deleted(Checked(s, now, l, ok), now, l) ==> HoldsNoSocket(Checked(s, now, l, ok))
  {
    if s.Tcp? { SweepAdvances(s.t, now, l, ok); }
  }

  predicate HoldsNoSocket(s: Session) { SocketOf(s) == -1 }

  /** The sweep keeps a subsequence: at most one kept session per old one, in the old order. */
  lemma {:induction false} SweptKeeps(ss: seq<Session>, e: RawSweep, n: nat)
    requires TableInv(ss) && n <= |ss|
    ensures TableInv(Swept(ss, e, n))
    ensures forall s | s in Swept(ss, e, n) :: exists k :: 0 <= k < n && SameName(ss[k], s)
  {
    if n > 0 {
      SweptKeeps(ss, e, n - 1);
      CheckedKeeps(ss[n - 1], e.clock(n - 1), e.load, e.ok(n - 1));
      var s := After(ss, e, n - 1);
      var r := Swept(ss, e, n - 1);
      forall i | 0 <= i < |r| ensures !SameFlow(r[i], s) {
        assert r[i] in r;
        var k :| 0 <= k < n - 1 && SameName(ss[k], r[i]);
        assert !SameFlow(ss[k], ss[n - 1]);
      }
      assert SameName(ss[n - 1], s);
      forall x | x in r ensures exists k :: 0 <= k < n && SameName(ss[k], x) {
        var k :| 0 <= k < n - 1 && SameName(ss[k], x);
      }
    }
  }

  lemma TerminatedKeeps(s: Session, ok: bool)
    requires SessionInv(s)
    ensures SameName(s, Terminated(s, ok)) && SessionInv(Terminated(s, ok))
    ensures Forbidden(s) ==> HoldsNoSocket(s)
  {
    if s.Tcp? { RstAdvances(s.t, ok); }
  }

  lemma {:induction false} AllowedKeeps(ss: seq<Session>, ok: nat -> bool, n: nat)
    requires TableInv(ss) && n <= |ss|
    ensures TableInv(Allowed(ss, ok, n))
    ensures forall s | s in Allowed(ss, ok, n) :: exists k :: 0 <= k < n && SameName(ss[k], s)
  {
    if n > 0 {
      AllowedKeeps(ss, ok, n - 1);
      TerminatedKeeps(ss[n - 1], ok(n - 1));
      var s := Terminated(ss[n - 1], ok(n - 1));
      var r := Allowed(ss, ok, n - 1);
      forall i | 0 <= i < |r| ensures !SameFlow(r[i], s) {
        assert r[i] in r;
        var k :| 0 <= k < n - 1 && SameName(ss[k], r[i]);
        assert !SameFlow(ss[k], ss[n - 1]);
      }
      assert SameName(ss[n - 1], s);
      forall x | x in r ensures exists k :: 0 <= k < n && SameName(ss[k], x) {
        var k :| 0 <= k < n - 1 && SameName(ss[k], x);
      }
    }
  }

  lemma WatchedKeeps(s: Session, m: MonitorInput)
    requires SessionInv(s)
    ensures SameName(s, Watched(s, m)) && SessionInv(Watched(s, m))
  {
    if s.Tcp? && s.t.socket >= 0 { MonitorAdvances(s.t, m); }
  }

  lemma {:induction false} WatchAllKeeps(ss: seq<Session>, m: nat -> MonitorInput, n: nat)
    requires TableInv(ss) && n <= |ss|
    ensures TableInv(WatchedAll(ss, m, n))
    ensures forall k | 0 <= k < n :: SameName(ss[k], WatchedAll(ss, m, n)[k])
  {
    if n > 0 {
      WatchAllKeeps(ss, m, n - 1);
      WatchedKeeps(ss[n - 1], m(n - 1));
      var r := WatchedAll(ss, m, n - 1);
      forall i | 0 <= i < |r| ensures !SameFlow(r[i], Watched(ss[n - 1], m(n - 1))) {
        assert SameName(ss[i], r[i]) && !SameFlow(ss[i], ss[n - 1]);
      }
    }
  }

  lemma TcpInKeeps(ss: seq<Session>, key: Key, p: Packet, i: TunInput, birth: Birth, gotSocket: bool)
    requires TableInv(ss)
    ensures TableInv(TcpPacketIn(ss, key, p, i, birth, gotSocket))
  {
    var created := Tcp(key, NewSession(birth.(p := p, dest := key.dest)));
    FindIsUnique(ss, created);
    var k := Find(ss, created);
    if k < |ss| {
      assert ss[k] in ss;
      PacketAdvances(ss[k].t, p, i);
      ReplaceKeeps(ss, k, ss[k].(t := HandlePacket(ss[k].t, p, i)));
    } else {
      PrependKeeps(ss, created);
    }
  }

  lemma UdpInKeeps(ss: seq<Session>, key: Key, now: int, socket: int, dhcp: bool, len: nat, result: UdpSend)
    requires TableInv(ss)
    ensures TableInv(UdpPacketIn(ss, key, now, socket, dhcp, len, result))
  {
    var u := Udb(key.dest, now, ACTIVE, socket, 0, 0);
    FindIsUnique(ss, Udp(key, u));
    var k := Find(ss, Udp(key, u));
    if k < |ss| {
      assert ss[k] in ss;
      ReplaceKeeps(ss, k, ss[k].(u := UdpPacket(ss[k].u, now, dhcp, len, result)));
    } else {
      PrependKeeps(ss, Udp(key, UdpPacket(u, now, dhcp, len, result)));
    }
  }

  lemma TableStepKeeps(ss: seq<Session>, ev: TableEvent)
    requires TableInv(ss)
    ensures TableInv(TableStep(ss, ev))
  {
    match ev
    case TcpArrives(key, p, i, birth, gotSocket) => TcpInKeeps(ss, key, p, i, birth, gotSocket);
    case UdpArrives(key, now, socket, dhcp, len, result) => UdpInKeeps(ss, key, now, socket, dhcp, len, result);
    case IcmpArrives(i) => PrependKeeps(ss, Icmp(i));
    case TcpReady(k, e) =>
      if k < |ss| && ss[k].Tcp? {
        assert ss[k] in ss;
        CheckSocketAdvances(ss[k].t, e);
        ReplaceKeeps(ss, k, ss[k].(t := CheckSocket(ss[k].t, e)));
      }
    case UdpReady(k, error, now, r, ok) =>
      if k < |ss| && ss[k].Udp? && ss[k].u.socket >= 0 {
        assert ss[k] in ss;
        ReplaceKeeps(ss, k, ss[k].(u := UdpSocket(ss[k].u, error, now, r, ok)));
      }
    case IcmpReady(k, now, stop) =>
      if k < |ss| && ss[k].Icmp? {
        ReplaceKeeps(ss, k, Icmp(ss[k].i.(time := now, stop := ss[k].i.stop || stop)));
      }
    case WatchAll(m) => WatchAllKeeps(ss, m, |ss|);
    case SweepAll(e) => SweptKeeps(ss, e, |ss|);
    case CheckAllowed(ok) => AllowedKeeps(ss, ok, |ss|);
  }

  lemma {:induction false} TableRunKeeps(ss: seq<Session>, evs: seq<TableEvent>)
    requires TableInv(ss)
    ensures TableInv(TableRun(ss, evs))
    decreases |evs|
  {
    if evs != [] {
      TableStepKeeps(ss, evs[0]);
      TableRunKeeps(TableStep(ss, evs[0]), evs[1..]);
    }
  }

  /** Over every run from the empty table: lookups are unambiguous, and no sweep and no check_allowed ever
      unlinks a session that still holds a socket. */
  lemma TableIsSafe(evs: seq<TableEvent>, e: RawSweep)
    ensures var ss := TableRun([], evs);
            && (forall i, j | 0 <= i < j < |ss| :: ss[i].Tcp? && ss[j].Tcp? ==> ss[i].key != ss[j].key)
            && (forall i, j | 0 <= i < j < |ss| :: ss[i].Udp? && ss[j].Udp? ==> ss[i].key != ss[j].key)
            && (forall k | 0 <= k < |ss| && Dropped(ss, e, k) :: HoldsNoSocket(After(ss, e, k)))
            && (forall k | 0 <= k < |ss| && Forbidden(ss[k]) :: HoldsNoSocket(ss[k]))
  {
    TableRunKeeps([], evs);
    var ss := TableRun([], evs);
    forall i, j | 0 <= i < j < |ss| ensures !SameFlow(ss[i], ss[j]) { }
    forall k | 0 <= k < |ss|
      ensures Dropped(ss, e, k) ==> HoldsNoSocket(After(ss, e, k))
      ensures Forbidden(ss[k]) ==> HoldsNoSocket(ss[k])
    {
      assert ss[k] in ss;
      CheckedKeeps(ss[k], e.clock(k), e.load, e.ok(k));
      TerminatedKeeps(ss[k], true);
    }
  }
}
