/** What the kernel takes of the app's bytes, against what the session records as sent. */
module TcpSends {
  import opened Serial
  import opened TcpModel
  import opened TcpSequence
  import opened TcpStream

  // ----- one loop -----

  /** What the kernel takes of len bytes when send() returns ret. */
  function Accepted(ret: ssize, len: u16): (n: nat)
    ensures n <= len
  {
    if ret < 0 then 0 else Min(ret, len)
  }

  function Owed(q: Piece): (len: u16) { q.len - q.sent }

  /** The bytes the kernel takes of a piece. */
  function Part(q: Piece, ret: ssize): (bytes: seq<byte>)
    ensures |bytes| == Accepted(ret, Owed(q))
  {
    q.data[q.sent..q.sent + Accepted(ret, Owed(q))]
  }

  /** What the kernel takes during the whole loop. */
  function AcceptedInLoop(t: Tcb, room: int, sends: nat -> ssize, k: nat): seq<byte>
    decreases |t.forward|
  {
    if !HeadReady(t, room) then [] else
      var h := t.forward[0];
      var n := Clip(sends(k), Owed(h));
      Part(h, sends(k)) + if n == Owed(h) then AcceptedInLoop(Handed(t, n), room - n, sends, k + 1) else []
  }

  /** Some send() of the loop fails with bytes to send. */
  predicate Fails(t: Tcb, room: int, sends: nat -> ssize, k: nat)
    decreases |t.forward|
  {
    && HeadReady(t, room)
    && var len := Owed(t.forward[0]);
       var n := Clip(sends(k), len);
       (sends(k) < 0 && len > 0) || (n == len && Fails(Handed(t, n), room - n, sends, k + 1))
  }

  /** From before to after at least as much is recorded as the kernel took, and exactly that if nothing failed and only
      then. */
  predicate Tallies(before: seq<byte>, after: seq<byte>, taken: seq<byte>, fails: bool) {
    && |after| >= |before| + |taken|
    && (after == before + taken <==> !fails)
    && (|after| == |before| + |taken| <==> !fails)
  }

  /** The bytes recorded as sent are those the kernel took if and only if no send() fails: the comparison of the
      signed result with an unsigned length makes the loop record a failed send as a complete one. */
  lemma {:induction false} RecordedIsAccepted(t: Tcb, room: int, sends: nat -> ssize, k: nat, moved: bool)
    ensures Tallies(t.upstream, Drain(t, room, sends, k, moved).t.upstream, AcceptedInLoop(t, room, sends, k),
                    Fails(t, room, sends, k))
    decreases |t.forward|
  {
    if HeadReady(t, room) {
      var h := t.forward[0];
      var n := Clip(sends(k), Owed(h));
      var u := Handed(t, n);
      PartTallies(t.upstream, h, sends(k));
      if n == Owed(h) {
        RecordedIsAccepted(u, room - n, sends, k + 1, true);
        TalliesOn(t.upstream, u.upstream, Drain(u, room - n, sends, k + 1, true).t.upstream, Part(h, sends(k)),
                  AcceptedInLoop(u, room - n, sends, k + 1),
                  sends(k) < 0 && Owed(h) > 0, Fails(u, room - n, sends, k + 1));
      } else {
        assert Part(h, sends(k)) + [] == Part(h, sends(k));
      }
    }
  }

  lemma PartTallies(before: seq<byte>, q: Piece, ret: ssize)
    ensures Tallies(before, before + q.data[q.sent..q.sent + Clip(ret, Owed(q))], Part(q, ret), ret < 0 && Owed(q) > 0)
  {
  }

  lemma TalliesOn(a: seq<byte>, b: seq<byte>, c: seq<byte>, x: seq<byte>, y: seq<byte>, fails: bool, more: bool)
    requires Tallies(a, b, x, fails) && Tallies(b, c, y, more)
    ensures Tallies(a, c, x + y, fails || more)
  {
    assert a + x + y == a + (x + y);
  }

  /** What is handed over leaves the queue, and nothing else does. */
  lemma {:induction false} DrainCounts(t: Tcb, room: int, sends: nat -> ssize, k: nat, moved: bool)
    ensures var u := Drain(t, room, sends, k, moved).t;
            Unsent(u.forward) + |u.upstream| == Unsent(t.forward) + |t.upstream|
    decreases |t.forward|
  {
    if HeadReady(t, room) {
      var len: nat := t.forward[0].len - t.forward[0].sent;
      var n := Clip(sends(k), len);
      HandedCounts(t, n);
      if n == len { DrainCounts(Handed(t, n), room - n, sends, k + 1, true); }
    }
  }

  lemma HandedCounts(t: Tcb, n: nat)
    requires t.forward != [] && n <= t.forward[0].len - t.forward[0].sent
    ensures Unsent(Handed(t, n).forward) + n == Unsent(t.forward)
  {
    var u := Handed(t, n);
    if u.forward != t.forward[1..] { assert u.forward[1..] == t.forward[1..]; }
  }

  /** A segment that joins the queue adds its bytes, and one that repeats a number adds none. */
  lemma {:induction false} InsertCounts(f: seq<Piece>, n: Piece)
    ensures Unsent(Insert(f, n)) == Unsent(f) + if |Insert(f, n)| > |f| then n.len - n.sent else 0
    ensures |f| <= |Insert(f, n)| <= |f| + 1
    decreases |f|
  {
    if f == [] {
      assert [n][1..] == [];
    } else if CompareU32(f[0].seqNo, n.seqNo) < 0 {
      InsertCounts(f[1..], n);
      assert ([f[0]] + Insert(f[1..], n))[1..] == Insert(f[1..], n);
    } else if CompareU32(f[0].seqNo, n.seqNo) > 0 {
      assert ([n] + f)[1..] == f;
    } else if f[0].len < n.len {
      assert ([f[0].(data := n.data)] + f[1..])[1..] == f[1..];
    }
  }

  // ----- one step -----

  /** This event runs the send loop. */
  predicate Sends(t: Tcb, ev: Event) { ev.FromSocket? && !ev.e.error && t.state != LISTEN && ev.e.writable }

  function TakenInStep(t: Tcb, ev: Event): seq<byte> {
    if Sends(t, ev) then AcceptedInLoop(t, ReceiveBuffer(t.socket, ev.e.before), ev.e.sends, 0) else []
  }

  predicate StepFails(t: Tcb, ev: Event) {
    Sends(t, ev) && Fails(t, ReceiveBuffer(t.socket, ev.e.before), ev.e.sends, 0)
  }

  lemma StepTallies(t: Tcb, ev: Event)
    ensures Tallies(t.upstream, Step(t, ev).upstream, TakenInStep(t, ev), StepFails(t, ev))
  {
    if Sends(t, ev) {
      SocketUpstream(t, ev.e);
      RecordedIsAccepted(t, ReceiveBuffer(t.socket, ev.e.before), ev.e.sends, 0, false);
    } else {
      NothingSent(t, ev);
      assert t.upstream + [] == t.upstream;
    }
  }

  lemma NothingSent(t: Tcb, ev: Event)
    requires !Sends(t, ev)
    ensures Step(t, ev).upstream == t.upstream
  {
    match ev
    case FromTun(p, i) => PacketSendsNothing(t, p, i);
    case FromSocket(e) =>
      if !e.error && t.state != LISTEN { SocketUpstream(t, e); }
    case _ => QuietSameQueue(t, ev);
  }

  lemma PacketSendsNothing(t: Tcb, p: Packet, i: TunInput)
    ensures HandlePacket(t, p, i).upstream == t.upstream
  {
    var t1 := if t.conf.dest == HTTPS_PORT then SendConnect(t, i) else t;
    var t2 := Touch(t1, p, i.now);
    FlagsSameQueue(t2, p, i.writeOk);
    FlagsSameQueue(Queue(t2, p), p, i.writeOk);
  }

  // ----- whole runs -----

  function TakenInRun(t: Tcb, evs: seq<Event>): seq<byte>
    decreases |evs|
  {
    if evs == [] then [] else TakenInStep(t, evs[0]) + TakenInRun(Step(t, evs[0]), evs[1..])
  }

  predicate RunFails(t: Tcb, evs: seq<Event>)
    decreases |evs|
  {
    evs != [] && (StepFails(t, evs[0]) || RunFails(Step(t, evs[0]), evs[1..]))
  }

  lemma {:induction false} RunTallies(t: Tcb, evs: seq<Event>)
    ensures Tallies(t.upstream, Run(t, evs).upstream, TakenInRun(t, evs), RunFails(t, evs))
    decreases |evs|
  {
    if evs == [] {
      assert t.upstream + [] == t.upstream;
    } else {
      var u := Step(t, evs[0]);
      StepTallies(t, evs[0]);
      RunTallies(u, evs[1..]);
      TalliesOn(t.upstream, u.upstream, Run(u, evs[1..]).upstream, TakenInStep(t, evs[0]), TakenInRun(u, evs[1..]),
                StepFails(t, evs[0]), RunFails(u, evs[1..]));
    }
  }

  /** Over every run of UpstreamIsTheStream: what the kernel took, call by call, is the app's stream up to where the
      session takes it to be if and only if no send() of the run failed with bytes to send. */
  lemma KernelGetsTheStream(b: Birth, evs: seq<Event>, stream: seq<byte>)
    requires b.p.data == [] && GenuineRun(NewSession(b), evs, stream)
    requires TidyRun(NewSession(b), evs) && SkipFree(NewSession(b), evs)
    ensures var t := Run(NewSession(b), evs);
            |t.upstream| <= |stream| &&
            (TakenInRun(NewSession(b), evs) == stream[..|t.upstream|] <==> !RunFails(NewSession(b), evs))
  {
    UpstreamIsTheStream(b, evs, stream);
    RunTallies(NewSession(b), evs);
    assert [] + TakenInRun(NewSession(b), evs) == TakenInRun(NewSession(b), evs);
  }
}
