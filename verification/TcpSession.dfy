/** struct tcp_session and struct segment of tun2http.h with the functions of tcp.c that update them in place.
    Every method is tied to the function of TcpModel that gives the new value of the session. */
module TcpSessions {
  import opened Serial
  import opened TcpModel
  import TcpSafety
  import TcpSequence

  /** What an event promises the owner of a session in state t that it leaves in state u: while the socket invariant
      holds it goes on to hold, and the session moves forward; and the sequence numbers keep their place if the event
      is tidy, which only port 443 has to care about. */
  predicate Keeps(t: Tcb, ev: Event, u: Tcb) {
    && (TcpSafety.SocketInv(t) ==> TcpSafety.Advances(t, u))
    && (TcpSafety.SocketInv(t) && TcpSequence.SeqInv(t) && TcpSequence.Tidy(t, ev) ==> TcpSequence.SeqInv(u))
  }

  lemma EventKeeps(t: Tcb, ev: Event)
    ensures Keeps(t, ev, Step(t, ev))
  {
    if TcpSafety.SocketInv(t) {
      TcpSafety.StepAdvances(t, ev);
      if TcpSequence.SeqInv(t) && TcpSequence.Tidy(t, ev) {
        TcpSequence.StepKeepsSeq(t, ev);
      }
    }
  }

  lemma PacketKeeps(t: Tcb, p: Packet, i: TunInput)
    ensures Keeps(t, FromTun(p, i), HandlePacket(t, p, i))
  {
    EventKeeps(t, FromTun(p, i));
  }

  lemma SocketKeeps(t: Tcb, e: SocketEvent)
    ensures Keeps(t, FromSocket(e), CheckSocket(t, e))
  {
    EventKeeps(t, FromSocket(e));
  }

  lemma SweepKeeps(t: Tcb, now: int, l: LoadOk, ok: bool)
    ensures Keeps(t, Sweep(now, l, ok), CheckSession(t, now, l, ok))
  {
    EventKeeps(t, Sweep(now, l, ok));
  }

  lemma MonitorKeeps(t: Tcb, i: MonitorInput)
    ensures t.socket >= 0 ==> Keeps(t, Watch(i), Monitor(t, i).t)
  {
    EventKeeps(t, Watch(i));
  }

  /** A new session starts with both invariants. */
  lemma NewKeeps(b: Birth)
    ensures TcpSafety.SocketInv(NewSession(b)) && TcpSequence.SeqInv(NewSession(b))
  {
  }

  /** struct segment: a node of the linked forward queue. */
  class Segment {
    const seqNo: u32
    const len: u16
    const psh: bool
    var sent: nat
    var data: seq<byte>
    var next: Segment?

    constructor (p: Packet, next: Segment?)
      ensures this.seqNo == p.seqNo && this.len == |p.data| && this.psh == p.psh
      ensures this.sent == 0 && this.data == p.data && this.next == next
    {
      this.seqNo, this.len, this.psh := p.seqNo, |p.data|, p.psh;
      this.sent, this.data, this.next := 0, p.data, next;
    }

    ghost function Value(): RawPiece
      reads this
    {
      RawPiece.Piece(seqNo, len, sent, psh, data)
    }
  }

  /** The linked list `forward` of a session. */
  class ForwardQueue {
    var head: Segment?
    ghost var nodes: seq<Segment>
    ghost var queue: seq<Piece>
    ghost var all: set<Segment>  // every node the list ever had

    static ghost function After(nodes: seq<Segment>, i: nat): Segment? {
      if i < |nodes| then nodes[i] else null
    }

    /** `from` heads a list of exactly these distinct nodes holding exactly these values. */
    static ghost predicate Linked(from: Segment?, nodes: seq<Segment>, queue: seq<Piece>)
      reads nodes
    {
      && |nodes| == |queue|
      && from == After(nodes, 0)
      && (forall i | 0 <= i < |nodes| :: nodes[i].Value() == queue[i])
      && (forall i {:trigger nodes[i].next} | 0 <= i < |nodes| :: nodes[i].next == After(nodes, i + 1))
      && (forall i, j | 0 <= i < j < |nodes| :: nodes[i] != nodes[j])
    }

    ghost predicate Valid()
      reads this, all
    {
      (forall i | 0 <= i < |nodes| :: nodes[i] in all) && Linked(head, nodes, queue)
    }

    /** The queue of a new session: empty, or the data of its SYN. */
    constructor (p: Packet)
      ensures Valid() && fresh(all) && queue == if p.data == [] then [] else [PieceOf(p)]
    {
      head, nodes, queue, all := null, [], [], {};
      new;
      if p.data != [] {
        var n := new Segment(p, null);
        head, nodes, queue, all := n, [n], [PieceOf(p)], {n};
      }
    }

    /** The counting loop of get_receive_window. */
    method ToForward() returns (toforward: u32)
      requires Valid()
      ensures toforward == Wrap32(Unsent(queue))
    {
      toforward := 0;
      var q := head;
      ghost var i := 0;
      ghost var total: nat := 0;
      while q != null
        invariant 0 <= i <= |nodes| && q == After(nodes, i)
        invariant toforward == Wrap32(total) && total + Unsent(queue[i..]) == Unsent(queue)
        decreases |nodes| - i
      {
        assert queue[i..][1..] == queue[i + 1..];
        var owed: nat := q.len - q.sent;
        WrapSum(total, owed);
        total := total + owed;
        toforward := Add32(toforward, owed);
        q := q.next;
        i := i + 1;
      }
    }

    static lemma WrapSum(a: nat, b: nat)
      ensures Add32(Wrap32(a), b) == Wrap32(a + b)
    {
    }

    /** The search of queue_tcp: the first node not before `seqNo` and the node in front of it. */
    method FindPlace(seqNo: u32) returns (prev: Segment?, s: Segment?, ghost i: nat)
      requires Valid()
      ensures i <= |nodes| && s == After(nodes, i) && prev == if i == 0 then null else nodes[i - 1]
      ensures forall j | 0 <= j < i :: CompareU32(queue[j].seqNo, seqNo) < 0
      ensures i < |nodes| ==> CompareU32(queue[i].seqNo, seqNo) >= 0
    {
      prev, s, i := null, head, 0;
      while s != null && CompareU32(s.seqNo, seqNo) < 0
        invariant i <= |nodes| && s == After(nodes, i)
        invariant prev == if i == 0 then null else nodes[i - 1]
        invariant forall j | 0 <= j < i :: CompareU32(queue[j].seqNo, seqNo) < 0
        decreases |nodes| - i
      {
        prev, s, i := s, s.next, i + 1;
      }
    }

    /** Splice a new node in front of s. */
    method Splice(p: Packet, prev: Segment?, s: Segment?, ghost i: nat)
      requires Valid()
      requires i <= |nodes| && s == After(nodes, i) && prev == if i == 0 then null else nodes[i - 1]
      modifies this, all
      ensures Valid() && queue == old(queue[..i] + [PieceOf(p)] + queue[i..])
      ensures fresh(all - old(all))
    {
      var n := new Segment(p, s);
      head, nodes, queue := LinkIn(head, prev, n, nodes, queue, i, PieceOf(p));
      all := all + {n};
    }

    /** Point at n, which leads on to node i. */
    static method LinkIn(from: Segment?, prev: Segment?, n: Segment, ghost nodes: seq<Segment>, ghost queue: seq<Piece>,
                         ghost i: nat, ghost q: Piece)
      returns (first: Segment, ghost nodes': seq<Segment>, ghost queue': seq<Piece>)
      requires Linked(from, nodes, queue) && i <= |nodes| && prev == if i == 0 then null else nodes[i - 1]
      requires n !in nodes && n.Value() == q && n.next == After(nodes, i)
      modifies nodes
      ensures Linked(first, nodes', queue') && queue' == queue[..i] + [q] + queue[i..]
      ensures forall k | 0 <= k < |nodes'| :: nodes'[k] == n || nodes'[k] in nodes
    {
      if prev == null {
        first := n;
      } else {
        first := from;
        prev.next := n;
      }
      assert forall k {:trigger nodes[k].next} | 0 <= k < |nodes| ::
          nodes[k].next == if k + 1 == i then n else After(nodes, k + 1);
      Spliced(nodes, queue, i, n, q);
      nodes', queue' := nodes[..i] + [n] + nodes[i..], queue[..i] + [q] + queue[i..];
    }

    /** A list whose node i - 1 was pointed at a new node that leads on to node i is linked again. */
    static lemma Spliced(was: seq<Segment>, wasQueue: seq<Piece>, i: nat, n: Segment, q: Piece)
      requires i <= |was| == |wasQueue| && n !in was && n.Value() == q && n.next == After(was, i)
      requires forall k | 0 <= k < |was| :: was[k].Value() == wasQueue[k]
      requires forall k {:trigger was[k].next} | 0 <= k < |was| ::
                 was[k].next == if k + 1 == i then n else After(was, k + 1)
      requires forall j, k | 0 <= j < k < |was| :: was[j] != was[k]
      ensures Linked(if i == 0 then n else was[0], was[..i] + [n] + was[i..], wasQueue[..i] + [q] + wasQueue[i..])
    {
      var nodes, queue := was[..i] + [n] + was[i..], wasQueue[..i] + [q] + wasQueue[i..];
      forall k | 0 <= k < |nodes| ensures nodes[k].Value() == queue[k] && nodes[k].next == After(nodes, k + 1) {
        if k < i {
          assert nodes[k] == was[k] && queue[k] == wasQueue[k];
        } else if k > i {
          assert nodes[k] == was[k - 1] && queue[k] == wasQueue[k - 1];
        }
      }
    }

    /** A longer segment replaces the bytes of the queued one, not its length. */
    method ReplaceData(data: seq<byte>, s: Segment, ghost i: nat)
      requires Valid() && i < |nodes| && s == nodes[i] && queue[i].len <= |data|
      modifies this`queue, all
      ensures Valid() && queue == old(queue[i := queue[i].(data := data)])
    {
      s.data := data;
      queue := queue[i := queue[i].(data := data)];
    }

    /** queue_tcp past its first test */
    method InsertPacket(p: Packet)
      requires Valid()
      modifies this, all
      ensures Valid() && queue == Insert(old(queue), PieceOf(p))
      ensures fresh(all - old(all))
    {
      var prev, s, i := FindPlace(p.seqNo);
      InsertAfterPrefix(queue, PieceOf(p), i);
      InsertHere(queue, PieceOf(p), i);
      if s == null || CompareU32(s.seqNo, p.seqNo) > 0 {
        Splice(p, prev, s, i);
      } else if s.seqNo == p.seqNo {
        if s.len < |p.data| {
          ReplaceData(p.data, s, i);
        }
      }
    }

    /** Insert passes over the pieces before the place it looks for. */
    static lemma {:induction false} InsertAfterPrefix(f: seq<Piece>, n: Piece, i: nat)
      requires i <= |f| && forall j | 0 <= j < i :: CompareU32(f[j].seqNo, n.seqNo) < 0
      ensures Insert(f, n) == f[..i] + Insert(f[i..], n)
      decreases i
    {
      if i == 0 {
        assert f[0..] == f && f[..0] + Insert(f, n) == Insert(f, n);
      } else {
        InsertAfterPrefix(f[1..], n, i - 1);
        var front, rest := f[1..][..i - 1], Insert(f[i..], n);
        assert f[1..][i - 1..] == f[i..];
        assert f[..i] == [f[0]] + front;
        Regroup([f[0]], front, rest);
      }
    }

    static lemma Regroup(a: seq<Piece>, b: seq<Piece>, c: seq<Piece>)
      ensures a + (b + c) == a + b + c
    {
    }

    static lemma InsertHere(f: seq<Piece>, n: Piece, i: nat)
      requires i <= |f| && Insert(f, n) == f[..i] + Insert(f[i..], n)
      ensures i == |f| || CompareU32(f[i].seqNo, n.seqNo) > 0 ==> Insert(f, n) == f[..i] + [n] + f[i..]
      ensures i < |f| && f[i].seqNo == n.seqNo ==>
                Insert(f, n) == if f[i].len < n.len then f[i := f[i].(data := n.data)] else f
    {
      if i == |f| {
        assert f[i..] == [] && Insert([], n) == [n];
        assert f[..i] + [n] == f[..i] + [n] + f[i..];
      } else {
        AtFront(f[i..], n);
        PutBetween(f, n, i);
        PutAt(f, if f[i].len < n.len then f[i].(data := n.data) else f[i], i);
      }
    }

    static lemma AtFront(g: seq<Piece>, n: Piece)
      requires g != []
      ensures CompareU32(g[0].seqNo, n.seqNo) > 0 ==> Insert(g, n) == [n] + g
      ensures g[0].seqNo == n.seqNo ==>
                Insert(g, n) == [if g[0].len < n.len then g[0].(data := n.data) else g[0]] + g[1..]
    {
    }

    static lemma PutBetween(f: seq<Piece>, n: Piece, i: nat)
      requires i <= |f|
      ensures f[..i] + ([n] + f[i..]) == f[..i] + [n] + f[i..]
    {
    }

    static lemma PutAt(f: seq<Piece>, q: Piece, i: nat)
      requires i < |f|
      ensures f[i..][0] == f[i] && f[..i] + ([q] + f[i..][1..]) == f[i := q]
      ensures f[i := f[i]] == f
    {
    }

    /** Count n more bytes of the head as sent, and unlink a finished head. */
    method TakeHead(n: nat) returns (finished: bool)
      requires Valid() && queue != [] && n <= queue[0].len - queue[0].sent
      modifies this, all
      ensures Valid() && queue == TakeFromHead(old(queue), n)
      ensures finished == (n == old(queue[0].len - queue[0].sent))
      ensures all == old(all)
    {
      head.sent := head.sent + n;
      finished := head.len == head.sent;
      queue := TakeFromHead(queue, n);
      if finished {
        head := head.next;
        nodes := nodes[1..];
      }
    }
  }

  class TcpSession {
    const conf: Conf
    const forward: ForwardQueue
    var recvWindow: u32
    var sendWindow: u32
    var remoteSeq: u32
    var localSeq: u32
    var acked: u32
    var lastKeepAlive: int
    var sent: nat
    var received: nat
    var state: State
    var connect: Connect
    var time: int
    var socket: int
    var watch: Mask

    // The logs of TcpModel.Tcb.
    ghost var upstream: seq<byte>
    ghost var taken: seq<byte>
    ghost var wire: seq<Out>

    ghost predicate Valid()
      reads this, forward, forward.all
    {
      forward.Valid()
    }

    /** The session as a value. */
    ghost function Model(): Tcb
      reads this, forward
    {
      Tcb(conf, recvWindow, sendWindow, remoteSeq, localSeq, acked, lastKeepAlive, sent, received, state,
          forward.queue, connect, time, socket, watch, upstream, taken, wire)
    }

    /** The session a SYN creates (handle_tcp). */
    constructor (b: Birth)
      ensures Valid() && fresh(forward) && fresh(forward.all) && Model() == NewSession(b)
    {
      conf := Conf(b.dest, b.mss, b.scale, b.scale, b.p.seqNo, b.isn);
      sendWindow := Wrap32(b.p.window * Pow2(b.scale));
      remoteSeq, localSeq, acked := b.p.seqNo, b.isn, 0;
      lastKeepAlive, sent, received := 0, 0, 0;
      state := LISTEN;
      connect := if b.dest == HTTP_PORT then Granted else NotSent;
      time, socket, watch := b.now, b.socket, Mask(false, true);
      forward := new ForwardQueue(b.p);
      upstream, taken, wire := [], [], [];
      recvWindow := 0;
      new;
      recvWindow := GetReceiveWindow(b.b);
    }

    /** get_receive_window */
    method GetReceiveWindow(b: Buffers) returns (window: u32)
      requires Valid()
      ensures window == ReceiveWindow(Model(), b)
    {
      var toforward := forward.ToForward();
      window := WindowFor(toforward, ReceiveBuffer(socket, b), conf.recvScale);
    }

    /** get_send_window */
    method GetSendWindow() returns (window: u32)
      requires Valid()
      ensures window == SendWindow(Model())
    {
      var behind: u32 := if CompareU32(acked, localSeq) <= 0 then Add32(localSeq, 0 - acked) else acked;
      window := if behind < sendWindow then sendWindow - behind else 0;
    }

    // ----- writing -----

    /** write_tcp; ok: the whole segment reached the tun device. */
    method WriteTcp(data: seq<byte>, syn: bool, ack: bool, fin: bool, rst: bool, ok: bool)
      requires Valid()
      modifies this`wire
      ensures Valid()
      ensures Model() == if ok then Emit(old(Model()), syn, ack, fin, rst, data) else old(Model())
    {
      if ok {
        wire := wire + [Out(localSeq, if ack then remoteSeq else 0, syn, ack, fin, rst, WindowField(Model()), data)];
      }
    }

    /** write_syn_ack, write_ack, write_data and write_fin_ack */
    method WriteOrClose(data: seq<byte>, syn: bool, fin: bool, ok: bool)
      requires Valid()
      modifies this`wire, this`state
      ensures Valid() && Model() == Write(old(Model()), ok, syn, fin, data)
    {
      WriteTcp(data, syn, true, fin, false, ok);
      if !ok {
        state := CLOSING;
      }
    }

    /** write_rst */
    method WriteReset(ok: bool)
      requires Valid()
      modifies this`wire, this`state, this`remoteSeq
      ensures Valid() && Model() == WriteRst(old(Model()), ok)
    {
      var ack := false;
      if state == LISTEN {
        ack := true;
        remoteSeq := Add32(remoteSeq, 1);
      }
      WriteTcp([], false, ack, false, true, ok);
      if state != CLOSE {
        state := CLOSING;
      }
    }

    // ----- the forward queue -----

    /** queue_tcp */
    method QueueTcp(p: Packet)
      requires Valid()
      modifies forward, forward.all
      ensures Valid() && Model() == Queue(old(Model()), p)
      ensures fresh(forward.all - old(forward.all))
    {
      if CompareU32(p.seqNo, remoteSeq) >= 0 {
        forward.InsertPacket(p);
      }
    }

    /** Account for n bytes of the head handed to the socket. */
    method HandOver(n: nat) returns (finished: bool)
      requires Valid() && forward.queue != [] && n <= forward.queue[0].len - forward.queue[0].sent
      modifies this`upstream, this`sent, this`remoteSeq, forward, forward.all
      ensures Valid() && Model() == Handed(old(Model()), n)
      ensures finished == (n == old(forward.queue[0].len - forward.queue[0].sent))
      ensures forward.all == old(forward.all)
    {
      var h := forward.head;
      assert h == forward.nodes[0] && h.Value() == forward.queue[0];
      upstream := upstream + h.data[h.sent..h.sent + n];
      sent := sent + n;
      remoteSeq := Add32(h.seqNo, h.sent + n);
      finished := forward.TakeHead(n);
    }

    /** The test of the send loop. */
    method Ready(room: int) returns (ready: bool)
      requires Valid()
      ensures ready == HeadReady(Model(), room)
    {
      var h := forward.head;
      ready := h != null && Add32(h.seqNo, h.sent) == remoteSeq && h.len - h.sent < room;
    }

    /** The send loop of check_tcp_socket. */
    method ForwardData(room: int, sends: nat -> ssize) returns (moved: bool)
      requires Valid()
      modifies this`upstream, this`sent, this`remoteSeq, forward, forward.all
      ensures Valid()
      ensures Drained(Model(), moved) == Drain(old(Model()), room, sends, 0, false)
      ensures forward.all == old(forward.all)
    {
      moved := false;
      var left := room;
      var k := 0;
      var ready := Ready(left);
      while ready
        invariant Valid() && forward.all == old(forward.all)
        invariant ready ==> HeadReady(Model(), left)
        invariant Drain(old(Model()), room, sends, 0, false) ==
                  if ready then Drain(Model(), left, sends, k, moved) else Drained(Model(), moved)
        decreases ready, |forward.queue|
      {
        left, ready := SendHead(left, sends, k, moved);
        moved, k := true, k + 1;
      }
    }

    /** One turn of the send loop. */
    method SendHead(room: int, sends: nat -> ssize, k: nat, ghost moved: bool) returns (left: int, ready: bool)
      requires Valid() && HeadReady(Model(), room)
      modifies this`upstream, this`sent, this`remoteSeq, forward, forward.all
      ensures Valid() && forward.all == old(forward.all)
      ensures ready ==> HeadReady(Model(), left) && |forward.queue| < old(|forward.queue|)
      ensures Drain(old(Model()), room, sends, k, moved) ==
              if ready then Drain(Model(), left, sends, k + 1, true) else Drained(Model(), true)
    {
      assert forward.head.Value() == forward.queue[0];
      var len: nat := forward.head.len - forward.head.sent;
      // A return below 0 compares as the largest size_t and is clipped like a long one, so the test
      // for a send error that follows in the source never succeeds.
      var n := Clip(sends(k), len);
      left := room - n;
      var finished := HandOver(n);
      if finished {
        ready := Ready(left);
      } else {
        ready := false;
      }
    }

    // ----- socket events -----

    /** The answer to the CONNECT line. */
    method ReadProxyAnswer(e: SocketEvent)
      requires Valid()
      modifies this
      ensures Valid() && Model() == ProxyAnswer(old(Model()), e)
    {
      var r := Receive(socket, e.recv, 12);
      match r
      case Failed(_) =>
        WriteReset(e.writeOk);
      case Got(reply) =>
        if connect == Requested {
          if ProxyAccepted(reply) {
            connect := Granted;
            state := SYN_RECV;
          } else {
            WriteReset(e.writeOk);
          }
        }
    }

    method AnswerSyn(e: SocketEvent)
      requires Valid()
      modifies this`remoteSeq, this`localSeq, this`wire, this`state, this`time
      ensures Valid() && Model() == Connected(old(Model()), e)
    {
      remoteSeq := Add32(remoteSeq, 1); // remote SYN
      WriteOrClose([], true, false, e.writeOk);
      if e.writeOk {
        SynAnswered(e.now);
      }
    }

    method SynAnswered(now: int)
      requires Valid()
      modifies this`localSeq, this`state, this`time
      ensures Valid()
      ensures Model() == old(Model()).(time := now, localSeq := Add32(old(localSeq), 1), state := SYN_RECV)
    {
      time := now;
      localSeq := Add32(localSeq, 1); // local SYN
      state := SYN_RECV;
    }

    /** Store the new receive window, and acknowledge if it reopened or something went upstream. */
    method StoreWindow(window: u32, e: SocketEvent, moved: bool)
      requires Valid()
      modifies this`recvWindow, this`remoteSeq, this`wire, this`state, this`time
      ensures Valid() && Model() == Refresh(old(Model()), window, e, moved)
    {
      var prev := recvWindow;
      recvWindow := window;
      if moved || (prev == 0 && window > 0) {
        if moved && forward.head == null && state == CLOSE_WAIT {
          remoteSeq := Add32(remoteSeq, 1); // remote FIN
        }
        AcknowledgeNow(e);
      }
    }

    method AcknowledgeNow(e: SocketEvent)
      requires Valid()
      modifies this`wire, this`state, this`time
      ensures Valid()
      ensures Model() == var t := WriteAck(old(Model()), e.ackOk); if e.ackOk then t.(time := e.now) else t
    {
      WriteOrClose([], false, false, e.ackOk);
      if e.ackOk {
        time := e.now;
      }
    }

    /** recv() returned 0 */
    method CloseRemote(ok: bool)
      requires Valid()
      modifies this`remoteSeq, this`localSeq, this`wire, this`state, this`socket
      ensures Valid() && Model() == RemoteClosed(old(Model()), ok)
    {
      if forward.head == null {
        WriteOrClose([], false, true, ok);
        if ok {
          localSeq := Add32(localSeq, 1); // local FIN
        }
        WaitForFin();
      } else {
        WriteReset(ok);
      }
      socket := -1;
    }

    method WaitForFin()
      requires Valid()
      modifies this`state
      ensures Valid()
      ensures Model() == old(Model()).(state := if old(state) == ESTABLISHED then FIN_WAIT1
                                               else if old(state) == CLOSE_WAIT then LAST_ACK else old(state))
    {
      if state == ESTABLISHED {
        state := FIN_WAIT1;
      } else if state == CLOSE_WAIT {
        state := LAST_ACK;
      }
    }

    /** Bytes received from the socket go to tun. */
    method DeliverBytes(bytes: seq<byte>, ok: bool)
      requires Valid()
      modifies this
      ensures Valid() && Model() == Deliver(old(Model()), bytes, ok)
    {
      received := received + |bytes|;
      taken := taken + bytes;
      WriteOrClose(bytes, false, false, ok);
      if ok {
        localSeq := Add32(localSeq, |bytes|);
      }
    }

    method ReadFromSocket(e: SocketEvent)
      requires Valid()
      modifies this
      ensures Valid() && Model() == ReadSocket(old(Model()), e)
    {
      var window := GetSendWindow();
      if e.readable && window > 0 {
        time := e.now;
        var r := Receive(socket, e.recv, Min(window, conf.mss));
        match r
        case Failed(transient) =>
          if !transient {
            WriteReset(e.writeOk);
          }
        case Got(bytes) =>
          if bytes == [] {
            CloseRemote(e.writeOk);
          } else {
            DeliverBytes(bytes, e.writeOk);
          }
      }
    }

    /** check_tcp_socket */
    method CheckTcpSocket(e: SocketEvent)
      requires Valid()
      modifies this, forward, forward.all
      ensures Valid() && forward.all == old(forward.all)
      ensures Model() == CheckSocket(old(Model()), e)
      ensures Keeps(old(Model()), FromSocket(e), Model())
    {
      SocketKeeps(Model(), e);
      if e.error {
        time := e.now;
        WriteReset(e.writeOk);
      } else if state == LISTEN {
        if e.readable {
          ReadProxyAnswer(e);
        } else {
          AnswerSyn(e);
        }
      } else {
        var moved := false;
        if e.writable {
          moved := ForwardData(ReceiveBuffer(socket, e.before), e.sends);
        }
        var window := GetReceiveWindow(e.after);
        StoreWindow(window, e, moved);
        if Open(state) {
          ReadFromSocket(e);
        }
      }
    }

    // ----- packets -----

    /** The CONNECT line of a port 443 session. */
    method Connect443(i: TunInput)
      requires Valid()
      modifies this
      ensures Valid() && Model() == SendConnect(old(Model()), i)
    {
      if connect == NotSent && i.named {
        if SendOn(socket, i.connectSent) < 0 {
          WriteReset(i.writeOk);
        } else {
          connect := Requested;
          state := LISTEN;
        }
      }
    }

    method HandleFin(ok: bool)
      requires Valid()
      modifies this
      ensures Valid() && Model() == Fin(old(Model()), ok)
    {
      if state == ESTABLISHED {
        if forward.head == null {
          remoteSeq := Add32(remoteSeq, 1); // remote FIN
          WriteOrClose([], false, false, ok);
          if ok {
            state := CLOSE_WAIT;
          }
        } else {
          state := CLOSE_WAIT;
        }
      } else if state == FIN_WAIT1 {
        remoteSeq := Add32(remoteSeq, 1); // remote FIN
        WriteOrClose([], false, false, ok);
        if ok {
          state := CLOSE;
        }
      }
    }

    /** The flags of a segment, in the order the source insists on. */
    method HandleFlags(p: Packet, ok: bool)
      requires Valid()
      modifies this
      ensures Valid() && Model() == Flags(old(Model()), p, ok)
    {
      if p.rst {
        state := CLOSING;
      } else if !p.ack || p.ackNo == localSeq {
        if p.syn {
        } else if p.fin {
          HandleFin(ok);
        } else if p.ack {
          acked := p.ackNo;
          if state == SYN_RECV {
            state := ESTABLISHED;
          } else if state == LAST_ACK {
            state := CLOSING;
          }
        }
      } else if Add32(p.ackNo, 1) == localSeq {
        // keep alive
      } else if CompareU32(p.ackNo, localSeq) < 0 {
        if CompareU32(p.ackNo, acked) > 0 {
          acked := p.ackNo;
        }
      } else {
        WriteReset(ok);
      }
    }

    method TouchSession(p: Packet, now: int)
      requires Valid()
      modifies this
      ensures Valid() && Model() == Touch(old(Model()), p, now)
    {
      time := now;
      sendWindow := Wrap32(p.window * Pow2(conf.sendScale));
    }

    method HandleSegment(p: Packet, i: TunInput)
      requires Valid()
      modifies this, forward, forward.all
      ensures Valid() && fresh(forward.all - old(forward.all))
      ensures Model() == TcpModel.Segment(old(Model()), p, i)
    {
      if state == CLOSING || state == CLOSE {
        WriteReset(i.writeOk);
      } else {
        TouchSession(p, i.now);
        if p.data != [] && (socket < 0 || state == CLOSE_WAIT) {
          WriteReset(i.writeOk);
        } else {
          if p.data != [] {
            QueueTcp(p);
          }
          HandleFlags(p, i.writeOk);
        }
      }
    }

    /** handle_tcp for a session already in the table */
    method HandleTcp(p: Packet, i: TunInput)
      requires Valid()
      modifies this, forward, forward.all
      ensures Valid() && fresh(forward.all - old(forward.all))
      ensures Model() == HandlePacket(old(Model()), p, i)
      ensures Keeps(old(Model()), FromTun(p, i), Model())
    {
      PacketKeeps(Model(), p, i);
      if !p.urg {
        if conf.dest == HTTPS_PORT {
          Connect443(i);
        }
        if conf.dest == HTTPS_PORT && connect != Granted {
          QueueTcp(p);
        } else {
          HandleSegment(p, i);
        }
      }
    }

    // ----- sweep and monitor -----

    /** The timeout test of check_tcp_session. */
    method ExpireIdle(now: int, l: LoadOk, ok: bool)
      requires Valid()
      modifies this
      ensures Valid() && Model() == Expire(old(Model()), now, l, ok)
    {
      var timeout := Timeout(state, l.sessions, l.maxSessions);
      if state != CLOSING && state != CLOSE && time + timeout < now {
        if state == LISTEN {
          state := CLOSING;
        } else {
          WriteReset(ok);
        }
      }
    }

    method CloseSocket(now: int)
      requires Valid()
      modifies this`socket, this`time, this`state
      ensures Valid() && Model() == old(Model()).(socket := -1, time := now, state := CLOSE)
    {
      socket := -1;
      time := now;
      state := CLOSE;
    }

    /** The rest of check_tcp_session: close the socket of a closing session. */
    method FinishClosing(now: int)
      requires Valid()
      modifies this`socket, this`time, this`state, this`sent, this`received
      ensures Valid() && Model() == Finish(old(Model()), now)
    {
      if state == CLOSING {
        CloseSocket(now);
      }
      if (state == CLOSING || state == CLOSE) && (sent != 0 || received != 0) {
        sent := 0;
        received := 0;
      }
    }

    /** check_tcp_session */
    method CheckTcpSession(now: int, l: LoadOk, ok: bool) returns (remove: bool)
      requires Valid()
      modifies this
      ensures Valid() && Model() == CheckSession(old(Model()), now, l, ok)
      ensures Keeps(old(Model()), Sweep(now, l, ok), Model())
      ensures remove == Removable(Model(), now)
      ensures remove && TcpSafety.SocketInv(old(Model())) ==> socket == -1
    {
      SweepKeeps(Model(), now, l, ok);
      ExpireIdle(now, l, ok);
      FinishClosing(now);
      remove := state == CLOSE && time + KEEP_TIMEOUT < now;
    }

    /** The keep alive of monitor_tcp_session: an acknowledgement one short. */
    method SendKeepAlive(i: MonitorInput)
      requires Valid()
      modifies this
      ensures Valid() && Model() == KeepAlive(old(Model()), i)
    {
      if i.ms - lastKeepAlive > MIN_CHECK {
        lastKeepAlive := i.ms;
        ghost var expected := remoteSeq;
        remoteSeq := Add32(remoteSeq, -1);
        WriteOrClose([], false, false, i.ackOk);
        remoteSeq := Add32(remoteSeq, 1);
        assert remoteSeq == expected;
      }
    }

    /** epoll_ctl when the event mask changes; ok: it succeeded. */
    method UpdateMask(events: Mask, ok: bool)
      requires Valid()
      modifies this`watch, this`state
      ensures Valid() && Model() == SetMask(old(Model()), events, ok)
    {
      if events != watch {
        watch := events;
        if !ok {
          state := CLOSING;
        }
      }
    }

    /** monitor_tcp_session */
    method MonitorTcpSession(i: MonitorInput) returns (recheck: bool)
      requires Valid()
      modifies this
      ensures Valid() && Monitored(Model(), recheck) == Monitor(old(Model()), i)
      ensures old(socket) >= 0 ==> Keeps(old(Model()), Watch(i), Model())
    {
      MonitorKeeps(Model(), i);
      recheck := false;
      var events := Mask(false, false);
      if state == LISTEN {
        events := if connect == Requested && conf.dest == HTTPS_PORT then Mask(true, false) else Mask(false, true);
      } else if Open(state) {
        var ready := Ready(ReceiveBuffer(socket, i.buffers));
        var window := GetSendWindow();
        if window > 0 {
          events := Mask(true, false);
        } else {
          recheck := true;
          SendKeepAlive(i);
        }
        if forward.head != null {
          if ready {
            events := events.(writable := true);
          } else {
            recheck := true;
          }
        }
      }
      UpdateMask(events, i.modOk);
    }
  }
}
