/** The TCP session of tcp.c on values: what one packet, one socket event, one sweep or one pass of the
    monitor does to a session. Results of system calls, clocks and random numbers are step inputs. */
module TcpModel {
  import opened Serial

  const INIT_TIMEOUT: int := 30
  const IDLE_TIMEOUT: int := 3600
  const CLOSE_TIMEOUT: int := 30
  const KEEP_TIMEOUT: int := 300
  const MIN_CHECK: int := 100

  const HTTP_PORT: u16 := 80
  const HTTPS_PORT: u16 := 443

  datatype State = LISTEN | SYN_RECV | ESTABLISHED | CLOSE_WAIT | FIN_WAIT1 | LAST_ACK | CLOSING | CLOSE

  /** The CONNECT request a port 443 session sends to its proxy. */
  datatype Connect = NotSent | Requested | Granted

  /** One node of the forward queue: `len` bytes are owed to the socket, `sent` of them already handed over.
      `data` can be longer than `len`, because a longer retransmission replaces the bytes and not the length. */
  datatype RawPiece = Piece(seqNo: u32, len: u16, sent: nat, psh: bool, data: seq<byte>)
  type Piece = p: RawPiece | p.sent <= p.len <= |p.data| witness Piece(0, 0, 0, false, [])

  /** A TCP segment as it arrives from the tun device, in host byte order. */
  datatype RawPacket = Packet(seqNo: u32, ackNo: u32, syn: bool, ack: bool, psh: bool, fin: bool, rst: bool,
                              urg: bool, window: u16, data: seq<byte>)
  type Packet = p: RawPacket | |p.data| < 0x1_0000
    witness Packet(0, 0, false, false, false, false, false, false, 0, [])

  /** A TCP segment written to the tun device. */
  datatype Out = Out(seqNo: u32, ackNo: u32, syn: bool, ack: bool, fin: bool, rst: bool, window: u16, data: seq<byte>)

  /** struct tcp_session with the socket and event mask of its ng_session, and three logs that only record:
      `upstream`, the queue bytes handed to send(); `taken`, the bytes received from the socket;
      `wire`, the segments written to tun. */
  datatype Tcb = Tcb(
    conf: Conf, recvWindow: u32, sendWindow: u32,
    remoteSeq: u32, localSeq: u32, acked: u32,
    lastKeepAlive: int, sent: nat, received: nat,
    state: State, forward: seq<Piece>, connect: Connect, time: int,
    socket: int, watch: Mask,
    upstream: seq<byte>, taken: seq<byte>, wire: seq<Out>)

  /** The fields of struct tcp_session that keep their first value. */
  datatype Conf = Conf(dest: u16, mss: u16, recvScale: byte, sendScale: byte, remoteStart: u32, localStart: u32)

  /** EPOLLIN and EPOLLOUT in the event mask; EPOLLERR is always in it. */
  datatype Mask = Mask(readable: bool, writable: bool)

  // ----- inputs from the environment -----

  type int32nat = x: int | 0 <= x < 0x8000_0000
  type ssize = x: int | -0x8000_0000_0000_0000 <= x < 0x8000_0000_0000_0000

  /** SO_SNDBUF and SIOCOUTQ of the session's socket. */
  datatype Buffers = Buffers(sndbuf: int32nat, unsent: int32nat)

  /** recv(): an error, transient for EINTR and EAGAIN, or the bytes waiting, of which the call takes a prefix. */
  datatype Recv = Failed(transient: bool) | Got(bytes: seq<byte>)

  /** `sends(k)` is what the k-th send() of this event returns; `ackOk` and `writeOk` say whether the
      acknowledgement and the last segment reached the tun device. */
  datatype SocketEvent = SocketEvent(error: bool, readable: bool, writable: bool, now: int,
                                     before: Buffers, after: Buffers, sends: nat -> ssize,
                                     recv: Recv, ackOk: bool, writeOk: bool)

  /** `named`: a host name is known for the CONNECT line; `connectSent`: what sending that line returns. */
  datatype TunInput = TunInput(now: int, named: bool, connectSent: ssize, writeOk: bool)

  datatype MonitorInput = MonitorInput(ms: int, buffers: Buffers, ackOk: bool, modOk: bool)

  // ----- windows -----

  function Pow2(n: nat): (r: nat)
    ensures r > 0
  {
    if n == 0 then 1 else 2 * Pow2(n - 1)
  }

  function Wrap32(x: nat): u32 { x % 0x1_0000_0000 }

  function Min(a: nat, b: nat): nat { if a < b then a else b }

  /** get_send_window */
  function SendWindow(t: Tcb): u32 {
    var behind: u32 := if CompareU32(t.acked, t.localSeq) <= 0 then Add32(t.localSeq, 0 - t.acked) else t.acked;
    if behind < t.sendWindow then t.sendWindow - behind else 0
  }

  /** get_receive_buffer */
  function ReceiveBuffer(socket: int, b: Buffers): int32nat {
    if socket < 0 then 0 else
      var sendbuf := if b.sndbuf == 0 then 16384 else b.sndbuf;
      if b.unsent < sendbuf / 2 then sendbuf / 2 - b.unsent else 0
  }

  /** Bytes in the queue not yet handed to the socket. */
  function Unsent(f: seq<Piece>): nat {
    if f == [] then 0 else f[0].len - f[0].sent + Unsent(f[1..])
  }

  /** get_receive_window from its counter `toforward` on */
  function WindowFor(toforward: u32, buffer: int32nat, scale: byte): u32 {
    var limit := Min(buffer, Wrap32(0xFFFF * Pow2(scale)));
    var window: u32 := if toforward < limit then limit - toforward else 0;
    if window / Pow2(scale) == 0 then 0 else window
  }

  function ReceiveWindow(t: Tcb, b: Buffers): u32 {
    WindowFor(Wrap32(Unsent(t.forward)), ReceiveBuffer(t.socket, b), t.conf.recvScale)
  }

  /** The 16 bits of the window field: recv_window >> recv_scale, cut by htons. */
  function WindowField(t: Tcb): u16 {
    t.recvWindow / Pow2(t.conf.recvScale) % 0x1_0000
  }

  // ----- writing segments -----

  /** write_tcp when the whole segment reached the tun device. */
  function Emit(t: Tcb, syn: bool, ack: bool, fin: bool, rst: bool, data: seq<byte>): Tcb {
    t.(wire := t.wire + [Out(t.localSeq, if ack then t.remoteSeq else 0, syn, ack, fin, rst, WindowField(t), data)])
  }

  /** write_syn_ack, write_ack, write_data, write_fin_ack: a short write closes the session. */
  function Write(t: Tcb, ok: bool, syn: bool, fin: bool, data: seq<byte>): Tcb {
    if ok then Emit(t, syn, true, fin, false, data) else t.(state := CLOSING)
  }

  function WriteAck(t: Tcb, ok: bool): Tcb { Write(t, ok, false, false, []) }

  function WriteRst(t: Tcb, ok: bool): Tcb {
    var t1 := if t.state == LISTEN then t.(remoteSeq := Add32(t.remoteSeq, 1)) else t;
    var t2 := if ok then Emit(t1, false, t.state == LISTEN, false, true, []) else t1;
    if t2.state != CLOSE then t2.(state := CLOSING) else t2
  }

  // ----- the forward queue -----

  /** queue_tcp past its first test: keep the list sorted, and keep the first of two equal segments
      (a longer one replaces the bytes but not the length). */
  function Insert(f: seq<Piece>, n: Piece): seq<Piece> {
    if f == [] then [n]
    else if CompareU32(f[0].seqNo, n.seqNo) < 0 then [f[0]] + Insert(f[1..], n)
    else if CompareU32(f[0].seqNo, n.seqNo) > 0 then [n] + f
    else if f[0].len < n.len then [f[0].(data := n.data)] + f[1..]
    else f
  }

  function PieceOf(p: Packet): Piece { Piece(p.seqNo, |p.data|, 0, p.psh, p.data) }

  /** queue_tcp */
  function Queue(t: Tcb, p: Packet): Tcb {
    if CompareU32(p.seqNo, t.remoteSeq) < 0 then t else t.(forward := Insert(t.forward, PieceOf(p)))
  }

  /** `sent > len ? len : sent` with sent a ssize_t and len a size_t: -1 compares as the largest size_t. */
  function Clip(sent: ssize, len: u16): (n: nat)
    ensures n <= len
  {
    var asSize := if sent < 0 then sent + 0x1_0000_0000_0000_0000 else sent;
    if asSize > len then len else sent
  }

  predicate HeadReady(t: Tcb, room: int) {
    && t.forward != []
    && Add32(t.forward[0].seqNo, t.forward[0].sent) == t.remoteSeq
    && t.forward[0].len - t.forward[0].sent < room
  }

  /** The queue after n bytes of its head were handed over: a finished head is unlinked. */
  function TakeFromHead(f: seq<Piece>, n: nat): seq<Piece>
    requires f != [] && n <= f[0].len - f[0].sent
  {
    if f[0].sent + n == f[0].len then f[1..] else [f[0].(sent := f[0].sent + n)] + f[1..]
  }

  /** One turn of the send loop, n bytes taken from the head of the queue. */
  function Handed(t: Tcb, n: nat): Tcb
    requires t.forward != [] && n <= t.forward[0].len - t.forward[0].sent
  {
    var h := t.forward[0];
    t.(sent := t.sent + n,
       remoteSeq := Add32(h.seqNo, h.sent + n),
       upstream := t.upstream + h.data[h.sent..h.sent + n],
       forward := TakeFromHead(t.forward, n))
  }

  datatype Drained = Drained(t: Tcb, moved: bool)

  /** The send loop of check_tcp_socket: the k-th send takes Clip(sends(k)) bytes and a partial one ends it. */
  function Drain(t: Tcb, room: int, sends: nat -> ssize, k: nat, moved: bool): Drained
    decreases |t.forward|
  {
    if !HeadReady(t, room) then Drained(t, moved) else
      var len: nat := t.forward[0].len - t.forward[0].sent;
      var n := Clip(sends(k), len);
      var t1 := Handed(t, n);
      if n == len then Drain(t1, room - n, sends, k + 1, true) else Drained(t1, true)
  }

  // ----- socket events: check_tcp_socket -----

  function Ascii(s: string): seq<byte> { seq(|s|, i requires 0 <= i < |s| => s[i] as int % 0x100) }

  predicate ProxyAccepted(reply: seq<byte>) {
    reply == Ascii("HTTP/1.0 200") || reply == Ascii("HTTP/1.1 200")
  }

  /** recv of at most `size` bytes; a closed descriptor fails for good. */
  function Receive(socket: int, r: Recv, size: nat): Recv {
    if socket < 0 then Failed(false)
    else if r.Got? && |r.bytes| > size then Got(r.bytes[..size])
    else r
  }

  function SendOn(socket: int, result: ssize): ssize { if socket < 0 then -1 else result }

  /** The answer to the CONNECT line, read 12 bytes at most. */
  function ProxyAnswer(t: Tcb, e: SocketEvent): Tcb {
    match Receive(t.socket, e.recv, 12)
    case Failed(_) => WriteRst(t, e.writeOk)
    case Got(reply) =>
      if t.connect != Requested then t
      else if ProxyAccepted(reply) then t.(connect := Granted, state := SYN_RECV)
      else WriteRst(t, e.writeOk)
  }

  /** The socket is connected: answer the SYN. */
  function Connected(t: Tcb, e: SocketEvent): Tcb {
    var t1 := t.(remoteSeq := Add32(t.remoteSeq, 1));
    var t2 := Write(t1, e.writeOk, true, false, []);
    if e.writeOk then t2.(time := e.now, localSeq := Add32(t.localSeq, 1), state := SYN_RECV) else t2
  }

  function SocketConnecting(t: Tcb, e: SocketEvent): Tcb {
    if e.readable then ProxyAnswer(t, e) else Connected(t, e)
  }

  /** The receive window is refreshed, and a zero window reopening or progress upstream is acknowledged. */
  function Acknowledge(t: Tcb, e: SocketEvent, moved: bool): Tcb {
    Refresh(t, ReceiveWindow(t, e.after), e, moved)
  }

  function Refresh(t: Tcb, window: u32, e: SocketEvent, moved: bool): Tcb {
    var t1 := t.(recvWindow := window);
    if moved || (t.recvWindow == 0 && window > 0) then
      var t2 := if moved && t.forward == [] && t.state == CLOSE_WAIT
                then t1.(remoteSeq := Add32(t.remoteSeq, 1)) else t1;
      var t3 := WriteAck(t2, e.ackOk);
      if e.ackOk then t3.(time := e.now) else t3
    else t1
  }

  /** End of file on the socket. */
  function RemoteClosed(t: Tcb, ok: bool): Tcb {
    var t1 :=
      if t.forward == [] then
        var t2 := Write(t, ok, false, true, []);
        var t3 := if ok then t2.(localSeq := Add32(t.localSeq, 1)) else t2;
        if t3.state == ESTABLISHED then t3.(state := FIN_WAIT1)
        else if t3.state == CLOSE_WAIT then t3.(state := LAST_ACK)
        else t3
      else WriteRst(t, ok);
    t1.(socket := -1)
  }

  /** Bytes read from the socket go to tun and advance local_seq unless the write falls short. */
  function Deliver(t: Tcb, bytes: seq<byte>, ok: bool): Tcb {
    var t1 := t.(received := t.received + |bytes|, taken := t.taken + bytes);
    var t2 := Write(t1, ok, false, false, bytes);
    if ok then t2.(localSeq := Add32(t.localSeq, |bytes|)) else t2
  }

  function ReadSocket(t: Tcb, e: SocketEvent): Tcb {
    var window := SendWindow(t);
    if e.readable && window > 0 then
      var t1 := t.(time := e.now);
      match Receive(t.socket, e.recv, Min(window, t.conf.mss))
      case Failed(transient) => if transient then t1 else WriteRst(t1, e.writeOk)
      case Got(bytes) => if bytes == [] then RemoteClosed(t1, e.writeOk) else Deliver(t1, bytes, e.writeOk)
    else t
  }

  predicate Open(s: State) { s == ESTABLISHED || s == CLOSE_WAIT }

  function Forwarded(t: Tcb, e: SocketEvent): Drained {
    if e.writable then Drain(t, ReceiveBuffer(t.socket, e.before), e.sends, 0, false) else Drained(t, false)
  }

  function CheckSocket(t: Tcb, e: SocketEvent): Tcb {
    if e.error then WriteRst(t.(time := e.now), e.writeOk)
    else if t.state == LISTEN then SocketConnecting(t, e)
    else
      var d := Forwarded(t, e);
      var t1 := Acknowledge(d.t, e, d.moved);
      if Open(t1.state) then ReadSocket(t1, e) else t1
  }

  // ----- packets of a known session: handle_tcp -----

  /** The CONNECT line goes out on the first packet after which a host name is known. */
  function SendConnect(t: Tcb, i: TunInput): Tcb {
    if t.connect != NotSent || !i.named then t
    else if SendOn(t.socket, i.connectSent) < 0 then WriteRst(t, i.writeOk)
    else t.(connect := Requested, state := LISTEN)
  }

  function Fin(t: Tcb, ok: bool): Tcb {
    if t.state == ESTABLISHED then
      if t.forward == [] then
        var t1 := WriteAck(t.(remoteSeq := Add32(t.remoteSeq, 1)), ok);
        if ok then t1.(state := CLOSE_WAIT) else t1
      else t.(state := CLOSE_WAIT)
    else if t.state == FIN_WAIT1 then
      var t1 := WriteAck(t.(remoteSeq := Add32(t.remoteSeq, 1)), ok);
      if ok then t1.(state := CLOSE) else t1
    else t
  }

  function Acked(t: Tcb, p: Packet): Tcb {
    var t1 := t.(acked := p.ackNo);
    if t.state == SYN_RECV then t1.(state := ESTABLISHED)
    else if t.state == LAST_ACK then t1.(state := CLOSING)
    else t1
  }

  /** An acknowledgement that is not exactly local_seq: keep alive, old, or of data never sent. */
  function OtherAck(t: Tcb, p: Packet, ok: bool): Tcb {
    if Add32(p.ackNo, 1) == t.localSeq then t
    else if CompareU32(p.ackNo, t.localSeq) < 0 then
      if CompareU32(p.ackNo, t.acked) <= 0 then t else t.(acked := p.ackNo)
    else WriteRst(t, ok)
  }

  function Flags(t: Tcb, p: Packet, ok: bool): Tcb {
    if p.rst then t.(state := CLOSING)
    else if !p.ack || p.ackNo == t.localSeq then
      if p.syn then t else if p.fin then Fin(t, ok) else if p.ack then Acked(t, p) else t
    else OtherAck(t, p, ok)
  }

  function Touch(t: Tcb, p: Packet, now: int): Tcb {
    t.(time := now, sendWindow := Wrap32(p.window * Pow2(t.conf.sendScale)))
  }

  function Segment(t: Tcb, p: Packet, i: TunInput): Tcb {
    if t.state == CLOSING || t.state == CLOSE then WriteRst(t, i.writeOk)
    else
      var t1 := Touch(t, p, i.now);
      if p.data != [] && (t.socket < 0 || t.state == CLOSE_WAIT) then WriteRst(t1, i.writeOk)
      else Flags(if p.data != [] then Queue(t1, p) else t1, p, i.writeOk)
  }

  function HandlePacket(t: Tcb, p: Packet, i: TunInput): Tcb {
    if p.urg then t
    else
      var t1 := if t.conf.dest == HTTPS_PORT then SendConnect(t, i) else t;
      if t.conf.dest == HTTPS_PORT && t1.connect != Granted then Queue(t1, p) else Segment(t1, p, i)
  }

  /** What is known when a SYN creates a session: the segment, its destination port and options, the random
      initial sequence number, the descriptor of the opened socket and the clock. */
  datatype Birth = Birth(p: Packet, dest: u16, mss: u16, scale: byte, isn: u32, socket: nat, now: int, b: Buffers)

  function NewSession(b: Birth): Tcb {
    var t := Tcb(Conf(b.dest, b.mss, b.scale, b.scale, b.p.seqNo, b.isn), 0, Wrap32(b.p.window * Pow2(b.scale)),
                 b.p.seqNo, b.isn, 0, 0, 0, 0,
                 LISTEN, if b.p.data == [] then [] else [PieceOf(b.p)],
                 if b.dest == HTTP_PORT then Granted else NotSent, b.now,
                 b.socket, Mask(false, true), [], [], []);
    t.(recvWindow := ReceiveWindow(t, b.b))
  }

  // ----- sweep: check_tcp_session -----

  /** C integer division, which truncates toward zero. */
  function CDiv(a: int, b: int): int
    requires b > 0
  {
    if a >= 0 then a / b else -((-a) / b)
  }

  /** A base timeout scaled down by the share of the session limit in use. */
  function Scaled(base: nat, sessions: nat, maxSessions: nat): int
    requires maxSessions > 0
  {
    CDiv(base * (100 - sessions * 100 / maxSessions), 100)
  }

  function BaseTimeout(s: State): nat {
    if s == LISTEN || s == SYN_RECV then INIT_TIMEOUT
    else if s == ESTABLISHED then IDLE_TIMEOUT
    else CLOSE_TIMEOUT
  }

  /** get_tcp_timeout */
  function Timeout(s: State, sessions: nat, maxSessions: nat): int
    requires maxSessions > 0
  {
    Scaled(BaseTimeout(s), sessions, maxSessions)
  }

  predicate Closed(s: State) { s == CLOSING || s == CLOSE }

  datatype Load = Load(sessions: nat, maxSessions: nat)
  type LoadOk = l: Load | l.maxSessions > 0 witness Load(0, 1)

  function Expire(t: Tcb, now: int, l: LoadOk, ok: bool): Tcb {
    if !Closed(t.state) && t.time + Timeout(t.state, l.sessions, l.maxSessions) < now then
      if t.state == LISTEN then t.(state := CLOSING) else WriteRst(t, ok)
    else t
  }

  function Finish(t: Tcb, now: int): Tcb {
    var t1 := if t.state == CLOSING then t.(socket := -1, time := now, state := CLOSE) else t;
    if Closed(t1.state) then t1.(sent := 0, received := 0) else t1
  }

  function CheckSession(t: Tcb, now: int, l: LoadOk, ok: bool): Tcb {
    Finish(Expire(t, now, l, ok), now)
  }

  /** check_tcp_session returns 1 */
  predicate Removable(t: Tcb, now: int) {
    t.state == CLOSE && t.time + KEEP_TIMEOUT < now
  }

  // ----- monitor_tcp_session, for a session whose socket is open -----

  function KeepAlive(t: Tcb, i: MonitorInput): Tcb {
    if i.ms - t.lastKeepAlive > MIN_CHECK then
      var t1 := t.(lastKeepAlive := i.ms, remoteSeq := Add32(t.remoteSeq, -1));
      WriteAck(t1, i.ackOk).(remoteSeq := t.remoteSeq)
    else t
  }

  /** epoll_ctl is called when the mask changes; a failure closes the session. */
  function SetMask(t: Tcb, watch: Mask, ok: bool): Tcb {
    if watch == t.watch then t
    else if ok then t.(watch := watch)
    else t.(watch := watch, state := CLOSING)
  }

  datatype Monitored = Monitored(t: Tcb, recheck: bool)

  function Monitor(t: Tcb, i: MonitorInput): Monitored {
    var waiting := t.state == LISTEN && t.connect == Requested && t.conf.dest == HTTPS_PORT;
    var window := SendWindow(t);
    var t1 := if Open(t.state) && window == 0 then KeepAlive(t, i) else t;
    var ready := Open(t.state) && HeadReady(t, ReceiveBuffer(t.socket, i.buffers));
    var watch := Mask(waiting || (Open(t.state) && window > 0), (t.state == LISTEN && !waiting) || ready);
    Monitored(SetMask(t1, watch, i.modOk), Open(t.state) && (window == 0 || (t.forward != [] && !ready)))
  }

  // ----- any step -----

  datatype Event =
    | FromTun(p: Packet, i: TunInput)
    | FromSocket(e: SocketEvent)
    | Sweep(now: int, load: LoadOk, ok: bool)
    | Watch(m: MonitorInput)
    | Terminate(writeOk: bool)  // check_allowed at the start of the event loop

  function Step(t: Tcb, ev: Event): Tcb {
    match ev
    case FromTun(p, i) => HandlePacket(t, p, i)
    case FromSocket(e) => CheckSocket(t, e)
    case Sweep(now, load, ok) => CheckSession(t, now, load, ok)
    case Watch(m) => if t.socket >= 0 then Monitor(t, m).t else t
    case Terminate(ok) => if Closed(t.state) then t else WriteRst(t, ok)
  }

  function Run(t: Tcb, evs: seq<Event>): Tcb
    decreases |evs|
  {
    if evs == [] then t else Run(Step(t, evs[0]), evs[1..])
  }
}
