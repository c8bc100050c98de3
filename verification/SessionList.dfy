/** The global list `ng_session` of session.c as a linked list updated in place. */
module SessionLists {
  import opened TcpModel
  import opened SessionModel

  class Node {
    var s: Session
    var next: Node?

    constructor (s: Session, next: Node?)
      ensures this.s == s && this.next == next
    {
      this.s, this.next := s, next;
    }
  }

  class SessionList {
    var head: Node?
    ghost var nodes: seq<Node>
    ghost var values: seq<Session>
    ghost var live: set<Node>  // allocated and not yet freed

    static ghost function NodeAt(nodes: seq<Node>, i: nat): Node? {
      if i < |nodes| then nodes[i] else null
    }

    static ghost predicate Linked(from: Node?, nodes: seq<Node>, values: seq<Session>)
      reads nodes
    {
      && |nodes| == |values|
      && from == NodeAt(nodes, 0)
      && (forall i | 0 <= i < |nodes| :: nodes[i].s == values[i])
      && (forall i {:trigger nodes[i].next} | 0 <= i < |nodes| :: nodes[i].next == NodeAt(nodes, i + 1))
      && (forall i, j | 0 <= i < j < |nodes| :: nodes[i] != nodes[j])
    }

    /** The list is linked, and what is allocated is exactly what is in it (its nodes are distinct and as many):
        nothing leaked, nothing dangling. */
    ghost predicate Valid()
      reads this, live
    {
      && (forall i | 0 <= i < |nodes| :: nodes[i] in live)
      && |live| == |nodes|
      && Linked(head, nodes, values)
    }

    /** init */
    constructor ()
      ensures Valid() && values == []
    {
      head, nodes, values, live := null, [], [], {};
    }

    /** malloc and the two assignments that put a session at the head of the list */
    method Prepend(s: Session)
      requires Valid()
      modifies this
      ensures Valid() && fresh(live - old(live)) && values == [s] + old(values)
    {
      var n := new Node(s, head);
      Pushed(head, nodes, values, n);
      assert n !in live;
      head := n;
      nodes, values, live := [n] + nodes, [s] + values, live + {n};
    }

    static lemma Pushed(from: Node?, nodes: seq<Node>, values: seq<Session>, n: Node)
      requires Linked(from, nodes, values) && n !in nodes && n.next == from
      ensures Linked(n, [n] + nodes, [n.s] + values)
    {
      var longer := [n] + nodes;
      assert longer[0] == n;
      forall i | 0 <= i < |longer|
        ensures longer[i].next == NodeAt(longer, i + 1) && longer[i].s == ([n.s] + values)[i]
      {
        if i > 0 { assert longer[i] == nodes[i - 1]; }
      }
    }

    /** free(): only what is allocated may be freed */
    ghost method Free(n: Node)
      requires n in live
      modifies this`live
      ensures live == old(live) - {n}
    {
      live := live - {n};
    }

    /** Change the session in the node after `done`. */
    method Update(s: Node, v: Session, ghost done: seq<Session>, ghost rest: seq<Session>)
      requires Valid() && |done| < |nodes| && s == nodes[|done|] && values == done + [s.s] + rest
      modifies this`values, s
      ensures Valid() && values == done + [v] + rest && s.next == old(s.next) && s.s == v
    {
      s.s := v;
      values := done + [v] + rest;
    }

    /** Take the node after `done` out of the list and free it. */
    method Unlink(prev: Node?, s: Node, ghost done: seq<Session>, ghost rest: seq<Session>)
      requires Valid() && |done| < |nodes| && s == nodes[|done|] && prev == NodeBefore(|done|)
      requires values == done + [s.s] + rest
      modifies this, live
      ensures Valid() && live == old(live) - {s} && values == done + rest
      ensures nodes == old(nodes)[..|done|] + old(nodes)[|done| + 1..]
    {
      ghost var at := |done|;
      assert values[..at] + values[at + 1..] == done + rest;
      head := Bypass(head, prev, s, nodes, values, at);
      nodes, values := nodes[..at] + nodes[at + 1..], done + rest;
      Free(s);
    }

    /** Point past node `at`. */
    static method Bypass(from: Node?, prev: Node?, s: Node, ghost nodes: seq<Node>, ghost values: seq<Session>,
                         ghost at: nat)
      returns (first: Node?)
      requires Linked(from, nodes, values) && at < |nodes| && s == nodes[at]
      requires prev == if at == 0 then null else nodes[at - 1]
      modifies nodes
      ensures Linked(first, nodes[..at] + nodes[at + 1..], values[..at] + values[at + 1..])
    {
      if prev == null {
        first := s.next;
      } else {
        first := from;
        prev.next := s.next;
      }
      assert forall i {:trigger nodes[i].next} | 0 <= i < |nodes| ::
          nodes[i].next == if i + 1 == at then NodeAt(nodes, at + 1) else NodeAt(nodes, i + 1);
      Bypassed(nodes, values, at);
    }

    /** A list whose node in front of `at` points behind it is a list without it. */
    static lemma Bypassed(was: seq<Node>, values: seq<Session>, at: nat)
      requires at < |was| == |values|
      requires forall i | 0 <= i < |was| :: was[i].s == values[i]
      requires forall i {:trigger was[i].next} | 0 <= i < |was| ::
                 was[i].next == if i + 1 == at then NodeAt(was, at + 1) else NodeAt(was, i + 1)
      requires forall i, j | 0 <= i < j < |was| :: was[i] != was[j]
      ensures Linked(if at == 0 then NodeAt(was, 1) else was[0], was[..at] + was[at + 1..],
                     values[..at] + values[at + 1..])
    {
      var nodes, left := was[..at] + was[at + 1..], values[..at] + values[at + 1..];
      forall i | 0 <= i < |nodes| ensures nodes[i].s == left[i] && nodes[i].next == NodeAt(nodes, i + 1) {
        if i < at {
          assert nodes[i] == was[i] && left[i] == values[i];
        } else {
          assert nodes[i] == was[i + 1] && left[i] == values[i + 1];
        }
      }
    }

    ghost function NodeBefore(at: nat): Node?
      requires at <= |nodes|
      reads this
    {
      if at == 0 then null else nodes[at - 1]
    }

    /** Store v in the node after `done` and go on to the next node. */
    method StepOver(s: Node, v: Session, ghost done: seq<Session>, ghost rest: seq<Session>) returns (next: Node?)
      requires Valid() && |done| < |nodes| && s == nodes[|done|] && values == done + [s.s] + rest
      modifies this`values, s
      ensures Valid() && values == done + [v] + rest
      ensures next == NodeAt(nodes, |done| + 1) && s == NodeBefore(|done| + 1) && s == nodes[|done|]
    {
      Update(s, v, done, rest);
      next := s.next;
    }

    /** Unlink the node after `done` and go on to the next node. */
    method Drop(prev: Node?, s: Node, ghost done: seq<Session>, ghost rest: seq<Session>) returns (next: Node?)
      requires Valid() && |done| < |nodes| && s == nodes[|done|] && prev == NodeBefore(|done|)
      requires values == done + [s.s] + rest
      modifies this, live
      ensures Valid() && live <= old(live) && values == done + rest
      ensures next == NodeAt(nodes, |done|) && prev == NodeBefore(|done|)
    {
      next := s.next;
      Unlink(prev, s, done, rest);
    }

    /** Where a walk over the list stands: `done` behind it, `rest` in front of it. */
    ghost predicate Walking(prev: Node?, s: Node?, done: seq<Session>, rest: seq<Session>)
      reads this, live
    {
      && Valid() && values == done + rest
      && s == NodeAt(nodes, |done|) && prev == NodeBefore(|done|)
    }

    lemma WalkEnds(prev: Node?, s: Node?, done: seq<Session>, rest: seq<Session>)
      requires Walking(prev, s, done, rest)
      ensures s == null <==> rest == []
      ensures s != null ==> s.s == rest[0]
    {
      if s != null { assert s == nodes[|done|]; }
    }

    /** One turn of a walk with an unlink in it: keep the session as v, or drop it. */
    method Turn(prev: Node?, s: Node, v: Session, del: bool, ghost done: seq<Session>, ghost rest: seq<Session>)
      returns (prev': Node?, next: Node?)
      requires rest != [] && Walking(prev, s, done, rest)
      modifies this, live
      ensures Walking(prev', next, if del then done else done + [v], rest[1..]) && live <= old(live)
    {
      assert done + rest == done + [rest[0]] + rest[1..];
      if del {
        next := Drop(prev, s, done, rest[1..]);
        prev' := prev;
      } else {
        next := StepOver(s, v, done, rest[1..]);
        prev' := s;
      }
    }

    /** The walk all three loops over the list make: visit every session in order, store what the visit makes
        of it or unlink and free its node, and accumulate. */
    method Walk<A>(visit: (nat, Session) -> Visited, note: (A, nat, Session) -> A, start: A) returns (acc: A)
      requires Valid()
      modifies this, live
      ensures Valid() && live <= old(live)
      ensures values == Walked(old(values), visit, |old(values)|)
      ensures acc == Noted(old(values), note, start, |old(values)|)
    {
      acc := start;
      var prev: Node? := null;
      var s := head;
      var k := 0;
      ghost var done: seq<Session> := [];
      ghost var rest := values;
      WalkSplits(values, visit, note, start, 0);
      ghost var result, total := WalkedFrom(values, visit, 0), NotedFrom(values, note, start, 0);
      while s != null
        invariant Walking(prev, s, done, rest)
        invariant live <= old(live)
        invariant done + WalkedFrom(rest, visit, k) == result && NotedFrom(rest, note, acc, k) == total
        decreases |rest|
      {
        prev, s, acc, done, rest := Visit(visit, note, prev, s, k, acc, done, rest);
        k := k + 1;
      }
      WalkEnds(prev, s, done, rest);
    }

    /** One turn of Walk. */
    method Visit<A>(visit: (nat, Session) -> Visited, note: (A, nat, Session) -> A, prev: Node?, s: Node, k: nat,
                    acc: A, ghost done: seq<Session>, ghost rest: seq<Session>)
      returns (prev': Node?, next: Node?, acc': A, ghost done': seq<Session>, ghost rest': seq<Session>)
      requires Walking(prev, s, done, rest)
      modifies this, live
      ensures Walking(prev', next, done', rest') && live <= old(live) && |rest'| < |rest|
      ensures done' + WalkedFrom(rest', visit, k + 1) == done + WalkedFrom(rest, visit, k)
      ensures NotedFrom(rest', note, acc', k + 1) == NotedFrom(rest, note, acc, k)
    {
      WalkEnds(prev, s, done, rest);
      VisitNext(done, rest, visit, note, acc, k);
      acc' := note(acc, k, s.s);
      var v := visit(k, s.s);
      prev', next := Turn(prev, s, v.s, v.del, done, rest);
      done', rest' := if v.del then done else done + [v.s], rest[1..];
    }

    /** The sweep of handle_events. Returns the epoll wait in seconds. */
    method Sweep(e: RawSweep) returns (timeout: int)
      requires Valid()
      modifies this, live
      ensures Valid() && live <= old(live)
      ensures values == Swept(old(values), e, |old(values)|)
      ensures timeout == Wait(old(values), e, |old(values)|)
    {
      SweepIsWalk(values, e, |values|);
      timeout := Walk(SweepVisit(e), SweepNote(e), EPOLL_TIMEOUT);
    }

    /** check_allowed */
    method CheckAllowed(ok: nat -> bool)
      requires Valid()
      modifies this, live
      ensures Valid() && live <= old(live)
      ensures values == Allowed(old(values), ok, |old(values)|)
    {
      AllowedIsWalk(values, ok, |values|);
      var _ := Walk(AllowVisit(ok), (u: (), k: nat, s: Session) => u, ());
    }

    /** The loop at the top of handle_events that counts sessions and monitors TCP sockets. */
    method CountAndWatch(m: nat -> MonitorInput) returns (sessions: nat, recheck: bool)
      requires Valid()
      modifies this, live
      ensures Valid() && live <= old(live)
      ensures values == WatchedAll(old(values), m, |old(values)|)
      ensures sessions == Count(old(values), |old(values)|)
      ensures recheck == AnyRecheck(old(values), m, |old(values)|)
    {
      WatchIsWalk(values, m, |values|);
      var t := Walk(WatchVisit(m), WatchNote(m), Tally(0, false));
      sessions, recheck := t.sessions, t.recheck;
    }

    /** The lookup loop of handle_tcp and handle_udp. */
    method Lookup(probe: Session) returns (cur: Node?, ghost at: nat)
      requires Valid()
      ensures at == Find(values, probe) <= |values| && cur == NodeAt(nodes, at)
      ensures cur != null ==> cur.s == values[at] && values == values[..at] + [cur.s] + values[at + 1..]
    {
      cur, at := head, 0;
      while cur != null && !SameFlow(cur.s, probe)
        invariant at <= |values| && cur == NodeAt(nodes, at)
        invariant Find(values, probe) == at + Find(values[at..], probe)
        decreases |values| - at
      {
        assert cur.s == values[at] && values[at..][1..] == values[at + 1..];
        cur, at := cur.next, at + 1;
      }
      if cur != null { assert cur.s == values[at]; }
    }

    /** handle_tcp around the session: look it up, and create it for an unknown SYN. */
    method HandleTcp(key: Key, p: Packet, i: TunInput, birth: Birth, gotSocket: bool)
      requires Valid()
      modifies this, live
      ensures Valid() && fresh(live - old(live))
      ensures values == TcpPacketIn(old(values), key, p, i, birth, gotSocket)
    {
      var created := Tcp(key, NewSession(birth.(p := p, dest := key.dest)));
      var cur, at := Lookup(created);
      if cur != null && cur.s.Tcp? {
        ghost var before := values;
        Update(cur, cur.s.(t := HandlePacket(cur.s.t, p, i)), before[..at], before[at + 1..]);
      } else if !p.urg && p.syn && gotSocket {
        Prepend(created);
      }
    }

    /** handle_udp around the session. */
    method HandleUdp(key: Key, now: int, socket: int, dhcp: bool, len: nat, result: UdpSend)
      requires Valid()
      modifies this, live
      ensures Valid() && fresh(live - old(live))
      ensures values == UdpPacketIn(old(values), key, now, socket, dhcp, len, result)
    {
      var u := Udb(key.dest, now, ACTIVE, socket, 0, 0);
      var cur, at := Lookup(Udp(key, u));
      if cur != null && cur.s.Udp? {
        ghost var before := values;
        Update(cur, cur.s.(u := UdpPacket(cur.s.u, now, dhcp, len, result)), before[..at], before[at + 1..]);
      } else if socket >= 0 {
        Prepend(Udp(key, UdpPacket(u, now, dhcp, len, result)));
      }
    }

    /** clear: the open sockets are closed and the forward queues freed in list order, and every node is freed, once. */
    method Clear() returns (closed: seq<int>, freed: seq<Piece>)
      requires Valid()
      modifies this, live
      ensures Valid() && values == [] && live == {}
      ensures closed == OpenSockets(old(values)) && freed == QueuedPieces(old(values))
    {
      closed, freed := [], [];
      while head != null
        invariant Valid() && live <= old(live)
        invariant closed + OpenSockets(values) == OpenSockets(old(values))
        invariant freed + QueuedPieces(values) == QueuedPieces(old(values))
        decreases |values|
      {
        closed, freed := ClearHead(closed, freed);
      }
    }

    /** One turn of clear. */
    method ClearHead(closed: seq<int>, freed: seq<Piece>) returns (closed': seq<int>, freed': seq<Piece>)
      requires Valid() && head != null
      modifies this, live
      ensures Valid() && live <= old(live) && |values| < old(|values|)
      ensures closed' + OpenSockets(values) == closed + OpenSockets(old(values))
      ensures freed' + QueuedPieces(values) == freed + QueuedPieces(old(values))
    {
      var s := FreeHead();
      closed', freed' := closed + SocketsOf(s), freed + PiecesOf(s);
      Cleared([s] + values, s, values);
    }

    static lemma Cleared(before: seq<Session>, s: Session, rest: seq<Session>)
      requires before == [s] + rest
      ensures OpenSockets(before) == SocketsOf(s) + OpenSockets(rest)
      ensures QueuedPieces(before) == PiecesOf(s) + QueuedPieces(rest)
    {
      assert before[1..] == rest;
    }

    method FreeHead() returns (s: Session)
      requires Valid() && head != null
      modifies this, live
      ensures Valid() && live <= old(live) && old(values) == [s] + values
    {
      assert head == nodes[0];
      s := head.s;
      Unlink(null, head, [], values[1..]);
    }
  }
}
