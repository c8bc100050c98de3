/** Without traffic every session leaves the table: its scaled timeout, the keep timeout and two sweep intervals
    after it was last touched at the latest. */
module Deadlines {
  import opened TcpModel
  import opened SessionModel

  /** One sweep as seen by one session. */
  datatype Visit = Visit(now: int, load: LoadOk, ok: bool)

  datatype Fate = Present(s: Session) | Removed

  /** A session with nothing happening to it but these sweeps. */
  function Sweeps(s: Session, vs: seq<Visit>): Fate
    decreases |vs|
  {
    if vs == [] then Present(s) else
      var c := Checked(s, vs[0].now, vs[0].load, vs[0].ok);
      if Deleted(c, vs[0].now, vs[0].load) then Removed else Sweeps(c, vs[1..])
  }

  function Touched(s: Session): int {
    match s
    case Tcp(_, t) => t.time
    case Udp(_, u) => u.time
    case Icmp(i) => i.time
  }

  /** The timeout before scaling. */
  function Base(s: Session): nat {
    match s
    case Tcp(_, t) => BaseTimeout(t.state)
    case Udp(_, u) => UdpBase(u.dest)
    case Icmp(_) => ICMP_TIMEOUT
  }

  function Keep(s: Session): nat {
    match s
    case Tcp(_, _) => KEEP_TIMEOUT
    case Udp(_, _) => UDP_KEEP_TIMEOUT
    case Icmp(_) => 0
  }

  /** Only waiting for its keep timeout. */
  predicate Lingering(s: Session) {
    match s
    case Tcp(_, t) => t.state == CLOSE
    case Udp(_, u) => u.state == CLOSED || u.state == BLOCKED
    case Icmp(_) => false
  }

  /** The timeout at this visit. */
  function ScaledTimeout(s: Session, v: Visit): int { Scaled(Base(s), v.load.sessions, v.load.maxSessions) }

  /** A sweep leaves a session as it was while its timeout runs, and otherwise starts its keep timeout. */
  lemma CheckOutcome(s: Session, v: Visit)
    requires !Lingering(s)
    ensures var c := Checked(s, v.now, v.load, v.ok);
            || Deleted(c, v.now, v.load)
            || (c == s && v.now <= Touched(s) + ScaledTimeout(s, v))
            || (Lingering(c) && Touched(c) == v.now && Keep(c) == Keep(s))
  {
  }

  lemma {:induction false} LingeringLeaves(s: Session, vs: seq<Visit>, k: nat)
    requires Lingering(s) && k < |vs| && vs[k].now > Touched(s) + Keep(s)
    ensures Sweeps(s, vs) == Removed
    decreases |vs|
  {
    var c := Checked(s, vs[0].now, vs[0].load, vs[0].ok);
    if !Deleted(c, vs[0].now, vs[0].load) {
      assert Lingering(c) && Touched(c) == Touched(s) && Keep(c) == Keep(s);
      assert vs[1..][k - 1] == vs[k];
      LingeringLeaves(c, vs[1..], k - 1);
    }
  }

  /** Sweeps at most `gap` apart, the first no later than `gap` after `from`. */
  predicate Regular(vs: seq<Visit>, from: int, gap: nat) {
    && (vs != [] ==> vs[0].now <= from + gap)
    && (forall i | 0 <= i < |vs| - 1 :: vs[i].now <= vs[i + 1].now <= vs[i].now + gap)
  }

  predicate Within(s: Session, vs: seq<Visit>, limit: int) {
    forall v | v in vs :: ScaledTimeout(s, v) <= limit
  }

  lemma {:induction false} Leaves(s: Session, vs: seq<Visit>, deadline: int, gap: nat)
    requires !Lingering(s) && Within(s, vs, deadline - Touched(s)) && Regular(vs, deadline, gap)
    requires vs != [] && vs[|vs| - 1].now > deadline + Keep(s) + 2 * gap
    ensures Sweeps(s, vs) == Removed
    decreases |vs|
  {
    CheckOutcome(s, vs[0]);
    var c := Checked(s, vs[0].now, vs[0].load, vs[0].ok);
    var rest := vs[1..];
    if !Deleted(c, vs[0].now, vs[0].load) {
      assert |vs| > 1 by { assert vs[0].now <= deadline + gap; }
      assert rest[|rest| - 1] == vs[|vs| - 1];
      if c == s {
        assert vs[0] in vs;
        assert forall i | 0 <= i < |rest| :: rest[i] == vs[i + 1];
        assert vs[0].now <= vs[0 + 1].now <= vs[0].now + gap;
        Leaves(s, rest, deadline, gap);
      } else {
        LingeringLeaves(c, rest, |rest| - 1);
      }
    }
  }

  /** The bound for every TCP, UDP and ICMP session: `limit` is its timeout at the load of each sweep, which is
      never more than the timeout without load. */
  lemma EverySessionLeaves(s: Session, vs: seq<Visit>, gap: nat, limit: int)
    requires Within(s, vs, limit) && Regular(vs, Touched(s) + limit, gap)
    requires vs != [] && vs[|vs| - 1].now > Touched(s) + limit + Keep(s) + 2 * gap
    requires Lingering(s) ==> limit >= 0
    ensures Sweeps(s, vs) == Removed
  {
    if Lingering(s) {
      LingeringLeaves(s, vs, |vs| - 1);
    } else {
      Leaves(s, vs, Touched(s) + limit, gap);
    }
  }

  /** Whatever the load at each sweep, the timeout without load is such a limit. */
  lemma UnscaledIsLimit(s: Session, vs: seq<Visit>)
    ensures Within(s, vs, Base(s))
  {
    forall v | v in vs ensures ScaledTimeout(s, v) <= Base(s) {
      ScaledBounds(Base(s), v.load, v.load.sessions);
    }
  }

  // ----- the sweeps of an idle table come when they are due -----

  /** What the check makes of s is no longer live. */
  predicate Expires(s: Session, v: Visit) {
    var c := Checked(s, v.now, v.load, v.ok);
    Deleted(c, v.now, v.load) || !Live(c)
  }

  lemma ExpiresIff(s: Session, now: int, v: Visit)
    requires Live(s)
    ensures Expires(s, v) <==> v.now >= now + Remaining(s, now, v.load)
  {
  }

  /** The wait ends exactly when the next live session expires: under the same load a check before its end leaves
      every live session alone, and from its end on some live session expires, unless the wait was cut to 3600. */
  lemma WaitIsExact(ss: seq<Session>, e: RawSweep, v: Visit)
    requires ClockRuns(e) && v.load == e.load
    ensures var kept := Swept(ss, e, |ss|);
            var end := e.now + Wait(ss, e, |ss|);
            && (v.now < end ==> forall s | s in kept && Live(s) :: !Expires(s, v))
            && (v.now >= end && end < e.now + EPOLL_TIMEOUT ==> exists s :: s in kept && Live(s) && Expires(s, v))
  {
    WaitIsMinimum(ss, e, |ss|);
    forall s | Live(s) ensures Expires(s, v) <==> v.now >= e.now + Remaining(s, e.now, e.load) {
      ExpiresIff(s, e.now, v);
    }
  }

  /** The table after these sweeps and nothing else. */
  function SweepRun(ss: seq<Session>, es: seq<RawSweep>): seq<Session>
    decreases |es|
  {
    if es == [] then ss else SweepRun(Swept(ss, es[0], |ss|), es[1..])
  }

  /** Each sweep comes at most `delay` after the end of the wait the one before it computed, and takes at most as
      long. */
  ghost predicate Paced(ss: seq<Session>, es: seq<RawSweep>, delay: nat)
    decreases |es|
  {
    es == [] || (Prompt(es[0], delay) && Next(ss, es, delay) && Paced(Swept(ss, es[0], |ss|), es[1..], delay))
  }

  ghost predicate Prompt(e: RawSweep, delay: nat) { forall k: nat :: e.now <= e.clock(k) <= e.now + delay }

  predicate Next(ss: seq<Session>, es: seq<RawSweep>, delay: nat) {
    |es| <= 1 || (es != [] && es[0].now <= es[1].now <= es[0].now + Wait(ss, es[0], |ss|) + delay)
  }

  /** Its timeout is over by `due`, or its keep timeout by `last`. */
  predicate LeavesBy(s: Session, due: int, last: int) {
    if Lingering(s) then Touched(s) + Keep(s) <= last else Touched(s) + Base(s) <= due
  }

  predicate AllLeaveBy(ss: seq<Session>, due: int, last: int) { forall s | s in ss :: LeavesBy(s, due, last) }

  predicate OnlyLingering(ss: seq<Session>) { forall s | s in ss :: Lingering(s) }

  lemma CheckLeaves(s: Session, v: Visit, due: int, last: int)
    requires LeavesBy(s, due, last) && (Lingering(s) || v.now + KEEP_TIMEOUT <= last)
    ensures var c := Checked(s, v.now, v.load, v.ok);
            || Deleted(c, v.now, v.load)
            || (LeavesBy(c, due, last) && (Lingering(c) || (Live(c) && v.now <= Touched(c) + ScaledTimeout(c, v))))
    ensures Lingering(s) ==>
              var c := Checked(s, v.now, v.load, v.ok);
              Lingering(c) && (v.now > last ==> Deleted(c, v.now, v.load))
  {
    if !Lingering(s) { CheckOutcome(s, v); }
  }

  lemma {:induction false} SweepLeaves(ss: seq<Session>, e: RawSweep, n: nat, delay: nat, due: int, last: int)
    requires n <= |ss| && Prompt(e, delay) && AllLeaveBy(ss, due, last)
    requires OnlyLingering(ss) || e.now + delay + KEEP_TIMEOUT <= last
    ensures AllLeaveBy(Swept(ss, e, n), due, last)
    ensures forall s | s in Swept(ss, e, n) :: Lingering(s) || Live(s)
    ensures OnlyLingering(ss) ==> OnlyLingering(Swept(ss, e, n))
    ensures OnlyLingering(ss) && e.now > last ==> Swept(ss, e, n) == []
  {
    if n > 0 {
      SweepLeaves(ss, e, n - 1, delay, due, last);
      assert e.now <= e.clock(n - 1) <= e.now + delay;
      VisitLeaves(ss, e, n - 1, due, last);
    }
  }

  lemma VisitLeaves(ss: seq<Session>, e: RawSweep, k: nat, due: int, last: int)
    requires k < |ss| && AllLeaveBy(ss, due, last) && (OnlyLingering(ss) || e.clock(k) + KEEP_TIMEOUT <= last)
    ensures var c := After(ss, e, k);
            && (Dropped(ss, e, k) || (LeavesBy(c, due, last) && (Lingering(c) || Live(c))))
            && (OnlyLingering(ss) ==> Lingering(c) && (e.clock(k) > last ==> Dropped(ss, e, k)))
  {
    assert ss[k] in ss;
    CheckLeaves(ss[k], Visit(e.clock(k), e.load, e.ok(k)), due, last);
  }

  /** While a session other than a lingering one is left, the next sweep comes in time for it. */
  lemma NextInTime(ss: seq<Session>, es: seq<RawSweep>, delay: nat, due: int, last: int)
    requires |es| > 1 && Prompt(es[0], delay) && Next(ss, es, delay)
    requires AllLeaveBy(Swept(ss, es[0], |ss|), due, last)
    requires forall s | s in Swept(ss, es[0], |ss|) :: Lingering(s) || Live(s)
    ensures OnlyLingering(Swept(ss, es[0], |ss|)) || es[1].now <= due + 1 + delay
  {
    var e := es[0];
    var kept := Swept(ss, e, |ss|);
    WaitIsMinimum(ss, e, |ss|);
    if s :| s in kept && !Lingering(s) {
      var v := Visit(e.now, e.load, true);
      assert Remaining(s, e.now, e.load) == Touched(s) + ScaledTimeout(s, v) - e.now + 1;
      ScaledBounds(Base(s), e.load, e.load.sessions);
    }
  }

  /** Without traffic the table is empty after any sweep later than the last timeout, the keep timeout, one second and
      two delays, if each sweep comes when the wait computed by the one before it ends. */
  lemma {:induction false} IdleTableEmpties(ss: seq<Session>, es: seq<RawSweep>, delay: nat, due: int)
    requires es != [] && Paced(ss, es, delay) && AllLeaveBy(ss, due, due + 1 + 2 * delay + KEEP_TIMEOUT)
    requires OnlyLingering(ss) || es[0].now <= due + 1 + delay
    requires es[|es| - 1].now > due + 1 + 2 * delay + KEEP_TIMEOUT
    ensures SweepRun(ss, es) == []
    decreases |es|
  {
    var e, last := es[0], due + 1 + 2 * delay + KEEP_TIMEOUT;
    var kept := Swept(ss, e, |ss|);
    SweepLeaves(ss, e, |ss|, delay, due, last);
    if |es| > 1 {
      NextInTime(ss, es, delay, due, last);
      assert es[1..][|es| - 2] == es[|es| - 1];
      IdleTableEmpties(kept, es[1..], delay, due);
    } else {
      assert es[1..] == [];
    }
  }
}
