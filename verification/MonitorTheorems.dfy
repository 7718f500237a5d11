/** The monitor and its sessions over every run. */
module MonitorTheorems {
  import opened Common
  import opened MonitorSpec
  import opened MonitorSafety

  /** At every tick boundary the state, the client, the session id and the two gauges agree; an
      active session was acquired with the key and its renewals succeeded, which renewCount counts;
      and the monitor is connecting only right after a failed renewal of the id it still keeps. */
  lemma StateIsConsistent(t: Timing, events: seq<Event>)
    ensures var l := Exec(t, events); var m := l.monitor;
      && (m.state.Disconnected? <==> !m.client) && (m.state.Disconnected? <==> m.sessionID.None?)
      && (m.state.Active? ==> Acquired(m.sessionID.value, true) in l.ops
                              && Renewed(m.sessionID.value, false) !in l.ops)
      && (!m.state.Disconnected? ==> m.renewCount == RenewalsOf(l.ops, m.sessionID.value))
      && (l.running && m.state.Connecting? ==>
            |l.ops| > 0 && l.ops[|l.ops| - 1] == Renewed(m.sessionID.value, false))
      && m.consulConnected == (if l.running && !m.state.Disconnected? then 1 else 0)
      && m.sessionActive == (if l.running && m.state.Active? then 1 else 0)
  {
    RunsAreOk(t, events);
  }

  /** The tick renews the session it has. */
  predicate Renews(l: Lease, a: Answers) {
    l.monitor.state.Active? && a.renew.Done? && l.monitor.sessionID.Some?
    && l.monitor.sessionID.value in l.consul.sessions
  }

  /** The tick gets as far as creating a session. */
  predicate Dials(l: Lease, a: Answers) {
    l.monitor.state.Connecting? || (l.monitor.state.Disconnected? && a.client && a.leader)
  }

  predicate KeyIsFree(l: Lease) {
    l.consul.holder.None? && l.clock >= l.consul.freeAt
  }

  /** The tick gets a new session and the key with it. */
  predicate Locks(l: Lease, a: Answers) {
    Dials(l, a) && a.create.Done? && a.acquire.Done? && KeyIsFree(l)
  }

  /** A tick of l with these answers leads to n. It ends active exactly if the session was renewed or
      a new one was locked, connecting exactly if a renewal failed, and disconnected otherwise. */
  predicate EndsRight(l: Lease, a: Answers, n: Lease) {
    var m := n.monitor;
    && (m.state.Active? <==> Renews(l, a) || Locks(l, a))
    && (m.state.Connecting? <==> l.monitor.state.Active? && !Renews(l, a))
    && m.client == !m.state.Disconnected?
    && m.sessionID == (if m.state.Disconnected? then None
                       else if Locks(l, a) then Some(l.consul.nextId) else l.monitor.sessionID)
    && m.consulConnected == (if m.state.Disconnected? then 0 else 1)
    && m.sessionActive == (if m.state.Active? then 1 else 0)
    && (Renews(l, a) ==> m.renewCount == l.monitor.renewCount + 1)
    && (Locks(l, a) ==> m.renewCount == 0)
    && n.running && n.lastTick == n.clock == l.clock
  }

  lemma RenewEnds(t: Timing, l: Lease, a: Answers)
    requires LeaseOk(t, l) && l.running && l.monitor.state.Active?
    ensures EndsRight(l, a, TickStep(t, l, a).(lastTick := l.clock))
  {
  }

  lemma DialEnds(t: Timing, l: Lease, a: Answers)
    requires LeaseOk(t, l) && l.running && Dials(l, a)
    ensures EndsRight(l, a, TickStep(t, l, a).(lastTick := l.clock))
  {
  }

  /** Where a tick ends, whatever its calls answer. In particular a monitor without a session never
      stays connecting: it lets go of its client and dials again. */
  lemma TickEnds(t: Timing, events: seq<Event>, a: Answers)
    requires var l := Exec(t, events); l.running && l.clock - l.lastTick >= t.gap
    ensures EndsRight(Exec(t, events), a, Step(t, Exec(t, events), Beat(a)))
  {
    var l := Exec(t, events);
    RunsAreOk(t, events);
    if l.monitor.state.Active? {
      RenewEnds(t, l, a);
    } else if Dials(l, a) {
      DialEnds(t, l, a);
    }
  }

  /** A session that the tick creates but does not keep: the answer to its creation was lost, or its
      destruction did not arrive. */
  predicate LeavesOrphan(l: Lease, a: Answers) {
    Dials(l, a) && !a.create.NotDone? && !Locks(l, a) && (a.create.AnswerLost? || a.destroy.NotDone?)
  }

  /** What a tick does to the sessions: it touches the one it renews, and adds one exactly if it locks
      it or leaves it behind. */
  lemma TickSessions(t: Timing, events: seq<Event>, a: Answers)
    requires var l := Exec(t, events); l.running && l.clock - l.lastTick >= t.gap
    ensures var l := Exec(t, events); var live := l.consul.sessions;
      Step(t, l, Beat(a)).consul.sessions
      == if l.monitor.state.Active? then
           if !a.renew.NotDone? && l.monitor.sessionID.Some? && l.monitor.sessionID.value in live
           then live[l.monitor.sessionID.value := l.clock] else live
         else if Locks(l, a) || LeavesOrphan(l, a) then live[l.consul.nextId := l.clock]
         else live
  {
    RunsAreOk(t, events);
    var c := Exec(t, events).consul;
    assert c.nextId !in c.sessions && c.sessions[c.nextId := Exec(t, events).clock] - {c.nextId} == c.sessions;
  }

  /** A session whose renewal failed is never renewed again. */
  lemma FailedSessionsAreAbandoned(t: Timing, events: seq<Event>, j: nat, k: nat)
    requires j < k < |Exec(t, events).ops|
    requires Exec(t, events).ops[j].Renewed? && !Exec(t, events).ops[j].ok
    requires Exec(t, events).ops[k].Renewed?
    ensures Exec(t, events).ops[k].id != Exec(t, events).ops[j].id
  {
    RunsAreOk(t, events);
  }

  /** However the calls fail, n live sessions need an expiry bound of (n - 1) tick gaps. */
  lemma {:induction false} OrphansBounded(t: Timing, events: seq<Event>)
    ensures var n := |Exec(t, events).consul.sessions|; n == 0 || (n - 1) * t.gap <= t.emax
  {
    var l := Exec(t, events);
    RunsAreOk(t, events);
    if l.consul.sessions.Keys != {} {
      SpacedInWindow(l.consul.sessions, l.consul.sessions.Keys, l.clock - t.emax, l.clock, t.gap);
    } else {
      assert |l.consul.sessions| == 0;
    }
  }

  /** A tick without a session whose calls are all answered ends active exactly if nobody holds the
      key and the lock delay is over; its fresh session then holds the key. Otherwise the monitor
      disconnects, and its session is gone. */
  lemma TickActivates(t: Timing, events: seq<Event>, a: Answers)
    requires var l := Exec(t, events);
             l.running && !l.monitor.state.Active? && l.clock - l.lastTick >= t.gap
    requires a.client && a.leader && a.create.Done? && a.acquire.Done? && a.destroy.Done?
    ensures var l := Exec(t, events); var n := Step(t, l, Beat(a));
      && (n.monitor.state.Active? <==> l.consul.holder.None? && l.clock >= l.consul.freeAt)
      && (if n.monitor.state.Active?
          then n.consul.holder == Some(l.consul.nextId)
               && n.consul.sessions == l.consul.sessions[l.consul.nextId := l.clock]
          else n.monitor.state.Disconnected? && n.consul.sessions == l.consul.sessions
               && n.consul.holder == l.consul.holder)
  {
    RunsAreOk(t, events);
    var c := Exec(t, events).consul;
    assert c.sessions[c.nextId := Exec(t, events).clock] - {c.nextId} == c.sessions;
  }

  // ---- when a failed call has no effect and every destroy arrives ----

  predicate ReliableAnswers(a: Answers) {
    !a.create.AnswerLost? && !a.acquire.AnswerLost? && a.destroy.Done?
  }

  predicate ReliableEvents(events: seq<Event>) {
    forall e :: e in events ==>
      (e.Beat? ==> ReliableAnswers(e.answers)) && (e.Stop? ==> ReliableAnswers(e.answers))
  }

  function HolderSet(c: Consul): set<nat> {
    match c.holder
    case Some(id) => {id}
    case None => {}
  }

  /** The only live session is the one that holds the key, and a monitor that knows a session
      knows that one. */
  ghost predicate OneLease(l: Lease) {
    && l.consul.sessions.Keys == HolderSet(l.consul)
    && (l.monitor.sessionID.Some? && l.consul.holder.Some? ==> l.monitor.sessionID == l.consul.holder)
  }

  lemma AcquireKeepsOneLease(t: Timing, l: Lease, id: nat, a: Answers)
    requires OneLease(l) && id !in l.consul.sessions && ReliableAnswers(a)
    ensures OneLease(AcquireStep(t, l.(consul := l.consul.(sessions := l.consul.sessions[id := l.clock])), id, a))
  {
    var c := l.consul.(sessions := l.consul.sessions[id := l.clock]);
    if c.holder.None? {
      assert c.sessions.Keys == {id};
    } else {
      assert (c.sessions - {id}).Keys == l.consul.sessions.Keys;
    }
  }

  lemma CreateKeepsOneLease(t: Timing, l: Lease, a: Answers)
    requires OneLease(l) && l.consul.nextId !in l.consul.sessions && ReliableAnswers(a)
    ensures OneLease(CreateStep(t, l, a))
  {
    if l.monitor.client && a.create.Done? {
      var id := l.consul.nextId;
      AcquireKeepsOneLease(t, l.(consul := l.consul.(nextId := id + 1)), id, a);
    }
  }

  lemma StepKeepsOneLease(t: Timing, l: Lease, e: Event)
    requires LeaseOk(t, l) && OneLease(l) && ReliableEvents([e])
    ensures OneLease(Step(t, l, e))
  {
    assert e in [e];
    if e.Beat? && l.running && l.clock - l.lastTick >= t.gap {
      match l.monitor.state
      case Active =>
        assert RenewSession(l.consul, l.monitor.sessionID.value, l.clock, e.answers.renew).sessions.Keys
            == l.consul.sessions.Keys;
      case Connecting => CreateKeepsOneLease(t, l, e.answers);
      case Disconnected =>
        CreateKeepsOneLease(t, l.(monitor := l.monitor.(client := true, state := Connecting,
                                                        consulConnected := 1)), e.answers);
    }
  }

  lemma {:induction false} OneLeaseAlways(t: Timing, events: seq<Event>)
    requires ReliableEvents(events)
    ensures OneLease(Exec(t, events))
  {
    if events != [] {
      var before, e := events[..|events| - 1], events[|events| - 1];
      OneLeaseAlways(t, before);
      RunsAreOk(t, before);
      StepKeepsOneLease(t, Exec(t, before), e);
    }
  }

  /** If failed calls have no effect and destroys arrive, at most one session is live at a tick
      boundary and it is the one that holds the key. */
  lemma {:induction false} AtMostOneLease(t: Timing, events: seq<Event>)
    requires ReliableEvents(events)
    ensures var c := Exec(t, events).consul;
      |c.sessions| <= 1 && forall id :: id in c.sessions <==> c.holder == Some(id)
  {
    OneLeaseAlways(t, events);
    var c := Exec(t, events).consul;
    assert |c.sessions| == |c.sessions.Keys|;
  }

  /** The clean-up destroys the session it knows, if the call arrives, and no other. */
  lemma CleanupDestroys(t: Timing, events: seq<Event>, a: Answers)
    requires Exec(t, events).running
    ensures var l := Exec(t, events); var n := Step(t, l, Stop(a));
      && n.consul.sessions == (if l.monitor.sessionID.None? || a.destroy.NotDone? then l.consul.sessions
                               else l.consul.sessions - {l.monitor.sessionID.value})
      && !n.running && n.monitor.consulConnected == 0 && n.monitor.sessionActive == 0
  {
    RunsAreOk(t, events);
    var l := Exec(t, events);
    assert l.monitor.sessionID.Some? && l.monitor.sessionID.value !in l.consul.sessions ==>
             l.consul.sessions - {l.monitor.sessionID.value} == l.consul.sessions;
  }

  /** The clean-up frees the key exactly if the monitor had not given up on its session before: a
      disconnected monitor has forgotten the id, and the key stays until the session expires. */
  lemma {:induction false} CleanupFreesKey(t: Timing, events: seq<Event>, a: Answers)
    requires ReliableEvents(events) && ReliableAnswers(a) && Exec(t, events).running
    ensures var l := Exec(t, events);
      Step(t, l, Stop(a)).consul.holder.None? <==> !l.monitor.state.Disconnected? || l.consul.holder.None?
  {
    RunsAreOk(t, events);
    OneLeaseAlways(t, events);
  }

  lemma ExecAppend(t: Timing, events: seq<Event>, e: Event)
    ensures Exec(t, events + [e]) == Step(t, Exec(t, events), e)
  {
    assert (events + [e])[..|events|] == events;
  }

  lemma Then(t: Timing, events: seq<Event>, e: Event) returns (more: seq<Event>)
    requires ReliableEvents(events) && ReliableEvents([e])
    ensures ReliableEvents(more) && Exec(t, more) == Step(t, Exec(t, events), e)
  {
    more := events + [e];
    ExecAppend(t, events, e);
    assert e in [e];
  }

  /** One renewal is refused, and the next tick is due while the stale session lives. */
  lemma RenewalRefused(t: Timing) returns (events: seq<Event>)
    requires 0 < t.gap && 2 * t.gap <= t.emax
    ensures ReliableEvents(events)
    ensures var l := Exec(t, events);
      l.running && l.monitor.state.Connecting? && l.clock - l.lastTick == t.gap && l.consul.holder == Some(0)
  {
    events := Then(t, [], Beat(GOOD));
    events := Then(t, events, Advance(t.gap));
    events := Then(t, events, Beat(GOOD.(renew := NotDone)));
    events := Then(t, events, Advance(2 * t.gap));
  }

  /** That a clean-up leaves the key behind does happen: one renewal is refused, the tick after it
      cannot lock the key that the stale session still holds, and disconnects. */
  lemma KeyLeftBehind(t: Timing, a: Answers) returns (events: seq<Event>)
    requires 0 < t.gap && 2 * t.gap <= t.emax && ReliableAnswers(a)
    ensures ReliableEvents(events) && Exec(t, events).running
    ensures Step(t, Exec(t, events), Stop(a)).consul.holder.Some?
  {
    var before := RenewalRefused(t);
    TickActivates(t, before, GOOD);
    events := Then(t, before, Beat(GOOD));
    CleanupFreesKey(t, events, a);
  }
}
