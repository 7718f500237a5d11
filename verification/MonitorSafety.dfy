/** What every run of the heartbeat lease keeps, whatever fails. */
module MonitorSafety {
  import opened Common
  import opened MonitorSpec

  function RenewalsOf(ops: seq<Op>, id: nat): nat {
    if ops == [] then 0
    else RenewalsOf(ops[..|ops| - 1], id) + if ops[|ops| - 1] == Renewed(id, true) then 1 else 0
  }

  /** The session was acquired with the key, and no renewal of it has failed. */
  ghost predicate Healthy(ops: seq<Op>, id: nat) {
    Acquired(id, true) in ops && Renewed(id, false) !in ops
  }

  ghost predicate MonitorOk(l: Lease) {
    var m := l.monitor;
    && (m.client <==> !m.state.Disconnected?)
    && (m.state.Disconnected? <==> m.sessionID.None?)
    && (m.state.Active? ==> Healthy(l.ops, m.sessionID.value))
    && (m.state.Connecting? && l.running ==>
          |l.ops| > 0 && l.ops[|l.ops| - 1] == Renewed(m.sessionID.value, false))
    && (!m.state.Disconnected? ==> m.renewCount == RenewalsOf(l.ops, m.sessionID.value))
    && (l.running ==> m.consulConnected == (if m.state.Disconnected? then 0 else 1))
    && (l.running ==> m.sessionActive == (if m.state.Active? then 1 else 0))
    && (!l.running ==> m.consulConnected == 0 && m.sessionActive == 0)
  }

  /** Session ids are never reused, and a session whose renewal failed is not renewed again. */
  ghost predicate OpsOk(l: Lease) {
    && (forall k :: 0 <= k < |l.ops| ==> l.ops[k].id < l.consul.nextId)
    && (forall j, k :: 0 <= j < k < |l.ops| && l.ops[j].Renewed? && !l.ops[j].ok ==>
          !(l.ops[k].Renewed? && l.ops[k].id == l.ops[j].id))
  }

  /** Only live sessions hold the key; touches lie at least gap apart and at most emax back. */
  ghost predicate ConsulOk(t: Timing, l: Lease) {
    var c := l.consul;
    && (c.holder.Some? ==> c.holder.value in c.sessions)
    && (forall id :: id in c.sessions ==> id < c.nextId && c.sessions[id] <= l.lastTick)
    && l.lastTick <= l.clock
    && AllAlive(t, c, l.clock)
    && Spaced(c.sessions, c.sessions.Keys, t.gap)
  }

  ghost predicate LeaseOk(t: Timing, l: Lease) {
    MonitorOk(l) && OpsOk(l) && ConsulOk(t, l)
  }

  lemma {:induction false} FreshRenewals(ops: seq<Op>, id: nat)
    requires forall k :: 0 <= k < |ops| ==> ops[k].id != id
    ensures RenewalsOf(ops, id) == 0
  {
    if ops != [] {
      FreshRenewals(ops[..|ops| - 1], id);
    }
  }

  lemma RenewalsAppend(ops: seq<Op>, op: Op, id: nat)
    ensures RenewalsOf(ops + [op], id) == RenewalsOf(ops, id) + if op == Renewed(id, true) then 1 else 0
  {
    assert (ops + [op])[..|ops|] == ops;
  }

  /** A tick touches at most the session id, now, and leaves the others as they were. */
  ghost predicate Touches(c: Consul, d: Consul, id: nat, now: int) {
    && c.nextId <= d.nextId && id < d.nextId
    && (d.holder.Some? ==> d.holder.value in d.sessions)
    && (forall k :: k in d.sessions && k != id ==> k in c.sessions && d.sessions[k] == c.sessions[k])
    && (id in d.sessions ==> d.sessions[id] == now || (id in c.sessions && d.sessions[id] == c.sessions[id]))
  }

  ghost predicate HolderLives(c: Consul) {
    c.holder.Some? ==> c.holder.value in c.sessions
  }

  lemma AcquireTouches(t: Timing, l: Lease, id: nat, a: Answers)
    requires HolderLives(l.consul)
    ensures var d := AcquireStep(t, l, id, a).consul;
            && d.nextId == l.consul.nextId
            && HolderLives(d)
            && forall k :: k in d.sessions ==> k in l.consul.sessions && d.sessions[k] == l.consul.sessions[k]
  {
  }

  lemma CreateTouches(t: Timing, l: Lease, a: Answers)
    requires HolderLives(l.consul) && l.monitor.client
    ensures var d := CreateStep(t, l, a).consul;
            && l.consul.nextId <= d.nextId && HolderLives(d)
            && (d.nextId == l.consul.nextId ==> d == l.consul)
            && (d.nextId > l.consul.nextId ==> Touches(l.consul, d, l.consul.nextId, l.clock))
  {
    if a.create.Done? {
      AcquireTouches(t, l.(consul := CreateSession(l.consul, l.clock, a.create)), l.consul.nextId, a);
    }
  }

  lemma TouchKeepsConsul(t: Timing, l: Lease, m: Lease, id: nat)
    requires ConsulOk(t, l) && l.clock - l.lastTick >= t.gap
    requires Touches(l.consul, m.consul, id, l.clock)
    requires m.clock == m.lastTick == l.clock
    ensures ConsulOk(t, m)
  {
    assert m.consul.sessions.Keys - {id} <= l.consul.sessions.Keys;
    forall x, y | x in m.consul.sessions && y in m.consul.sessions && x != y
      ensures m.consul.sessions[x] - m.consul.sessions[y] >= t.gap
           || m.consul.sessions[y] - m.consul.sessions[x] >= t.gap
    {
      if x in l.consul.sessions && y in l.consul.sessions {
        assert l.consul.sessions[x] - l.consul.sessions[y] >= t.gap
            || l.consul.sessions[y] - l.consul.sessions[x] >= t.gap;
      }
    }
  }

  lemma TickKeepsConsul(t: Timing, l: Lease, a: Answers)
    requires LeaseOk(t, l) && l.clock - l.lastTick >= t.gap
    ensures ConsulOk(t, TickStep(t, l, a).(lastTick := l.clock))
  {
    var n := TickStep(t, l, a).(lastTick := l.clock);
    if l.monitor.state.Active? {
      var id := l.monitor.sessionID.value;
      assert id < l.consul.nextId;
      TouchKeepsConsul(t, l, n, id);
    } else if !l.monitor.state.Disconnected? || (a.client && a.leader) {
      var k := if l.monitor.state.Connecting? then l
               else l.(monitor := l.monitor.(client := true, state := Connecting, consulConnected := 1));
      CreateTouches(t, k, a);
      assert n.consul == CreateStep(t, k, a).consul;
      if n.consul.nextId > l.consul.nextId {
        TouchKeepsConsul(t, l, n, l.consul.nextId);
      }
    }
  }

  lemma LockKeepsMonitor(t: Timing, l: Lease, id: nat, a: Answers)
    requires OpsOk(l) && l.monitor.client && l.monitor.consulConnected == 1 && l.running
    requires id < l.consul.nextId && forall k :: 0 <= k < |l.ops| ==> l.ops[k].id < id
    ensures MonitorOk(AcquireStep(t, l, id, a)) && OpsOk(AcquireStep(t, l, id, a))
  {
    var n := AcquireStep(t, l, id, a);
    if n.monitor.state.Active? {
      assert n.ops == l.ops + [Acquired(id, true)];
      assert n.ops[|l.ops|] == Acquired(id, true);
      FreshRenewals(l.ops, id);
      RenewalsAppend(l.ops, Acquired(id, true), id);
    } else {
      assert n.ops == l.ops + [Acquired(id, false), Destroyed(id)];
    }
  }

  /** A monitor that wants a session gets a fresh one with the key, or disconnects. */
  lemma CreateKeepsMonitor(t: Timing, l: Lease, a: Answers)
    requires OpsOk(l) && l.monitor.client && l.monitor.state.Connecting? && l.monitor.consulConnected == 1
    requires l.monitor.sessionActive == 0 && l.running
    ensures MonitorOk(CreateStep(t, l, a)) && OpsOk(CreateStep(t, l, a))
  {
    if a.create.Done? {
      LockKeepsMonitor(t, l.(consul := CreateSession(l.consul, l.clock, a.create)), l.consul.nextId, a);
    }
  }

  lemma RenewKeepsMonitor(t: Timing, l: Lease, a: Answers)
    requires MonitorOk(l) && OpsOk(l) && l.monitor.state.Active? && l.running
    ensures MonitorOk(RenewStep(l, a)) && OpsOk(RenewStep(l, a))
  {
    var n, id := RenewStep(l, a), l.monitor.sessionID.value;
    var op := n.ops[|l.ops|];
    assert n.ops == l.ops + [op] && op.Renewed? && op.id == id;
    RenewalsAppend(l.ops, op, id);
    var k :| 0 <= k < |l.ops| && l.ops[k] == Acquired(id, true);
    assert n.ops[k] == Acquired(id, true);
  }

  lemma TickKeeps(t: Timing, l: Lease, a: Answers)
    requires LeaseOk(t, l) && l.running && l.clock - l.lastTick >= t.gap
    ensures LeaseOk(t, TickStep(t, l, a).(lastTick := l.clock))
  {
    TickKeepsConsul(t, l, a);
    match l.monitor.state
    case Active => RenewKeepsMonitor(t, l, a);
    case Connecting => CreateKeepsMonitor(t, l, a);
    case Disconnected =>
      CreateKeepsMonitor(t, l.(monitor := l.monitor.(client := true, state := Connecting, consulConnected := 1)), a);
  }

  lemma KillKeepsConsul(t: Timing, l: Lease, id: nat)
    requires ConsulOk(t, l)
    ensures ConsulOk(t, l.(consul := Kill(t, l.consul, id, l.clock)))
  {
  }

  lemma CleanupKeeps(t: Timing, l: Lease, a: Answers)
    requires LeaseOk(t, l) && l.running
    ensures LeaseOk(t, CleanupStep(t, l, a).(running := false))
  {
    if l.monitor.sessionID.Some? {
      var id := l.monitor.sessionID.value;
      var n := CleanupStep(t, l, a);
      KillKeepsConsul(t, l, id);
      RenewalsAppend(l.ops, Destroyed(id), id);
      assert n.ops == l.ops + [Destroyed(id)];
      if l.monitor.state.Active? {
        var k :| 0 <= k < |l.ops| && l.ops[k] == Acquired(id, true);
        assert n.ops[k] == Acquired(id, true);
      } else {
        assert l.ops[|l.ops| - 1].id == id;
      }
    }
  }

  lemma StepKeeps(t: Timing, l: Lease, e: Event)
    requires LeaseOk(t, l)
    ensures LeaseOk(t, Step(t, l, e))
  {
    match e
    case Advance(_) =>
    case Expire(id) => KillKeepsConsul(t, l, id);
    case Beat(a) =>
      if l.running && l.clock - l.lastTick >= t.gap {
        TickKeeps(t, l, a);
      }
    case Stop(a) =>
      if l.running {
        CleanupKeeps(t, l, a);
      }
  }

  lemma {:induction false} RunsAreOk(t: Timing, events: seq<Event>)
    ensures LeaseOk(t, Exec(t, events))
  {
    if events != [] {
      RunsAreOk(t, events[..|events| - 1]);
      StepKeeps(t, Exec(t, events[..|events| - 1]), events[|events| - 1]);
    }
  }
}
