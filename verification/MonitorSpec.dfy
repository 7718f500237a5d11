/**
 The heartbeat lease: the monitor of internal/monitor/monitor.go and the Consul sessions and key
 it drives, on one clock.

 Consul is the environment. A session that was not touched (created or renewed) for ttl may be
 killed at any moment and is dead when emax has passed. Killing the session that holds the node
 key deletes the key, and for lockDelay nobody can acquire it. A call may fail with or without
 having taken effect.
 */
module MonitorSpec {
  import opened Common

  datatype Phase = Disconnected | Connecting | Active

  /** Bounds of the environment; ticks of the monitor are at least gap apart. */
  datatype Timing = Timing(ttl: nat, emax: nat, lockDelay: nat, gap: nat)

  /** How a call went: answered, done but with the answer lost, or never done. */
  datatype Fate = Done | AnswerLost | NotDone

  /** The answers to the calls of one tick, or of the clean-up. */
  datatype Answers = Answers(client: bool, leader: bool, create: Fate, acquire: Fate, destroy: Fate, renew: Fate)

  /** Every call is answered. */
  const GOOD: Answers := Answers(true, true, Done, Done, Done, Done)

  /** Live sessions with the instant they were last touched, and the holder of the node key. */
  datatype Consul = Consul(sessions: map<nat, int>, holder: Option<nat>, freeAt: int, nextId: nat)

  /** The fields of the monitor, with its two state gauges. */
  datatype Monitor = Monitor(
    state: Phase, client: bool, sessionID: Option<nat>, renewCount: nat,
    consulConnected: nat, sessionActive: nat)

  /** The monitor's calls that carry a session. */
  datatype Op = Acquired(id: nat, ok: bool) | Renewed(id: nat, ok: bool) | Destroyed(id: nat)

  datatype Lease = Lease(
    monitor: Monitor, consul: Consul, clock: int, lastTick: int, running: bool, ops: seq<Op>)

  datatype Event =
    | Advance(to: int)
    | Expire(id: nat)
    | Beat(answers: Answers)
    | Stop(answers: Answers)

  // ---- Consul ----

  function CreateSession(c: Consul, now: int, fate: Fate): Consul {
    if fate.NotDone? then c else c.(sessions := c.sessions[c.nextId := now], nextId := c.nextId + 1)
  }

  function RenewSession(c: Consul, id: nat, now: int, fate: Fate): Consul {
    if fate.NotDone? || id !in c.sessions then c else c.(sessions := c.sessions[id := now])
  }

  predicate Acquirable(c: Consul, id: nat, now: int) {
    id in c.sessions && (c.holder == Some(id) || (c.holder.None? && now >= c.freeAt))
  }

  function AcquireKey(c: Consul, id: nat, now: int, fate: Fate): Consul {
    if fate.NotDone? || !Acquirable(c, id, now) then c else c.(holder := Some(id))
  }

  /** The end of a session, by expiry or by request. */
  function Kill(t: Timing, c: Consul, id: nat, now: int): Consul {
    var rest := c.(sessions := c.sessions - {id});
    if c.holder == Some(id) then rest.(holder := None, freeAt := now + t.lockDelay) else rest
  }

  function DestroySession(t: Timing, c: Consul, id: nat, now: int, fate: Fate): Consul {
    if fate.NotDone? || id !in c.sessions then c else Kill(t, c, id, now)
  }

  // ---- the monitor ----

  function TransitionTo(m: Monitor, state: Phase): Monitor {
    if state.Disconnected? then
      m.(state := state, client := false, sessionID := None, consulConnected := 0, sessionActive := 0)
    else m.(state := state)
  }

  function With(l: Lease, m: Monitor, c: Consul): Lease {
    l.(monitor := m, consul := c)
  }

  function Noted(l: Lease, op: Op): Lease {
    l.(ops := l.ops + [op])
  }

  /** The part of tryCreateSession after CreateSession answered with id. */
  function AcquireStep(t: Timing, l: Lease, id: nat, a: Answers): Lease {
    var m := l.monitor;
    var ok := a.acquire.Done? && Acquirable(l.consul, id, l.clock);
    var c := AcquireKey(l.consul, id, l.clock, a.acquire);
    if ok then
      Noted(With(l, m.(sessionID := Some(id), state := Active, renewCount := 0, sessionActive := 1), c),
            Acquired(id, true))
    else
      Noted(Noted(With(l, TransitionTo(m, Disconnected), DestroySession(t, c, id, l.clock, a.destroy)),
                  Acquired(id, false)), Destroyed(id))
  }

  function CreateStep(t: Timing, l: Lease, a: Answers): Lease {
    if !l.monitor.client then With(l, TransitionTo(l.monitor, Disconnected), l.consul)
    else
      var c := CreateSession(l.consul, l.clock, a.create);
      if !a.create.Done? then With(l, TransitionTo(l.monitor, Disconnected), c)
      else AcquireStep(t, l.(consul := c), l.consul.nextId, a)
  }

  function ConnectStep(t: Timing, l: Lease, a: Answers): Lease {
    if !a.client || !a.leader then l
    else
      CreateStep(t, l.(monitor := l.monitor.(client := true, state := Connecting, consulConnected := 1)), a)
  }

  function RenewStep(l: Lease, a: Answers): Lease {
    var m := l.monitor;
    if !m.client || m.sessionID.None? then With(l, TransitionTo(m, Disconnected), l.consul)
    else
      var id := m.sessionID.value;
      var ok := a.renew.Done? && id in l.consul.sessions;
      var c := RenewSession(l.consul, id, l.clock, a.renew);
      Noted(With(l, if ok then m.(renewCount := m.renewCount + 1)
                    else TransitionTo(m.(sessionActive := 0), Connecting), c),
            Renewed(id, ok))
  }

  function TickStep(t: Timing, l: Lease, a: Answers): Lease {
    match l.monitor.state
    case Disconnected => ConnectStep(t, l, a)
    case Connecting => CreateStep(t, l, a)
    case Active => RenewStep(l, a)
  }

  function CleanupStep(t: Timing, l: Lease, a: Answers): Lease {
    var m := l.monitor.(consulConnected := 0, sessionActive := 0);
    if l.monitor.client && l.monitor.sessionID.Some? then
      var id := l.monitor.sessionID.value;
      Noted(With(l, m, DestroySession(t, l.consul, id, l.clock, a.destroy)), Destroyed(id))
    else With(l, m, l.consul)
  }

  // ---- runs ----

  predicate AllAlive(t: Timing, c: Consul, now: int) {
    forall id :: id in c.sessions ==> now - c.sessions[id] <= t.emax
  }

  /** An event the environment does not allow changes nothing. */
  function Step(t: Timing, l: Lease, e: Event): Lease {
    match e
    case Advance(to) => if l.clock <= to && AllAlive(t, l.consul, to) then l.(clock := to) else l
    case Expire(id) =>
      if id in l.consul.sessions && l.clock - l.consul.sessions[id] >= t.ttl
      then l.(consul := Kill(t, l.consul, id, l.clock)) else l
    case Beat(a) =>
      if l.running && l.clock - l.lastTick >= t.gap then TickStep(t, l, a).(lastTick := l.clock) else l
    case Stop(a) => if l.running then CleanupStep(t, l, a).(running := false) else l
  }

  function Init(t: Timing): Lease {
    Lease(Monitor(Disconnected, false, None, 0, 0, 0), Consul(map[], None, 0, 0), 0, 0 - t.gap, true, [])
  }

  function Exec(t: Timing, events: seq<Event>): Lease {
    if events == [] then Init(t)
    else Step(t, Exec(t, events[..|events| - 1]), events[|events| - 1])
  }
}
