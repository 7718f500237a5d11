/**
 The whole watchdog for one node: its monitor, Consul and the agent, on one clock.

 The agent reads the clock of the system, and a successful read of the node's key answers
 present exactly when some session holds the key.
 */
module Heartbeat {
  import A = AgentSpec
  import H = AgentHistory
  import S = AgentSafety
  import T = AgentTimeline
  import R = AgentTheorems
  import M = MonitorSpec
  import L = MonitorSafety

  datatype Setup = Setup(agent: A.Config, timing: M.Timing, name: A.Name)

  datatype System = System(lease: M.Lease, agent: A.State)

  datatype Event = OfLease(lease: M.Event) | OfAgent(agent: A.Event)

  /** The node whose key the agent is about to read. */
  predicate ReadsNode(u: Setup, y: System) {
    && y.agent.loop.Checking?
    && y.agent.loop.next < |u.agent.nodes|
    && u.agent.nodes[y.agent.loop.next].name == u.name
  }

  predicate Allowed(u: Setup, y: System, e: A.Event) {
    match e
    case BeginPass(now) => now == y.lease.clock
    case Read(at, reading) =>
      && at == y.lease.clock
      && (ReadsNode(u, y) && !reading.ReadError? ==> (reading.Present? <==> y.lease.consul.holder.Some?))
    case _ => true
  }

  function Step(u: Setup, y: System, e: Event): System {
    match e
    case OfLease(f) => y.(lease := M.Step(u.timing, y.lease, f))
    case OfAgent(f) => if Allowed(u, y, f) then y.(agent := A.Step(u.agent, y.agent, f)) else y
  }

  function Init(u: Setup): System {
    System(M.Init(u.timing), A.Init())
  }

  function Exec(u: Setup, events: seq<Event>): System {
    if events == [] then Init(u)
    else Step(u, Exec(u, events[..|events| - 1]), events[|events| - 1])
  }

  // ---- the parts stay what they are alone ----

  ghost predicate SystemOk(u: Setup, y: System) {
    && L.LeaseOk(u.timing, y.lease)
    && S.Inv(u.agent, y.agent)
    && T.TimesOk(y.agent)
    && y.agent.clock <= y.lease.clock
    && (u.name in y.agent.track.missingSince ==>
          y.agent.track.missingSince[u.name] <= T.PassTime(y.agent))
  }

  /** What one step of the agent does to the tracking of the node. */
  ghost predicate Moves(u: Setup, s: A.State, e: A.Event) {
    var n := u.name;
    var t := A.Step(u.agent, s, e);
    if S.Reads(u.agent, s, e) && u.agent.nodes[s.loop.next].name == n && !e.reading.ReadError? then
      if e.reading.Present? then
        n !in t.track.missingSince && (n in t.track.restarting <==> n in s.track.restarting)
        && A.Count(t.track.restartAttempts, n) == 0
      else if n in s.track.restarting
              || A.AtCeiling(u.agent, A.Count(s.track.restartAttempts, n)) then t.track == s.track
      else if n !in s.track.missingSince then
        t.track == s.track.(missingSince := s.track.missingSince[n := s.loop.now])
      else if s.loop.now - s.track.missingSince[n] < u.agent.timeout then t.track == s.track
      else true
    else
      && (n in t.track.missingSince <==> n in s.track.missingSince)
      && (n in s.track.missingSince ==> t.track.missingSince[n] == s.track.missingSince[n])
      && (n !in s.track.restarting ==>
            n !in t.track.restarting
            && A.Count(t.track.restartAttempts, n) == A.Count(s.track.restartAttempts, n))
  }

  lemma AgentMoves(u: Setup, s: A.State, e: A.Event)
    requires S.Inv(u.agent, s)
    ensures Moves(u, s, e)
  {
    if e.Run? && e.id < |s.goroutines| && s.goroutines[e.id].node.name == u.name
       && S.Holding(s.goroutines[e.id].pc) {
      assert S.NodeOk(u.agent, s, u.name, H.Replay(u.agent, s.log, u.name));
    }
  }

  /** The event is the absent reading that launches a restart of the node. */
  predicate Launching(u: Setup, s: A.State, e: A.Event) {
    var n := u.name;
    && S.Reads(u.agent, s, e) && u.agent.nodes[s.loop.next].name == n && e.reading.Absent?
    && n !in s.track.restarting
    && !A.AtCeiling(u.agent, A.Count(s.track.restartAttempts, n))
    && n in s.track.missingSince
    && s.loop.now - s.track.missingSince[n] >= u.agent.timeout
  }

  lemma LaunchesAppend(log: seq<A.Entry>, e: A.Entry, n: A.Name)
    ensures R.Launches(log + [e], n) == R.Launches(log, n) + S.One(e.Launched? && e.name == n)
  {
    assert (log + [e])[..|log|] == log;
  }

  lemma LaunchCounted(u: Setup, s: A.State, e: A.Event)
    requires S.Inv(u.agent, s)
    ensures R.Launches(A.Step(u.agent, s, e).log, u.name)
         == R.Launches(s.log, u.name) + S.One(Launching(u, s, e))
  {
    S.StepWrites(u.agent, s, e);
    LaunchesWritten(s.log, S.Written(u.agent, s, e), u.name);
    assert S.NodeOk(u.agent, s, u.name, H.Replay(u.agent, s.log, u.name));
  }

  lemma LaunchesWritten(log: seq<A.Entry>, w: seq<A.Entry>, n: A.Name)
    requires |w| <= 2
    ensures R.Launches(log + w, n)
         == R.Launches(log, n) + S.One(|w| > 0 && w[0].Launched? && w[0].name == n)
            + S.One(|w| > 1 && w[1].Launched? && w[1].name == n)
  {
    if w == [] {
      assert log + w == log;
    } else if |w| == 1 {
      LaunchesAppend(log, w[0], n);
      assert w == [w[0]];
    } else {
      LaunchesAppend(log, w[0], n);
      LaunchesAppend(log + [w[0]], w[1], n);
      assert log + [w[0]] + [w[1]] == log + w;
    }
  }

  lemma AgentClockFollows(u: Setup, y: System, e: A.Event)
    requires y.agent.clock <= y.lease.clock && Allowed(u, y, e)
    ensures A.Step(u.agent, y.agent, e).clock <= y.lease.clock
  {
  }

  lemma StepKeepsSystem(u: Setup, y: System, e: Event)
    requires SystemOk(u, y)
    ensures SystemOk(u, Step(u, y, e))
  {
    match e
    case OfLease(f) => L.StepKeeps(u.timing, y.lease, f);
    case OfAgent(f) =>
      if Allowed(u, y, f) {
        S.StepKeeps(u.agent, y.agent, f);
        T.StepKeepsTimes(u.agent, y.agent, f);
        T.StepMovesClock(u.agent, y.agent, f);
        AgentClockFollows(u, y, f);
        TimerInPast(u, y.agent, f);
      }
  }

  lemma TimerInPast(u: Setup, s: A.State, e: A.Event)
    requires S.Inv(u.agent, s) && T.TimesOk(s)
    requires u.name in s.track.missingSince ==> s.track.missingSince[u.name] <= T.PassTime(s)
    ensures var t := A.Step(u.agent, s, e);
            u.name in t.track.missingSince ==> t.track.missingSince[u.name] <= T.PassTime(t)
  {
    AgentMoves(u, s, e);
    T.StepMovesClock(u.agent, s, e);
    if Launching(u, s, e) {
      S.StepKeeps(u.agent, s, e);
      LaunchEndsTimer(u, s, e);
    }
  }

  lemma LaunchEndsTimer(u: Setup, s: A.State, e: A.Event)
    requires Launching(u, s, e)
    ensures u.name !in A.Step(u.agent, s, e).track.missingSince
  {
  }

  lemma {:induction false} SystemAlwaysOk(u: Setup, events: seq<Event>)
    ensures SystemOk(u, Exec(u, events))
  {
    if events == [] {
      L.RunsAreOk(u.timing, []);
      S.RunsAreSafe(u.agent, []);
      T.RunsKeepTime(u.agent, []);
    } else {
      SystemAlwaysOk(u, events[..|events| - 1]);
      StepKeepsSystem(u, Exec(u, events[..|events| - 1]), events[|events| - 1]);
    }
  }

  lemma ExecAppend(u: Setup, events: seq<Event>, e: Event)
    ensures Exec(u, events + [e]) == Step(u, Exec(u, events), e)
  {
    assert (events + [e])[..|events|] == events;
  }
}
