/** A node whose monitor has gone silent is restarted within a bound, in every interleaving. */
module Completeness {
  import opened Common
  import opened Heartbeat
  import A = AgentSpec
  import S = AgentSafety
  import T = AgentTimeline
  import R = AgentTheorems
  import M = MonitorSpec

  /** The pass time of the last reading of the node that was no error. */
  function LastPass(log: seq<A.Entry>, n: A.Name): Option<int> {
    if log == [] then None
    else
      var e := log[|log| - 1];
      if T.Seen(e) && e.name == n then Some(e.pass) else LastPass(log[..|log| - 1], n)
  }

  /** The last such reading belongs to a pass that began at most delta ago. */
  predicate Fresh(u: Setup, y: System, delta: int) {
    var p := LastPass(y.agent.log, u.name);
    p.Some? && y.lease.clock - p.value <= delta
  }

  /** The monitor makes no move. */
  predicate Silent(e: Event) {
    e.OfLease? ==> !e.lease.Beat? && !e.lease.Stop?
  }

  /** Nothing launched yet: sessions last touched by dead, and if a pass after the last possible
      expiry has read the node, its timer runs since at most delta later and is not yet due. */
  predicate Waiting(u: Setup, y: System, dead: int, delta: int) {
    var n, track, gone := u.name, y.agent.track, dead + u.timing.emax;
    && n !in track.restarting
    && !A.AtCeiling(u.agent, A.Count(track.restartAttempts, n))
    && (forall id :: id in y.lease.consul.sessions ==> y.lease.consul.sessions[id] <= dead)
    && var p := LastPass(y.agent.log, n);
       (p.Some? && p.value > gone ==>
          && n in track.missingSince
          && track.missingSince[n] <= gone + delta
          && p.value - track.missingSince[n] < u.agent.timeout)
  }

  lemma LastPassAppend(log: seq<A.Entry>, e: A.Entry, n: A.Name)
    ensures LastPass(log + [e], n) == if T.Seen(e) && e.name == n then Some(e.pass) else LastPass(log, n)
  {
    assert (log + [e])[..|log|] == log;
  }

  lemma LastPassMoves(u: Setup, s: A.State, e: A.Event)
    requires S.Inv(u.agent, s)
    ensures LastPass(A.Step(u.agent, s, e).log, u.name)
         == if S.Reads(u.agent, s, e) && u.agent.nodes[s.loop.next].name == u.name && !e.reading.ReadError?
            then Some(s.loop.now) else LastPass(s.log, u.name)
  {
    var w := S.Written(u.agent, s, e);
    S.StepWrites(u.agent, s, e);
    if w == [] {
      assert s.log + w == s.log;
    } else if |w| == 1 {
      LastPassAppend(s.log, w[0], u.name);
      assert w == [w[0]];
    } else {
      LastPassAppend(s.log, w[0], u.name);
      LastPassAppend(s.log + [w[0]], w[1], u.name);
      assert s.log + [w[0]] + [w[1]] == s.log + w;
    }
  }

  lemma {:induction false} LastPassInPast(log: seq<A.Entry>, n: A.Name, latest: int)
    requires forall k :: 0 <= k < |log| && T.Stamped(log[k]) ==> log[k].pass <= latest
    ensures LastPass(log, n).Some? ==> LastPass(log, n).value <= latest
  {
    if log != [] {
      LastPassInPast(log[..|log| - 1], n, latest);
    }
  }

  lemma WaitingIsShort(u: Setup, z: System, dead: int, delta: int)
    requires Fresh(u, z, delta) && Waiting(u, z, dead, delta) && u.agent.timeout > 0 && delta >= 0
    ensures z.lease.clock < dead + u.timing.emax + u.agent.timeout + 2 * delta
  {
  }

  lemma LeaseKeepsWaiting(u: Setup, y: System, f: M.Event, dead: int, delta: int)
    requires SystemOk(u, y) && Waiting(u, y, dead, delta) && Silent(OfLease(f))
    ensures Waiting(u, Step(u, y, OfLease(f)), dead, delta)
  {
  }

  lemma AgentKeepsWaiting(u: Setup, y: System, f: A.Event, dead: int, delta: int)
    requires SystemOk(u, y) && Waiting(u, y, dead, delta) && Fresh(u, y, delta)
    requires Allowed(u, y, f) && !Launching(u, y.agent, f) && u.agent.timeout > 0
    ensures Waiting(u, Step(u, y, OfAgent(f)), dead, delta)
  {
    var s := y.agent;
    AgentMoves(u, s, f);
    LastPassMoves(u, s, f);
    if S.Reads(u.agent, s, f) && u.agent.nodes[s.loop.next].name == u.name && !f.reading.ReadError? {
      assert s.loop.now <= y.lease.clock;
      if f.reading.Present? {
        var id := y.lease.consul.holder.value;
        assert y.lease.clock - y.lease.consul.sessions[id] <= u.timing.emax;
      }
    }
  }

  /** As long as every state is fresh, either a restart was launched or the node is still waited for. */
  lemma {:induction false} LaunchedOrWaiting(u: Setup, past: seq<Event>, future: seq<Event>, delta: int)
    requires u.agent.timeout > 0 && delta >= 0 && forall e :: e in future ==> Silent(e)
    requires forall k :: 0 <= k <= |future| ==> Fresh(u, Exec(u, past + future[..k]), delta)
    requires var y := Exec(u, past);
             u.name !in y.agent.track.restarting
             && !A.AtCeiling(u.agent, A.Count(y.agent.track.restartAttempts, u.name))
    ensures var y, z := Exec(u, past), Exec(u, past + future);
            || R.Launches(z.agent.log, u.name) > R.Launches(y.agent.log, u.name)
            || (R.Launches(z.agent.log, u.name) == R.Launches(y.agent.log, u.name)
                && Waiting(u, z, y.lease.clock, delta))
  {
    var y := Exec(u, past);
    if future == [] {
      assert past + future == past && past + future[..0] == past;
      SystemAlwaysOk(u, past);
      LastPassInPast(y.agent.log, u.name, T.PassTime(y.agent));
    } else {
      var before, e := future[..|future| - 1], future[|future| - 1];
      forall k | 0 <= k <= |before| ensures Fresh(u, Exec(u, past + before[..k]), delta) {
        assert before[..k] == future[..k];
      }
      LaunchedOrWaiting(u, past, before, delta);
      var z := Exec(u, past + before);
      SystemAlwaysOk(u, past + before);
      assert past + future == past + before + [e];
      ExecAppend(u, past + before, e);
      assert before == future[..|before|] && Fresh(u, z, delta);
      WaitingStep(u, z, e, y.lease.clock, delta);
    }
  }

  lemma WaitingStep(u: Setup, z: System, e: Event, dead: int, delta: int)
    requires SystemOk(u, z) && Fresh(u, z, delta) && Silent(e) && u.agent.timeout > 0
    ensures R.Launches(Step(u, z, e).agent.log, u.name) >= R.Launches(z.agent.log, u.name)
    ensures Waiting(u, z, dead, delta) ==>
              || R.Launches(Step(u, z, e).agent.log, u.name) > R.Launches(z.agent.log, u.name)
              || Waiting(u, Step(u, z, e), dead, delta)
  {
    match e
    case OfLease(f) =>
      if Waiting(u, z, dead, delta) {
        LeaseKeepsWaiting(u, z, f, dead, delta);
      }
    case OfAgent(f) =>
      if Allowed(u, z, f) {
        LaunchCounted(u, z.agent, f);
        if Waiting(u, z, dead, delta) && !Launching(u, z.agent, f) {
          AgentKeepsWaiting(u, z, f, dead, delta);
        }
      }
  }

  /**
   End-to-end completeness. From some state on the monitor of the node makes no call, while Consul
   ends untouched sessions within emax and the agent always has a reading of the node from a pass
   that began at most delta ago. If the node is then neither restarting nor at its ceiling, a
   restart has been launched once emax + timeout + 2 * delta have gone by.
   */
  lemma {:induction false} SilentNodeIsRestarted(u: Setup, past: seq<Event>, future: seq<Event>, delta: int)
    requires u.agent.timeout > 0 && delta >= 0 && forall e :: e in future ==> Silent(e)
    requires forall k :: 0 <= k <= |future| ==> Fresh(u, Exec(u, past + future[..k]), delta)
    requires var y := Exec(u, past);
             u.name !in y.agent.track.restarting
             && !A.AtCeiling(u.agent, A.Count(y.agent.track.restartAttempts, u.name))
    requires Exec(u, past + future).lease.clock
             >= Exec(u, past).lease.clock + u.timing.emax + u.agent.timeout + 2 * delta
    ensures R.Launches(Exec(u, past + future).agent.log, u.name) > R.Launches(Exec(u, past).agent.log, u.name)
  {
    LaunchedOrWaiting(u, past, future, delta);
    var z := Exec(u, past + future);
    assert future[..|future|] == future;
    assert Fresh(u, z, delta);
    if R.Launches(z.agent.log, u.name) <= R.Launches(Exec(u, past).agent.log, u.name) {
      WaitingIsShort(u, z, Exec(u, past).lease.clock, delta);
    }
  }
}
