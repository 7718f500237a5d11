/** A node whose monitor keeps ticking is not restarted, even across one failed renewal. */
module Accuracy {
  import opened Common
  import opened Heartbeat
  import A = AgentSpec
  import S = AgentSafety
  import R = AgentTheorems
  import M = MonitorSpec
  import L = MonitorSafety

  /** Every call but possibly the renewal is answered. */
  predicate Smooth(e: Event) {
    e.OfLease? ==>
      !e.lease.Stop? &&
      (e.lease.Beat? ==>
         var a := e.lease.answers;
         a.client && a.leader && a.create.Done? && a.acquire.Done? && a.destroy.Done?)
  }

  predicate RenewalFails(e: Event) {
    e.OfLease? && e.lease.Beat? && !e.lease.answers.renew.Done?
  }

  function Failures(events: seq<Event>): nat {
    if events == [] then 0
    else Failures(events[..|events| - 1]) + S.One(RenewalFails(events[|events| - 1]))
  }

  /** The monitor runs and ticked at most beat ago; a pass in progress began at most lag ago. */
  predicate Prompt(y: System, beat: nat, lag: nat) {
    && y.lease.running
    && y.lease.clock - y.lease.lastTick <= beat
    && (y.agent.loop.Checking? ==> y.lease.clock - y.agent.loop.now <= lag)
  }

  /** The monitor is active and its session, touched by the last tick, holds the key. */
  predicate Held(l: M.Lease) {
    && l.running && l.monitor.state.Active? && l.monitor.client
    && l.monitor.sessionID.Some? && l.consul.holder == l.monitor.sessionID
    && l.monitor.sessionID.value in l.consul.sessions
    && l.consul.sessions[l.monitor.sessionID.value] == l.lastTick
  }

  /** How long after the key was lost a tick can still be refused: up to the end of the lock delay. */
  function Refusal(t: M.Timing): nat {
    if t.lockDelay == 0 then 0 else t.lockDelay - 1
  }

  /** The longest that the key can be away: a last refused tick, and the gap to the next one. */
  function LongestGap(t: M.Timing, beat: nat): nat {
    Refusal(t) + beat
  }

  /** How a heartbeat goes through one failed renewal: the stale session keeps the key until it
      expires at the instant since, the key is gone until a tick acquires it again. */
  datatype Phase = Steady | Stale | Gap(since: int) | Restored(since: int)

  predicate LeasePhase(u: Setup, l: M.Lease, ph: Phase) {
    match ph
    case Steady => Held(l)
    case Stale => l.running && !l.monitor.state.Active? && l.consul.holder.Some?
    case Gap(since) =>
      && l.running && !l.monitor.state.Active? && l.consul.holder.None?
      && l.consul.freeAt == since + u.timing.lockDelay
      && since <= l.clock && l.lastTick <= since + Refusal(u.timing)
    case Restored(_) => Held(l)
  }

  predicate TimerPhase(u: Setup, s: A.State, ph: Phase, lag: nat) {
    u.name in s.track.missingSince ==>
      (ph.Gap? || ph.Restored?) && s.track.missingSince[u.name] >= ph.since - lag
  }

  /** The absent readings of the node from `from` on all fall into the time the key can be away. */
  ghost predicate WindowPhase(u: Setup, log: seq<A.Entry>, from: nat, ph: Phase, beat: nat) {
    forall k :: from <= k < |log| && log[k].SawAbsent? && log[k].name == u.name ==>
      (ph.Gap? || ph.Restored?) && ph.since <= log[k].at <= ph.since + LongestGap(u.timing, beat)
  }

  function NextPhase(u: Setup, l: M.Lease, e: M.Event, ph: Phase): Phase {
    match e
    case Expire(id) =>
      if ph.Stale? && l.consul.holder == Some(id) && id in l.consul.sessions
         && l.clock - l.consul.sessions[id] >= u.timing.ttl
      then Gap(l.clock) else ph
    case Beat(a) =>
      if !(l.running && l.clock - l.lastTick >= u.timing.gap) then ph
      else if (ph.Steady? || ph.Restored?) && !a.renew.Done? then Stale
      else if ph.Gap? && l.clock >= l.consul.freeAt then Restored(ph.since)
      else ph
    case _ => ph
  }

  /** Any session but the holder's comes and goes without touching the key. */
  lemma CreateInPhase(u: Setup, l: M.Lease, a: M.Answers, ph: Phase)
    requires L.ConsulOk(u.timing, l) && l.running && (ph.Stale? || ph.Gap?)
    requires ph.Stale? ==> l.consul.holder.Some?
    requires ph.Gap? ==> l.consul.holder.None? && l.consul.freeAt == ph.since + u.timing.lockDelay
                         && ph.since <= l.clock
    requires a.create.Done? && a.acquire.Done? && a.destroy.Done? && l.monitor.client
    ensures var n := M.CreateStep(u.timing, l, a).(lastTick := l.clock);
            LeasePhase(u, n, if ph.Gap? && l.clock >= l.consul.freeAt then Restored(ph.since) else ph)
  {
  }

  lemma BeatInPhase(u: Setup, l: M.Lease, a: M.Answers, ph: Phase)
    requires L.LeaseOk(u.timing, l) && LeasePhase(u, l, ph) && Smooth(OfLease(M.Beat(a)))
    requires l.clock - l.lastTick >= u.timing.gap
    ensures LeasePhase(u, M.Step(u.timing, l, M.Beat(a)), NextPhase(u, l, M.Beat(a), ph))
  {
    match l.monitor.state
    case Active =>
    case Connecting => CreateInPhase(u, l, a, ph);
    case Disconnected =>
      var m := l.(monitor := l.monitor.(client := true, state := M.Connecting, consulConnected := 1));
      CreateInPhase(u, m, a, ph);
  }

  lemma LeaseInPhase(u: Setup, l: M.Lease, e: M.Event, ph: Phase, beat: nat)
    requires L.LeaseOk(u.timing, l) && LeasePhase(u, l, ph) && Smooth(OfLease(e))
    requires l.clock - l.lastTick <= beat < u.timing.ttl
    ensures LeasePhase(u, M.Step(u.timing, l, e), NextPhase(u, l, e, ph))
  {
    if e.Beat? && l.clock - l.lastTick >= u.timing.gap {
      BeatInPhase(u, l, e.answers, ph);
    }
  }

  /** The agent's timer stays within the phase, and is not due if the timeout is long enough. */
  lemma TimerInPhase(u: Setup, y: System, f: A.Event, ph: Phase, beat: nat, lag: nat)
    requires SystemOk(u, y) && Prompt(y, beat, lag) && Allowed(u, y, f)
    requires LeasePhase(u, y.lease, ph) && TimerPhase(u, y.agent, ph, lag)
    ensures TimerPhase(u, A.Step(u.agent, y.agent, f), ph, lag)
    ensures LongestGap(u.timing, beat) + lag < u.agent.timeout ==> !Launching(u, y.agent, f)
  {
    AgentMoves(u, y.agent, f);
    if Launching(u, y.agent, f) {
      LaunchEndsTimer(u, y.agent, f);
    }
  }

  /** A new absent reading is made while nobody holds the key. */
  lemma ReadingInPhase(u: Setup, y: System, f: A.Event, from: nat, ph: Phase, beat: nat, lag: nat)
    requires SystemOk(u, y) && Prompt(y, beat, lag) && Allowed(u, y, f)
    requires LeasePhase(u, y.lease, ph) && WindowPhase(u, y.agent.log, from, ph, beat)
    ensures WindowPhase(u, A.Step(u.agent, y.agent, f).log, from, ph, beat)
  {
    S.StepWrites(u.agent, y.agent, f);
  }

  ghost predicate InPhase(u: Setup, y: System, from: nat, ph: Phase, beat: nat, lag: nat) {
    && LeasePhase(u, y.lease, ph) && TimerPhase(u, y.agent, ph, lag)
    && from <= |y.agent.log| && WindowPhase(u, y.agent.log, from, ph, beat)
  }

  /** The event is a renewal that fails. */
  predicate LosesRenewal(y: System, e: Event) {
    RenewalFails(e) && y.lease.monitor.state.Active?
  }

  /** One event. The window of absent readings starts over with the failure of a restored session. */
  lemma StepInPhase(u: Setup, y: System, e: Event, from: nat, ph: Phase, beat: nat, lag: nat)
      returns (next: Phase, start: nat)
    requires SystemOk(u, y) && Prompt(y, beat, lag) && Smooth(e) && beat < u.timing.ttl
    requires InPhase(u, y, from, ph, beat, lag)
    requires LosesRenewal(y, e) ==> u.name !in y.agent.track.missingSince
    ensures InPhase(u, Step(u, y, e), start, next, beat, lag)
    ensures LongestGap(u.timing, beat) + lag < u.agent.timeout ==>
              R.Launches(Step(u, y, e).agent.log, u.name) == R.Launches(y.agent.log, u.name)
    ensures ph.Steady? && !RenewalFails(e) ==> next.Steady?
    ensures start == from || (RenewalFails(e) && !ph.Steady?)
  {
    next, start := ph, from;
    match e
    case OfLease(f) =>
      next := NextPhase(u, y.lease, f, ph);
      start := if ph.Restored? && next.Stale? then |y.agent.log| else from;
      LeaseInPhase(u, y.lease, f, ph, beat);
    case OfAgent(f) =>
      if Allowed(u, y, f) {
        TimerInPhase(u, y, f, ph, beat, lag);
        ReadingInPhase(u, y, f, from, ph, beat, lag);
        LaunchCounted(u, y.agent, f);
        S.StepWrites(u.agent, y.agent, f);
      }
  }

  /**
   The node is active and the agent does not miss it; from then on the monitor ticks within every
   beat, no pass lags behind its begin by more than lag, and every call is answered but renewals.
   */
  ghost predicate Shaky(u: Setup, past: seq<Event>, future: seq<Event>, beat: nat, lag: nat) {
    && Held(Exec(u, past).lease) && u.name !in Exec(u, past).agent.track.missingSince
    && (forall e :: e in future ==> Smooth(e))
    && forall k :: 0 <= k <= |future| ==> Prompt(Exec(u, past + future[..k]), beat, lag)
  }

  /** Any number of renewals fail, but none while the agent still misses the node: after each of them
      the agent has seen the key again before the next one. */
  ghost predicate SpacedFailures(u: Setup, past: seq<Event>, future: seq<Event>, beat: nat, lag: nat) {
    && Shaky(u, past, future, beat, lag)
    && forall k :: 0 <= k < |future| && LosesRenewal(Exec(u, past + future[..k]), future[k]) ==>
         u.name !in Exec(u, past + future[..k]).agent.track.missingSince
  }

  /** At most one renewal fails. */
  ghost predicate OneFailure(u: Setup, past: seq<Event>, future: seq<Event>, beat: nat, lag: nat) {
    Shaky(u, past, future, beat, lag) && Failures(future) <= 1
  }

  lemma ShakyPrefix(u: Setup, past: seq<Event>, future: seq<Event>, k: nat, beat: nat, lag: nat)
    requires Shaky(u, past, future, beat, lag) && k <= |future|
    ensures Shaky(u, past, future[..k], beat, lag) && Prompt(Exec(u, past + future[..k]), beat, lag)
  {
    var before := future[..k];
    forall i | 0 <= i <= |before| ensures Prompt(Exec(u, past + before[..i]), beat, lag) {
      assert before[..i] == future[..i];
    }
  }

  lemma SpacedPrefix(u: Setup, past: seq<Event>, future: seq<Event>, k: nat, beat: nat, lag: nat)
    requires SpacedFailures(u, past, future, beat, lag) && k <= |future|
    ensures SpacedFailures(u, past, future[..k], beat, lag)
  {
    var before := future[..k];
    ShakyPrefix(u, past, future, k, beat, lag);
    forall i | 0 <= i < |before| && LosesRenewal(Exec(u, past + before[..i]), before[i])
      ensures u.name !in Exec(u, past + before[..i]).agent.track.missingSince
    {
      assert before[..i] == future[..i];
    }
  }

  lemma LastStep(u: Setup, past: seq<Event>, future: seq<Event>, beat: nat, lag: nat)
    requires SpacedFailures(u, past, future, beat, lag) && future != []
    ensures var before, e := future[..|future| - 1], future[|future| - 1];
            var y := Exec(u, past + before);
      && SpacedFailures(u, past, before, beat, lag)
      && Exec(u, past + future) == Step(u, y, e) && SystemOk(u, y)
      && Prompt(y, beat, lag) && Smooth(e) && (LosesRenewal(y, e) ==> u.name !in y.agent.track.missingSince)
  {
    var last := |future| - 1;
    SpacedPrefix(u, past, future, last, beat, lag);
    assert past + future == past + future[..last] + [future[last]];
    ExecAppend(u, past + future[..last], future[last]);
    SystemAlwaysOk(u, past + future[..last]);
  }

  /** The phase that a run with spaced failures is in, and where its last window starts. */
  lemma {:induction false} RunInPhase(u: Setup, past: seq<Event>, future: seq<Event>, beat: nat, lag: nat)
      returns (ph: Phase, from: nat)
    requires SpacedFailures(u, past, future, beat, lag) && beat < u.timing.ttl
    ensures InPhase(u, Exec(u, past + future), from, ph, beat, lag)
    ensures LongestGap(u.timing, beat) + lag < u.agent.timeout ==>
              R.Launches(Exec(u, past + future).agent.log, u.name) == R.Launches(Exec(u, past).agent.log, u.name)
    ensures Failures(future) == 0 ==> ph.Steady?
    ensures Failures(future) <= 1 ==> from == |Exec(u, past).agent.log|
  {
    if future == [] {
      assert past + future == past;
      ph, from := Steady, |Exec(u, past).agent.log|;
    } else {
      var before, e := future[..|future| - 1], future[|future| - 1];
      LastStep(u, past, future, beat, lag);
      ph, from := RunInPhase(u, past, before, beat, lag);
      ph, from := StepInPhase(u, Exec(u, past + before), e, from, ph, beat, lag);
    }
  }

  lemma {:induction false} FailuresBefore(events: seq<Event>, k: nat)
    requires k < |events| && RenewalFails(events[k])
    ensures Failures(events[..k]) + 1 <= Failures(events)
  {
    var last := |events| - 1;
    if k < last {
      assert events[..last][..k] == events[..k];
      FailuresBefore(events[..last], k);
    }
  }

  /** A single failure is spaced. */
  lemma OneFailureIsSpaced(u: Setup, past: seq<Event>, future: seq<Event>, beat: nat, lag: nat)
    requires OneFailure(u, past, future, beat, lag) && beat < u.timing.ttl
    ensures SpacedFailures(u, past, future, beat, lag)
  {
    forall k | 0 <= k < |future| && LosesRenewal(Exec(u, past + future[..k]), future[k])
      ensures u.name !in Exec(u, past + future[..k]).agent.track.missingSince
    {
      var before := future[..k];
      FailuresBefore(future, k);
      ShakyPrefix(u, past, future, k, beat, lag);
      forall i | 0 <= i < k ensures !RenewalFails(before[i]) {
        if RenewalFails(before[i]) {
          FailuresBefore(before, i);
        }
      }
      var ph, from := RunInPhase(u, past, before, beat, lag);
    }
  }

  lemma SteadyStep(u: Setup, y: System, e: Event, beat: nat)
    requires SystemOk(u, y) && Held(y.lease) && Smooth(e) && !RenewalFails(e)
    requires y.lease.clock - y.lease.lastTick <= beat < u.timing.ttl
    ensures Held(Step(u, y, e).lease)
    ensures R.Launches(Step(u, y, e).agent.log, u.name) == R.Launches(y.agent.log, u.name)
  {
    match e
    case OfLease(f) => LeaseInPhase(u, y.lease, f, Steady, beat);
    case OfAgent(f) =>
      if Allowed(u, y, f) {
        LaunchCounted(u, y.agent, f);
      }
  }

  /**
   End-to-end accuracy. While the monitor of an active node ticks within every beat < ttl and its
   calls are answered, its session holds the key at every instant and the agent launches nothing,
   whatever the agent remembers from before and however slow its passes are.
   */
  lemma {:induction false} HealthyNodeIsLeftAlone(u: Setup, past: seq<Event>, future: seq<Event>, beat: nat)
    requires Held(Exec(u, past).lease) && beat < u.timing.ttl
    requires forall e :: e in future ==> Smooth(e) && !RenewalFails(e)
    requires forall k :: 0 <= k <= |future| ==>
               var l := Exec(u, past + future[..k]).lease; l.clock - l.lastTick <= beat
    ensures var z := Exec(u, past + future);
            Held(z.lease) && R.Launches(z.agent.log, u.name) == R.Launches(Exec(u, past).agent.log, u.name)
  {
    if future == [] {
      assert past + future == past;
    } else {
      var before, e := future[..|future| - 1], future[|future| - 1];
      forall k | 0 <= k <= |before|
        ensures var l := Exec(u, past + before[..k]).lease; l.clock - l.lastTick <= beat
      {
        assert before[..k] == future[..k];
      }
      HealthyNodeIsLeftAlone(u, past, before, beat);
      assert past + future == past + before + [e];
      ExecAppend(u, past + before, e);
      SystemAlwaysOk(u, past + before);
      assert before == future[..|before|];
      SteadyStep(u, Exec(u, past + before), e, beat);
    }
  }

  /** Around one failed renewal all absent readings of the node fall into a window of one tick gap,
      and with a lock delay into less than lock delay and tick gap together. */
  lemma {:induction false} AbsencesFitWindow(
      u: Setup, past: seq<Event>, future: seq<Event>, beat: nat, lag: nat, j: nat, k: nat)
    requires OneFailure(u, past, future, beat, lag) && beat < u.timing.ttl
    requires |Exec(u, past).agent.log| <= j <= k < |Exec(u, past + future).agent.log|
    requires var log := Exec(u, past + future).agent.log;
             log[j].SawAbsent? && log[k].SawAbsent? && log[j].name == log[k].name == u.name
    ensures var log := Exec(u, past + future).agent.log;
      && log[k].at - log[j].at <= u.timing.lockDelay + beat
      && (u.timing.lockDelay > 0 ==> log[k].at - log[j].at < u.timing.lockDelay + beat)
  {
    OneFailureIsSpaced(u, past, future, beat, lag);
    var ph, from := RunInPhase(u, past, future, beat, lag);
  }

  /**
   Across any number of failed renewals, of whatever kind, the agent launches nothing, provided that
   it sees the key between them and that the longest gap of the key and the lag of a pass together
   stay below the timeout. AccuracyLimit shows that no weaker bound does, even for a single failure.
   */
  lemma {:induction false} FailedRenewalsAreForgiven(
      u: Setup, past: seq<Event>, future: seq<Event>, beat: nat, lag: nat)
    requires SpacedFailures(u, past, future, beat, lag)
    requires beat < u.timing.ttl && LongestGap(u.timing, beat) + lag < u.agent.timeout
    ensures R.Launches(Exec(u, past + future).agent.log, u.name) == R.Launches(Exec(u, past).agent.log, u.name)
  {
    var ph, from := RunInPhase(u, past, future, beat, lag);
  }

  /** In particular across one failed renewal. */
  lemma {:induction false} OneFailedRenewalIsForgiven(
      u: Setup, past: seq<Event>, future: seq<Event>, beat: nat, lag: nat)
    requires OneFailure(u, past, future, beat, lag)
    requires beat < u.timing.ttl && LongestGap(u.timing, beat) + lag < u.agent.timeout
    ensures R.Launches(Exec(u, past + future).agent.log, u.name) == R.Launches(Exec(u, past).agent.log, u.name)
  {
    OneFailureIsSpaced(u, past, future, beat, lag);
    FailedRenewalsAreForgiven(u, past, future, beat, lag);
  }
}
