/**
 How much of a failed renewal the agent forgives, exactly. The time of a pass is read before its
 first key, so a slow pass makes an absence look old: the lag of a pass adds to the longest gap of
 the key, and once both together reach the timeout there is a run that restarts a healthy node.
 */
module AccuracyLimit {
  import opened Common
  import opened Heartbeat
  import opened Accuracy
  import A = AgentSpec
  import H = AgentHistory
  import P = AgentPasses
  import R = AgentTheorems
  import S = AgentSafety
  import M = MonitorSpec
  import L = MonitorSafety

  /** The renewal takes effect but its answer is lost. */
  const LOST: M.Answers := M.GOOD.(renew := M.AnswerLost)

  // ---- runs under way ----

  /** The part of OneFailure that every event has to keep, event by event. */
  predicate Underway(u: Setup, past: seq<Event>, future: seq<Event>, beat: nat, lag: nat) {
    && Prompt(Exec(u, past + future), beat, lag)
    && (future != [] ==>
          Smooth(future[|future| - 1]) && Underway(u, past, future[..|future| - 1], beat, lag))
  }

  lemma {:induction false} AlwaysPrompt(u: Setup, past: seq<Event>, future: seq<Event>, beat: nat, lag: nat)
    requires Underway(u, past, future, beat, lag)
    ensures forall e :: e in future ==> Smooth(e)
    ensures forall k :: 0 <= k <= |future| ==> Prompt(Exec(u, past + future[..k]), beat, lag)
  {
    if future != [] {
      var last := |future| - 1;
      AlwaysPrompt(u, past, future[..last], beat, lag);
      forall k | 0 <= k <= |future| ensures Prompt(Exec(u, past + future[..k]), beat, lag) {
        if k <= last {
          assert future[..last][..k] == future[..k];
        } else {
          assert future[..k] == future;
        }
      }
    } else {
      assert future[..0] == future;
    }
  }

  lemma Next(u: Setup, past: seq<Event>, future: seq<Event>, e: Event, beat: nat, lag: nat) returns (more: seq<Event>)
    requires Underway(u, past, future, beat, lag) && Smooth(e)
    requires Prompt(Step(u, Exec(u, past + future), e), beat, lag)
    ensures Underway(u, past, more, beat, lag)
    ensures Exec(u, past + more) == Step(u, Exec(u, past + future), e)
    ensures Failures(more) == Failures(future) + S.One(RenewalFails(e))
  {
    more := future + [e];
    assert past + more == past + future + [e] && more[..|future|] == future;
    ExecAppend(u, past + future, e);
  }

  // ---- the course of the heartbeat ----

  /** The instant of tick number k. */
  function TickTime(beat: nat, k: nat): nat {
    if k == 0 then 0 else TickTime(beat, k - 1) + beat
  }

  lemma {:induction false} TicksInOrder(beat: nat, j: nat, k: nat)
    requires j < k
    ensures TickTime(beat, j) + beat <= TickTime(beat, k)
  {
    if j < k - 1 {
      TicksInOrder(beat, j, k - 1);
    }
  }

  lemma TickWithin(beat: nat, j: nat, k: nat)
    requires TickTime(beat, j) <= TickTime(beat, k) < TickTime(beat, j) + beat
    ensures j == k
  {
    if j < k {
      TicksInOrder(beat, j, k);
    } else if k < j {
      TicksInOrder(beat, k, j);
    }
  }

  lemma {:induction false} TicksGoOn(beat: nat, k: nat)
    requires beat > 0
    ensures TickTime(beat, k) >= k
  {
    if k > 0 {
      TicksGoOn(beat, k - 1);
    }
  }

  /** The first tick at or after an instant. */
  lemma {:induction false} FirstTick(beat: nat, from: nat) returns (k: nat)
    requires beat > 0
    ensures from <= TickTime(beat, k) < from + beat
  {
    if from < beat {
      k := if from == 0 then 0 else 1;
      assert TickTime(beat, 1) == TickTime(beat, 0) + beat;
    } else {
      k := FirstTick(beat, from - beat);
      k := k + 1;
    }
  }

  /** The monitor ticks every beat from 0 on, the answer to the renewal at tick `lost` gets lost, and
      the stale session expires at `since`. */
  datatype Course = Course(beat: nat, lost: nat, since: int)

  predicate Sound(u: Setup, c: Course) {
    var t := u.timing;
    && 0 < t.gap <= c.beat < t.ttl && t.ttl + c.beat <= t.emax && c.lost > 0
    && TickTime(c.beat, c.lost) + t.ttl <= c.since < TickTime(c.beat, c.lost) + t.ttl + c.beat
  }

  /** The heartbeat after its tick number k. */
  predicate OnCourse(u: Setup, l: M.Lease, c: Course, k: nat, gone: bool) {
    && l.running && l.lastTick == TickTime(c.beat, k) && l.lastTick <= l.clock <= l.lastTick + c.beat
    && if k < c.lost then Held(l) && l.consul.holder == Some(0) && l.consul.sessions == map[0 := l.lastTick]
       else
         && !l.monitor.state.Active?
         && if gone then l.consul.holder.None? && l.consul.sessions == map[]
                         && l.consul.freeAt == c.since + u.timing.lockDelay && c.since <= l.clock
            else l.consul.holder == Some(0) && l.consul.sessions == map[0 := TickTime(c.beat, c.lost)]
  }

  function AnswersAt(c: Course, k: nat): M.Answers {
    if k == c.lost then LOST else M.GOOD
  }

  /** A tick without a session is refused while somebody holds the key or the lock delay lasts. */
  lemma TickRefused(u: Setup, l: M.Lease)
    requires L.LeaseOk(u.timing, l) && l.running && !l.monitor.state.Active?
    requires l.clock - l.lastTick >= u.timing.gap
    requires l.consul.holder.Some? || l.clock < l.consul.freeAt
    ensures var n := M.Step(u.timing, l, M.Beat(M.GOOD));
      && n.running && n.clock == n.lastTick == l.clock && n.monitor.state.Disconnected?
      && n.consul.sessions == l.consul.sessions && n.consul.holder == l.consul.holder
      && n.consul.freeAt == l.consul.freeAt
  {
    var c := l.consul;
    assert c.nextId !in c.sessions && c.sessions[c.nextId := l.clock] - {c.nextId} == c.sessions;
  }

  lemma TickOnCourse(u: Setup, l: M.Lease, c: Course, k: nat, gone: bool)
    requires Sound(u, c) && L.LeaseOk(u.timing, l) && OnCourse(u, l, c, k, gone)
    requires l.clock == l.lastTick + c.beat && (gone ==> k >= c.lost && l.clock < l.consul.freeAt)
    ensures var n := M.Step(u.timing, l, M.Beat(AnswersAt(c, k + 1)));
            OnCourse(u, n, c, k + 1, gone) && n.clock == n.lastTick == l.clock
  {
    assert TickTime(c.beat, k + 1) == TickTime(c.beat, k) + c.beat;
    if k >= c.lost {
      TickRefused(u, l);
    }
  }

  lemma AdvanceOnCourse(u: Setup, l: M.Lease, c: Course, k: nat, gone: bool, to: int)
    requires Sound(u, c) && OnCourse(u, l, c, k, gone)
    requires l.clock <= to <= l.lastTick + c.beat && (gone || k < c.lost || to <= c.since)
    ensures M.Step(u.timing, l, M.Advance(to)) == l.(clock := to)
    ensures OnCourse(u, l.(clock := to), c, k, gone)
  {
  }

  /** A run on this course. */
  predicate Voyage(u: Setup, past: seq<Event>, future: seq<Event>, c: Course, k: nat, gone: bool, lag: nat) {
    var y := Exec(u, past + future);
    && Underway(u, past, future, c.beat, lag)
    && OnCourse(u, y.lease, c, k, gone)
    && Failures(future) == S.One(k >= c.lost)
  }

  lemma LeaseMove(
      u: Setup, past: seq<Event>, future: seq<Event>, e: M.Event, c: Course, k: nat, next: nat, gone: bool, lag: nat)
      returns (more: seq<Event>)
    requires Voyage(u, past, future, c, k, gone, lag) && Smooth(OfLease(e))
    requires S.One(next >= c.lost) == S.One(k >= c.lost) + S.One(RenewalFails(OfLease(e)))
    requires var y := Exec(u, past + future); var n := M.Step(u.timing, y.lease, e);
      OnCourse(u, n, c, next, gone) && (y.agent.loop.Checking? ==> n.clock - y.agent.loop.now <= lag)
    ensures Voyage(u, past, more, c, next, gone, lag)
    ensures var y := Exec(u, past + future);
      Exec(u, past + more) == y.(lease := M.Step(u.timing, y.lease, e))
  {
    more := Next(u, past, future, OfLease(e), c.beat, lag);
  }

  lemma AdvanceMove(
      u: Setup, past: seq<Event>, future: seq<Event>, c: Course, k: nat, gone: bool, lag: nat, to: int)
      returns (more: seq<Event>)
    requires Sound(u, c) && Voyage(u, past, future, c, k, gone, lag)
    requires var y := Exec(u, past + future);
      && y.lease.clock <= to <= y.lease.lastTick + c.beat && (gone || k < c.lost || to <= c.since)
      && (y.agent.loop.Checking? ==> to - y.agent.loop.now <= lag)
    ensures Voyage(u, past, more, c, k, gone, lag)
    ensures var y := Exec(u, past + future);
      Exec(u, past + more) == y.(lease := y.lease.(clock := to))
  {
    AdvanceOnCourse(u, Exec(u, past + future).lease, c, k, gone, to);
    more := LeaseMove(u, past, future, M.Advance(to), c, k, k, gone, lag);
  }

  /** The next tick is still to come. */
  predicate BetweenTicks(l: M.Lease, c: Course) {
    l.clock < l.lastTick + c.beat
  }

  lemma LeaseAlwaysOk(u: Setup, events: seq<Event>)
    ensures L.LeaseOk(u.timing, Exec(u, events).lease)
  {
    SystemAlwaysOk(u, events);
  }

  lemma TickMove(u: Setup, past: seq<Event>, future: seq<Event>, c: Course, k: nat, gone: bool, lag: nat)
      returns (more: seq<Event>)
    requires Sound(u, c) && Voyage(u, past, future, c, k, gone, lag)
    requires var l := Exec(u, past + future).lease;
      l.clock == l.lastTick + c.beat && (gone ==> k >= c.lost && l.clock < l.consul.freeAt)
    ensures Voyage(u, past, more, c, k + 1, gone, lag)
    ensures var y, z := Exec(u, past + future), Exec(u, past + more);
      z.lease.clock == z.lease.lastTick == y.lease.clock && z.agent == y.agent
  {
    LeaseAlwaysOk(u, past + future);
    TickOnCourse(u, Exec(u, past + future).lease, c, k, gone);
    more := LeaseMove(u, past, future, M.Beat(AnswersAt(c, k + 1)), c, k, k + 1, gone, lag);
  }

  /** The clock moves on to `to`, with the ticks on the way; the agent does nothing. */
  lemma {:induction false} Sail(
      u: Setup, past: seq<Event>, future: seq<Event>, c: Course, k: nat, gone: bool, lag: nat, to: int)
      returns (more: seq<Event>, m: nat)
    requires Sound(u, c) && Voyage(u, past, future, c, k, gone, lag)
    requires BetweenTicks(Exec(u, past + future).lease, c) && Exec(u, past + future).lease.clock <= to
    requires if gone then k >= c.lost && to <= c.since + Refusal(u.timing) else to <= c.since
    requires var loop := Exec(u, past + future).agent.loop; loop.Checking? ==> to - loop.now <= lag
    ensures k <= m && Voyage(u, past, more, c, m, gone, lag)
    ensures Exec(u, past + more).lease.clock == to && BetweenTicks(Exec(u, past + more).lease, c)
    ensures Exec(u, past + more).agent == Exec(u, past + future).agent
  {
    var last := Exec(u, past + future).lease.lastTick;
    more, m := future, k;
    while last + c.beat <= to
      invariant k <= m && Voyage(u, past, more, c, m, gone, lag)
      invariant last == Exec(u, past + more).lease.lastTick && Exec(u, past + more).lease.clock <= to
      invariant Exec(u, past + more).agent == Exec(u, past + future).agent
      invariant BetweenTicks(Exec(u, past + more).lease, c)
    {
      more := SailOneTick(u, past, more, c, m, gone, lag);
      m, last := m + 1, last + c.beat;
    }
    more := AdvanceMove(u, past, more, c, m, gone, lag, to);
  }

  lemma SailOneTick(u: Setup, past: seq<Event>, future: seq<Event>, c: Course, k: nat, gone: bool, lag: nat)
      returns (more: seq<Event>)
    requires Sound(u, c) && Voyage(u, past, future, c, k, gone, lag) && BetweenTicks(Exec(u, past + future).lease, c)
    requires var to := Exec(u, past + future).lease.lastTick + c.beat;
             if gone then k >= c.lost && to <= c.since + Refusal(u.timing) else to <= c.since
    requires var y := Exec(u, past + future);
             y.agent.loop.Checking? ==> y.lease.lastTick + c.beat - y.agent.loop.now <= lag
    ensures Voyage(u, past, more, c, k + 1, gone, lag)
    ensures var y, z := Exec(u, past + future), Exec(u, past + more);
            z.lease.clock == z.lease.lastTick == y.lease.lastTick + c.beat && z.agent == y.agent
  {
    var to := Exec(u, past + future).lease.lastTick + c.beat;
    more := AdvanceMove(u, past, future, c, k, gone, lag, to);
    more := TickMove(u, past, more, c, k, gone, lag);
  }

  // ---- the agent on this course ----

  /** Expiry and everything the agent does leave the ticks of the course where they are. */
  lemma AgentMove(u: Setup, past: seq<Event>, future: seq<Event>, e: A.Event, c: Course, k: nat, gone: bool, lag: nat)
      returns (more: seq<Event>)
    requires Voyage(u, past, future, c, k, gone, lag)
    requires var y := Exec(u, past + future);
             && Allowed(u, y, e)
             && var loop := A.Step(u.agent, y.agent, e).loop;
                (loop.Checking? ==> y.lease.clock - loop.now <= lag)
    ensures Voyage(u, past, more, c, k, gone, lag)
    ensures var y := Exec(u, past + future);
            Exec(u, past + more) == y.(agent := A.Step(u.agent, y.agent, e))
  {
    more := Next(u, past, future, OfAgent(e), c.beat, lag);
  }

  function HistoryOf(u: Setup, s: A.State): H.History {
    H.Replay(u.agent, s.log, u.name)
  }

  /** The reads of a pass from node i on, all at one instant, while nobody holds the key. */
  lemma {:induction false} ReadRest(
      u: Setup, past: seq<Event>, future: seq<Event>, c: Course, k: nat, lag: nat, i: nat, now: int, id: nat)
      returns (more: seq<Event>)
    requires Voyage(u, past, future, c, k, true, lag) && k >= c.lost && u.agent.timeout > 0
    requires i <= |u.agent.nodes| && Exec(u, past + future).agent.loop == A.Checking(i, now, false)
    requires id == |Exec(u, past + future).agent.goroutines|
    ensures Voyage(u, past, more, c, k, true, lag)
    ensures var y, z := Exec(u, past + future), Exec(u, past + more);
      && z.lease == y.lease && z.agent.links == y.agent.links
      && z.agent.loop == A.Checking(|u.agent.nodes|, now, false)
      && HistoryOf(u, z.agent)
         == P.AfterRest(u.agent, HistoryOf(u, y.agent), u.name, A.Absent, now, y.lease.clock, i, id)
    decreases |u.agent.nodes| - i
  {
    if i == |u.agent.nodes| {
      more := future;
    } else {
      var y := Exec(u, past + future);
      var e := A.Read(y.lease.clock, P.NextReading(u.agent, u.name, A.Absent, i));
      var s := A.Step(u.agent, y.agent, e);
      SystemAlwaysOk(u, past + future);
      P.ReadMovesHistory(u.agent, y.agent, u.name, A.Absent, y.lease.clock);
      P.RestAfterReading(u.agent, HistoryOf(u, y.agent), u.name, A.Absent, now, y.lease.clock, i, id, |s.goroutines|);
      more := AgentMove(u, past, future, e, c, k, true, lag);
      more := ReadRest(u, past, more, c, k, lag, i + 1, now, |s.goroutines|);
    }
  }

  /** The end of a clean pass and the tick after it. */
  lemma NextTick(u: Setup, past: seq<Event>, future: seq<Event>, c: Course, k: nat, lag: nat)
      returns (more: seq<Event>)
    requires Voyage(u, past, future, c, k, true, lag) && P.Ready(Exec(u, past + future).agent)
    requires Exec(u, past + future).agent.loop.Checking?
    requires var loop := Exec(u, past + future).agent.loop; loop.next == |u.agent.nodes| && !loop.hadError
    ensures Voyage(u, past, more, c, k, true, lag)
    ensures var y, z := Exec(u, past + future), Exec(u, past + more);
      z.lease == y.lease && z.agent.loop.Recheck? && P.Ready(z.agent) && z.agent.log == y.agent.log
      && z.agent.clock == y.agent.clock
  {
    more := AgentMove(u, past, future, A.EndPass, c, k, true, lag);
    more := AgentMove(u, past, more, A.Tick, c, k, true, lag);
  }

  // ---- the run ----

  lemma Then(u: Setup, events: seq<Event>, e: Event) returns (more: seq<Event>)
    ensures Exec(u, more) == Step(u, Exec(u, events), e)
  {
    more := events + [e];
    ExecAppend(u, events, e);
  }

  predicate Starting(u: Setup, y: System, c: Course) {
    && OnCourse(u, y.lease, c, 0, false) && y.lease.clock == 0
    && y.agent.loop.Recheck? && P.Ready(y.agent) && y.agent.clock == 0
    && y.agent.track.missingSince == map[] && y.agent.log == []
  }

  /** The first session is acquired at 0 and the agent is about to begin its first pass. */
  lemma Beginning(u: Setup, c: Course) returns (past: seq<Event>)
    requires Sound(u, c)
    ensures Starting(u, Exec(u, past), c)
  {
    past := Then(u, [], OfLease(M.Beat(M.GOOD)));
    past := Then(u, past, OfAgent(A.ConnectConsul(true)));
    past := Then(u, past, OfAgent(A.ConnectOci(true)));
    past := Then(u, past, OfAgent(A.Tick));
  }

  /** The stale session expires after at least one more tick. */
  lemma Expiry(u: Setup, past: seq<Event>, future: seq<Event>, c: Course, k: nat, lag: nat)
      returns (more: seq<Event>)
    requires Sound(u, c) && Voyage(u, past, future, c, k, false, lag)
    requires Exec(u, past + future).lease.clock == c.since && BetweenTicks(Exec(u, past + future).lease, c)
    ensures k >= c.lost && Voyage(u, past, more, c, k, true, lag)
    ensures var y, z := Exec(u, past + future), Exec(u, past + more);
      z.agent == y.agent && z.lease.clock == c.since && BetweenTicks(z.lease, c)
  {
    if k < c.lost {
      TicksInOrder(c.beat, k, c.lost);
    }
    var l := Exec(u, past + future).lease;
    assert (l.consul.sessions - {0}) == map[];
    more := Next(u, past, future, OfLease(M.Expire(0)), c.beat, lag);
  }

  /** A pass begins lag before the stale session expires. */
  lemma EarlyPass(u: Setup, past: seq<Event>, c: Course, lag: nat) returns (future: seq<Event>, k: nat)
    requires Sound(u, c) && lag <= c.since
    requires Starting(u, Exec(u, past), c)
    ensures k >= c.lost && Voyage(u, past, future, c, k, true, lag)
    ensures var z := Exec(u, past + future);
      && z.lease.clock == c.since && BetweenTicks(z.lease, c) && z.agent.loop == A.Checking(0, c.since - lag, false)
      && P.Ready(z.agent) && z.agent.log == []
  {
    future := [];
    assert past + future == past;
    assert Voyage(u, past, future, c, 0, false, lag);
    var begin := c.since - lag;
    future, k := Sail(u, past, future, c, 0, false, lag, begin);
    future := AgentMove(u, past, future, A.BeginPass(begin), c, k, false, lag);
    future, k := Sail(u, past, future, c, k, false, lag, c.since);
    future := Expiry(u, past, future, c, k, lag);
  }

  /** That pass reads the key when it has just gone, and starts a timer that looks old. */
  lemma LateReading(u: Setup, past: seq<Event>, before: seq<Event>, c: Course, k: nat, lag: nat)
      returns (future: seq<Event>)
    requires u.agent.timeout > 0 && P.ListedFrom(u.agent, u.name, 0)
    requires k >= c.lost && Voyage(u, past, before, c, k, true, lag)
    requires var y := Exec(u, past + before);
      && y.lease.clock == c.since && BetweenTicks(y.lease, c) && y.agent.loop == A.Checking(0, c.since - lag, false)
      && P.Ready(y.agent) && y.agent.log == []
    ensures Voyage(u, past, future, c, k, true, lag)
    ensures var z := Exec(u, past + future);
      && z.lease.clock == c.since && BetweenTicks(z.lease, c)
      && z.agent.loop.Recheck? && P.Ready(z.agent) && z.agent.clock <= c.since
      && HistoryOf(u, z.agent) == P.EMPTY.(since := Some(c.since - lag))
  {
    var y := Exec(u, past + before);
    assert HistoryOf(u, y.agent) == P.EMPTY;
    future := ReadRest(u, past, before, c, k, lag, 0, c.since - lag, |y.agent.goroutines|);
    future := NextTick(u, past, future, c, k, lag);
    SystemAlwaysOk(u, past + future);
  }

  /** The next pass begins right before the tick that would have acquired the key again. */
  lemma SecondPass(u: Setup, past: seq<Event>, before: seq<Event>, c: Course, k: nat, last: nat, lag: nat)
      returns (future: seq<Event>)
    requires Sound(u, c) && TickTime(c.beat, last) == c.since + Refusal(u.timing)
    requires k >= c.lost && Voyage(u, past, before, c, k, true, lag)
    requires var y := Exec(u, past + before);
      && y.lease.clock == c.since && BetweenTicks(y.lease, c)
      && y.agent.loop.Recheck? && P.Ready(y.agent) && y.agent.clock <= c.since
    ensures last >= c.lost && Voyage(u, past, future, c, last, true, lag)
    ensures var y, z := Exec(u, past + before), Exec(u, past + future);
      && z.lease.clock == c.since + LongestGap(u.timing, c.beat)
      && z.agent.loop == A.Checking(0, z.lease.clock, false) && z.agent.log == y.agent.log
  {
    var m;
    future, m := Sail(u, past, before, c, k, true, lag, c.since + Refusal(u.timing));
    TickWithin(c.beat, m, last);
    var l := Exec(u, past + future).lease;
    future := AdvanceMove(u, past, future, c, last, true, lag, l.lastTick + c.beat);
    future := AgentMove(u, past, future, A.BeginPass(l.lastTick + c.beat), c, last, true, lag);
  }

  /** The second pass finds the timer due. */
  lemma Launch(u: Setup, past: seq<Event>, before: seq<Event>, c: Course, k: nat, lag: nat)
      returns (future: seq<Event>)
    requires k >= c.lost && Voyage(u, past, before, c, k, true, lag)
    requires u.agent.timeout > 0 && P.ListedFrom(u.agent, u.name, 0)
    requires var y := Exec(u, past + before);
      && y.agent.loop == A.Checking(0, y.lease.clock, false)
      && HistoryOf(u, y.agent) == P.EMPTY.(since := Some(c.since - lag))
      && y.lease.clock - (c.since - lag) >= u.agent.timeout
    ensures Voyage(u, past, future, c, k, true, lag)
    ensures R.Launches(Exec(u, past + future).agent.log, u.name) == 1
  {
    var y := Exec(u, past + before);
    future := ReadRest(u, past, before, c, k, lag, 0, y.lease.clock, |y.agent.goroutines|);
    R.TalliesMatch(u.agent, Exec(u, past + future).agent.log, u.name);
  }

  /** Bounds that the environment and the monitor can meet: ticks within the ttl, and an expiry that
      may come up to one tick gap late. */
  predicate Realistic(u: Setup, beat: nat) {
    && 0 < u.timing.gap <= beat < u.timing.ttl && u.timing.ttl + beat <= u.timing.emax
    && u.agent.timeout > 0 && P.ListedFrom(u.agent, u.name, 0)
  }

  /** Once the longest gap of the key and the lag of a pass reach the timeout, some run with one
      failed renewal restarts the node. */
  lemma {:induction false} SlowPassIsPunished(u: Setup, beat: nat, lag: nat)
      returns (past: seq<Event>, future: seq<Event>)
    requires Realistic(u, beat) && LongestGap(u.timing, beat) + lag >= u.agent.timeout
    ensures OneFailure(u, past, future, beat, lag)
    ensures R.Launches(Exec(u, past + future).agent.log, u.name) > R.Launches(Exec(u, past).agent.log, u.name)
  {
    var lost := lag + 1;
    TicksGoOn(beat, lost);
    var last := FirstTick(beat, TickTime(beat, lost) + u.timing.ttl + Refusal(u.timing));
    var c := Course(beat, lost, TickTime(beat, last) - Refusal(u.timing));
    var k;
    past := Beginning(u, c);
    future, k := EarlyPass(u, past, c, lag);
    future := LateReading(u, past, future, c, k, lag);
    future := SecondPass(u, past, future, c, k, last, lag);
    future := Launch(u, past, future, c, last, lag);
    AlwaysPrompt(u, past, future, beat, lag);
  }

  ghost predicate Quiet(u: Setup, past: seq<Event>, future: seq<Event>) {
    R.Launches(Exec(u, past + future).agent.log, u.name) == R.Launches(Exec(u, past).agent.log, u.name)
  }

  /** No run with one failed renewal restarts the node. */
  ghost predicate ForgivesOne(u: Setup, beat: nat, lag: nat) {
    forall past, future :: OneFailure(u, past, future, beat, lag) ==> Quiet(u, past, future)
  }

  /** No run restarts the node, however many renewals fail with the key seen between them. */
  ghost predicate ForgivesMany(u: Setup, beat: nat, lag: nat) {
    forall past, future :: SpacedFailures(u, past, future, beat, lag) ==> Quiet(u, past, future)
  }

  /** Nothing is launched if and only if the tick gap and the lag of a pass together stay below the
      timeout; with a lock delay, if and only if lock delay, tick gap and lag together do not exceed
      it. Whether one renewal fails or many makes no difference. */
  lemma ThresholdIsExact(u: Setup, beat: nat, lag: nat)
    requires Realistic(u, beat)
    ensures var tolerant := if u.timing.lockDelay == 0 then beat + lag < u.agent.timeout
                            else u.timing.lockDelay + beat + lag <= u.agent.timeout;
            (ForgivesOne(u, beat, lag) <==> tolerant) && (ForgivesMany(u, beat, lag) <==> tolerant)
  {
    if LongestGap(u.timing, beat) + lag < u.agent.timeout {
      forall past, future | OneFailure(u, past, future, beat, lag) ensures Quiet(u, past, future) {
        OneFailedRenewalIsForgiven(u, past, future, beat, lag);
      }
      forall past, future | SpacedFailures(u, past, future, beat, lag) ensures Quiet(u, past, future) {
        FailedRenewalsAreForgiven(u, past, future, beat, lag);
      }
    } else {
      var past, future := SlowPassIsPunished(u, beat, lag);
      OneFailureIsSpaced(u, past, future, beat, lag);
      assert !Quiet(u, past, future);
    }
  }

  /** One node under the shortest timeout that the configuration accepts, with the ttl, the lock delay
      and the tick interval that the monitor asks for; sessions end at most one ttl late. */
  function Shortest(node: A.NodeConfig): Setup {
    Setup(A.Config([node], MINUTE, 0, false), M.Timing(30 * SECOND, MINUTE, 0, 10 * SECOND), node.name)
  }

  /** There, with ticks up to 29 seconds apart, passes must not lag by 31 seconds. */
  lemma ShortestTimeout(node: A.NodeConfig, lag: nat)
    ensures ForgivesMany(Shortest(node), 29 * SECOND, lag) <==> lag < 31 * SECOND
  {
    assert Shortest(node).agent.nodes[0].name == Shortest(node).name;
    ThresholdIsExact(Shortest(node), 29 * SECOND, lag);
  }
}
