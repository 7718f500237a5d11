/** The stop/start cycle of internal/oci/client.go on a clock that only its waits and calls move. */
module OciClient {
  import opened Common

  const POLL_INTERVAL: int := 10 * SECOND
  const MAX_WAIT_TIME: int := 5 * MINUTE
  const MAX_POLLS: nat := MAX_WAIT_TIME / POLL_INTERVAL

  const STOPPED: string := "STOPPED"
  const RUNNING: string := "RUNNING"

  datatype Reply = Lifecycle(state: string) | Failure(err: string)

  /** How one turn of the polling loop goes: a context error before the call or during the pause,
      the time GetInstance takes and what it answers, and how long the pause lasts. */
  datatype Turn = Turn(
    cancelledBefore: Option<string>, latency: nat, reply: Reply, pause: nat, cancelledInPause: Option<string>)

  /** An InstanceAction: how long it takes and how it fails, if it does. */
  datatype Action = Action(latency: nat, err: Option<string>)

  datatype Call = StopCall(ok: bool) | StartCall(ok: bool) | GetCall(at: int, reply: Reply)

  datatype WaitError = Cancelled(err: string) | GetFailed(err: string) | TimedOut(polls: nat)

  datatype RestartFailure =
    | StopFailed(err: string)
    | NotStopped(wait: WaitError)
    | StartFailed(err: string)
    | NotRunning(wait: WaitError)

  /** fmt.Errorf("stage: %w", err) */
  function Wrap(stage: string, err: string): string {
    stage + ": " + err
  }

  function TimeoutText(target: string, polls: nat): string {
    "timeout" + " waiting for state " + target + " after " + Decimal(polls) + " polls"
  }

  function WaitText(e: WaitError, target: string): string {
    match e
    case Cancelled(err) => err
    case GetFailed(err) => Wrap("get instance", err)
    case TimedOut(polls) => TimeoutText(target, polls)
  }

  /** The error text that the agent classifies. */
  function RestartText(f: RestartFailure): string {
    match f
    case StopFailed(err) => Wrap("stop instance", err)
    case NotStopped(e) => Wrap("wait for stopped", WaitText(e, STOPPED))
    case StartFailed(err) => Wrap("start instance", err)
    case NotRunning(e) => Wrap("wait for running", WaitText(e, RUNNING))
  }

  predicate TurnOk(t: Turn, maxLatency: nat, maxPause: nat) {
    t.latency <= maxLatency && t.pause <= maxPause
  }

  /** Bounds on the turns. */
  ghost predicate TurnsOk(turns: nat -> Turn, maxLatency: nat, maxPause: nat) {
    forall i: nat :: TurnOk(turns(i), maxLatency, maxPause)
  }

  // ---- one wait ----

  /** An uncancelled pause lasts at least the poll interval, so waits end. */
  ghost predicate Paced(turns: nat -> Turn) {
    forall i: nat :: turns(i).cancelledInPause.None? ==> turns(i).pause >= POLL_INTERVAL
  }

  /** The turn neither ends nor reaches the target: another one follows, if there is time. */
  predicate Passes(t: Turn, target: string) {
    && t.cancelledBefore.None? && t.cancelledInPause.None?
    && t.reply.Lifecycle? && t.reply.state != target
  }

  /** The polls of a wait, what it returns and when. */
  datatype Waited = Waited(polls: seq<Call>, err: Option<WaitError>, end: int)

  function LastTurn(t: Turn, target: string, now: int): Waited
    requires !Passes(t, target)
  {
    var poll := GetCall(now, t.reply);
    if t.cancelledBefore.Some? then Waited([], Some(Cancelled(t.cancelledBefore.value)), now)
    else if t.reply.Failure? then Waited([poll], Some(GetFailed(t.reply.err)), now + t.latency)
    else if t.reply.state == target then Waited([poll], None, now + t.latency)
    else Waited([poll], Some(Cancelled(t.cancelledInPause.value)), now + t.latency + t.pause)
  }

  function Prepend(polls: seq<Call>, w: Waited): Waited {
    w.(polls := polls + w.polls)
  }

  /** The wait from turn k on. */
  ghost function Wait(turns: nat -> Turn, target: string, deadline: int, k: nat, now: int): Waited
    requires Paced(turns)
    decreases deadline - now
  {
    var t := turns(k);
    if now >= deadline then Waited([], Some(TimedOut(k)), now)
    else if !Passes(t, target) then LastTurn(t, target, now)
    else Prepend([GetCall(now, t.reply)], Wait(turns, target, deadline, k + 1, now + t.latency + t.pause))
  }

  /** With the calls made so far, the rest of a wait amounts to the whole. */
  predicate AheadOf(all: Waited, before: seq<Call>, calls: seq<Call>, rest: Waited) {
    calls + rest.polls == before + all.polls && rest.err == all.err && rest.end == all.end
  }

  /** A wait with its own deadline. */
  ghost function WaitFor(turns: nat -> Turn, target: string, start: int): Waited
    requires Paced(turns)
  {
    Wait(turns, target, start + MAX_WAIT_TIME, 0, start)
  }

  predicate Reached(c: Call, target: string) {
    c.GetCall? && c.reply == Lifecycle(target)
  }

  /** Polls between two instants, the poll interval apart; all but the last answered with some other
      state than the target. */
  ghost predicate Polls(calls: seq<Call>, target: string, from: int, to: int) {
    && (forall k :: 0 <= k < |calls| ==> calls[k].GetCall? && from <= calls[k].at < to)
    && (forall k :: 0 <= k < |calls| - 1 ==> calls[k].reply.Lifecycle? && calls[k].reply.state != target)
    && (forall k :: 0 <= k < |calls| - 1 ==> calls[k + 1].at - calls[k].at >= POLL_INTERVAL)
  }

  /** The poll in turn k got what the environment answered. */
  predicate Answered(poll: Call, turns: nat -> Turn, k: nat) {
    poll.GetCall? && poll.reply == turns(k).reply && turns(k).cancelledBefore.None?
  }

  predicate PassesAt(turns: nat -> Turn, target: string, k: nat) {
    Passes(turns(k), target)
  }

  /** So did every poll, the first one in turn k, and every turn before the last poll passed. */
  ghost predicate AnsweredBy(polls: seq<Call>, turns: nat -> Turn, target: string, k: nat) {
    && (forall i :: 0 <= i < |polls| ==> Answered(polls[i], turns, k + i))
    && (forall j: nat :: k <= j < k + |polls| - 1 ==> PassesAt(turns, target, j))
  }

  /** Why a wait returned what it did; next is the turn after its last poll. */
  ghost predicate Explained(w: Waited, turns: nat -> Turn, target: string, next: nat, deadline: int) {
    var n := |w.polls|;
    match w.err
    case None => n > 0 && Reached(w.polls[n - 1], target)
    case Some(GetFailed(e)) => n > 0 && w.polls[n - 1].GetCall? && w.polls[n - 1].reply == Failure(e)
    case Some(Cancelled(e)) =>
      && (n > 0 ==> !Reached(w.polls[n - 1], target))
      && (turns(next).cancelledBefore == Some(e)
          || (n > 0 && next > 0 && turns(next - 1).cancelledInPause == Some(e)))
    case Some(TimedOut(polls)) =>
      && polls == next && w.end >= deadline
      && (n > 0 && next > 0 ==> PassesAt(turns, target, next - 1))
  }

  /** Whatever the environment answers, the polls of a wait are made in time and ten seconds apart. */
  lemma {:induction false} WaitPolls(turns: nat -> Turn, target: string, deadline: int, k: nat, now: int)
    requires Paced(turns)
    ensures var w := Wait(turns, target, deadline, k, now);
      && Polls(w.polls, target, now, deadline) && (|w.polls| > 0 ==> w.polls[0].at == now)
      && (|w.polls| > 0 ==> now + (|w.polls| - 1) * POLL_INTERVAL < deadline)
      && now <= w.end
    decreases deadline - now
  {
    var t := turns(k);
    if now < deadline && Passes(t, target) {
      WaitPolls(turns, target, deadline, k + 1, now + t.latency + t.pause);
    }
  }

  lemma LastTurnAnswers(turns: nat -> Turn, target: string, deadline: int, k: nat, now: int)
    requires !Passes(turns(k), target)
    ensures var w := LastTurn(turns(k), target, now);
            AnsweredBy(w.polls, turns, target, k) && Explained(w, turns, target, k + |w.polls|, deadline)
  {
    var w := LastTurn(turns(k), target, now);
    assert |w.polls| <= 1;
    if w.polls != [] {
      assert w.polls[0] == GetCall(now, turns(k).reply);
    }
  }

  lemma PrependAnswers(turns: nat -> Turn, target: string, k: nat, poll: Call, rest: Waited)
    requires Passes(turns(k), target) && Answered(poll, turns, k)
    requires AnsweredBy(rest.polls, turns, target, k + 1)
    ensures AnsweredBy([poll] + rest.polls, turns, target, k)
  {
    var polls := [poll] + rest.polls;
    forall i | 0 <= i < |polls| ensures Answered(polls[i], turns, k + i) {
      if i > 0 {
        assert Answered(rest.polls[i - 1], turns, k + 1 + (i - 1));
      }
    }
    forall j: nat | k <= j < k + |polls| - 1 ensures PassesAt(turns, target, j) {
      if j > k {
        assert k + 1 <= j < k + 1 + |rest.polls| - 1;
      }
    }
  }

  lemma PrependExplained(turns: nat -> Turn, target: string, deadline: int, k: nat, poll: Call, rest: Waited)
    requires Passes(turns(k), target) && Answered(poll, turns, k)
    requires Explained(rest, turns, target, k + 1 + |rest.polls|, deadline)
    ensures Explained(Prepend([poll], rest), turns, target, k + 1 + |rest.polls|, deadline)
  {
    var w := Prepend([poll], rest);
    if rest.polls == [] {
      assert w.polls == [poll];
    } else {
      assert w.polls[|w.polls| - 1] == rest.polls[|rest.polls| - 1];
    }
  }

  lemma {:induction false} WaitAnswers(turns: nat -> Turn, target: string, deadline: int, k: nat, now: int)
    requires Paced(turns)
    ensures AnsweredBy(Wait(turns, target, deadline, k, now).polls, turns, target, k)
    decreases deadline - now
  {
    var t := turns(k);
    if now < deadline && !Passes(t, target) {
      LastTurnAnswers(turns, target, deadline, k, now);
    } else if now < deadline {
      var after := now + t.latency + t.pause;
      WaitAnswers(turns, target, deadline, k + 1, after);
      PrependAnswers(turns, target, k, GetCall(now, t.reply), Wait(turns, target, deadline, k + 1, after));
    }
  }

  lemma {:induction false} WaitExplains(turns: nat -> Turn, target: string, deadline: int, k: nat, now: int)
    requires Paced(turns)
    ensures var w := Wait(turns, target, deadline, k, now);
            Explained(w, turns, target, k + |w.polls|, deadline)
    decreases deadline - now
  {
    var t := turns(k);
    if now < deadline && !Passes(t, target) {
      LastTurnAnswers(turns, target, deadline, k, now);
    } else if now < deadline {
      var after := now + t.latency + t.pause;
      WaitExplains(turns, target, deadline, k + 1, after);
      PrependExplained(
        turns, target, deadline, k, GetCall(now, t.reply), Wait(turns, target, deadline, k + 1, after));
    }
  }

  /** It returns less than one call and one pause after its deadline. */
  lemma {:induction false} WaitReturns(
      turns: nat -> Turn, target: string, deadline: int, k: nat, now: int, maxLatency: nat, maxPause: nat)
    requires Paced(turns) && TurnsOk(turns, maxLatency, maxPause) && now < deadline + maxLatency + maxPause
    ensures Wait(turns, target, deadline, k, now).end < deadline + maxLatency + maxPause
    decreases deadline - now
  {
    var t := turns(k);
    assert TurnOk(t, maxLatency, maxPause);
    if now < deadline && Passes(t, target) {
      WaitReturns(turns, target, deadline, k + 1, now + t.latency + t.pause, maxLatency, maxPause);
    }
  }

  /** A wait makes at most thirty polls, in time and ten seconds apart, each with the answer of its
      turn; it succeeds exactly if its last poll read the target, and what it returns otherwise comes
      from the environment or from the deadline. */
  ghost predicate SoundWait(w: Waited, turns: nat -> Turn, target: string, start: int) {
    && |w.polls| <= MAX_POLLS && Polls(w.polls, target, start, start + MAX_WAIT_TIME)
    && AnsweredBy(w.polls, turns, target, 0)
    && Explained(w, turns, target, |w.polls|, start + MAX_WAIT_TIME)
    && (w.err.Some? ==> forall k :: 0 <= k < |w.polls| ==> !Reached(w.polls[k], target))
  }

  lemma WaitIsSound(turns: nat -> Turn, target: string, start: int)
    requires Paced(turns)
    ensures SoundWait(WaitFor(turns, target, start), turns, target, start)
    ensures WaitFor(turns, target, start).end >= start
  {
    var w := WaitFor(turns, target, start);
    WaitPolls(turns, target, start + MAX_WAIT_TIME, 0, start);
    WaitAnswers(turns, target, start + MAX_WAIT_TIME, 0, start);
    WaitExplains(turns, target, start + MAX_WAIT_TIME, 0, start);
    if w.err.Some? && w.polls != [] {
      var last := |w.polls| - 1;
      assert Answered(w.polls[last], turns, last);
    }
  }

  /** No turn is cancelled, fails or reads the target. */
  ghost predicate NeverThere(turns: nat -> Turn, target: string) {
    forall k: nat :: Passes(turns(k), target)
  }

  lemma {:induction false} SlowTurns(turns: nat -> Turn, target: string, deadline: int, k: nat, now: int)
    requires Paced(turns) && NeverThere(turns, target)
    ensures var w := Wait(turns, target, deadline, k, now); w.err == Some(TimedOut(k + |w.polls|))
    decreases deadline - now
  {
    if now < deadline {
      SlowTurns(turns, target, deadline, k + 1, now + turns(k).latency + turns(k).pause);
    }
  }

  /** The wait for an instance that is merely slow ends in a timeout. */
  lemma SlowWaitTimesOut(turns: nat -> Turn, target: string, start: int)
    requires Paced(turns) && NeverThere(turns, target)
    ensures var w := WaitFor(turns, target, start);
            w.err == Some(TimedOut(|w.polls|)) && w.end >= start + MAX_WAIT_TIME
  {
    SlowTurns(turns, target, start + MAX_WAIT_TIME, 0, start);
    WaitIsSound(turns, target, start);
  }

  /** An instance that answers at once, and always that it is in some other state. */
  function Stuck(state: string): nat -> Turn {
    k => Turn(None, 0, Lifecycle(state), 10_000_000_000, None)
  }

  lemma {:induction false} StuckPolls(state: string, target: string, deadline: int, k: nat, now: int, left: nat)
    requires state != target && deadline - now == left * POLL_INTERVAL
    ensures Paced(Stuck(state))
    ensures var w := Wait(Stuck(state), target, deadline, k, now); |w.polls| == left && w.end == deadline
    decreases left
  {
    if left > 0 {
      StuckPolls(state, target, deadline, k + 1, now + POLL_INTERVAL, left - 1);
    }
  }

  /** All thirty polls can happen, one every ten seconds, and take five minutes. */
  lemma ThirtyPolls(state: string, target: string, start: int)
    requires state != target
    ensures Paced(Stuck(state))
    ensures var w := WaitFor(Stuck(state), target, start);
      w.err == Some(TimedOut(30)) && |w.polls| == 30 && w.end == start + 300_000_000_000
  {
    StuckPolls(state, target, start + MAX_WAIT_TIME, 0, start, 30);
    SlowWaitTimesOut(Stuck(state), target, start);
  }

  // ---- one cycle ----

  /** What the environment answers to the four stages of a cycle. */
  datatype Environment = Environment(stop: Action, stopping: nat -> Turn, start: Action, starting: nat -> Turn)

  ghost predicate EnvironmentPaced(env: Environment) {
    Paced(env.stopping) && Paced(env.starting)
  }

  /** The calls of a cycle, the position of START among them (their number if it was not sent), what
      the cycle returns and when. */
  datatype Cycle = Cycle(calls: seq<Call>, started: nat, err: Option<RestartFailure>, end: int)

  ghost function Halting(env: Environment, begin: int): Waited
    requires EnvironmentPaced(env)
  {
    WaitFor(env.stopping, STOPPED, begin + env.stop.latency)
  }

  ghost function Resuming(env: Environment, begin: int): Waited
    requires EnvironmentPaced(env)
  {
    WaitFor(env.starting, RUNNING, Halting(env, begin).end + env.start.latency)
  }

  ghost function CycleOf(env: Environment, begin: int): Cycle
    requires EnvironmentPaced(env)
  {
    if env.stop.err.Some? then
      Cycle([StopCall(false)], 1, Some(StopFailed(env.stop.err.value)), begin + env.stop.latency)
    else
      var h := Halting(env, begin);
      var halted := [StopCall(true)] + h.polls;
      if h.err.Some? then Cycle(halted, |halted|, Some(NotStopped(h.err.value)), h.end)
      else if env.start.err.Some? then
        Cycle(halted + [StartCall(false)], |halted|, Some(StartFailed(env.start.err.value)),
              h.end + env.start.latency)
      else
        var r := Resuming(env, begin);
        Cycle(halted + [StartCall(true)] + r.polls, |halted|,
              if r.err.Some? then Some(NotRunning(r.err.value)) else None, r.end)
  }

  /** The order of the calls of one restart cycle: STOP comes first and only there, START at most
      once and only right after a STOPPED reading, and polls fill the rest. */
  ghost predicate InOrder(calls: seq<Call>) {
    && |calls| > 0 && calls[0].StopCall?
    && (forall k :: 0 < k < |calls| ==> !calls[k].StopCall?)
    && (forall k :: 0 <= k < |calls| && calls[k].StartCall? ==>
          k > 1 && calls[0].ok && Reached(calls[k - 1], "STOPPED"))
    && (forall j, k :: 0 <= j < k < |calls| ==> !(calls[j].StartCall? && calls[k].StartCall?))
  }

  /** An acknowledged STOP, a STOPPED reading, an acknowledged START, a RUNNING reading, in this order. */
  ghost predicate FullCycle(calls: seq<Call>, k: nat) {
    && 1 < k < |calls| - 1
    && calls[0] == StopCall(true) && Reached(calls[k - 1], "STOPPED")
    && calls[k] == StartCall(true) && Reached(calls[|calls| - 1], "RUNNING")
  }

  /** Every call and every error of a cycle is what the environment answered. */
  ghost predicate TrueToAnswers(c: Cycle, env: Environment) {
    && 0 < c.started <= |c.calls| && c.calls[0] == StopCall(env.stop.err.None?)
    && AnsweredBy(c.calls[1..c.started], env.stopping, STOPPED, 0)
    && (c.started < |c.calls| ==>
          && c.calls[c.started] == StartCall(env.start.err.None?)
          && AnsweredBy(c.calls[c.started + 1..], env.starting, RUNNING, 0))
    && match c.err
       case Some(StopFailed(e)) => env.stop.err == Some(e) && |c.calls| == 1
       case Some(NotStopped(e)) =>
         c.started == |c.calls| && NeverReached(c.calls[1..], STOPPED) && Caused(e, env.stopping, c.started - 1)
       case Some(StartFailed(e)) => env.start.err == Some(e) && c.started == |c.calls| - 1
       case Some(NotRunning(e)) =>
         && c.started < |c.calls| && env.start.err.None?
         && NeverReached(c.calls[c.started + 1..], RUNNING)
         && Caused(e, env.starting, |c.calls| - c.started - 1)
       case None => env.stop.err.None? && env.start.err.None?
  }

  ghost predicate NeverReached(polls: seq<Call>, target: string) {
    forall k :: 0 <= k < |polls| ==> !Reached(polls[k], target)
  }

  /** The error of a wait that made n polls comes from its last turns. */
  predicate Caused(e: WaitError, turns: nat -> Turn, n: nat) {
    match e
    case GetFailed(text) => n > 0 && turns(n - 1).reply == Failure(text)
    case Cancelled(text) =>
      turns(n).cancelledBefore == Some(text) || (n > 0 && turns(n - 1).cancelledInPause == Some(text))
    case TimedOut(polls) => polls == n
  }

  lemma SoundWaitIsCaused(w: Waited, turns: nat -> Turn, target: string, start: int)
    requires SoundWait(w, turns, target, start) && w.err.Some?
    ensures NeverReached(w.polls, target) && Caused(w.err.value, turns, |w.polls|)
  {
    if w.err.value.GetFailed? {
      assert Answered(w.polls[|w.polls| - 1], turns, |w.polls| - 1);
    }
  }

  lemma PollsFollowStop(ok: bool, polls: seq<Call>, from: int, to: int)
    requires Polls(polls, STOPPED, from, to)
    ensures InOrder([StopCall(ok)] + polls)
    ensures forall k :: 0 <= k < |polls| + 1 ==> !([StopCall(ok)] + polls)[k].StartCall?
  {
  }

  lemma StartFollowsPolls(calls: seq<Call>, ok: bool)
    requires InOrder(calls) && forall k :: 0 <= k < |calls| ==> !calls[k].StartCall?
    requires |calls| > 1 && calls[0].ok && Reached(calls[|calls| - 1], STOPPED)
    ensures InOrder(calls + [StartCall(ok)])
  {
  }

  lemma PollsFollowStart(calls: seq<Call>, polls: seq<Call>, from: int, to: int)
    requires InOrder(calls) && Polls(polls, RUNNING, from, to)
    ensures InOrder(calls + polls)
  {
  }

  /** A cycle that gets past STOPPED. */
  lemma HaltedInOrder(env: Environment, begin: int)
    requires EnvironmentPaced(env) && env.stop.err.None? && Halting(env, begin).err.None?
    ensures var halted := [StopCall(true)] + Halting(env, begin).polls;
      && InOrder(halted) && 1 < |halted| <= 1 + MAX_POLLS && Reached(halted[|halted| - 1], STOPPED)
      && forall k :: 0 <= k < |halted| ==> !halted[k].StartCall?
  {
    var from := begin + env.stop.latency;
    WaitIsSound(env.stopping, STOPPED, from);
    PollsFollowStop(true, Halting(env, begin).polls, from, from + MAX_WAIT_TIME);
  }

  /** Whatever the environment answers, the calls of a cycle keep their order, each wait makes at most
      thirty polls, and exactly the full cycles succeed. */
  lemma CycleIsSafe(env: Environment, begin: int)
    requires EnvironmentPaced(env)
    ensures var c := CycleOf(env, begin);
      && InOrder(c.calls) && (c.err.None? <==> FullCycle(c.calls, c.started))
      && c.started <= 1 + MAX_POLLS && c.started <= |c.calls| <= c.started + 1 + MAX_POLLS
  {
    var c, h := CycleOf(env, begin), Halting(env, begin);
    var from := begin + env.stop.latency;
    WaitIsSound(env.stopping, STOPPED, from);
    PollsFollowStop(true, h.polls, from, from + MAX_WAIT_TIME);
    if env.stop.err.None? && h.err.None? {
      HaltedInOrder(env, begin);
      var halted := [StopCall(true)] + h.polls;
      StartFollowsPolls(halted, env.start.err.None?);
      if env.start.err.None? {
        var r := Resuming(env, begin);
        var start := h.end + env.start.latency;
        WaitIsSound(env.starting, RUNNING, start);
        PollsFollowStart(halted + [StartCall(true)], r.polls, start, start + MAX_WAIT_TIME);
        FullExactly(halted, r, env.starting, start);
      }
    }
  }

  lemma FullExactly(halted: seq<Call>, r: Waited, turns: nat -> Turn, start: int)
    requires |halted| > 1 && halted[0] == StopCall(true) && Reached(halted[|halted| - 1], STOPPED)
    requires SoundWait(r, turns, RUNNING, start)
    ensures r.err.None? <==> FullCycle(halted + [StartCall(true)] + r.polls, |halted|)
  {
    var calls := halted + [StartCall(true)] + r.polls;
    assert calls[|halted| - 1] == halted[|halted| - 1] && calls[0] == halted[0];
    if r.polls != [] {
      assert calls[|calls| - 1] == r.polls[|r.polls| - 1];
    }
  }

  lemma ResumedIsTrue(env: Environment, begin: int)
    requires EnvironmentPaced(env) && env.stop.err.None? && env.start.err.None? && Halting(env, begin).err.None?
    requires AnsweredBy(Halting(env, begin).polls, env.stopping, STOPPED, 0)
    ensures TrueToAnswers(CycleOf(env, begin), env)
  {
    var c, h, r := CycleOf(env, begin), Halting(env, begin), Resuming(env, begin);
    var start := h.end + env.start.latency;
    WaitIsSound(env.starting, RUNNING, start);
    assert c.calls[1..c.started] == h.polls && c.calls[c.started + 1..] == r.polls;
    if r.err.Some? {
      SoundWaitIsCaused(r, env.starting, RUNNING, start);
    }
  }

  /** A cycle invents nothing. */
  lemma CycleIsTrue(env: Environment, begin: int)
    requires EnvironmentPaced(env)
    ensures TrueToAnswers(CycleOf(env, begin), env)
  {
    var c, h := CycleOf(env, begin), Halting(env, begin);
    WaitIsSound(env.stopping, STOPPED, begin + env.stop.latency);
    if env.stop.err.Some? {
      assert c.calls[1..c.started] == [];
    } else if h.err.Some? {
      SoundWaitIsCaused(h, env.stopping, STOPPED, begin + env.stop.latency);
      assert c.calls[1..] == c.calls[1..c.started] == h.polls;
    } else if env.start.err.Some? {
      assert c.calls[1..c.started] == h.polls && c.calls[c.started + 1..] == [];
    } else {
      ResumedIsTrue(env, begin);
    }
  }

  lemma CycleReturns(env: Environment, begin: int, maxLatency: nat, maxPause: nat)
    requires EnvironmentPaced(env)
    requires TurnsOk(env.stopping, maxLatency, maxPause) && TurnsOk(env.starting, maxLatency, maxPause)
    ensures CycleOf(env, begin).end
         <= begin + env.stop.latency + env.start.latency + 2 * (MAX_WAIT_TIME + maxLatency + maxPause)
  {
    var from := begin + env.stop.latency;
    WaitReturns(env.stopping, STOPPED, from + MAX_WAIT_TIME, 0, from, maxLatency, maxPause);
    var start := Halting(env, begin).end + env.start.latency;
    WaitReturns(env.starting, RUNNING, start + MAX_WAIT_TIME, 0, start, maxLatency, maxPause);
  }

  /** A merely slow instance fails the cycle at its deadline. */
  lemma SlowCycleTimesOut(env: Environment, begin: int)
    requires EnvironmentPaced(env) && env.stop.err.None?
    ensures NeverThere(env.stopping, STOPPED) ==>
              exists polls :: CycleOf(env, begin).err == Some(NotStopped(TimedOut(polls)))
    ensures Halting(env, begin).err.None? && env.start.err.None? && NeverThere(env.starting, RUNNING) ==>
              exists polls :: CycleOf(env, begin).err == Some(NotRunning(TimedOut(polls)))
  {
    if NeverThere(env.stopping, STOPPED) {
      SlowWaitTimesOut(env.stopping, STOPPED, begin + env.stop.latency);
    }
    if Halting(env, begin).err.None? && env.start.err.None? && NeverThere(env.starting, RUNNING) {
      SlowWaitTimesOut(env.starting, RUNNING, Halting(env, begin).end + env.start.latency);
    }
  }

  class Client {
    var clock: int
    ghost var calls: seq<Call>

    /** The polls are those that the turns demand: at most thirty, each with the answer of its turn.
        Returns less than one call and one pause after the deadline. */
    method WaitForState(target: string, turns: nat -> Turn, ghost maxLatency: nat, ghost maxPause: nat)
        returns (err: Option<WaitError>)
      requires Paced(turns) && TurnsOk(turns, maxLatency, maxPause)
      modifies this
      ensures var w := WaitFor(turns, target, old(clock));
        && calls == old(calls) + w.polls && err == w.err && clock == w.end
        && SoundWait(w, turns, target, old(clock))
      ensures clock < old(clock) + MAX_WAIT_TIME + maxLatency + maxPause
    {
      WaitIsSound(turns, target, clock);
      WaitReturns(turns, target, clock + MAX_WAIT_TIME, 0, clock, maxLatency, maxPause);
      var deadline, pollCount := clock + MAX_WAIT_TIME, 0;
      ghost var all := WaitFor(turns, target, clock);
      ghost var before := calls;
      while clock < deadline
        invariant AheadOf(all, before, calls, Wait(turns, target, deadline, pollCount, clock))
        decreases deadline - clock
      {
        var turn := turns(pollCount);
        if turn.cancelledBefore.Some? {
          return Some(Cancelled(turn.cancelledBefore.value));
        }
        calls := calls + [GetCall(clock, turn.reply)];
        clock := clock + turn.latency;
        if turn.reply.Failure? {
          return Some(GetFailed(turn.reply.err));
        }
        pollCount := pollCount + 1;
        if turn.reply.state == target {
          return None;
        }
        clock := clock + turn.pause;
        if turn.cancelledInPause.Some? {
          return Some(Cancelled(turn.cancelledInPause.value));
        }
      }
      return Some(TimedOut(pollCount));
    }

    method StopInstance(stop: Action) returns (err: Option<string>)
      modifies this
      ensures err == stop.err
      ensures calls == old(calls) + [StopCall(err.None?)] && clock == old(clock) + stop.latency
    {
      calls := calls + [StopCall(stop.err.None?)];
      clock := clock + stop.latency;
      err := stop.err;
    }

    method StartInstance(start: Action) returns (err: Option<string>)
      modifies this
      ensures err == start.err
      ensures calls == old(calls) + [StartCall(err.None?)] && clock == old(clock) + start.latency
    {
      calls := calls + [StartCall(start.err.None?)];
      clock := clock + start.latency;
      err := start.err;
    }

    /** Stops the instance, waits for STOPPED, starts it, waits for RUNNING. */
    method RestartInstance(env: Environment, ghost maxLatency: nat, ghost maxPause: nat)
        returns (err: Option<RestartFailure>, ghost cycle: Cycle)
      requires EnvironmentPaced(env)
      requires TurnsOk(env.stopping, maxLatency, maxPause) && TurnsOk(env.starting, maxLatency, maxPause)
      modifies this
      ensures calls == old(calls) + cycle.calls && err == cycle.err && clock == cycle.end
      ensures cycle == CycleOf(env, old(clock)) && TrueToAnswers(cycle, env)
      ensures InOrder(cycle.calls) && (err.None? <==> FullCycle(cycle.calls, cycle.started))
      ensures cycle.started <= 1 + MAX_POLLS && cycle.started <= |cycle.calls| <= cycle.started + 1 + MAX_POLLS
      ensures clock <= old(clock) + env.stop.latency + env.start.latency
                       + 2 * (MAX_WAIT_TIME + maxLatency + maxPause)
    {
      cycle := CycleOf(env, clock);
      CycleIsTrue(env, clock);
      CycleIsSafe(env, clock);
      CycleReturns(env, clock, maxLatency, maxPause);
      err := RunStages(env, maxLatency, maxPause);
    }

    /** The four stages of RestartInstance. */
    method RunStages(env: Environment, ghost maxLatency: nat, ghost maxPause: nat)
        returns (err: Option<RestartFailure>)
      requires EnvironmentPaced(env)
      requires TurnsOk(env.stopping, maxLatency, maxPause) && TurnsOk(env.starting, maxLatency, maxPause)
      modifies this
      ensures var c := CycleOf(env, old(clock)); calls == old(calls) + c.calls && err == c.err && clock == c.end
    {
      err := HaltInstance(env, maxLatency, maxPause);
      if err.Some? {
        return;
      }
      ghost var halted := calls[|old(calls)|..];
      var refused := StartInstance(env.start);
      if refused.Some? {
        return Some(StartFailed(refused.value));
      }
      var running := WaitForState(RUNNING, env.starting, maxLatency, maxPause);
      assert calls == old(calls) + (halted + [StartCall(true)] + Resuming(env, old(clock)).polls);
      err := if running.Some? then Some(NotRunning(running.value)) else None;
    }

    /** STOP, and the wait for STOPPED. */
    method HaltInstance(env: Environment, ghost maxLatency: nat, ghost maxPause: nat)
        returns (err: Option<RestartFailure>)
      requires EnvironmentPaced(env) && TurnsOk(env.stopping, maxLatency, maxPause)
      modifies this
      ensures err.Some? ==>
                var c := CycleOf(env, old(clock)); calls == old(calls) + c.calls && err == c.err && clock == c.end
      ensures err.None? ==>
                var h := Halting(env, old(clock));
                && env.stop.err.None? && h.err.None? && clock == h.end
                && calls == old(calls) + ([StopCall(true)] + h.polls)
    {
      var refused := StopInstance(env.stop);
      if refused.Some? {
        return Some(StopFailed(refused.value));
      }
      var stopped := WaitForState(STOPPED, env.stopping, maxLatency, maxPause);
      assert calls == old(calls) + ([StopCall(true)] + Halting(env, old(clock)).polls);
      err := if stopped.Some? then Some(NotStopped(stopped.value)) else None;
    }
  }
}
