/** What holds of every run of the agent, over every interleaving of the loop and the goroutines. */
module AgentTheorems {
  import opened Common
  import opened AgentSpec
  import opened AgentHistory
  import opened AgentSafety
  import opened AgentHealth
  import opened AgentTimeline

  // ---- single flight ----

  ghost predicate SomeAt(s: State, n: Name, pcs: set<Pc>) {
    exists i :: 0 <= i < |s.goroutines| && s.goroutines[i].node.name == n && s.goroutines[i].pc in pcs
  }

  lemma {:induction false} NamesFit(gs: seq<Goroutine>, names: set<Name>)
    requires forall n :: n in names ==>
               exists i :: 0 <= i < |gs| && gs[i].node.name == n && Holding(gs[i].pc)
    ensures |names| <= Unfinished(gs)
  {
    if gs == [] {
      assert names == {};
    } else {
      var last := |gs| - 1;
      var others := if Holding(gs[last].pc) then names - {gs[last].node.name} else names;
      forall n | n in others
        ensures exists i :: 0 <= i < last && gs[..last][i].node.name == n && Holding(gs[..last][i].pc)
      {
        var i :| 0 <= i < |gs| && gs[i].node.name == n && Holding(gs[i].pc);
        assert gs[..last][i] == gs[i];
      }
      NamesFit(gs[..last], others);
    }
  }

  /** At most one restart per node is in flight, the restarting flags are exactly the flights, no
      node is both restarting and timed, and the WaitGroup counts the goroutines still to end. */
  lemma {:induction false} SingleFlight(cfg: Config, events: seq<Event>)
    ensures var s := Exec(cfg, events);
      && (forall i, j :: 0 <= i < j < |s.goroutines|
            && Holding(s.goroutines[i].pc) && Holding(s.goroutines[j].pc)
            ==> s.goroutines[i].node.name != s.goroutines[j].node.name)
      && (forall n :: n in s.track.restarting <==>
            exists i :: 0 <= i < |s.goroutines| && s.goroutines[i].node.name == n
                        && Holding(s.goroutines[i].pc))
      && s.track.restarting !! s.track.missingSince.Keys
      && s.restartWg == Unfinished(s.goroutines)
      && |s.track.restarting| <= s.restartWg
  {
    var s := Exec(cfg, events);
    RunsAreSafe(cfg, events);
    RunsAreHealthy(cfg, events);
    forall n
      ensures n in s.track.restarting <==>
        exists i :: 0 <= i < |s.goroutines| && s.goroutines[i].node.name == n && Holding(s.goroutines[i].pc)
      ensures !(n in s.track.restarting && n in s.track.missingSince)
    {
      assert NodeOk(cfg, s, n, Replay(cfg, s.log, n));
    }
    NamesFit(s.goroutines, s.track.restarting);
  }

  // ---- refinement to the history, and what a launch needs ----

  /** The three maps are a fold over the log. */
  lemma {:induction false} MemoryIsHistory(cfg: Config, events: seq<Event>, n: Name)
    ensures var s := Exec(cfg, events); var h := Replay(cfg, s.log, n);
      && (n in s.track.missingSince <==> h.since.Some?)
      && (n in s.track.missingSince ==> h.since == Some(s.track.missingSince[n]))
      && (n in s.track.restarting <==> h.flight.Some?)
      && Count(s.track.restartAttempts, n) == h.attempts
  {
    RunsAreSafe(cfg, events);
    assert NodeOk(cfg, Exec(cfg, events), n, Replay(cfg, Exec(cfg, events).log, n));
  }

  /** Every launch is justified by two absent readings at least the timeout apart in pass time,
      with no present reading and no launch between them. */
  lemma LaunchesJustified(cfg: Config, events: seq<Event>, k: nat) returns (j: nat)
    requires k < |Exec(cfg, events).log| && Exec(cfg, events).log[k].Launched?
    ensures j < k && Justifies(cfg, Exec(cfg, events).log, j, k)
  {
    RunsKeepTime(cfg, events);
    j := LaunchHasWitness(cfg, Exec(cfg, events).log, k);
  }

  // ---- rate limit ----

  predicate LaunchIn(e: Entry, n: Name, lo: int, hi: int) {
    e.Launched? && e.name == n && lo <= e.pass <= hi
  }

  function LaunchCount(log: seq<Entry>, n: Name, lo: int, hi: int): nat {
    if log == [] then 0
    else LaunchCount(log[..|log| - 1], n, lo, hi) + One(LaunchIn(log[|log| - 1], n, lo, hi))
  }

  lemma LaunchCountStep(log: seq<Entry>, n: Name, lo: int, hi: int, m: nat)
    requires 0 < m <= |log|
    ensures LaunchCount(log[..m], n, lo, hi)
         == LaunchCount(log[..m - 1], n, lo, hi) + One(LaunchIn(log[m - 1], n, lo, hi))
  {
    assert log[..m][..m - 1] == log[..m - 1];
  }

  lemma {:induction false} LaunchesFillWindow(cfg: Config, s: State, n: Name, lo: int, hi: int, m: nat)
      returns (last: nat)
    requires TimesOk(s) && LaunchesDue(cfg, s.log)
    requires m <= |s.log| && LaunchCount(s.log[..m], n, lo, hi) > 0
    ensures last < m && LaunchIn(s.log[last], n, lo, hi)
    ensures (LaunchCount(s.log[..m], n, lo, hi) - 1) * cfg.timeout <= s.log[last].pass - lo
  {
    LaunchCountStep(s.log, n, lo, hi, m);
    var before := LaunchCount(s.log[..m - 1], n, lo, hi);
    if !LaunchIn(s.log[m - 1], n, lo, hi) {
      last := LaunchesFillWindow(cfg, s, n, lo, hi, m - 1);
    } else if before == 0 {
      last := m - 1;
      assert (LaunchCount(s.log[..m], n, lo, hi) - 1) * cfg.timeout == 0;
    } else {
      var previous := LaunchesFillWindow(cfg, s, n, lo, hi, m - 1);
      last := m - 1;
      LaunchesSpaced(cfg, s, previous, last);
      OneMore(before, cfg.timeout, s.log[previous].pass - lo, s.log[last].pass - lo);
    }
  }

  /** k launches of one node need a window of pass times at least (k - 1) timeouts long, whatever
      the attempts, the failures and the repetitions in the configuration. */
  lemma {:induction false} RateLimit(cfg: Config, events: seq<Event>, n: Name, lo: int, hi: int)
    requires lo <= hi
    ensures var k := LaunchCount(Exec(cfg, events).log, n, lo, hi);
            k == 0 || (k - 1) * cfg.timeout <= hi - lo
  {
    var s := Exec(cfg, events);
    RunsKeepTime(cfg, events);
    assert s.log[..|s.log|] == s.log;
    if LaunchCount(s.log, n, lo, hi) > 0 {
      var last := LaunchesFillWindow(cfg, s, n, lo, hi, |s.log|);
    }
  }

  // ---- the attempt ceiling ----

  function CallsFrom(log: seq<Entry>, n: Name, from: nat): nat {
    if |log| <= from then 0
    else CallsFrom(log[..|log| - 1], n, from)
         + One(log[|log| - 1].Called? && log[|log| - 1].name == n)
  }

  ghost predicate NotPresentFrom(log: seq<Entry>, n: Name, from: nat) {
    forall k :: from <= k < |log| ==> !(log[k].SawPresent? && log[k].name == n)
  }

  /** The stretch from `from` on starts with the log or right after a present reading, and has none. */
  ghost predicate SincePresent(log: seq<Entry>, n: Name, from: nat) {
    && from <= |log| && NotPresentFrom(log, n, from)
    && (from > 0 ==> log[from - 1].SawPresent? && log[from - 1].name == n)
  }

  lemma {:induction false} CallsAreTallied(cfg: Config, log: seq<Entry>, n: Name, from: nat)
    requires SincePresent(log, n, from)
    ensures CallsFrom(log, n, from) == Replay(cfg, log, n).calls
  {
    if |log| > from {
      CallsAreTallied(cfg, log[..|log| - 1], n, from);
    }
  }

  /** An increment at i whose call is not in the log before end. */
  ghost predicate Uncalled(log: seq<Entry>, n: Name, i: nat, end: nat) {
    i < end <= |log| && log[i].Incremented? && log[i].name == n
    && forall k :: i < k < end ==> !(log[k].Called? && log[k].name == n)
  }

  /** The present reading at p fell between an increment and its call, and is the last one. */
  ghost predicate Straddles(log: seq<Entry>, n: Name, i: nat, p: nat) {
    p < |log| && log[p].SawPresent? && log[p].name == n
    && NotPresentFrom(log, n, p + 1) && Uncalled(log, n, i, p)
  }

  lemma {:induction false} OpenHasWitness(cfg: Config, log: seq<Entry>, n: Name) returns (i: nat)
    requires Replay(cfg, log, n).open
    ensures Uncalled(log, n, i, |log|)
  {
    var last := |log| - 1;
    if log[last].Incremented? && log[last].name == n {
      i := last;
    } else {
      i := OpenHasWitness(cfg, log[..last], n);
    }
  }

  lemma {:induction false} StraddleHasWitness(cfg: Config, log: seq<Entry>, n: Name) returns (i: nat, p: nat)
    requires Replay(cfg, log, n).straddled
    ensures Straddles(log, n, i, p)
  {
    var last := |log| - 1;
    if log[last].SawPresent? && log[last].name == n {
      i := OpenHasWitness(cfg, log[..last], n);
      p := last;
    } else {
      i, p := StraddleHasWitness(cfg, log[..last], n);
    }
  }

  lemma {:induction false} UncalledIsOpen(cfg: Config, log: seq<Entry>, n: Name, i: nat)
    requires Uncalled(log, n, i, |log|)
    ensures Replay(cfg, log, n).open
  {
    if i < |log| - 1 {
      UncalledIsOpen(cfg, log[..|log| - 1], n, i);
    }
  }

  lemma {:induction false} StraddleIsTallied(cfg: Config, log: seq<Entry>, n: Name, i: nat, p: nat)
    requires Straddles(log, n, i, p)
    ensures Replay(cfg, log, n).straddled
  {
    var last := |log| - 1;
    if p == last {
      UncalledIsOpen(cfg, log[..last], n, i);
    } else {
      StraddleIsTallied(cfg, log[..last], n, i, p);
    }
  }

  /** The counter, with the restart that has yet to increment it, never passes the ceiling, and a
      node at its ceiling is not timed. */
  lemma CeilingHolds(cfg: Config, events: seq<Event>, n: Name)
    requires cfg.maxRestartAttempts > 0
    ensures var s := Exec(cfg, events); var attempts := Count(s.track.restartAttempts, n);
      && attempts + One(SomeAt(s, n, {Snapshot, Increment})) <= cfg.maxRestartAttempts
      && (n in s.track.missingSince ==> attempts < cfg.maxRestartAttempts)
  {
    RunsAreSafe(cfg, events);
    assert NodeOk(cfg, Exec(cfg, events), n, Replay(cfg, Exec(cfg, events).log, n));
  }

  /** The RestartInstance calls since the last present reading are counted exactly: they are the
      attempts on record, less one whose call is still to come, plus one if that reading fell
      between an increment and its call. */
  lemma {:induction false} CallsCountedExactly(cfg: Config, events: seq<Event>, n: Name, from: nat)
    requires SincePresent(Exec(cfg, events).log, n, from)
    ensures var s := Exec(cfg, events);
      CallsFrom(s.log, n, from) + One(SomeAt(s, n, {Call}))
      == Count(s.track.restartAttempts, n) + One(exists i, p :: Straddles(s.log, n, i, p))
  {
    var s := Exec(cfg, events);
    RunsAreSafe(cfg, events);
    assert NodeOk(cfg, s, n, Replay(cfg, s.log, n));
    CallsAreTallied(cfg, s.log, n, from);
    if Replay(cfg, s.log, n).straddled {
      var i, p := StraddleHasWitness(cfg, s.log, n);
    } else {
      forall i, p ensures !Straddles(s.log, n, i, p) {
        if Straddles(s.log, n, i, p) {
          StraddleIsTallied(cfg, s.log, n, i, p);
        }
      }
    }
  }

  /** So between present readings RestartInstance is called at most one time more than the ceiling,
      and that often exactly if the last present reading was straddled and the counter has reached
      the ceiling with its call made. */
  lemma {:induction false} CallsUnderCeiling(cfg: Config, events: seq<Event>, n: Name, from: nat)
    requires cfg.maxRestartAttempts > 0 && SincePresent(Exec(cfg, events).log, n, from)
    ensures var s := Exec(cfg, events); var calls := CallsFrom(s.log, n, from);
      && calls <= cfg.maxRestartAttempts + 1
      && (calls > cfg.maxRestartAttempts <==>
            && (exists i, p :: Straddles(s.log, n, i, p))
            && Count(s.track.restartAttempts, n) == cfg.maxRestartAttempts
            && !SomeAt(s, n, {Call}))
  {
    CeilingHolds(cfg, events, n);
    CallsCountedExactly(cfg, events, n, from);
  }

  // ---- conservation of outcomes ----

  function Launches(log: seq<Entry>, n: Name): nat {
    if log == [] then 0
    else Launches(log[..|log| - 1], n) + One(log[|log| - 1].Launched? && log[|log| - 1].name == n)
  }

  function Skips(log: seq<Entry>, n: Name): nat {
    if log == [] then 0
    else Skips(log[..|log| - 1], n) + One(log[|log| - 1].Skipped? && log[|log| - 1].name == n)
  }

  lemma {:induction false} TalliesMatch(cfg: Config, log: seq<Entry>, n: Name)
    ensures Replay(cfg, log, n).launches == Launches(log, n)
    ensures Replay(cfg, log, n).skips == Skips(log, n)
  {
    if log != [] {
      TalliesMatch(cfg, log[..|log| - 1], n);
    }
  }

  /** Every launch ends in one success or one failure or is still unresolved, and it counts as an
      attempt unless OCI was disconnected or its first step is still to come. */
  lemma {:induction false} OutcomesConserved(cfg: Config, events: seq<Event>, n: Name)
    ensures var s := Exec(cfg, events);
      && Launches(s.log, n) == Count(s.totals.successes, n) + Count(s.totals.failures, n)
                               + One(SomeAt(s, n, {Snapshot, Increment, Call, Awaiting, Succeeded}))
      && Launches(s.log, n) == Count(s.totals.attempts, n) + Skips(s.log, n) + One(SomeAt(s, n, {Snapshot}))
  {
    var s := Exec(cfg, events);
    RunsAreSafe(cfg, events);
    TalliesMatch(cfg, s.log, n);
    assert NodeOk(cfg, s, n, Replay(cfg, s.log, n));
  }

  // ---- connection health ----

  /** A connected OCI client with three failures on record is about to be dropped by a goroutine;
      with no restart in flight there is no such client. */
  lemma OciHealth(cfg: Config, events: seq<Event>)
    ensures var s := Exec(cfg, events);
      && (s.links.ociState.Connected? <==> s.links.oci)
      && (s.links.ociState.Connected? && s.links.ociFailures >= 3 ==>
            exists i :: 0 <= i < |s.goroutines| && s.goroutines[i].pc.Disconnect?)
      && (s.links.ociState.Connected? && s.track.restarting == {} ==>
            s.links.ociFailures < 3)
  {
    var s := Exec(cfg, events);
    RunsAreHealthy(cfg, events);
    assert OciOk(s);
    if s.track.restarting == {} {
      SingleFlight(cfg, events);
      forall i | 0 <= i < |s.goroutines| ensures !s.goroutines[i].pc.Disconnect? {
        assert s.goroutines[i].node.name !in s.track.restarting;
      }
    }
  }

  /** Between ticks a connected Consul client has fewer than three failed passes behind it, and a
      pass never starts without a client. */
  lemma ConsulHealth(cfg: Config, events: seq<Event>)
    ensures var s := Exec(cfg, events);
      && (s.links.consulState.Connected? <==> s.links.consul)
      && (s.links.consulState.Connected? && s.loop.Select? ==>
            s.links.consulFailures < 3)
      && (s.loop.Checking? ==> s.links.consul)
  {
    RunsAreHealthy(cfg, events);
  }

  predicate OnlyRuns(events: seq<Event>) {
    forall e :: e in events ==> e.Run?
  }

  predicate DropsOci(s: State, e: Event) {
    e.Run? && e.id < |s.goroutines| && s.goroutines[e.id].pc.Disconnect?
  }

  /** Among these critical sections of goroutines is one that drops the OCI client. */
  predicate Dropped(cfg: Config, events: seq<Event>, runs: seq<Event>) {
    && runs != []
    && var before, e := runs[..|runs| - 1], runs[|runs| - 1];
       Dropped(cfg, events, before) || DropsOci(Exec(cfg, events + before), e)
  }

  /** Goroutines leave the loop and Consul alone, and can only drop the OCI client. */
  ghost predicate SameLoop(s: State, t: State) {
    && t.loop == s.loop && t.clock == s.clock
    && t.links.consul == s.links.consul && t.links.consulState == s.links.consulState
  }

  lemma RunLeavesLoop(cfg: Config, s: State, e: Event)
    requires e.Run?
    ensures SameLoop(s, Step(cfg, s, e))
    ensures Step(cfg, s, e).links.oci <==> s.links.oci && !DropsOci(s, e)
  {
  }

  lemma {:induction false} RunsBetween(cfg: Config, events: seq<Event>, runs: seq<Event>)
    requires OnlyRuns(runs)
    ensures SameLoop(Exec(cfg, events), Exec(cfg, events + runs))
    ensures Exec(cfg, events + runs).links.oci <==> Exec(cfg, events).links.oci && !Dropped(cfg, events, runs)
  {
    if runs == [] {
      assert events + runs == events;
    } else {
      var before, e := runs[..|runs| - 1], runs[|runs| - 1];
      assert events + runs == events + before + [e];
      ExecAppend(cfg, events + before, e);
      RunsBetween(cfg, events, before);
      RunLeavesLoop(cfg, Exec(cfg, events + before), e);
    }
  }

  /** Before its first tick Run tries both connections, Consul first, and goes on without them. */
  lemma StartUp(cfg: Config, consulOk: bool, ociOk: bool)
    ensures var s := Exec(cfg, [ConnectConsul(consulOk), ConnectOci(ociOk)]);
      s.loop.Select? && s.links.consul == consulOk && s.links.oci == ociOk && s.goroutines == []
  {
    var first, second := ConnectConsul(consulOk), ConnectOci(ociOk);
    ExecAppend(cfg, [], first);
    ExecAppend(cfg, [first], second);
    assert [] + [first] == [first] && [first] + [second] == [first, second];
  }

  /** The Consul part of a tick, with goroutines running in it. */
  lemma TickReachesOci(cfg: Config, events: seq<Event>, consulOk: bool, r1: seq<Event>, r2: seq<Event>)
    requires Exec(cfg, events).loop.Select? && OnlyRuns(r1) && OnlyRuns(r2)
    ensures var s := Exec(cfg, events);
            var t := Exec(cfg, events + [Tick] + r1 + [ConnectConsul(consulOk)] + r2);
      && t.clock == s.clock && (t.links.consul <==> consulOk || s.links.consul)
      && t.loop == (if s.links.oci then Recheck else TickOci)
      && (t.links.oci <==> s.links.oci && !Dropped(cfg, events + [Tick], r1)
                           && !Dropped(cfg, events + [Tick] + r1 + [ConnectConsul(consulOk)], r2))
  {
    var e := events + [Tick] + r1;
    RunsAreHealthy(cfg, events);
    ExecAppend(cfg, events, Tick);
    RunsBetween(cfg, events + [Tick], r1);
    RunsAreHealthy(cfg, e);
    ExecAppend(cfg, e, ConnectConsul(consulOk));
    RunsBetween(cfg, e + [ConnectConsul(consulOk)], r2);
  }

  /**
   Whatever broke before, and whatever goroutines do between its critical sections, a tick that has
   or reaches Consul ends up in a pass at the first node. OCI is connected then exactly if no
   goroutine dropped it since it was last seen connected or reached. No pass starts without Consul.
   */
  lemma TickHeals(
      cfg: Config, events: seq<Event>, now: int, consulOk: bool, ociOk: bool,
      r1: seq<Event>, r2: seq<Event>, r3: seq<Event>)
    requires Exec(cfg, events).loop.Select? && now >= Exec(cfg, events).clock
    requires OnlyRuns(r1) && OnlyRuns(r2) && OnlyRuns(r3)
    ensures var s := Exec(cfg, events);
            var consul := events + [Tick] + r1 + [ConnectConsul(consulOk)];
            var oci := consul + r2 + [ConnectOci(ociOk)];
            var t := Exec(cfg, oci + r3 + [BeginPass(now)]);
      && (t.links.consul <==> consulOk || s.links.consul)
      && t.loop == (if t.links.consul then Checking(0, now, false) else Select)
      && (t.links.oci <==>
            && !Dropped(cfg, oci, r3)
            && if s.links.oci then !Dropped(cfg, events + [Tick], r1) && !Dropped(cfg, consul, r2) else ociOk)
  {
    var consul := events + [Tick] + r1 + [ConnectConsul(consulOk)];
    var oci := consul + r2 + [ConnectOci(ociOk)];
    TickReachesOci(cfg, events, consulOk, r1, r2);
    ExecAppend(cfg, consul + r2, ConnectOci(ociOk));
    RunsBetween(cfg, oci, r3);
    RunsAreHealthy(cfg, oci + r3);
    ExecAppend(cfg, oci + r3, BeginPass(now));
  }

  // ---- dry-run and the instance that is restarted ----

  ghost predicate CallsOk(cfg: Config, log: seq<Entry>) {
    forall k :: 0 <= k < |log| && log[k].Called? ==>
      !cfg.dryRun && log[k].node in cfg.nodes && log[k].node.name == log[k].name
  }

  /** RestartInstance is only ever called for a configured node, and never in dry-run. */
  lemma {:induction false} CallsConfigured(cfg: Config, events: seq<Event>)
    ensures CallsOk(cfg, Exec(cfg, events).log)
  {
    if events != [] {
      var s, e := Exec(cfg, events[..|events| - 1]), events[|events| - 1];
      CallsConfigured(cfg, events[..|events| - 1]);
      RunsAreSafe(cfg, events[..|events| - 1]);
      StepWrites(cfg, s, e);
      if e.Run? && e.id < |s.goroutines| && s.goroutines[e.id].pc.Call? {
        var node := s.goroutines[e.id].node;
        assert NodeOk(cfg, s, node.name, Replay(cfg, s.log, node.name));
      }
    }
  }

  // ---- shutdown ----

  predicate Closing(loop: LoopPc) {
    loop.Draining? || loop.Stopped?
  }

  lemma ClosingStays(cfg: Config, s: State, e: Event)
    requires Closing(s.loop)
    ensures Closing(Step(cfg, s, e).loop)
    ensures |Step(cfg, s, e).goroutines| == |s.goroutines|
  {
    if e.Run? && e.id < |s.goroutines| {
      RunMoves(cfg, s, e.id, e.outcome);
    }
  }

  /** The cancelled branch is taken at the select and nowhere else: a tick under way is finished. */
  lemma ShutdownBegins(cfg: Config, s: State, e: Event)
    requires !Closing(s.loop)
    ensures Closing(Step(cfg, s, e).loop) <==> e.Cancel? && s.loop.Select?
    ensures Closing(Step(cfg, s, e).loop) ==> Step(cfg, s, e) == s.(loop := Draining)
  {
  }

  /** Once Run has taken the cancelled branch no restart is launched any more. */
  lemma {:induction false} NoLaunchAfterCancel(cfg: Config, events: seq<Event>, later: seq<Event>)
    requires Closing(Exec(cfg, events).loop)
    ensures var s, t := Exec(cfg, events), Exec(cfg, events + later);
            Closing(t.loop) && |t.goroutines| == |s.goroutines|
  {
    if later == [] {
      assert events + later == events;
    } else {
      var all := events + later;
      assert all[..|all| - 1] == events + later[..|later| - 1];
      NoLaunchAfterCancel(cfg, events, later[..|later| - 1]);
      ClosingStays(cfg, Exec(cfg, events + later[..|later| - 1]), later[|later| - 1]);
    }
  }

  lemma {:induction false} NoneUnfinished(gs: seq<Goroutine>)
    requires Unfinished(gs) == 0
    ensures forall i :: 0 <= i < |gs| ==> gs[i].pc.Finished?
  {
    if gs != [] {
      NoneUnfinished(gs[..|gs| - 1]);
      assert forall i :: 0 <= i < |gs| - 1 ==> gs[..|gs| - 1][i] == gs[i];
    }
  }

  /** When Run returns, no flag is left and every launch has exactly one recorded outcome. */
  lemma ReturnIsClean(cfg: Config, events: seq<Event>, n: Name)
    requires Exec(cfg, events).loop.Stopped?
    ensures var s := Exec(cfg, events);
      && s.track.restarting == {}
      && (forall i :: 0 <= i < |s.goroutines| ==> s.goroutines[i].pc.Finished?)
      && Launches(s.log, n) == Count(s.totals.successes, n) + Count(s.totals.failures, n)
  {
    RunsAreHealthy(cfg, events);
    NoneUnfinished(Exec(cfg, events).goroutines);
    SingleFlight(cfg, events);
    OutcomesConserved(cfg, events, n);
  }

  function Work(gs: seq<Goroutine>): nat {
    if gs == [] then 0 else Work(gs[..|gs| - 1]) + Rank(gs[|gs| - 1].pc)
  }

  lemma {:induction false} WorkUpdate(gs: seq<Goroutine>, id: nat, g: Goroutine)
    requires id < |gs|
    ensures Work(gs[id := g]) == Work(gs) - Rank(gs[id].pc) + Rank(g.pc)
  {
    var last := |gs| - 1;
    if id < last {
      assert gs[id := g][..last] == gs[..last][id := g];
      WorkUpdate(gs[..last], id, g);
    } else {
      assert gs[id := g][..last] == gs[..last];
    }
  }

  lemma RankFalls(cfg: Config, s: State, id: nat, outcome: Outcome)
    requires id < |s.goroutines| && !s.goroutines[id].pc.Finished?
    ensures |RunStep(cfg, s, id, outcome).goroutines| == |s.goroutines|
    ensures Rank(RunStep(cfg, s, id, outcome).goroutines[id].pc) < Rank(s.goroutines[id].pc)
  {
  }

  lemma {:induction false} WorkBoundsUnfinished(gs: seq<Goroutine>)
    ensures Unfinished(gs) <= Work(gs)
  {
    if gs != [] {
      WorkBoundsUnfinished(gs[..|gs| - 1]);
    }
  }

  /** The event is a critical section of a goroutine that has not ended. */
  predicate Works(s: State, e: Event) {
    e.Run? && e.id < |s.goroutines| && !s.goroutines[e.id].pc.Finished?
  }

  function Worked(cfg: Config, events: seq<Event>, later: seq<Event>): nat {
    if later == [] then 0
    else
      var before, e := later[..|later| - 1], later[|later| - 1];
      Worked(cfg, events, before) + One(Works(Exec(cfg, events + before), e))
  }

  lemma StepUsesWork(cfg: Config, s: State, e: Event)
    requires Closing(s.loop)
    ensures Work(Step(cfg, s, e).goroutines) + One(Works(s, e)) <= Work(s.goroutines)
  {
    if Works(s, e) {
      RunMoves(cfg, s, e.id, e.outcome);
      RankFalls(cfg, s, e.id, e.outcome);
      WorkUpdate(s.goroutines, e.id, Step(cfg, s, e).goroutines[e.id]);
    } else if !e.Run? {
      LoopMoves(cfg, s, e);
    }
  }

  lemma {:induction false} WorkOnlyFalls(cfg: Config, events: seq<Event>, later: seq<Event>)
    requires Closing(Exec(cfg, events).loop)
    ensures Worked(cfg, events, later) + Work(Exec(cfg, events + later).goroutines)
         <= Work(Exec(cfg, events).goroutines)
  {
    if later == [] {
      assert events + later == events;
    } else {
      var before, e := later[..|later| - 1], later[|later| - 1];
      assert events + later == events + before + [e];
      ExecAppend(cfg, events + before, e);
      WorkOnlyFalls(cfg, events, before);
      NoLaunchAfterCancel(cfg, events, before);
      StepUsesWork(cfg, Exec(cfg, events + before), e);
    }
  }

  lemma NoWorkReturns(cfg: Config, events: seq<Event>)
    requires Closing(Exec(cfg, events).loop) && Work(Exec(cfg, events).goroutines) == 0
    ensures Step(cfg, Exec(cfg, events), Drained).loop.Stopped?
  {
    RunsAreHealthy(cfg, events);
    WorkBoundsUnfinished(Exec(cfg, events).goroutines);
  }

  /** Draining ends under every schedule: goroutines take at most as many steps as there is work, in
      any order, and once no work is left Wait returns. */
  lemma DrainingEnds(cfg: Config, events: seq<Event>, later: seq<Event>)
    requires Closing(Exec(cfg, events).loop)
    ensures var s, t := Exec(cfg, events), Exec(cfg, events + later);
      && Worked(cfg, events, later) + Work(t.goroutines) <= Work(s.goroutines)
      && (Work(t.goroutines) == 0 ==> Step(cfg, t, Drained).loop.Stopped?)
  {
    WorkOnlyFalls(cfg, events, later);
    NoLaunchAfterCancel(cfg, events, later);
    if Work(Exec(cfg, events + later).goroutines) == 0 {
      NoWorkReturns(cfg, events + later);
    }
  }

  lemma {:induction false} SomeUnfinished(gs: seq<Goroutine>) returns (id: nat)
    requires Work(gs) > 0
    ensures id < |gs| && !gs[id].pc.Finished?
  {
    var last := |gs| - 1;
    if !gs[last].pc.Finished? {
      id := last;
    } else {
      id := SomeUnfinished(gs[..last]);
    }
  }

  lemma OneWorks(cfg: Config, events: seq<Event>) returns (e: Event)
    requires Closing(Exec(cfg, events).loop) && Work(Exec(cfg, events).goroutines) > 0
    ensures Closing(Exec(cfg, events + [e]).loop)
    ensures Work(Exec(cfg, events + [e]).goroutines) < Work(Exec(cfg, events).goroutines)
  {
    var s := Exec(cfg, events);
    var id := SomeUnfinished(s.goroutines);
    e := Run(id, Restarted);
    StepUsesWork(cfg, s, e);
    ClosingStays(cfg, s, e);
    ExecAppend(cfg, events, e);
  }

  lemma ReturnNow(cfg: Config, events: seq<Event>)
    requires Closing(Exec(cfg, events).loop) && Work(Exec(cfg, events).goroutines) == 0
    ensures Exec(cfg, events + [Drained]).loop.Stopped?
  {
    NoWorkReturns(cfg, events);
    ExecAppend(cfg, events, Drained);
  }

  lemma ReturnAfter(cfg: Config, events: seq<Event>, e: Event, later: seq<Event>)
    requires Exec(cfg, events + [e] + later).loop.Stopped?
    ensures Exec(cfg, events + ([e] + later)).loop.Stopped?
  {
    assert events + ([e] + later) == events + [e] + later;
  }

  lemma {:induction false} ReturnWithin(cfg: Config, events: seq<Event>, work: nat) returns (later: seq<Event>)
    requires Closing(Exec(cfg, events).loop) && Work(Exec(cfg, events).goroutines) <= work
    ensures |later| <= work + 1 && Exec(cfg, events + later).loop.Stopped?
    decreases work
  {
    if Work(Exec(cfg, events).goroutines) == 0 {
      ReturnNow(cfg, events);
      later := [Drained];
    } else {
      var e := OneWorks(cfg, events);
      var rest := ReturnWithin(cfg, events + [e], work - 1);
      ReturnAfter(cfg, events, e, rest);
      later := [e] + rest;
    }
  }

  /** From every state of the drain Run can return, in no more steps than there is work, and one. */
  lemma RunCanReturn(cfg: Config, events: seq<Event>) returns (later: seq<Event>)
    requires Closing(Exec(cfg, events).loop)
    ensures |later| <= Work(Exec(cfg, events).goroutines) + 1
    ensures Exec(cfg, events + later).loop.Stopped?
  {
    later := ReturnWithin(cfg, events, Work(Exec(cfg, events).goroutines));
  }
}
