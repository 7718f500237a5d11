/** The one call more than the ceiling happens: for every ceiling there is a run that makes it. */
module CeilingLimit {
  import opened Common
  import opened AgentSpec
  import opened AgentHistory
  import opened AgentSafety
  import opened AgentPasses
  import R = AgentTheorems

  /** The loop stands at the select, ready for a tick. */
  predicate Idle(s: State) {
    Ready(s) && s.loop.Select?
  }

  function HistoryOf(cfg: Config, events: seq<Event>, n: Name): History {
    Replay(cfg, Exec(cfg, events).log, n)
  }

  lemma Then(cfg: Config, events: seq<Event>, e: Event) returns (more: seq<Event>)
    ensures Exec(cfg, more) == Step(cfg, Exec(cfg, events), e)
  {
    more := events + [e];
    ExecAppend(cfg, events, e);
  }

  /** The reads of a pass from node i on. */
  lemma {:induction false} ReadRest(cfg: Config, events: seq<Event>, n: Name, r: Reading, i: nat, now: int, id: nat)
      returns (more: seq<Event>)
    requires cfg.timeout > 0 && !r.ReadError? && i <= |cfg.nodes|
    requires Exec(cfg, events).loop == Checking(i, now, false) && id == |Exec(cfg, events).goroutines|
    ensures var s, t := Exec(cfg, events), Exec(cfg, more);
      && t.loop == Checking(|cfg.nodes|, now, false) && t.links == s.links && t.clock == s.clock
      && HistoryOf(cfg, more, n) == AfterRest(cfg, HistoryOf(cfg, events, n), n, r, now, s.clock, i, id)
      && s.goroutines <= t.goroutines
      && (HistoryOf(cfg, more, n).launches > HistoryOf(cfg, events, n).launches ==>
            id < |t.goroutines| && t.goroutines[id].node.name == n && t.goroutines[id].pc.Snapshot?)
    decreases |cfg.nodes| - i
  {
    if i == |cfg.nodes| {
      more := events;
    } else {
      var s := Exec(cfg, events);
      RunsAreSafe(cfg, events);
      ReadMovesHistory(cfg, s, n, r, s.clock);
      more := Then(cfg, events, Read(s.clock, NextReading(cfg, n, r, i)));
      var next := |Exec(cfg, more).goroutines|;
      RestAfterReading(cfg, HistoryOf(cfg, events, n), n, r, now, s.clock, i, id, next);
      more := ReadRest(cfg, more, n, r, i + 1, now, next);
    }
  }

  /** A tick and a pass that began at now and reads r for the node. */
  lemma Pass(cfg: Config, events: seq<Event>, n: Name, r: Reading, now: int) returns (more: seq<Event>)
    requires cfg.timeout > 0 && !r.ReadError? && ListedFrom(cfg, n, 0)
    requires Idle(Exec(cfg, events)) && Exec(cfg, events).clock <= now
    ensures var s, t := Exec(cfg, events), Exec(cfg, more); var id := |s.goroutines|;
      && Idle(t) && t.clock == now
      && HistoryOf(cfg, more, n) == AfterReading(cfg, HistoryOf(cfg, events, n), n, r, now, now, id)
      && s.goroutines <= t.goroutines
      && (HistoryOf(cfg, more, n).launches > HistoryOf(cfg, events, n).launches ==>
            id < |t.goroutines| && t.goroutines[id].node.name == n && t.goroutines[id].pc.Snapshot?)
  {
    var id := |Exec(cfg, events).goroutines|;
    more := Then(cfg, events, Tick);
    more := Then(cfg, more, BeginPass(now));
    more := ReadRest(cfg, more, n, r, 0, now, id);
    more := Then(cfg, more, EndPass);
  }

  /** The program counters of a restart that goes well. */
  function After(pc: Pc): Pc {
    match pc
    case Snapshot => Increment
    case Increment => Call
    case Call => Awaiting
    case Awaiting => Succeeded
    case Succeeded => ClearFlag
    case _ => WgDone
  }

  function EntryAt(pc: Pc, node: NodeConfig): Option<Entry> {
    match pc
    case Increment => Some(Incremented(node.name))
    case Call => Some(Called(node.name, node))
    case ClearFlag => Some(Cleared(node.name))
    case _ => None
  }

  lemma RunOne(cfg: Config, events: seq<Event>, n: Name, id: nat) returns (more: seq<Event>)
    requires !cfg.dryRun && Idle(Exec(cfg, events)) && id < |Exec(cfg, events).goroutines|
    requires var g := Exec(cfg, events).goroutines[id];
      g.node.name == n && (g.pc.ClearFlag? || (Unresolved(g.pc)))
    ensures var s, t := Exec(cfg, events), Exec(cfg, more); var g := s.goroutines[id];
      && Idle(t) && t.clock == s.clock && id < |t.goroutines|
      && t.goroutines[id] == g.(pc := After(g.pc))
      && HistoryOf(cfg, more, n)
         == (var h := HistoryOf(cfg, events, n);
             match EntryAt(g.pc, g.node) case Some(e) => Next(cfg, h, e) case None => h)
  {
    RunReplay(cfg, Exec(cfg, events), id, Restarted, n);
    more := Then(cfg, events, Run(id, Restarted));
  }

  /** An idle agent whose goroutine id for the node is at pc, and the history of the node. */
  predicate Flying(cfg: Config, events: seq<Event>, n: Name, id: nat, pc: Pc, h: History) {
    var s := Exec(cfg, events);
    && Idle(s) && id < |s.goroutines| && s.goroutines[id].node.name == n && s.goroutines[id].pc == pc
    && HistoryOf(cfg, events, n) == h
  }

  /** Two absent readings a timeout apart launch a restart, which gets as far as its increment. */
  lemma LaunchAndIncrement(cfg: Config, events: seq<Event>, n: Name) returns (more: seq<Event>, id: nat)
    requires cfg.timeout > 0 && !cfg.dryRun && ListedFrom(cfg, n, 0) && Idle(Exec(cfg, events))
    requires var h := HistoryOf(cfg, events, n);
      h.since.None? && h.flight.None? && !AtCeiling(cfg, h.attempts)
    ensures var h := HistoryOf(cfg, events, n);
      Flying(cfg, more, n, id, Call,
             h.(flight := Some(id), launches := h.launches + 1, attempts := h.attempts + 1, open := true))
  {
    var now := Exec(cfg, events).clock;
    more := Pass(cfg, events, n, Absent, now);
    id := |Exec(cfg, more).goroutines|;
    more := Pass(cfg, more, n, Absent, now + cfg.timeout);
    more := RunOne(cfg, more, n, id);
    more := RunOne(cfg, more, n, id);
  }

  /** From the increment on the restart is called, succeeds and clears its flag. */
  lemma CallAndFinish(cfg: Config, events: seq<Event>, n: Name, id: nat, h: History) returns (more: seq<Event>)
    requires !cfg.dryRun && Flying(cfg, events, n, id, Call, h)
    ensures Flying(cfg, more, n, id, WgDone, h.(calls := h.calls + 1, open := false, flight := None))
  {
    more := RunOne(cfg, events, n, id);
    more := RunOne(cfg, more, n, id);
    more := RunOne(cfg, more, n, id);
    more := RunOne(cfg, more, n, id);
  }

  /** No restart of the node is in flight, and the last present reading of it was straddled. */
  predicate Straddled(cfg: Config, events: seq<Event>, n: Name, attempts: nat) {
    var h := HistoryOf(cfg, events, n);
    && Idle(Exec(cfg, events))
    && h.since.None? && h.flight.None? && h.straddled && h.attempts == attempts && h.calls == attempts + 1
  }

  /** A restart whose call the present reading forgets. */
  lemma StraddlingRestart(cfg: Config, n: Name) returns (events: seq<Event>)
    requires cfg.maxRestartAttempts > 0 && cfg.timeout > 0 && !cfg.dryRun && ListedFrom(cfg, n, 0)
    ensures Straddled(cfg, events, n, 0)
  {
    events := Then(cfg, [], ConnectConsul(true));
    events := Then(cfg, events, ConnectOci(true));
    assert HistoryOf(cfg, events, n) == EMPTY;
    var id;
    events, id := LaunchAndIncrement(cfg, events, n);
    events := Pass(cfg, events, n, Present, Exec(cfg, events).clock);
    events := CallAndFinish(cfg, events, n, id, HistoryOf(cfg, events, n));
  }

  lemma {:induction false} RestartsUpTo(cfg: Config, n: Name, attempts: nat) returns (events: seq<Event>)
    requires cfg.maxRestartAttempts > 0 && cfg.timeout > 0 && !cfg.dryRun && ListedFrom(cfg, n, 0)
    requires attempts <= cfg.maxRestartAttempts
    ensures Straddled(cfg, events, n, attempts)
  {
    if attempts == 0 {
      events := StraddlingRestart(cfg, n);
    } else {
      var id;
      events := RestartsUpTo(cfg, n, attempts - 1);
      events, id := LaunchAndIncrement(cfg, events, n);
      events := CallAndFinish(cfg, events, n, id, HistoryOf(cfg, events, n));
    }
  }

  lemma {:induction false} LastPresent(log: seq<Entry>, n: Name) returns (from: nat)
    ensures R.SincePresent(log, n, from)
  {
    var last := |log| - 1;
    if log == [] || (log[last].SawPresent? && log[last].name == n) {
      from := |log|;
    } else {
      from := LastPresent(log[..last], n);
    }
  }

  /** Whatever the ceiling, some run makes one RestartInstance call more than it since the last
      present reading. */
  lemma CeilingIsExceeded(cfg: Config, n: Name) returns (events: seq<Event>, from: nat)
    requires cfg.maxRestartAttempts > 0 && cfg.timeout > 0 && !cfg.dryRun && ListedFrom(cfg, n, 0)
    ensures R.SincePresent(Exec(cfg, events).log, n, from)
    ensures R.CallsFrom(Exec(cfg, events).log, n, from) == cfg.maxRestartAttempts + 1
  {
    events := RestartsUpTo(cfg, n, cfg.maxRestartAttempts);
    from := LastPresent(Exec(cfg, events).log, n);
    R.CallsAreTallied(cfg, Exec(cfg, events).log, n, from);
  }
}
