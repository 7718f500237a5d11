/** The inductive invariant of the agent, kept by every event from every interleaving. */
module AgentSafety {
  import opened Common
  import opened AgentSpec
  import opened AgentHistory

  /** The goroutine has not yet deleted its restarting flag. */
  predicate Holding(pc: Pc) {
    !pc.WgDone? && !pc.Finished?
  }

  predicate Unresolved(pc: Pc) {
    pc.Snapshot? || pc.Increment? || pc.Call? || pc.Awaiting? || pc.Succeeded?
  }

  predicate BeforeIncrement(pc: Pc) {
    pc.Snapshot? || pc.Increment?
  }

  function Working(g: Goroutine): nat {
    if g.pc.Finished? then 0 else 1
  }

  function Unfinished(gs: seq<Goroutine>): nat {
    if gs == [] then 0 else Unfinished(gs[..|gs| - 1]) + Working(gs[|gs| - 1])
  }

  /** How many critical sections a goroutine has left at most. */
  function Rank(pc: Pc): nat {
    match pc
    case Snapshot => 8
    case Increment => 7
    case Call => 6
    case Awaiting => 5
    case Failed(_) => 4
    case Disconnect => 3
    case Succeeded => 3
    case ClearFlag => 2
    case WgDone => 1
    case Finished => 0
  }

  function One(b: bool): nat {
    if b then 1 else 0
  }

  /** Where the restart in flight is; Finished when there is none. */
  function FlightPc(h: History, gs: seq<Goroutine>): Pc {
    if h.flight.Some? && h.flight.value < |gs| then gs[h.flight.value].pc else Finished
  }

  /** The memory of the agent is what the history h of the node says it is. */
  predicate NodeRefines(s: State, name: Name, h: History) {
    && h.since == (if name in s.track.missingSince then Some(s.track.missingSince[name]) else None)
    && (name in s.track.restarting <==> h.flight.Some?)
    && Count(s.track.restartAttempts, name) == h.attempts
    && (h.flight.Some? ==> h.since.None?)
    && (h.flight.Some? ==>
          && h.flight.value < |s.goroutines|
          && s.goroutines[h.flight.value].node.name == name
          && Holding(s.goroutines[h.flight.value].pc))
  }

  predicate NodeCounts(cfg: Config, s: State, name: Name, h: History) {
    var pc := FlightPc(h, s.goroutines);
    && (h.open <==> pc.Call?)
    && h.calls + One(h.open) == h.attempts + One(h.straddled)
    && (cfg.maxRestartAttempts > 0 ==> h.attempts + One(BeforeIncrement(pc)) <= cfg.maxRestartAttempts)
    && (h.since.Some? ==> !AtCeiling(cfg, h.attempts))
    && h.launches == Count(s.totals.successes, name) + Count(s.totals.failures, name) + One(Unresolved(pc))
    && h.launches == Count(s.totals.attempts, name) + h.skips + One(pc.Snapshot?)
    && (cfg.dryRun ==> h.attempts == 0 && h.calls == 0 && (pc.Snapshot? || pc.ClearFlag? || pc.Finished?))
  }

  predicate NodeOk(cfg: Config, s: State, name: Name, h: History) {
    NodeRefines(s, name, h) && NodeCounts(cfg, s, name, h)
  }

  ghost predicate NodesOk(cfg: Config, s: State) {
    forall n: Name :: NodeOk(cfg, s, n, Replay(cfg, s.log, n))
  }

  /** Every goroutine that still holds a flag is the one its node's history knows about. */
  ghost predicate FlagsOk(cfg: Config, s: State) {
    && (forall i :: 0 <= i < |s.goroutines| ==> s.goroutines[i].node in cfg.nodes)
    && (forall i :: 0 <= i < |s.goroutines| && Holding(s.goroutines[i].pc) ==>
          Replay(cfg, s.log, s.goroutines[i].node.name).flight == Some(i))
  }

  ghost predicate Inv(cfg: Config, s: State) {
    NodesOk(cfg, s) && FlagsOk(cfg, s)
  }

  // ---- every event keeps the invariant ----

  /** The part of the state the invariant is about. */
  predicate SameTracking(s: State, t: State) {
    t.track == s.track && t.goroutines == s.goroutines && t.log == s.log && t.totals == s.totals
  }

  lemma SameTrackingKeeps(cfg: Config, s: State, t: State)
    requires Inv(cfg, s) && SameTracking(s, t)
    ensures Inv(cfg, t)
  {
    forall n: Name ensures NodeOk(cfg, t, n, Replay(cfg, t.log, n)) {
      assert NodeOk(cfg, s, n, Replay(cfg, s.log, n));
    }
  }

  /** t says about node n what s says. */
  ghost predicate Agree(s: State, t: State, n: Name) {
    && (n in t.track.missingSince <==> n in s.track.missingSince)
    && (n in s.track.missingSince ==> t.track.missingSince[n] == s.track.missingSince[n])
    && (n in t.track.restarting <==> n in s.track.restarting)
    && Count(t.track.restartAttempts, n) == Count(s.track.restartAttempts, n)
    && Count(t.totals.attempts, n) == Count(s.totals.attempts, n)
    && Count(t.totals.successes, n) == Count(s.totals.successes, n)
    && Count(t.totals.failures, n) == Count(s.totals.failures, n)
    && |s.goroutines| <= |t.goroutines|
    && forall i :: 0 <= i < |s.goroutines| && s.goroutines[i].node.name == n ==>
         t.goroutines[i] == s.goroutines[i]
  }

  lemma AgreeKeeps(cfg: Config, s: State, t: State, n: Name, h: History)
    requires NodeOk(cfg, s, n, h) && Agree(s, t, n)
    ensures NodeOk(cfg, t, n, h)
  {
  }

  lemma MissingAgrees(cfg: Config, s: State, node: NodeConfig, now: int, at: int, n: Name)
    requires n != node.name
    ensures Agree(s, MissingStep(cfg, s, node, now, at), n)
  {
  }

  lemma SnapshotAgrees(cfg: Config, s: State, id: nat, n: Name)
    requires id < |s.goroutines| && n != s.goroutines[id].node.name
    ensures Agree(s, SnapshotStep(cfg, s, id), n)
  {
  }

  lemma RunAgrees(cfg: Config, s: State, id: nat, outcome: Outcome, n: Name)
    requires id < |s.goroutines| && n != s.goroutines[id].node.name
    ensures Agree(s, RunStep(cfg, s, id, outcome), n)
  {
    if s.goroutines[id].pc.Snapshot? {
      SnapshotAgrees(cfg, s, id, n);
    }
  }

  lemma AliveKeepsNode(cfg: Config, s: State, node: NodeConfig, now: int, at: int, n: Name, h: History)
    requires NodeOk(cfg, s, n, h)
    ensures NodeOk(cfg, AliveStep(s, node, now, at), n,
                   if n == node.name then Next(cfg, h, SawPresent(node.name, now, at)) else h)
  {
  }

  /** An absent reading that launches nothing. */
  lemma AbsentKeepsNode(cfg: Config, s: State, node: NodeConfig, now: int, at: int, h: History)
    requires NodeOk(cfg, s, node.name, h)
    requires MissingStep(cfg, s, node, now, at).goroutines == s.goroutines
    ensures NodeOk(cfg, MissingStep(cfg, s, node, now, at), node.name,
                   Next(cfg, h, SawAbsent(node.name, now, at)))
  {
  }

  lemma LaunchKeepsNode(cfg: Config, s: State, node: NodeConfig, now: int, at: int, h: History)
    requires NodeOk(cfg, s, node.name, h)
    requires MissingStep(cfg, s, node, now, at).goroutines != s.goroutines
    ensures NodeOk(cfg, MissingStep(cfg, s, node, now, at), node.name,
                   Next(cfg, Next(cfg, h, SawAbsent(node.name, now, at)),
                        Launched(node.name, now, |s.goroutines|)))
  {
  }

  /** What the step of a goroutine writes to the log. */
  function RunEntry(s: State, id: nat): Option<Entry>
    requires id < |s.goroutines|
  {
    var g := s.goroutines[id];
    match g.pc
    case Snapshot =>
      if s.links.ociState.Disconnected? || !s.links.oci then Some(Skipped(g.node.name)) else None
    case Increment => Some(Incremented(g.node.name))
    case Call => Some(Called(g.node.name, g.node))
    case ClearFlag => Some(Cleared(g.node.name))
    case _ => None
  }

  function AfterRun(cfg: Config, s: State, id: nat, h: History): History
    requires id < |s.goroutines|
  {
    match RunEntry(s, id)
    case Some(e) => Next(cfg, h, e)
    case None => h
  }

  /** The goroutine in flight for a node takes its step: up to the RestartInstance call. */
  lemma SnapshotKeeps(cfg: Config, s: State, id: nat, h: History)
    requires id < |s.goroutines| && h.flight == Some(id) && s.goroutines[id].pc.Snapshot?
    requires NodeOk(cfg, s, s.goroutines[id].node.name, h)
    ensures NodeOk(cfg, SnapshotStep(cfg, s, id), s.goroutines[id].node.name, AfterRun(cfg, s, id, h))
  {
  }

  lemma CallKeeps(cfg: Config, s: State, id: nat, outcome: Outcome, h: History)
    requires id < |s.goroutines| && h.flight == Some(id)
    requires var pc := s.goroutines[id].pc; pc.Increment? || pc.Call?
    requires NodeOk(cfg, s, s.goroutines[id].node.name, h)
    ensures NodeOk(cfg, RunStep(cfg, s, id, outcome), s.goroutines[id].node.name, AfterRun(cfg, s, id, h))
  {
  }

  /** ... from the return of that call to the record of its outcome ... */
  lemma RecordKeeps(cfg: Config, s: State, id: nat, outcome: Outcome, h: History)
    requires id < |s.goroutines| && h.flight == Some(id)
    requires var pc := s.goroutines[id].pc; pc.Awaiting? || pc.Failed? || pc.Disconnect? || pc.Succeeded?
    requires NodeOk(cfg, s, s.goroutines[id].node.name, h)
    ensures NodeOk(cfg, RunStep(cfg, s, id, outcome), s.goroutines[id].node.name, h)
  {
  }

  /** ... and in the deferred calls. */
  lemma DeferredKeeps(cfg: Config, s: State, id: nat, outcome: Outcome, h: History)
    requires id < |s.goroutines|
    requires var pc := s.goroutines[id].pc; pc.ClearFlag? || pc.WgDone? || pc.Finished?
    requires Holding(s.goroutines[id].pc) ==> h.flight == Some(id)
    requires NodeOk(cfg, s, s.goroutines[id].node.name, h)
    ensures NodeOk(cfg, RunStep(cfg, s, id, outcome), s.goroutines[id].node.name, AfterRun(cfg, s, id, h))
  {
  }

  lemma RunLog(cfg: Config, s: State, id: nat, outcome: Outcome)
    requires id < |s.goroutines|
    ensures RunStep(cfg, s, id, outcome).log
         == s.log + (if RunEntry(s, id).Some? then [RunEntry(s, id).value] else [])
    ensures |RunStep(cfg, s, id, outcome).goroutines| == |s.goroutines|
    ensures RunStep(cfg, s, id, outcome).goroutines[id].node == s.goroutines[id].node
    ensures forall i :: 0 <= i < |s.goroutines| && i != id ==>
              RunStep(cfg, s, id, outcome).goroutines[i] == s.goroutines[i]
    ensures Holding(RunStep(cfg, s, id, outcome).goroutines[id].pc) ==>
              Holding(s.goroutines[id].pc) && !s.goroutines[id].pc.ClearFlag?
  {
  }

  lemma RunReplay(cfg: Config, s: State, id: nat, outcome: Outcome, n: Name)
    requires id < |s.goroutines|
    ensures Replay(cfg, RunStep(cfg, s, id, outcome).log, n)
         == if n == s.goroutines[id].node.name then AfterRun(cfg, s, id, Replay(cfg, s.log, n))
            else Replay(cfg, s.log, n)
  {
    RunLog(cfg, s, id, outcome);
    if RunEntry(s, id).Some? {
      ReplayAppend(cfg, s.log, RunEntry(s, id).value, n);
    } else {
      assert s.log + [] == s.log;
    }
  }

  /** Only its own goroutine moves a node, and only the deleted flag ends the flight. */
  lemma RunKeepsNode(cfg: Config, s: State, id: nat, outcome: Outcome, n: Name, h: History)
    requires id < |s.goroutines| && NodeOk(cfg, s, n, h)
    requires n == s.goroutines[id].node.name && Holding(s.goroutines[id].pc) ==> h.flight == Some(id)
    ensures NodeOk(cfg, RunStep(cfg, s, id, outcome), n,
                   if n == s.goroutines[id].node.name then AfterRun(cfg, s, id, h) else h)
  {
    var pc := s.goroutines[id].pc;
    if n != s.goroutines[id].node.name {
      RunAgrees(cfg, s, id, outcome, n);
      AgreeKeeps(cfg, s, RunStep(cfg, s, id, outcome), n, h);
    } else if pc.Snapshot? {
      SnapshotKeeps(cfg, s, id, h);
    } else if pc.Increment? || pc.Call? {
      CallKeeps(cfg, s, id, outcome, h);
    } else if Holding(pc) && !pc.ClearFlag? {
      RecordKeeps(cfg, s, id, outcome, h);
    } else {
      DeferredKeeps(cfg, s, id, outcome, h);
    }
  }

  /** Only the deleted flag ends a flight. */
  lemma FlightAfterRun(cfg: Config, s: State, id: nat, h: History)
    requires id < |s.goroutines|
    ensures AfterRun(cfg, s, id, h).flight == if s.goroutines[id].pc.ClearFlag? then None else h.flight
  {
  }

  lemma RunKeepsNodes(cfg: Config, s: State, id: nat, outcome: Outcome)
    requires Inv(cfg, s) && id < |s.goroutines|
    ensures NodesOk(cfg, RunStep(cfg, s, id, outcome))
  {
    var t := RunStep(cfg, s, id, outcome);
    forall n: Name ensures NodeOk(cfg, t, n, Replay(cfg, t.log, n)) {
      assert NodeOk(cfg, s, n, Replay(cfg, s.log, n));
      RunReplay(cfg, s, id, outcome, n);
      RunKeepsNode(cfg, s, id, outcome, n, Replay(cfg, s.log, n));
    }
  }

  lemma RunKeeps(cfg: Config, s: State, id: nat, outcome: Outcome)
    requires Inv(cfg, s) && id < |s.goroutines|
    ensures Inv(cfg, RunStep(cfg, s, id, outcome))
  {
    var t := RunStep(cfg, s, id, outcome);
    RunKeepsNodes(cfg, s, id, outcome);
    RunLog(cfg, s, id, outcome);
    forall n: Name
      ensures Replay(cfg, t.log, n).flight
           == if n == s.goroutines[id].node.name && s.goroutines[id].pc.ClearFlag? then None
              else Replay(cfg, s.log, n).flight
    {
      RunReplay(cfg, s, id, outcome, n);
      FlightAfterRun(cfg, s, id, Replay(cfg, s.log, n));
    }
    FlagsKeep(cfg, s, t, id);
  }

  lemma FlagsKeep(cfg: Config, s: State, t: State, id: nat)
    requires FlagsOk(cfg, s) && id < |s.goroutines| == |t.goroutines|
    requires t.goroutines[id].node == s.goroutines[id].node
    requires forall i :: 0 <= i < |s.goroutines| && i != id ==> t.goroutines[i] == s.goroutines[i]
    requires Holding(t.goroutines[id].pc) ==> Holding(s.goroutines[id].pc) && !s.goroutines[id].pc.ClearFlag?
    requires forall n :: Replay(cfg, t.log, n).flight
               == (if n == s.goroutines[id].node.name && s.goroutines[id].pc.ClearFlag? then None
                   else Replay(cfg, s.log, n).flight)
    ensures FlagsOk(cfg, t)
  {
    forall i | 0 <= i < |t.goroutines| && Holding(t.goroutines[i].pc)
      ensures Replay(cfg, t.log, t.goroutines[i].node.name).flight == Some(i)
    {
      assert Replay(cfg, s.log, s.goroutines[i].node.name).flight == Some(i);
    }
  }

  lemma MissingKeeps(cfg: Config, s: State, node: NodeConfig, now: int, at: int)
    requires Inv(cfg, s) && node in cfg.nodes
    ensures Inv(cfg, MissingStep(cfg, s, node, now, at))
  {
    var t := MissingStep(cfg, s, node, now, at);
    var launched := t.goroutines != s.goroutines;
    forall n: Name
      ensures NodeOk(cfg, t, n, Replay(cfg, t.log, n))
      ensures Replay(cfg, t.log, n).flight
           == if launched && n == node.name then Some(|s.goroutines|) else Replay(cfg, s.log, n).flight
    {
      MissingKeepsNode(cfg, s, node, now, at, n);
    }
    forall i | 0 <= i < |t.goroutines| && Holding(t.goroutines[i].pc)
      ensures Replay(cfg, t.log, t.goroutines[i].node.name).flight == Some(i)
    {
      if i < |s.goroutines| {
        assert Replay(cfg, s.log, s.goroutines[i].node.name).flight == Some(i);
        assert NodeOk(cfg, s, node.name, Replay(cfg, s.log, node.name));
      }
    }
  }

  lemma MissingLog(cfg: Config, s: State, node: NodeConfig, now: int, at: int)
    ensures var t := MissingStep(cfg, s, node, now, at);
            var seen := SawAbsent(node.name, now, at);
            if t.goroutines == s.goroutines then t.log == s.log + [seen]
            else
              && node.name !in s.track.restarting
              && t.goroutines == s.goroutines + [Goroutine(node, Snapshot)]
              && t.log == s.log + [seen, Launched(node.name, now, |s.goroutines|)]
  {
  }

  lemma MissingKeepsNode(cfg: Config, s: State, node: NodeConfig, now: int, at: int, n: Name)
    requires Inv(cfg, s)
    ensures var t := MissingStep(cfg, s, node, now, at);
            && NodeOk(cfg, t, n, Replay(cfg, t.log, n))
            && Replay(cfg, t.log, n).flight
               == (if t.goroutines != s.goroutines && n == node.name then Some(|s.goroutines|)
                   else Replay(cfg, s.log, n).flight)
  {
    var t, h := MissingStep(cfg, s, node, now, at), Replay(cfg, s.log, n);
    var seen, launch := SawAbsent(node.name, now, at), Launched(node.name, now, |s.goroutines|);
    assert NodeOk(cfg, s, n, h);
    MissingLog(cfg, s, node, now, at);
    ReplayAppend(cfg, s.log, seen, n);
    ReplayAppendTwo(cfg, s.log, seen, launch, n);
    if n != node.name {
      MissingAgrees(cfg, s, node, now, at, n);
      AgreeKeeps(cfg, s, t, n, h);
    } else if t.goroutines == s.goroutines {
      AbsentKeepsNode(cfg, s, node, now, at, h);
    } else {
      LaunchKeepsNode(cfg, s, node, now, at, h);
    }
  }

  lemma AliveKeeps(cfg: Config, s: State, node: NodeConfig, now: int, at: int)
    requires Inv(cfg, s)
    ensures Inv(cfg, AliveStep(s, node, now, at))
  {
    var t := AliveStep(s, node, now, at);
    assert t.log == s.log + [SawPresent(node.name, now, at)];
    forall n: Name
      ensures Replay(cfg, t.log, n).flight == Replay(cfg, s.log, n).flight
      ensures NodeOk(cfg, t, n, Replay(cfg, t.log, n))
    {
      assert NodeOk(cfg, s, n, Replay(cfg, s.log, n));
      ReplayAppend(cfg, s.log, SawPresent(node.name, now, at), n);
      AliveKeepsNode(cfg, s, node, now, at, n, Replay(cfg, s.log, n));
    }
  }

  lemma StepKeeps(cfg: Config, s: State, e: Event)
    requires Inv(cfg, s)
    ensures Inv(cfg, Step(cfg, s, e))
  {
    var t := Step(cfg, s, e);
    if e.Run? && e.id < |s.goroutines| {
      RunKeeps(cfg, s, e.id, e.outcome);
    } else if e.Read? && s.loop.Checking? && s.loop.next < |cfg.nodes| && s.clock <= e.at {
      ReadKeeps(cfg, s, e.at, e.reading);
    } else {
      SameTrackingKeeps(cfg, s, t);
    }
  }

  lemma ReadKeeps(cfg: Config, s: State, at: int, reading: Reading)
    requires Inv(cfg, s) && s.loop.Checking? && s.loop.next < |cfg.nodes|
    ensures Inv(cfg, ReadStep(cfg, s, at, reading))
  {
    if reading.ReadError? {
      SameTrackingKeeps(cfg, s, ReadStep(cfg, s, at, reading));
    } else {
      var node, now := cfg.nodes[s.loop.next], s.loop.now;
      var t := s.(clock := at, loop := s.loop.(next := s.loop.next + 1));
      SameTrackingKeeps(cfg, s, t);
      AliveKeeps(cfg, t, node, now, at);
      MissingKeeps(cfg, t, node, now, at);
      assert ReadStep(cfg, s, at, reading)
          == if reading.Present? then AliveStep(t, node, now, at) else MissingStep(cfg, t, node, now, at);
    }
  }

  /** The invariant holds in every state of every run. */
  lemma {:induction false} RunsAreSafe(cfg: Config, events: seq<Event>)
    ensures Inv(cfg, Exec(cfg, events))
  {
    if events == [] {
      assert Init().log == [] && Init().goroutines == [];
    } else {
      RunsAreSafe(cfg, events[..|events| - 1]);
      StepKeeps(cfg, Exec(cfg, events[..|events| - 1]), events[|events| - 1]);
    }
  }

  // ---- what an event writes to the history ----

  predicate Reads(cfg: Config, s: State, e: Event) {
    e.Read? && s.loop.Checking? && s.loop.next < |cfg.nodes| && s.clock <= e.at
  }

  /** An absent reading launches exactly when the history of the node says a restart is due. */
  predicate Due(cfg: Config, h: History, now: int) {
    && h.flight.None?
    && !AtCeiling(cfg, h.attempts)
    && h.since.Some?
    && now - h.since.value >= cfg.timeout
  }

  ghost function Written(cfg: Config, s: State, e: Event): seq<Entry> {
    if Reads(cfg, s, e) then
      var name, now := cfg.nodes[s.loop.next].name, s.loop.now;
      match e.reading
      case Present => [SawPresent(name, now, e.at)]
      case Absent =>
        if Due(cfg, Replay(cfg, s.log, name), now)
        then [SawAbsent(name, now, e.at), Launched(name, now, |s.goroutines|)]
        else [SawAbsent(name, now, e.at)]
      case ReadError(_) => []
    else if e.Run? && e.id < |s.goroutines| && RunEntry(s, e.id).Some? then [RunEntry(s, e.id).value]
    else []
  }

  /** The launch rule read off the history: an event logs what the past readings demand. */
  lemma {:induction false} StepWrites(cfg: Config, s: State, e: Event)
    requires Inv(cfg, s)
    ensures Step(cfg, s, e).log == s.log + Written(cfg, s, e)
  {
    if Reads(cfg, s, e) {
      var node, now := cfg.nodes[s.loop.next], s.loop.now;
      var t := s.(clock := e.at, loop := s.loop.(next := s.loop.next + 1));
      assert NodeOk(cfg, s, node.name, Replay(cfg, s.log, node.name));
      MissingLog(cfg, t, node, now, e.at);
    } else if e.Run? && e.id < |s.goroutines| {
      RunLog(cfg, s, e.id, e.outcome);
    }
  }
}
