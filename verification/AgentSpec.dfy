/**
 The agent of internal/agent/agent.go as a state machine over its critical sections.

 One polling loop shares a mutex-guarded memory with any number of restartNode goroutines. An
 event is one critical section of the loop or of a goroutine, together with what the
 environment answered. An event that the program counters do not allow leaves the state
 unchanged, so every finite sequence of events is a run and the runs are all interleavings.
 */
module AgentSpec {
  import opened ConnectionErrors

  const MAX_CONSECUTIVE_FAILURES: nat := 3

  datatype Name = Name(text: string)

  datatype NodeConfig = NodeConfig(name: Name, instanceID: string, compartmentID: string)

  /** A non-positive maxRestartAttempts means no ceiling; names in nodes may repeat. */
  datatype Config = Config(nodes: seq<NodeConfig>, timeout: int, maxRestartAttempts: int, dryRun: bool)

  datatype Link = Disconnected | Connected

  /** What GetKV answered for one node key. */
  datatype Reading = Present | Absent | ReadError(err: string)

  /** What RestartInstance returned. */
  datatype Outcome = Restarted | RestartError(err: string)

  /** The next critical section or call of a restartNode goroutine, in program order. */
  datatype Pc =
    | Snapshot
    | Increment
    | Call
    | Awaiting
    | Failed(connectionError: bool)
    | Disconnect
    | Succeeded
    | ClearFlag
    | WgDone
    | Finished

  datatype Goroutine = Goroutine(node: NodeConfig, pc: Pc)

  /** The next critical section of the polling loop; now is read once per pass. */
  datatype LoopPc =
    | InitConsul
    | InitOci
    | Select
    | TickConsul(ociDown: bool)
    | TickOci
    | Recheck
    | Checking(next: nat, now: int, hadError: bool)
    | DropConsul
    | Draining
    | Stopped

  /** The history: readings and launches carry the pass time, readings also the instant of the read. */
  datatype Entry =
    | SawPresent(name: Name, pass: int, at: int)
    | SawAbsent(name: Name, pass: int, at: int)
    | Launched(name: Name, pass: int, id: nat)
    | Skipped(name: Name)
    | Incremented(name: Name)
    | Called(name: Name, node: NodeConfig)
    | Cleared(name: Name)

  /** The connections: a client is kept as "is it non-nil". */
  datatype Links = Links(
    consul: bool, consulState: Link, consulFailures: nat,
    oci: bool, ociState: Link, ociFailures: nat)

  /** The three maps of the agent; restarting is the key set of the source's map. */
  datatype Tracking = Tracking(
    missingSince: map<Name, int>,
    restarting: set<Name>,
    restartAttempts: map<Name, nat>)

  /** The per-node restart counters. */
  datatype Totals = Totals(attempts: map<Name, nat>, successes: map<Name, nat>, failures: map<Name, nat>)

  datatype State = State(
    links: Links,
    track: Tracking,
    totals: Totals,
    restartWg: int,
    loop: LoopPc,
    goroutines: seq<Goroutine>,
    clock: int,
    log: seq<Entry>)

  datatype Event =
    | ConnectConsul(ok: bool)
    | ConnectOci(ok: bool)
    | Tick
    | Cancel
    | BeginPass(now: int)
    | Read(at: int, reading: Reading)
    | EndPass
    | Drop
    | Drained
    | Run(id: nat, outcome: Outcome)

  function Count(m: map<Name, nat>, name: Name): nat {
    if name in m then m[name] else 0
  }

  function Bump(m: map<Name, nat>, name: Name): map<Name, nat> {
    m[name := Count(m, name) + 1]
  }

  function Init(): State {
    State(Links(false, Disconnected, 0, false, Disconnected, 0), Tracking(map[], {}, map[]),
          Totals(map[], map[], map[]), 0, InitConsul, [], 0, [])
  }

  function Logged(s: State, e: Entry): State {
    s.(log := s.log + [e])
  }

  function Goto(s: State, loop: LoopPc): State {
    s.(loop := loop)
  }

  // ---- connection management ----

  function ConnectConsulStep(s: State, ok: bool): State {
    if ok then s.(links := s.links.(consul := true, consulState := Connected, consulFailures := 0)) else s
  }

  function ConnectOciStep(s: State, ok: bool): State {
    if ok then s.(links := s.links.(oci := true, ociState := Connected, ociFailures := 0)) else s
  }

  function DropConsulStep(s: State): State {
    s.(links := s.links.(consul := false, consulState := Disconnected))
  }

  function DropOciStep(s: State): State {
    s.(links := s.links.(oci := false, ociState := Disconnected))
  }

  // ---- node monitoring ----

  predicate AtCeiling(cfg: Config, attempts: nat) {
    cfg.maxRestartAttempts > 0 && attempts >= cfg.maxRestartAttempts
  }

  function LaunchStep(s: State, node: NodeConfig, now: int): State {
    var track := s.track.(restarting := s.track.restarting + {node.name},
                          missingSince := s.track.missingSince - {node.name});
    s.(track := track,
       restartWg := s.restartWg + 1,
       goroutines := s.goroutines + [Goroutine(node, Snapshot)],
       log := s.log + [Launched(node.name, now, |s.goroutines|)])
  }

  function StartTimer(s: State, n: Name, now: int): State {
    s.(track := s.track.(missingSince := s.track.missingSince[n := now]))
  }

  /** handleMissingNode */
  function MissingStep(cfg: Config, s: State, node: NodeConfig, now: int, at: int): State {
    var n := node.name;
    var seen := Logged(s, SawAbsent(n, now, at));
    if n in s.track.restarting || AtCeiling(cfg, Count(s.track.restartAttempts, n)) then seen
    else if n !in s.track.missingSince then StartTimer(seen, n, now)
    else if now - s.track.missingSince[n] < cfg.timeout then seen
    else LaunchStep(seen, node, now)
  }

  /** handleAliveNode */
  function AliveStep(s: State, node: NodeConfig, now: int, at: int): State {
    var n := node.name;
    var track := s.track.(missingSince := s.track.missingSince - {n},
                          restartAttempts := if Count(s.track.restartAttempts, n) > 0
                                             then s.track.restartAttempts - {n}
                                             else s.track.restartAttempts);
    Logged(s.(track := track), SawPresent(n, now, at))
  }

  function ReadStep(cfg: Config, s: State, at: int, reading: Reading): State
    requires s.loop.Checking? && s.loop.next < |cfg.nodes|
  {
    var node := cfg.nodes[s.loop.next];
    var now := s.loop.now;
    var t := s.(clock := at, loop := s.loop.(next := s.loop.next + 1));
    match reading
    case Present => AliveStep(t, node, now, at)
    case Absent => MissingStep(cfg, t, node, now, at)
    case ReadError(err) =>
      if IsConnectionText(err) then Goto(DropConsulStep(t), Select)
      else Goto(t, t.loop.(hadError := true))
  }

  /** trackConsulFailures up to, and not including, its call of markConsulDisconnected */
  function TrackStep(s: State, hadError: bool): State {
    if !hadError then Goto(s.(links := s.links.(consulFailures := 0)), Select)
    else
      var failures := s.links.consulFailures + 1;
      Goto(s.(links := s.links.(consulFailures := failures)),
           if failures < MAX_CONSECUTIVE_FAILURES then Select else DropConsul)
  }

  function TickStep(s: State): State {
    var ociDown := s.links.ociState.Disconnected?;
    Goto(s, if s.links.consulState.Disconnected? then TickConsul(ociDown)
            else if ociDown then TickOci else Recheck)
  }

  // ---- restartNode ----

  function At(s: State, id: nat, pc: Pc): State
    requires id < |s.goroutines|
  {
    s.(goroutines := s.goroutines[id := s.goroutines[id].(pc := pc)])
  }

  function CountFailure(s: State, n: Name): State {
    s.(totals := s.totals.(failures := Bump(s.totals.failures, n)))
  }

  function CountSuccess(s: State, n: Name): State {
    s.(totals := s.totals.(successes := Bump(s.totals.successes, n)))
  }

  function CountAttempt(s: State, n: Name): State {
    s.(totals := s.totals.(attempts := Bump(s.totals.attempts, n)))
  }

  function SnapshotStep(cfg: Config, s: State, id: nat): State
    requires id < |s.goroutines|
  {
    var n := s.goroutines[id].node.name;
    if s.links.ociState.Disconnected? || !s.links.oci then
      Logged(At(CountFailure(s, n), id, ClearFlag), Skipped(n))
    else AttemptStep(cfg, s, id)
  }

  function AttemptStep(cfg: Config, s: State, id: nat): State
    requires id < |s.goroutines|
  {
    var n := s.goroutines[id].node.name;
    if cfg.dryRun then At(CountSuccess(CountAttempt(s, n), n), id, ClearFlag)
    else At(CountAttempt(s, n), id, Increment)
  }

  function IncrementStep(s: State, id: nat): State
    requires id < |s.goroutines|
  {
    var n := s.goroutines[id].node.name;
    var track := s.track.(restartAttempts := Bump(s.track.restartAttempts, n));
    Logged(At(s.(track := track), id, Call), Incremented(n))
  }

  function CallStep(s: State, id: nat): State
    requires id < |s.goroutines|
  {
    var node := s.goroutines[id].node;
    Logged(At(s, id, Awaiting), Called(node.name, node))
  }

  function ReturnStep(s: State, id: nat, outcome: Outcome): State
    requires id < |s.goroutines|
  {
    match outcome
    case Restarted => At(s, id, Succeeded)
    case RestartError(err) =>
      At(CountFailure(s, s.goroutines[id].node.name), id, Failed(IsConnectionText(err)))
  }

  function FailedStep(s: State, id: nat, connectionError: bool): State
    requires id < |s.goroutines|
  {
    var failures := s.links.ociFailures + 1;
    At(s.(links := s.links.(ociFailures := failures)), id,
       if failures >= MAX_CONSECUTIVE_FAILURES || connectionError then Disconnect else ClearFlag)
  }

  function SucceededStep(s: State, id: nat): State
    requires id < |s.goroutines|
  {
    At(CountSuccess(s.(links := s.links.(ociFailures := 0)), s.goroutines[id].node.name), id, ClearFlag)
  }

  function ClearFlagStep(s: State, id: nat): State
    requires id < |s.goroutines|
  {
    var n := s.goroutines[id].node.name;
    var track := s.track.(restarting := s.track.restarting - {n});
    Logged(At(s.(track := track), id, WgDone), Cleared(n))
  }

  function WgDoneStep(s: State, id: nat): State
    requires id < |s.goroutines|
  {
    At(s.(restartWg := s.restartWg - 1), id, Finished)
  }

  function RunStep(cfg: Config, s: State, id: nat, outcome: Outcome): State
    requires id < |s.goroutines|
  {
    match s.goroutines[id].pc
    case Snapshot => SnapshotStep(cfg, s, id)
    case Increment => IncrementStep(s, id)
    case Call => CallStep(s, id)
    case Awaiting => ReturnStep(s, id, outcome)
    case Failed(c) => FailedStep(s, id, c)
    case Disconnect => At(DropOciStep(s), id, ClearFlag)
    case Succeeded => SucceededStep(s, id)
    case ClearFlag => ClearFlagStep(s, id)
    case WgDone => WgDoneStep(s, id)
    case Finished => s
  }

  // ---- the whole agent ----

  function Step(cfg: Config, s: State, e: Event): State {
    match e
    case ConnectConsul(ok) =>
      if s.loop.InitConsul? then Goto(ConnectConsulStep(s, ok), InitOci)
      else if s.loop.TickConsul? then
        Goto(ConnectConsulStep(s, ok), if s.loop.ociDown then TickOci else Recheck)
      else s
    case ConnectOci(ok) =>
      if s.loop.InitOci? then Goto(ConnectOciStep(s, ok), Select)
      else if s.loop.TickOci? then Goto(ConnectOciStep(s, ok), Recheck)
      else s
    case Tick => if s.loop.Select? then TickStep(s) else s
    case Cancel => if s.loop.Select? then Goto(s, Draining) else s
    case BeginPass(now) =>
      if !s.loop.Recheck? then s
      else if s.links.consulState.Disconnected? || !s.links.consul then Goto(s, Select)
      else if now < s.clock then s
      else s.(loop := Checking(0, now, false), clock := now)
    case Read(at, reading) =>
      if s.loop.Checking? && s.loop.next < |cfg.nodes| && s.clock <= at then ReadStep(cfg, s, at, reading)
      else s
    case EndPass =>
      if s.loop.Checking? && s.loop.next >= |cfg.nodes| then TrackStep(s, s.loop.hadError) else s
    case Drop => if s.loop.DropConsul? then Goto(DropConsulStep(s), Select) else s
    case Drained => if s.loop.Draining? && s.restartWg == 0 then Goto(s, Stopped) else s
    case Run(id, outcome) => if id < |s.goroutines| then RunStep(cfg, s, id, outcome) else s
  }

  function Exec(cfg: Config, events: seq<Event>): State {
    if events == [] then Init()
    else Step(cfg, Exec(cfg, events[..|events| - 1]), events[|events| - 1])
  }

  lemma ExecAppend(cfg: Config, events: seq<Event>, e: Event)
    ensures Exec(cfg, events + [e]) == Step(cfg, Exec(cfg, events), e)
  {
    assert (events + [e])[..|events|] == events;
  }
}
