/** The Agent object of internal/agent/agent.go, updated in place, against its state machine. */
module AgentObject {
  import opened Common
  import opened ConnectionErrors
  import opened AgentSpec

  /** Whatever others do, a goroutine keeps its node and its program counter. */
  lemma OthersKeepGoroutine(cfg: Config, s: State, e: Event, id: nat)
    requires id < |s.goroutines| && !(e.Run? && e.id == id)
    ensures id < |Step(cfg, s, e).goroutines| && Step(cfg, s, e).goroutines[id] == s.goroutines[id]
  {
  }

  /** Goroutine steps leave the loop, the clock and Consul alone. */
  lemma GoroutinesKeepLoop(cfg: Config, s: State, e: Event)
    requires e.Run?
    ensures Step(cfg, s, e).loop == s.loop && Step(cfg, s, e).clock == s.clock
    ensures SameConsul(Step(cfg, s, e).links, s.links)
  {
  }

  predicate SameConsul(x: Links, y: Links) {
    x.consul == y.consul && x.consulState == y.consulState && x.consulFailures == y.consulFailures
  }

  predicate OnlyGoroutines(events: seq<Event>) {
    forall e :: e in events ==> e.Run?
  }

  predicate NotOf(events: seq<Event>, id: nat) {
    forall e :: e in events ==> !(e.Run? && e.id == id)
  }

  datatype Answer = Answer(at: int, reading: Reading)

  predicate Lost(a: Answer) {
    a.reading.ReadError? && IsConnectionText(a.reading.err)
  }

  /** Among the first n answers is an error. */
  ghost predicate SomeError(answers: seq<Answer>, n: nat)
    requires n <= |answers|
  {
    exists k :: 0 <= k < n && answers[k].reading.ReadError?
  }

  /** Among them is a connection error. */
  ghost predicate SomeLost(answers: seq<Answer>, n: nat)
    requires n <= |answers|
  {
    exists k :: 0 <= k < n && Lost(answers[k])
  }

  lemma OneMoreAnswer(answers: seq<Answer>, n: nat)
    requires n < |answers|
    ensures SomeError(answers, n + 1) <==> SomeError(answers, n) || answers[n].reading.ReadError?
    ensures SomeLost(answers, n + 1) <==> SomeLost(answers, n) || Lost(answers[n])
    ensures Lost(answers[n]) ==> SomeLost(answers, |answers|)
  {
    if SomeError(answers, n) {
      var k :| 0 <= k < n && answers[k].reading.ReadError?;
      assert SomeError(answers, n + 1);
    }
    if SomeLost(answers, n) {
      var k :| 0 <= k < n && Lost(answers[k]);
      assert SomeLost(answers, n + 1);
    }
  }

  /** The instants of the answers from i on, none before t. */
  predicate Ordered(answers: seq<Answer>, i: nat, t: int)
    requires i <= |answers|
    decreases |answers| - i
  {
    i < |answers| ==> t <= answers[i].at && Ordered(answers, i + 1, answers[i].at)
  }

  /** A pass from node i on: before each read, and before the pass ends, goroutines may run. */
  function PassTrace(answers: seq<Answer>, others: seq<seq<Event>>, i: nat): seq<Event>
    requires i <= |answers| && |others| == |answers| + 1
    decreases |answers| - i
  {
    if i == |answers| then others[i] + [EndPass, Drop]
    else if Lost(answers[i]) then others[i] + [Read(answers[i].at, answers[i].reading)]
    else others[i] + [Read(answers[i].at, answers[i].reading)] + PassTrace(answers, others, i + 1)
  }

  lemma PassTraceStep(before: seq<Event>, answers: seq<Answer>, others: seq<seq<Event>>, i: nat)
    requires i < |answers| && |others| == |answers| + 1
    ensures var step := others[i] + [Read(answers[i].at, answers[i].reading)];
            before + PassTrace(answers, others, i)
            == before + step + if Lost(answers[i]) then [] else PassTrace(answers, others, i + 1)
  {
  }

  /** The first k critical sections of goroutine id, with the events that slip in before each. */
  function RestartTrace(id: nat, outcome: Outcome, others: seq<seq<Event>>, k: nat): seq<Event>
    requires k <= |others|
  {
    if k == 0 then [] else RestartTrace(id, outcome, others, k - 1) + others[k - 1] + [Run(id, outcome)]
  }

  /** The order of the critical sections of restartNode. */
  predicate Follows(before: Pc, after: Pc) {
    match before
    case Snapshot => after.Increment? || after.ClearFlag?
    case Increment => after.Call?
    case Call => after.Awaiting?
    case Awaiting => after.Failed? || after.Succeeded?
    case Failed(_) => after.Disconnect? || after.ClearFlag?
    case Disconnect => after.ClearFlag?
    case Succeeded => after.ClearFlag?
    case ClearFlag => after.WgDone?
    case WgDone => after.Finished?
    case Finished => after.Finished?
  }

  lemma RunFollows(cfg: Config, s: State, id: nat, outcome: Outcome)
    requires id < |s.goroutines|
    ensures var t := Step(cfg, s, Run(id, outcome));
            && id < |t.goroutines| && t.goroutines[id].node == s.goroutines[id].node
            && Follows(s.goroutines[id].pc, t.goroutines[id].pc)
  {
  }

  lemma ReadMoves(cfg: Config, s: State, a: Answer)
    requires s.loop.Checking? && s.loop.next < |cfg.nodes| && s.clock <= a.at
    ensures var t := Step(cfg, s, Read(a.at, a.reading));
            && t.clock == a.at
            && t.links.consulFailures == s.links.consulFailures
            && if Lost(a) then t.loop.Select? && !t.links.consul && t.links.consulState.Disconnected?
               else t.loop == Checking(s.loop.next + 1, s.loop.now, s.loop.hadError || a.reading.ReadError?)
                    && SameConsul(t.links, s.links)
  {
  }

  lemma TrackMoves(cfg: Config, s: State)
    requires s.loop.Checking? && s.loop.next == |cfg.nodes|
    ensures var t := Step(cfg, Step(cfg, s, EndPass), Drop); var failures := s.links.consulFailures + 1;
      && t.loop.Select?
      && t.links.consulFailures == (if s.loop.hadError then failures else 0)
      && t.links.consulState == (if s.loop.hadError && failures >= 3 then Disconnected else s.links.consulState)
  {
  }

  class Agent {
    const cfg: Config

    var consul: bool
    var consulState: Link
    var consulFailures: nat
    var oci: bool
    var ociState: Link
    var ociFailures: nat

    var missingSince: map<Name, int>
    var restarting: map<Name, bool>
    var restartAttempts: map<Name, nat>
    var restartWg: int

    // The three Prometheus counters, by node.
    var attemptsTotal: map<Name, nat>
    var successesTotal: map<Name, nat>
    var failuresTotal: map<Name, nat>

    // What the Go runtime keeps: where the loop and the goroutines are, and the time.
    var loop: LoopPc
    var goroutines: seq<Goroutine>
    var clock: int

    ghost var log: seq<Entry>
    ghost var trace: seq<Event>

    ghost function View(): State
      reads this
    {
      State(Links(consul, consulState, consulFailures, oci, ociState, ociFailures),
            Tracking(missingSince, restarting.Keys, restartAttempts),
            Totals(attemptsTotal, successesTotal, failuresTotal),
            restartWg, loop, goroutines, clock, log)
    }

    /** The fields are what the state machine reaches over the events so far. */
    ghost predicate Valid()
      reads this
    {
      View() == Exec(cfg, trace)
    }

    constructor (cfg: Config)
      ensures Valid() && this.cfg == cfg && trace == []
    {
      this.cfg := cfg;
      consul, consulState, consulFailures := false, Disconnected, 0;
      oci, ociState, ociFailures := false, Disconnected, 0;
      missingSince, restarting, restartAttempts, restartWg := map[], map[], map[], 0;
      attemptsTotal, successesTotal, failuresTotal := map[], map[], map[];
      loop, goroutines, clock := InitConsul, [], 0;
      log, trace := [], [];
    }

    // ---- connection management ----

    method TryConnectConsul(ok: bool)
      modifies this
      ensures View() == ConnectConsulStep(old(View()), ok) && trace == old(trace)
    {
      if !ok {
        return;
      }
      consul := true;
      consulState := Connected;
      consulFailures := 0;
    }

    method TryConnectOCI(ok: bool)
      modifies this
      ensures View() == ConnectOciStep(old(View()), ok) && trace == old(trace)
    {
      if !ok {
        return;
      }
      oci := true;
      ociState := Connected;
      ociFailures := 0;
    }

    method MarkConsulDisconnected()
      modifies this
      ensures View() == DropConsulStep(old(View())) && trace == old(trace)
    {
      consul := false;
      consulState := Disconnected;
    }

    method MarkOCIDisconnected()
      modifies this
      ensures View() == DropOciStep(old(View())) && trace == old(trace)
    {
      oci := false;
      ociState := Disconnected;
    }

    // ---- node monitoring ----

    /** Marks the node, clears its timer and starts the goroutine. */
    method Launch(node: NodeConfig, now: int)
      modifies this
      ensures View() == LaunchStep(old(View()), node, now) && trace == old(trace)
    {
      MarkRestarting(node.name);
      log := log + [Launched(node.name, now, |goroutines|)];
      restartWg := restartWg + 1;
      goroutines := goroutines + [Goroutine(node, Snapshot)];
    }

    method MarkRestarting(n: Name)
      modifies this`restarting, this`missingSince
      ensures restarting.Keys == old(restarting.Keys) + {n}
      ensures missingSince == old(missingSince) - {n}
    {
      restarting := restarting[n := true];
      missingSince := missingSince - {n};
    }

    method HandleMissingNode(node: NodeConfig, now: int, at: int)
      modifies this
      ensures View() == MissingStep(cfg, old(View()), node, now, at) && trace == old(trace)
    {
      log := log + [SawAbsent(node.name, now, at)];
      if node.name in restarting {
        return;
      }
      if cfg.maxRestartAttempts > 0 && Count(restartAttempts, node.name) >= cfg.maxRestartAttempts {
        return;
      }
      if node.name !in missingSince {
        missingSince := missingSince[node.name := now];
        return;
      }
      var missingDuration := now - missingSince[node.name];
      if missingDuration < cfg.timeout {
        return;
      }
      Launch(node, now);
    }

    method HandleAliveNode(node: NodeConfig, now: int, at: int)
      modifies this
      ensures View() == AliveStep(old(View()), node, now, at) && trace == old(trace)
    {
      if node.name in missingSince {
        missingSince := missingSince - {node.name};
      } else {
        assert missingSince - {node.name} == missingSince;
      }
      if Count(restartAttempts, node.name) > 0 {
        restartAttempts := restartAttempts - {node.name};
      }
      log := log + [SawPresent(node.name, now, at)];
    }

    /** Up to the unlock; crossed says that markConsulDisconnected is to follow. */
    method TrackConsulFailures(hadError: bool) returns (crossed: bool)
      modifies this
      ensures View() == TrackStep(old(View()), hadError) && trace == old(trace)
      ensures crossed == loop.DropConsul?
    {
      loop := Select;
      if !hadError {
        consulFailures := 0;
        return false;
      }
      consulFailures := consulFailures + 1;
      if consulFailures < MAX_CONSECUTIVE_FAILURES {
        return false;
      }
      loop := DropConsul;
      return true;
    }

    // ---- the critical sections of restartNode ----

    method MoveTo(id: nat, pc: Pc)
      requires id < |goroutines|
      modifies this`goroutines
      ensures goroutines == old(goroutines)[id := old(goroutines)[id].(pc := pc)]
    {
      goroutines := goroutines[id := goroutines[id].(pc := pc)];
    }

    method SnapshotOci(id: nat)
      requires id < |goroutines|
      modifies this
      ensures View() == SnapshotStep(cfg, old(View()), id) && trace == old(trace)
    {
      var n := goroutines[id].node.name;
      if ociState == Disconnected || !oci {
        failuresTotal := Bump(failuresTotal, n);
        log := log + [Skipped(n)];
        MoveTo(id, ClearFlag);
        return;
      }
      BeginAttempt(id);
    }

    method BeginAttempt(id: nat)
      requires id < |goroutines|
      modifies this
      ensures View() == AttemptStep(cfg, old(View()), id) && trace == old(trace)
    {
      var n := goroutines[id].node.name;
      attemptsTotal := Bump(attemptsTotal, n);
      if cfg.dryRun {
        successesTotal := Bump(successesTotal, n);
        MoveTo(id, ClearFlag);
        return;
      }
      MoveTo(id, Increment);
    }

    method IncrementAttempts(id: nat)
      requires id < |goroutines|
      modifies this
      ensures View() == IncrementStep(old(View()), id) && trace == old(trace)
    {
      var n := goroutines[id].node.name;
      restartAttempts := Bump(restartAttempts, n);
      log := log + [Incremented(n)];
      MoveTo(id, Call);
    }

    method CallRestart(id: nat)
      requires id < |goroutines|
      modifies this
      ensures View() == CallStep(old(View()), id) && trace == old(trace)
    {
      log := log + [Called(goroutines[id].node.name, goroutines[id].node)];
      MoveTo(id, Awaiting);
    }

    method RestartReturned(id: nat, outcome: Outcome)
      requires id < |goroutines|
      modifies this
      ensures View() == ReturnStep(old(View()), id, outcome) && trace == old(trace)
    {
      match outcome
      case Restarted =>
        MoveTo(id, Succeeded);
      case RestartError(err) =>
        failuresTotal := Bump(failuresTotal, goroutines[id].node.name);
        var connectionError := IsConnectionError(Some(err));
        MoveTo(id, Failed(connectionError));
    }

    method RecordOciFailure(id: nat, connectionError: bool) returns (shouldDisconnect: bool)
      requires id < |goroutines|
      modifies this
      ensures View() == FailedStep(old(View()), id, connectionError) && trace == old(trace)
      ensures goroutines[id].pc == if shouldDisconnect then Disconnect else ClearFlag
    {
      ociFailures := ociFailures + 1;
      shouldDisconnect := ociFailures >= MAX_CONSECUTIVE_FAILURES || connectionError;
      MoveTo(id, if shouldDisconnect then Disconnect else ClearFlag);
    }

    method ResetOciFailures(id: nat)
      requires id < |goroutines|
      modifies this
      ensures View() == SucceededStep(old(View()), id) && trace == old(trace)
    {
      ociFailures := 0;
      successesTotal := Bump(successesTotal, goroutines[id].node.name);
      MoveTo(id, ClearFlag);
    }

    method ClearRestarting(id: nat)
      requires id < |goroutines|
      modifies this
      ensures View() == ClearFlagStep(old(View()), id) && trace == old(trace)
    {
      var n := goroutines[id].node.name;
      restarting := restarting - {n};
      assert restarting.Keys == old(restarting.Keys) - {n};
      log := log + [Cleared(n)];
      MoveTo(id, WgDone);
    }

    /** The critical section that goroutine id is about to execute. */
    method RunSection(id: nat, outcome: Outcome)
      requires id < |goroutines|
      modifies this
      ensures View() == RunStep(cfg, old(View()), id, outcome) && trace == old(trace)
    {
      match goroutines[id].pc
      case Snapshot => SnapshotOci(id);
      case Increment => IncrementAttempts(id);
      case Call => CallRestart(id);
      case Awaiting => RestartReturned(id, outcome);
      case Failed(c) => var _ := RecordOciFailure(id, c);
      case Disconnect => MarkOCIDisconnected(); MoveTo(id, ClearFlag);
      case Succeeded => ResetOciFailures(id);
      case ClearFlag => ClearRestarting(id);
      case WgDone => restartWg := restartWg - 1; MoveTo(id, Finished);
      case Finished =>
    }

    // ---- events ----

    /** One read of a pass, up to the next one. */
    method HandleReading(at: int, reading: Reading)
      requires loop.Checking? && loop.next < |cfg.nodes|
      modifies this
      ensures View() == ReadStep(cfg, old(View()), at, reading) && trace == old(trace)
    {
      var node, now := cfg.nodes[loop.next], loop.now;
      clock, loop := at, loop.(next := loop.next + 1);
      match reading
      case Present => HandleAliveNode(node, now, at);
      case Absent => HandleMissingNode(node, now, at);
      case ReadError(err) =>
        var connectionError := IsConnectionError(Some(err));
        if connectionError {
          MarkConsulDisconnected();
          loop := Select;
        } else {
          loop := loop.(hadError := true);
        }
    }

    method StartTick()
      modifies this
      ensures View() == TickStep(old(View())) && trace == old(trace)
    {
      if consulState == Disconnected {
        loop := TickConsul(ociState == Disconnected);
      } else if ociState == Disconnected {
        loop := TickOci;
      } else {
        loop := Recheck;
      }
    }

    /** The loop's next critical section. */
    method LoopSection(e: Event)
      requires !e.Run?
      modifies this
      ensures View() == Step(cfg, old(View()), e) && trace == old(trace)
    {
      match e
      case ConnectConsul(ok) =>
        if loop.InitConsul? || loop.TickConsul? {
          TryConnectConsul(ok);
          loop := if loop.InitConsul? then InitOci else if loop.ociDown then TickOci else Recheck;
        }
      case ConnectOci(ok) =>
        if loop.InitOci? || loop.TickOci? {
          TryConnectOCI(ok);
          loop := if loop.InitOci? then Select else Recheck;
        }
      case Tick => if loop.Select? { StartTick(); }
      case Cancel => if loop.Select? { loop := Draining; }
      case BeginPass(now) =>
        if loop.Recheck? {
          if consulState == Disconnected || !consul {
            loop := Select;
          } else if clock <= now {
            loop, clock := Checking(0, now, false), now;
          }
        }
      case Read(at, reading) =>
        if loop.Checking? && loop.next < |cfg.nodes| && clock <= at { HandleReading(at, reading); }
      case EndPass =>
        if loop.Checking? && loop.next >= |cfg.nodes| { var _ := TrackConsulFailures(loop.hadError); }
      case Drop => if loop.DropConsul? { MarkConsulDisconnected(); loop := Select; }
      case Drained => if loop.Draining? && restartWg == 0 { loop := Stopped; }
    }

    /** One event of the run. */
    method Perform(e: Event)
      requires Valid()
      modifies this
      ensures Valid() && trace == old(trace) + [e]
    {
      ExecAppend(cfg, trace, e);
      if e.Run? {
        if e.id < |goroutines| {
          RunSection(e.id, e.outcome);
        }
      } else {
        LoopSection(e);
      }
      trace := trace + [e];
    }

    /** Whatever the scheduler lets happen between two critical sections of goroutine id. */
    method InterfereWith(id: nat, events: seq<Event>)
      requires Valid() && id < |goroutines| && NotOf(events, id)
      modifies this
      ensures Valid() && trace == old(trace) + events
      ensures id < |goroutines| && goroutines[id] == old(goroutines)[id]
    {
      for k := 0 to |events|
        invariant Valid() && trace == old(trace) + events[..k]
        invariant id < |goroutines| && goroutines[id] == old(goroutines)[id]
      {
        OthersKeepGoroutine(cfg, View(), events[k], id);
        ExecAppend(cfg, trace, events[k]);
        Perform(events[k]);
        assert events[..k + 1] == events[..k] + [events[k]];
      }
      assert events[..|events|] == events;
    }

    /** Goroutine steps between two critical sections of the loop. */
    method Interfere(events: seq<Event>)
      requires Valid() && OnlyGoroutines(events)
      modifies this
      ensures Valid() && trace == old(trace) + events
      ensures loop == old(loop) && clock == old(clock) && SameConsul(View().links, old(View()).links)
    {
      for k := 0 to |events|
        invariant Valid() && trace == old(trace) + events[..k]
        invariant loop == old(loop) && clock == old(clock) && SameConsul(View().links, old(View()).links)
      {
        GoroutinesKeepLoop(cfg, View(), events[k]);
        ExecAppend(cfg, trace, events[k]);
        Perform(events[k]);
        assert events[..k + 1] == events[..k] + [events[k]];
      }
      assert events[..|events|] == events;
    }

    /** One node of a pass: goroutines may run, then its key is read and handled. */
    method ReadNode(answer: Answer, others: seq<Event>)
      requires Valid() && OnlyGoroutines(others)
      requires loop.Checking? && loop.next < |cfg.nodes| && clock <= answer.at
      modifies this
      ensures Valid() && trace == old(trace) + (others + [Read(answer.at, answer.reading)])
      ensures clock == answer.at && consulFailures == old(consulFailures)
      ensures if Lost(answer) then loop.Select? && !consul && consulState.Disconnected?
              else loop == Checking(old(loop.next) + 1, old(loop.now), old(loop.hadError) || answer.reading.ReadError?)
                   && SameConsul(View().links, old(View()).links)
    {
      Interfere(others);
      assert ReadStep(cfg, View(), answer.at, answer.reading)
          == Step(cfg, View(), Read(answer.at, answer.reading));
      ReadMoves(cfg, View(), answer);
      ExecAppend(cfg, trace, Read(answer.at, answer.reading));
      Perform(Read(answer.at, answer.reading));
    }

    /** The end of a pass. */
    method FinishPass(others: seq<Event>)
      requires Valid() && OnlyGoroutines(others)
      requires loop.Checking? && loop.next == |cfg.nodes|
      modifies this
      ensures Valid() && trace == old(trace) + (others + [EndPass, Drop])
      ensures loop.Select? && consulFailures == (if old(loop.hadError) then old(consulFailures) + 1 else 0)
      ensures consulState == if old(loop.hadError) && consulFailures >= 3 then Disconnected else old(consulState)
    {
      Interfere(others);
      TrackMoves(cfg, View());
      ExecAppend(cfg, trace, EndPass);
      Perform(EndPass);
      ExecAppend(cfg, trace, Drop);
      Perform(Drop);
      assert others + [EndPass] + [Drop] == others + [EndPass, Drop];
    }

    /** checkNodes from the reading of the clock on, with restartNode goroutines interleaved: the
        pass reads every node in configuration order, or stops at the first connection error, which
        drops Consul. A pass with another failed read adds one failure, and the third in a row drops
        Consul too; a pass without any resets the count. */
    method CheckNodes(answers: seq<Answer>, others: seq<seq<Event>>)
      requires Valid() && loop.Checking? && loop.next == 0 && !loop.hadError
      requires |answers| == |cfg.nodes| && |others| == |answers| + 1
      requires forall k :: 0 <= k < |others| ==> OnlyGoroutines(others[k])
      requires Ordered(answers, 0, clock)
      modifies this
      ensures Valid() && trace == old(trace) + PassTrace(answers, others, 0)
      ensures loop.Select?
      ensures consulFailures
           == if SomeLost(answers, |answers|) then old(consulFailures)
              else if SomeError(answers, |answers|) then old(consulFailures) + 1
              else 0
      ensures consulState
           == if SomeLost(answers, |answers|) then Disconnected
              else if consulFailures >= 3 then Disconnected else old(consulState)
    {
      var i := 0;
      while i < |cfg.nodes|
        invariant 0 <= i <= |answers|
        invariant Valid() && loop.Checking? && loop.next == i
        invariant trace + PassTrace(answers, others, i) == old(trace) + PassTrace(answers, others, 0)
        invariant Ordered(answers, i, clock)
        invariant !SomeLost(answers, i) && (loop.hadError <==> SomeError(answers, i))
        invariant SameConsul(View().links, old(View()).links)
      {
        ghost var before := trace;
        ReadNode(answers[i], others[i]);
        PassTraceStep(before, answers, others, i);
        OneMoreAnswer(answers, i);
        if Lost(answers[i]) {
          return;
        }
        i := i + 1;
      }
      FinishPass(others[i]);
    }

    /** Critical section number k of goroutine id, after whatever slips in before it. */
    method Section(id: nat, outcome: Outcome, others: seq<seq<Event>>, k: nat, ghost start: seq<Event>)
      requires Valid() && id < |goroutines| && k < |others| && NotOf(others[k], id)
      requires trace == start + RestartTrace(id, outcome, others, k)
      modifies this
      ensures Valid() && trace == start + RestartTrace(id, outcome, others, k + 1)
      ensures id < |goroutines| && goroutines[id].node == old(goroutines)[id].node
      ensures Follows(old(goroutines)[id].pc, goroutines[id].pc)
    {
      InterfereWith(id, others[k]);
      RunFollows(cfg, View(), id, outcome);
      ExecAppend(cfg, trace, Run(id, outcome));
      Perform(Run(id, outcome));
    }

    /** restartNode as one goroutine runs it, with any other events between its critical sections:
        it ends after at most eight of them. */
    method RestartNode(id: nat, outcome: Outcome, others: seq<seq<Event>>) returns (k: nat)
      requires Valid() && id < |goroutines| && goroutines[id].pc.Snapshot?
      requires |others| == 8 && forall i :: 0 <= i < |others| ==> NotOf(others[i], id)
      modifies this
      ensures k <= 8 && Valid() && trace == old(trace) + RestartTrace(id, outcome, others, k)
      ensures id < |goroutines| && goroutines[id] == old(goroutines)[id].(pc := Finished)
    {
      k := 0;
      Section(id, outcome, others, k, old(trace));
      k := k + 1;
      if goroutines[id].pc.Increment? {
        k := Restart(id, outcome, others, k, old(trace));
      }
      k := RunDeferred(id, outcome, others, k, old(trace));
    }

    /** The deferred deletion of the flag runs before the deferred Done. */
    method RunDeferred(id: nat, outcome: Outcome, others: seq<seq<Event>>, from: nat, ghost start: seq<Event>)
        returns (k: nat)
      requires Valid() && id < |goroutines| && goroutines[id].pc.ClearFlag? && from <= 6
      requires |others| == 8 && forall i :: 0 <= i < |others| ==> NotOf(others[i], id)
      requires trace == start + RestartTrace(id, outcome, others, from)
      modifies this
      ensures k <= from + 2 && Valid() && trace == start + RestartTrace(id, outcome, others, k)
      ensures id < |goroutines| && goroutines[id] == old(goroutines)[id].(pc := Finished)
    {
      k := from;
      Section(id, outcome, others, k, start);
      Section(id, outcome, others, k + 1, start);
      k := k + 2;
    }

    /** The part of restartNode that restarts: increment, call, and the record of the outcome. */
    method Restart(id: nat, outcome: Outcome, others: seq<seq<Event>>, from: nat, ghost start: seq<Event>)
        returns (k: nat)
      requires Valid() && id < |goroutines| && goroutines[id].pc.Increment? && from <= 3
      requires |others| == 8 && forall i :: 0 <= i < |others| ==> NotOf(others[i], id)
      requires trace == start + RestartTrace(id, outcome, others, from)
      modifies this
      ensures k <= from + 5 && Valid() && trace == start + RestartTrace(id, outcome, others, k)
      ensures id < |goroutines| && goroutines[id] == old(goroutines)[id].(pc := ClearFlag)
    {
      k := from;
      Section(id, outcome, others, k, start);
      Section(id, outcome, others, k + 1, start);
      Section(id, outcome, others, k + 2, start);
      Section(id, outcome, others, k + 3, start);
      k := k + 4;
      if goroutines[id].pc.Disconnect? {
        Section(id, outcome, others, k, start);
        k := k + 1;
      }
    }
  }
}
