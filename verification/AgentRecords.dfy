/** What the counters of the agent record: the failed reads of passes and the outcomes of restarts. */
module AgentRecords {
  import opened Common
  import opened ConnectionErrors
  import opened AgentSpec
  import opened AgentSafety
  import opened AgentHealth

  // ---- failed reads ----

  predicate BeginsPass(s: State, e: Event) {
    e.BeginPass? && s.loop.Recheck? && s.links.consul && s.links.consulState.Connected? && s.clock <= e.now
  }

  predicate EndsPass(cfg: Config, s: State, e: Event) {
    e.EndPass? && s.loop.Checking? && s.loop.next >= |cfg.nodes|
  }

  /** A read has failed since the last pass began. */
  predicate ReadFailed(cfg: Config, events: seq<Event>) {
    && events != []
    && var before, e := events[..|events| - 1], events[|events| - 1];
       var s := Exec(cfg, before);
       !BeginsPass(s, e) && ((Reads(cfg, s, e) && e.reading.ReadError?) || ReadFailed(cfg, before))
  }

  lemma FlagMoves(cfg: Config, s: State, e: Event)
    ensures var t := Step(cfg, s, e);
      t.loop.Checking? ==>
        if BeginsPass(s, e) then !t.loop.hadError
        else s.loop.Checking?
             && (t.loop.hadError <==> s.loop.hadError || (Reads(cfg, s, e) && e.reading.ReadError?))
  {
  }

  /** A pass goes on after an error that is no connection error, and remembers exactly that there was
      one among its reads. */
  lemma {:induction false} PassRemembersErrors(cfg: Config, events: seq<Event>)
    ensures Exec(cfg, events).loop.Checking? ==> (Exec(cfg, events).loop.hadError <==> ReadFailed(cfg, events))
  {
    if events != [] {
      PassRemembersErrors(cfg, events[..|events| - 1]);
      FlagMoves(cfg, Exec(cfg, events[..|events| - 1]), events[|events| - 1]);
    }
  }

  // ---- consecutive failures ----

  /** The two counters of consecutive failures. */
  datatype Meter = OciMeter | ConsulMeter

  function Failures(m: Meter, s: State): nat {
    match m
    case OciMeter => s.links.ociFailures
    case ConsulMeter => s.links.consulFailures
  }

  /** The next section of a goroutine. */
  predicate RunsAt(s: State, e: Event, pc: Pc) {
    e.Run? && e.id < |s.goroutines| && s.goroutines[e.id].pc == pc
  }

  /** The event at k records a failed restart, or ends a pass with a failed read. */
  predicate FailsAt(cfg: Config, m: Meter, events: seq<Event>, k: nat)
    requires k < |events|
  {
    var s, e := Exec(cfg, events[..k]), events[k];
    match m
    case OciMeter => RunsAt(s, e, Failed(true)) || RunsAt(s, e, Failed(false))
    case ConsulMeter => EndsPass(cfg, s, e) && ReadFailed(cfg, events[..k])
  }

  /** The event at k records a success, ends a clean pass or reconnects. */
  predicate ResetsAt(cfg: Config, m: Meter, events: seq<Event>, k: nat)
    requires k < |events|
  {
    var s, e := Exec(cfg, events[..k]), events[k];
    match m
    case OciMeter => RunsAt(s, e, Succeeded) || (e == ConnectOci(true) && (s.loop.InitOci? || s.loop.TickOci?))
    case ConsulMeter =>
      || (EndsPass(cfg, s, e) && !ReadFailed(cfg, events[..k]))
      || (e == ConnectConsul(true) && (s.loop.InitConsul? || s.loop.TickConsul?))
  }

  /** The run from `from` on has no reset, and `from` is its begin or comes right after one. */
  ghost predicate SinceReset(cfg: Config, m: Meter, events: seq<Event>, from: nat) {
    && from <= |events|
    && (from > 0 ==> ResetsAt(cfg, m, events, from - 1))
    && forall k :: from <= k < |events| ==> !ResetsAt(cfg, m, events, k)
  }

  function FailuresFrom(cfg: Config, m: Meter, events: seq<Event>, from: nat): nat {
    if |events| <= from then 0
    else FailuresFrom(cfg, m, events[..|events| - 1], from) + One(FailsAt(cfg, m, events, |events| - 1))
  }

  lemma OciMeterStep(cfg: Config, s: State, e: Event)
    ensures Step(cfg, s, e).links.ociFailures
         == if RunsAt(s, e, Succeeded) || (e == ConnectOci(true) && (s.loop.InitOci? || s.loop.TickOci?)) then 0
            else s.links.ociFailures + One(RunsAt(s, e, Failed(true)) || RunsAt(s, e, Failed(false)))
  {
  }

  lemma ConsulMeterStep(cfg: Config, s: State, e: Event)
    ensures Step(cfg, s, e).links.consulFailures
         == if (EndsPass(cfg, s, e) && !s.loop.hadError)
               || (e == ConnectConsul(true) && (s.loop.InitConsul? || s.loop.TickConsul?)) then 0
            else s.links.consulFailures + One(EndsPass(cfg, s, e) && s.loop.hadError)
  {
  }

  lemma MeterStep(cfg: Config, m: Meter, events: seq<Event>)
    requires events != []
    ensures var last := |events| - 1;
      Failures(m, Exec(cfg, events))
      == if ResetsAt(cfg, m, events, last) then 0
         else Failures(m, Exec(cfg, events[..last])) + One(FailsAt(cfg, m, events, last))
  {
    var last := |events| - 1;
    var s, e := Exec(cfg, events[..last]), events[last];
    match m
    case OciMeter => OciMeterStep(cfg, s, e);
    case ConsulMeter =>
      PassRemembersErrors(cfg, events[..last]);
      ConsulMeterStep(cfg, s, e);
  }

  lemma ResetsInPrefix(cfg: Config, m: Meter, events: seq<Event>, before: seq<Event>, k: nat)
    requires before <= events && k < |before|
    ensures ResetsAt(cfg, m, before, k) == ResetsAt(cfg, m, events, k)
  {
    assert before[..k] == events[..k];
  }

  lemma PrefixSinceReset(cfg: Config, m: Meter, events: seq<Event>, before: seq<Event>, from: nat)
    requires SinceReset(cfg, m, events, from) && from <= |before| && before <= events
    ensures SinceReset(cfg, m, before, from)
  {
    if from > 0 {
      ResetsInPrefix(cfg, m, events, before, from - 1);
    }
    forall k | from <= k < |before| ensures !ResetsAt(cfg, m, before, k) {
      ResetsInPrefix(cfg, m, events, before, k);
    }
  }

  lemma {:induction false} FailuresSinceReset(cfg: Config, m: Meter, events: seq<Event>, from: nat)
    requires SinceReset(cfg, m, events, from)
    ensures Failures(m, Exec(cfg, events)) == FailuresFrom(cfg, m, events, from)
  {
    var last := |events| - 1;
    if from < |events| {
      PrefixSinceReset(cfg, m, events, events[..last], from);
      FailuresSinceReset(cfg, m, events[..last], from);
      assert !ResetsAt(cfg, m, events, last);
    }
    if events != [] {
      MeterStep(cfg, m, events);
    }
  }

  lemma ExtendSinceReset(cfg: Config, m: Meter, events: seq<Event>, from: nat)
    requires events != [] && SinceReset(cfg, m, events[..|events| - 1], from)
    requires !ResetsAt(cfg, m, events, |events| - 1)
    ensures SinceReset(cfg, m, events, from)
  {
    var before := events[..|events| - 1];
    if from > 0 {
      ResetsInPrefix(cfg, m, events, before, from - 1);
    }
    forall k | from <= k < |events| ensures !ResetsAt(cfg, m, events, k) {
      if k < |before| {
        ResetsInPrefix(cfg, m, events, before, k);
      }
    }
  }

  lemma {:induction false} LastReset(cfg: Config, m: Meter, events: seq<Event>) returns (from: nat)
    ensures SinceReset(cfg, m, events, from)
  {
    var last := |events| - 1;
    if events == [] || ResetsAt(cfg, m, events, last) {
      from := |events|;
    } else {
      from := LastReset(cfg, m, events[..last]);
      ExtendSinceReset(cfg, m, events, from);
    }
  }

  /** Both counters hold the number of failures since the last success, clean pass or reconnection,
      or since the begin of the run; a pass is clean if all its reads were answered. */
  lemma FailuresAreConsecutive(cfg: Config, m: Meter, events: seq<Event>) returns (from: nat)
    ensures SinceReset(cfg, m, events, from)
    ensures Failures(m, Exec(cfg, events)) == FailuresFrom(cfg, m, events, from)
  {
    from := LastReset(cfg, m, events);
    FailuresSinceReset(cfg, m, events, from);
  }

  // ---- outcomes of restarts ----

  predicate OfNode(s: State, e: Event, n: Name) {
    e.Run? && e.id < |s.goroutines| && s.goroutines[e.id].node.name == n
  }

  /** RestartInstance returns for the node, with nil or with an error. */
  predicate Returns(s: State, e: Event, n: Name, ok: bool) {
    OfNode(s, e, n) && s.goroutines[e.id].pc.Awaiting? && ok == e.outcome.Restarted?
  }

  /** A goroutine for the node takes its first look at OCI, and finds a client or none. */
  predicate Looks(s: State, e: Event, n: Name, found: bool) {
    OfNode(s, e, n) && s.goroutines[e.id].pc.Snapshot? && found == (s.links.oci && s.links.ociState.Connected?)
  }

  function Returned(cfg: Config, events: seq<Event>, n: Name, ok: bool): nat {
    if events == [] then 0
    else
      var before := events[..|events| - 1];
      Returned(cfg, before, n, ok) + One(Returns(Exec(cfg, before), events[|events| - 1], n, ok))
  }

  function Looked(cfg: Config, events: seq<Event>, n: Name, found: bool): nat {
    if events == [] then 0
    else
      var before := events[..|events| - 1];
      Looked(cfg, before, n, found) + One(Looks(Exec(cfg, before), events[|events| - 1], n, found))
  }

  /** Goroutines for the node that know of their success but have yet to record it. */
  function AtSucceeded(gs: seq<Goroutine>, n: Name): nat {
    if gs == [] then 0
    else
      var last := |gs| - 1;
      AtSucceeded(gs[..last], n) + One(gs[last].node.name == n && gs[last].pc.Succeeded?)
  }

  lemma {:induction false} AtSucceededUpdate(gs: seq<Goroutine>, id: nat, g: Goroutine, n: Name)
    requires id < |gs|
    ensures AtSucceeded(gs[id := g], n)
         == AtSucceeded(gs, n) - One(gs[id].node.name == n && gs[id].pc.Succeeded?)
            + One(g.node.name == n && g.pc.Succeeded?)
  {
    var last := |gs| - 1;
    if id < last {
      assert gs[id := g][..last] == gs[..last][id := g];
      AtSucceededUpdate(gs[..last], id, g, n);
    } else {
      assert gs[id := g][..last] == gs[..last];
    }
  }

  lemma RunRecordsSuccess(cfg: Config, s: State, id: nat, outcome: Outcome, n: Name)
    requires id < |s.goroutines|
    ensures var t, g, e := RunStep(cfg, s, id, outcome), s.goroutines[id], Run(id, outcome);
      && id < |t.goroutines| && t.goroutines[id].node == g.node
      && (g.node.name == n && t.goroutines[id].pc.Succeeded? <==> Returns(s, e, n, true))
      && Count(t.totals.successes, n)
         == Count(s.totals.successes, n) + One(g.node.name == n && g.pc.Succeeded?)
            + One(cfg.dryRun && Looks(s, e, n, true))
  {
  }

  lemma RunRecordsFailure(cfg: Config, s: State, id: nat, outcome: Outcome, n: Name)
    requires id < |s.goroutines|
    ensures var t, e := RunStep(cfg, s, id, outcome), Run(id, outcome);
      Count(t.totals.failures, n)
      == Count(s.totals.failures, n) + One(Returns(s, e, n, false)) + One(Looks(s, e, n, false))
  {
  }

  lemma RunRecordsAttempt(cfg: Config, s: State, id: nat, outcome: Outcome, n: Name)
    requires id < |s.goroutines|
    ensures var t, e := RunStep(cfg, s, id, outcome), Run(id, outcome);
      Count(t.totals.attempts, n) == Count(s.totals.attempts, n) + One(Looks(s, e, n, true))
  {
  }

  lemma LoopKeepsTotals(cfg: Config, s: State, e: Event)
    requires !e.Run?
    ensures Step(cfg, s, e).totals == s.totals
  {
  }

  lemma LoopRecords(cfg: Config, s: State, e: Event, n: Name)
    requires !e.Run?
    ensures AtSucceeded(Step(cfg, s, e).goroutines, n) == AtSucceeded(s.goroutines, n)
  {
    LoopMoves(cfg, s, e);
    LaunchedIsNotDone(s.goroutines, Step(cfg, s, e).goroutines, n);
  }

  lemma LaunchedIsNotDone(gs: seq<Goroutine>, more: seq<Goroutine>, n: Name)
    requires more == gs || (|more| == |gs| + 1 && gs <= more && more[|gs|].pc.Snapshot?)
    ensures AtSucceeded(more, n) == AtSucceeded(gs, n)
  {
    if more != gs {
      assert more[..|gs|] == gs;
    }
  }

  /**
   The three counters record what happened: an attempt is a goroutine that found OCI connected; a
   failure is one that did not, or a RestartInstance call that returned an error; a success is a call
   that returned nil, or an attempt in dry-run.
   */
  lemma {:induction false} OutcomesRecorded(cfg: Config, events: seq<Event>, n: Name)
    ensures var s := Exec(cfg, events);
      && Count(s.totals.attempts, n) == Looked(cfg, events, n, true)
      && Count(s.totals.failures, n) == Returned(cfg, events, n, false) + Looked(cfg, events, n, false)
      && Count(s.totals.successes, n) + AtSucceeded(s.goroutines, n)
         == Returned(cfg, events, n, true) + (if cfg.dryRun then Looked(cfg, events, n, true) else 0)
  {
    if events != [] {
      var before, e := events[..|events| - 1], events[|events| - 1];
      var s := Exec(cfg, before);
      OutcomesRecorded(cfg, before, n);
      if !e.Run? {
        LoopKeepsTotals(cfg, s, e);
        LoopRecords(cfg, s, e, n);
      } else if e.id < |s.goroutines| {
        RunMoves(cfg, s, e.id, e.outcome);
        RunRecordsSuccess(cfg, s, e.id, e.outcome, n);
        RunRecordsFailure(cfg, s, e.id, e.outcome, n);
        RunRecordsAttempt(cfg, s, e.id, e.outcome, n);
        AtSucceededUpdate(s.goroutines, e.id, Step(cfg, s, e).goroutines[e.id], n);
      }
    }
  }
}
