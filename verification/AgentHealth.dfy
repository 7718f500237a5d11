/** Connection health, the WaitGroup and the loop's program counter, in every reachable state. */
module AgentHealth {
  import opened AgentSpec
  import opened AgentSafety

  ghost predicate OciOk(s: State) {
    && (s.links.ociState.Connected? <==> s.links.oci)
    && (s.links.ociState.Connected? && s.links.ociFailures >= MAX_CONSECUTIVE_FAILURES ==>
          exists i :: 0 <= i < |s.goroutines| && s.goroutines[i].pc.Disconnect?)
  }

  ghost predicate ConsulOk(s: State) {
    && (s.links.consulState.Connected? <==> s.links.consul)
    && (s.loop.Checking? || s.loop.DropConsul? ==> s.links.consulState.Connected?)
    && (s.links.consulState.Connected? && !s.loop.DropConsul? ==>
          s.links.consulFailures < MAX_CONSECUTIVE_FAILURES)
  }

  ghost predicate WaitOk(s: State) {
    && s.restartWg == Unfinished(s.goroutines)
    && (s.loop.Stopped? ==> s.restartWg == 0)
  }

  ghost predicate HealthOk(s: State) {
    OciOk(s) && ConsulOk(s) && WaitOk(s)
  }

  lemma {:induction false} UnfinishedUpdate(gs: seq<Goroutine>, id: nat, g: Goroutine)
    requires id < |gs|
    ensures Unfinished(gs[id := g]) == Unfinished(gs) - Working(gs[id]) + Working(g)
  {
    var last := |gs| - 1;
    if id < last {
      assert gs[id := g][..last] == gs[..last][id := g];
      UnfinishedUpdate(gs[..last], id, g);
    } else {
      assert gs[id := g][..last] == gs[..last];
    }
  }

  lemma RunMoves(cfg: Config, s: State, id: nat, outcome: Outcome)
    requires id < |s.goroutines|
    ensures var t := RunStep(cfg, s, id, outcome);
            && id < |t.goroutines|
            && t.goroutines == s.goroutines[id := t.goroutines[id]]
            && t.restartWg == s.restartWg - Working(s.goroutines[id]) + Working(t.goroutines[id])
            && t.loop == s.loop
  {
  }

  lemma RunKeepsLinks(cfg: Config, s: State, id: nat, outcome: Outcome)
    requires id < |s.goroutines| && OciOk(s) && ConsulOk(s)
    ensures OciOk(RunStep(cfg, s, id, outcome)) && ConsulOk(RunStep(cfg, s, id, outcome))
  {
    var t, pc := RunStep(cfg, s, id, outcome), s.goroutines[id].pc;
    RunMoves(cfg, s, id, outcome);
    if t.links.ociState.Connected? && t.links.ociFailures >= MAX_CONSECUTIVE_FAILURES {
      if pc.Failed? {
        assert t.goroutines[id].pc.Disconnect?;
      } else {
        var i :| 0 <= i < |s.goroutines| && s.goroutines[i].pc.Disconnect?;
        assert t.goroutines[i].pc.Disconnect?;
      }
    }
  }

  /** The loop never moves a goroutine; it launches at most one. */
  lemma LoopMoves(cfg: Config, s: State, e: Event)
    requires !e.Run?
    ensures var t := Step(cfg, s, e);
            if t.goroutines == s.goroutines then t.restartWg == s.restartWg
            else
              && Reads(cfg, s, e)
              && t.goroutines == s.goroutines + [Goroutine(cfg.nodes[s.loop.next], Snapshot)]
              && t.restartWg == s.restartWg + 1
  {
  }

  lemma LoopKeepsLinks(cfg: Config, s: State, e: Event)
    requires !e.Run? && OciOk(s) && ConsulOk(s)
    ensures OciOk(Step(cfg, s, e)) && ConsulOk(Step(cfg, s, e))
  {
    var t := Step(cfg, s, e);
    LoopMoves(cfg, s, e);
    if t.links.ociState.Connected? && t.links.ociFailures >= MAX_CONSECUTIVE_FAILURES {
      var i :| 0 <= i < |s.goroutines| && s.goroutines[i].pc.Disconnect?;
      assert t.goroutines[i].pc.Disconnect?;
    }
  }

  lemma StepKeepsHealth(cfg: Config, s: State, e: Event)
    requires HealthOk(s)
    ensures HealthOk(Step(cfg, s, e))
  {
    var t := Step(cfg, s, e);
    if e.Run? {
      if e.id < |s.goroutines| {
        RunMoves(cfg, s, e.id, e.outcome);
        RunKeepsLinks(cfg, s, e.id, e.outcome);
        UnfinishedUpdate(s.goroutines, e.id, t.goroutines[e.id]);
      }
    } else {
      LoopMoves(cfg, s, e);
      LoopKeepsLinks(cfg, s, e);
      if t.goroutines != s.goroutines {
        assert t.goroutines[..|s.goroutines|] == s.goroutines;
      }
    }
  }

  lemma {:induction false} RunsAreHealthy(cfg: Config, events: seq<Event>)
    ensures HealthOk(Exec(cfg, events))
  {
    if events != [] {
      RunsAreHealthy(cfg, events[..|events| - 1]);
      StepKeepsHealth(cfg, Exec(cfg, events[..|events| - 1]), events[|events| - 1]);
    }
  }
}
