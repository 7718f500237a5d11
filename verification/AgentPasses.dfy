/** What a whole pass and a whole restart make of the history of one node. */
module AgentPasses {
  import opened Common
  import opened AgentSpec
  import opened AgentHistory
  import opened AgentSafety

  const EMPTY: History := History(None, None, 0, 0, false, false, 0, 0)

  /** Both clients are there, so a tick goes on to a pass. */
  predicate Ready(s: State) {
    s.links.consul && s.links.consulState.Connected? && s.links.oci && s.links.ociState.Connected?
  }

  /** The history of a node after a reading of it; id is the next goroutine. */
  function AfterReading(cfg: Config, h: History, n: Name, r: Reading, now: int, at: int, id: nat): History {
    match r
    case Present => Next(cfg, h, SawPresent(n, now, at))
    case Absent =>
      var seen := Next(cfg, h, SawAbsent(n, now, at));
      if Due(cfg, h, now) then Next(cfg, seen, Launched(n, now, id)) else seen
    case ReadError(_) => h
  }

  predicate ListedFrom(cfg: Config, n: Name, i: nat) {
    exists k :: i <= k < |cfg.nodes| && cfg.nodes[k].name == n
  }

  /** A node that is listed twice is read twice, but the second reading in a pass changes nothing. */
  function AfterRest(cfg: Config, h: History, n: Name, r: Reading, now: int, at: int, i: nat, id: nat): History {
    if ListedFrom(cfg, n, i) then AfterReading(cfg, h, n, r, now, at, id) else h
  }

  /** The reading of the next node in a pass that reads r for the node n and finds the others present. */
  function NextReading(cfg: Config, n: Name, r: Reading, i: nat): Reading
    requires i < |cfg.nodes|
  {
    if cfg.nodes[i].name == n then r else Present
  }

  predicate LaunchesNow(cfg: Config, s: State, n: Name, r: Reading)
    requires s.loop.Checking? && s.loop.next < |cfg.nodes|
  {
    cfg.nodes[s.loop.next].name == n && r.Absent? && Due(cfg, Replay(cfg, s.log, n), s.loop.now)
  }

  lemma ReadMovesHistory(cfg: Config, s: State, n: Name, r: Reading, at: int)
    requires Inv(cfg, s) && s.loop.Checking? && s.loop.next < |cfg.nodes| && s.clock <= at
    requires !r.ReadError?
    ensures var i := s.loop.next;
            var t := Step(cfg, s, Read(at, NextReading(cfg, n, r, i)));
            && t.loop == Checking(i + 1, s.loop.now, s.loop.hadError) && t.clock == at && t.links == s.links
            && Replay(cfg, t.log, n)
               == (if cfg.nodes[i].name == n
                   then AfterReading(cfg, Replay(cfg, s.log, n), n, r, s.loop.now, at, |s.goroutines|)
                   else Replay(cfg, s.log, n))
            && (if LaunchesNow(cfg, s, n, r)
                then t.goroutines == s.goroutines + [Goroutine(cfg.nodes[i], Snapshot)]
                else t.goroutines == s.goroutines)
  {
    var i := s.loop.next;
    var node, now := cfg.nodes[i], s.loop.now;
    var e := Read(at, NextReading(cfg, n, r, i));
    StepWrites(cfg, s, e);
    ReplayAppend(cfg, s.log, SawPresent(node.name, now, at), n);
    ReplayAppend(cfg, s.log, SawAbsent(node.name, now, at), n);
    ReplayAppendTwo(cfg, s.log, SawAbsent(node.name, now, at), Launched(node.name, now, |s.goroutines|), n);
    assert NodeOk(cfg, s, node.name, Replay(cfg, s.log, node.name));
  }

  /** After the reading at i, which may have launched goroutine id, the rest of the pass is the same
      whatever the next goroutine is. */
  lemma RestAfterReading(cfg: Config, h: History, n: Name, r: Reading, now: int, at: int, i: nat, id: nat, next: nat)
    requires cfg.timeout > 0 && i < |cfg.nodes| && !r.ReadError?
    requires next == id || (cfg.nodes[i].name == n && r.Absent? && Due(cfg, h, now))
    ensures var g := if cfg.nodes[i].name == n then AfterReading(cfg, h, n, r, now, at, id) else h;
            AfterRest(cfg, g, n, r, now, at, i + 1, next) == AfterRest(cfg, h, n, r, now, at, i, id)
  {
  }
}
