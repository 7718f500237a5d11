/** What the log of readings, launches and goroutine steps says about one node. */
module AgentHistory {
  import opened Common
  import opened AgentSpec

  /**
   since: pass time of the first counted absent reading since the last present reading or launch.
   flight: the goroutine launched for the node and not yet cleared.
   attempts, calls: increments and RestartInstance calls since the last present reading.
   open: an increment whose call is still to come.
   straddled: the last present reading fell between an increment and its call.
   launches, skips: totals over the whole log.
   */
  datatype History = History(
    since: Option<int>,
    flight: Option<nat>,
    attempts: nat,
    calls: nat,
    open: bool,
    straddled: bool,
    launches: nat,
    skips: nat)

  function Next(cfg: Config, h: History, e: Entry): History {
    match e
    case SawPresent(_, _, _) => h.(since := None, attempts := 0, calls := 0, straddled := h.open)
    case SawAbsent(_, pass, _) =>
      if h.flight.Some? || AtCeiling(cfg, h.attempts) || h.since.Some? then h
      else h.(since := Some(pass))
    case Launched(_, _, id) => h.(since := None, flight := Some(id), launches := h.launches + 1)
    case Skipped(_) => h.(skips := h.skips + 1)
    case Incremented(_) => h.(attempts := h.attempts + 1, open := true)
    case Called(_, _) => h.(calls := h.calls + 1, open := false)
    case Cleared(_) => h.(flight := None)
  }

  function Replay(cfg: Config, log: seq<Entry>, name: Name): History {
    if log == [] then History(None, None, 0, 0, false, false, 0, 0)
    else
      var h := Replay(cfg, log[..|log| - 1], name);
      var e := log[|log| - 1];
      if e.name == name then Next(cfg, h, e) else h
  }

  lemma ReplayAppend(cfg: Config, log: seq<Entry>, e: Entry, name: Name)
    ensures Replay(cfg, log + [e], name)
         == if e.name == name then Next(cfg, Replay(cfg, log, name), e) else Replay(cfg, log, name)
  {
    assert (log + [e])[..|log|] == log;
  }

  lemma ReplayAppendTwo(cfg: Config, log: seq<Entry>, e: Entry, f: Entry, name: Name)
    requires e.name == f.name
    ensures Replay(cfg, log + [e, f], name)
         == if e.name == name then Next(cfg, Next(cfg, Replay(cfg, log, name), e), f)
            else Replay(cfg, log, name)
  {
    assert log + [e, f] == (log + [e]) + [f];
    ReplayAppend(cfg, log, e, name);
    ReplayAppend(cfg, log + [e], f, name);
  }

  /** The absent reading at j started the absence that lasts to the end of the log: nothing
      after it saw the node present or launched a restart for it. */
  ghost predicate AbsenceStartsAt(log: seq<Entry>, name: Name, j: nat) {
    j < |log| && log[j].SawAbsent? && log[j].name == name
    && forall k :: j < k < |log| ==> !(log[k].name == name && (log[k].SawPresent? || log[k].Launched?))
  }

  /** A running timer is always backed by an absent reading with that pass time. */
  lemma {:induction false} TimerHasWitness(cfg: Config, log: seq<Entry>, name: Name) returns (j: nat)
    requires Replay(cfg, log, name).since.Some?
    ensures AbsenceStartsAt(log, name, j)
    ensures Replay(cfg, log, name).since == Some(log[j].pass)
    ensures j > 0 ==> Replay(cfg, log[..j], name).since.None?
    ensures var h := Replay(cfg, log[..j], name); h.flight.None? && !AtCeiling(cfg, h.attempts)
  {
    var last := |log| - 1;
    var before := log[..last];
    if Replay(cfg, before, name).since.Some? {
      j := TimerHasWitness(cfg, before, name);
      assert before[..j] == log[..j];
    } else {
      j := last;
    }
  }
}
