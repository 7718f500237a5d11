/** Time in the history: pass times never go back, and launches keep their distance. */
module AgentTimeline {
  import opened AgentSpec
  import opened AgentHistory
  import opened AgentSafety

  predicate Stamped(e: Entry) {
    e.SawPresent? || e.SawAbsent? || e.Launched?
  }

  predicate Seen(e: Entry) {
    e.SawPresent? || e.SawAbsent?
  }

  /** The latest pass time an entry may carry. */
  function PassTime(s: State): int {
    if s.loop.Checking? then s.loop.now else s.clock
  }

  ghost predicate TimesOk(s: State) {
    && PassTime(s) <= s.clock
    && (forall k :: 0 <= k < |s.log| && Stamped(s.log[k]) ==> s.log[k].pass <= PassTime(s))
    && (forall k :: 0 <= k < |s.log| && Seen(s.log[k]) ==> s.log[k].pass <= s.log[k].at <= s.clock)
    && (forall j, k :: 0 <= j < k < |s.log| && Stamped(s.log[j]) && Stamped(s.log[k]) ==>
          s.log[j].pass <= s.log[k].pass)
    && (forall j, k :: 0 <= j < k < |s.log| && Seen(s.log[j]) && Seen(s.log[k]) ==>
          s.log[j].at <= s.log[k].at)
  }

  /** The launch at k follows an absent reading of the same pass that was due. */
  ghost predicate LaunchDue(cfg: Config, log: seq<Entry>, k: nat)
    requires k < |log|
  {
    log[k].Launched? ==>
      && k > 0
      && log[k - 1].SawAbsent?
      && log[k - 1].name == log[k].name
      && log[k - 1].pass == log[k].pass
      && Due(cfg, Replay(cfg, log[..k - 1], log[k].name), log[k].pass)
  }

  ghost predicate LaunchesDue(cfg: Config, log: seq<Entry>) {
    forall k :: 0 <= k < |log| ==> LaunchDue(cfg, log, k)
  }

  /** With nothing written, only the clock and the loop move, and forwards. */
  lemma QuietKeepsTimes(s: State, t: State)
    requires TimesOk(s) && t.log == s.log && s.clock <= t.clock
    requires PassTime(s) <= PassTime(t) <= t.clock
    ensures TimesOk(t)
  {
  }

  /** Entries written during a pass carry its time. */
  lemma WriteKeepsTimes(s: State, t: State, written: seq<Entry>)
    requires TimesOk(s) && s.loop.Checking? && t.log == s.log + written
    requires s.clock <= t.clock && PassTime(t) == s.loop.now
    requires |written| <= 2 && (|written| == 2 ==> written[1].Launched?)
    requires forall e :: e in written ==> Stamped(e) && e.pass == s.loop.now && (Seen(e) ==> e.at == t.clock)
    ensures TimesOk(t)
  {
  }

  lemma UnstampedKeepsTimes(s: State, t: State, e: Entry)
    requires TimesOk(s) && t.log == s.log + [e] && !Stamped(e)
    requires s.clock == t.clock && t.loop == s.loop
    ensures TimesOk(t)
  {
  }

  lemma StepMovesClock(cfg: Config, s: State, e: Event)
    requires PassTime(s) <= s.clock
    ensures s.clock <= Step(cfg, s, e).clock
    ensures PassTime(s) <= PassTime(Step(cfg, s, e)) <= Step(cfg, s, e).clock
    ensures e.Run? ==> Step(cfg, s, e).clock == s.clock && Step(cfg, s, e).loop == s.loop
    ensures Reads(cfg, s, e) ==> Step(cfg, s, e).clock == e.at
    ensures Reads(cfg, s, e) && !e.reading.ReadError? ==> PassTime(Step(cfg, s, e)) == s.loop.now
  {
  }

  lemma StepKeepsTimes(cfg: Config, s: State, e: Event)
    requires Inv(cfg, s) && TimesOk(s)
    ensures TimesOk(Step(cfg, s, e))
  {
    var t, written := Step(cfg, s, e), Written(cfg, s, e);
    StepWrites(cfg, s, e);
    StepMovesClock(cfg, s, e);
    if written == [] {
      assert t.log == s.log;
      QuietKeepsTimes(s, t);
    } else if e.Run? {
      UnstampedKeepsTimes(s, t, written[0]);
    } else {
      WriteKeepsTimes(s, t, written);
    }
  }

  lemma AppendKeepsLaunches(cfg: Config, log: seq<Entry>, written: seq<Entry>)
    requires LaunchesDue(cfg, log)
    requires forall k :: |log| <= k < |log| + |written| ==> LaunchDue(cfg, log + written, k)
    ensures LaunchesDue(cfg, log + written)
  {
    forall k | 0 <= k < |log| ensures LaunchDue(cfg, log + written, k) {
      assert LaunchDue(cfg, log, k);
      if k > 0 {
        assert (log + written)[..k - 1] == log[..k - 1];
      }
    }
  }

  lemma StepKeepsLaunches(cfg: Config, s: State, e: Event)
    requires Inv(cfg, s) && LaunchesDue(cfg, s.log)
    ensures LaunchesDue(cfg, Step(cfg, s, e).log)
  {
    var written := Written(cfg, s, e);
    StepWrites(cfg, s, e);
    forall k | |s.log| <= k < |s.log| + |written| ensures LaunchDue(cfg, s.log + written, k) {
      if k == |s.log| + 1 {
        assert (s.log + written)[..k - 1] == s.log;
      }
    }
    AppendKeepsLaunches(cfg, s.log, written);
  }

  lemma {:induction false} RunsKeepTime(cfg: Config, events: seq<Event>)
    ensures TimesOk(Exec(cfg, events)) && LaunchesDue(cfg, Exec(cfg, events).log)
  {
    if events != [] {
      var before, e := events[..|events| - 1], events[|events| - 1];
      RunsKeepTime(cfg, before);
      RunsAreSafe(cfg, before);
      StepKeepsTimes(cfg, Exec(cfg, before), e);
      StepKeepsLaunches(cfg, Exec(cfg, before), e);
    }
  }

  /** The readings behind a launch: the launch at k answers the absent reading at k - 1, and the
      timer it waited for was started by the absent reading at j. */
  ghost predicate Justifies(cfg: Config, log: seq<Entry>, j: nat, k: nat)
    requires j < k < |log|
  {
    && j < k - 1
    && log[j].SawAbsent? && log[k - 1].SawAbsent? && log[k].Launched?
    && log[j].name == log[k - 1].name == log[k].name
    && log[k - 1].pass == log[k].pass
    && log[k].pass - log[j].pass >= cfg.timeout
    && forall i :: j < i < k ==> !(log[i].name == log[k].name && (log[i].SawPresent? || log[i].Launched?))
  }

  lemma LaunchHasWitness(cfg: Config, log: seq<Entry>, k: nat) returns (j: nat)
    requires LaunchesDue(cfg, log) && k < |log| && log[k].Launched?
    ensures j < k && Justifies(cfg, log, j, k)
  {
    assert LaunchDue(cfg, log, k);
    j := TimerHasWitness(cfg, log[..k - 1], log[k].name);
  }

  /** Launches of one node lie at least the timeout apart. */
  lemma LaunchesSpaced(cfg: Config, s: State, i: nat, k: nat)
    requires LaunchesDue(cfg, s.log) && TimesOk(s)
    requires i < k < |s.log| && s.log[i].Launched? && s.log[k].Launched? && s.log[i].name == s.log[k].name
    ensures s.log[k].pass - s.log[i].pass >= cfg.timeout
  {
    var j := LaunchHasWitness(cfg, s.log, k);
    assert i < j;
  }
}
