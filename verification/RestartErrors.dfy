/** How the error texts of a restart cycle are classified by the agent. */
module RestartErrors {
  import opened Common
  import opened ConnectionErrors
  import opened OciClient
  import opened AgentSpec

  /** A stage label in lower case that contains no pattern. */
  ghost predicate Neutral(stage: string) {
    ToLower(stage) == stage && forall k :: 0 <= k < |PATTERNS| ==> !Contains(stage, PATTERNS[k])
  }

  lemma NoColonInPatterns(k: nat)
    requires k < |PATTERNS|
    ensures ':' !in PATTERNS[k]
  {
  }

  /** Text after "stage: " is a connection error exactly when it is one by itself: no pattern
      has a colon, so no occurrence can reach across. */
  lemma LabelIsTransparent(stage: string, err: string)
    requires Neutral(stage)
    ensures IsConnectionText(Wrap(stage, err)) <==> IsConnectionText(err)
  {
    var whole := Wrap(stage, err);
    if IsConnectionText(err) {
      WrappingKeepsConnectionErrors(stage + ": ", err, "");
      assert stage + ": " + err + "" == whole;
    }
    if IsConnectionText(whole) {
      var k :| 0 <= k < |PATTERNS| && Contains(ToLower(whole), PATTERNS[k]);
      var p := PATTERNS[k];
      var i :| 0 <= i <= |whole| - |p| && OccursAt(ToLower(whole), p, i);
      OccurrenceIsRight(stage, err, p, i, k);
      assert Contains(ToLower(err), p);
    }
  }

  lemma InsideOccurrence(text: string, p: string, i: nat, at: nat)
    requires i <= at < i + |p| <= |text| && text[i..i + |p|] == p
    ensures text[at] in p
  {
    assert text[at] == p[at - i];
  }

  lemma InsideStage(stage: string, text: string, p: string, i: nat)
    requires stage <= text && i + |p| <= |stage| && OccursAt(text, p, i)
    ensures Contains(stage, p)
  {
    assert stage[i..i + |p|] == text[i..i + |p|];
    assert OccursAt(stage, p, i);
  }

  lemma OccurrenceIsRight(stage: string, err: string, p: string, i: nat, k: nat)
    requires Neutral(stage) && k < |PATTERNS| && p == PATTERNS[k]
    requires i <= |Wrap(stage, err)| - |p| && OccursAt(ToLower(Wrap(stage, err)), p, i)
    ensures i >= |stage| + 2 && OccursAt(ToLower(err), p, i - |stage| - 2)
  {
    var low := ToLower(Wrap(stage, err));
    if i + |p| <= |stage| {
      InsideStage(stage, low, p, i);
    } else if i <= |stage| {
      assert low[|stage|] == ':';
      InsideOccurrence(low, p, i, |stage|);
      NoColonInPatterns(k);
    } else if i == |stage| + 1 {
      NoLeadingBlank(k);
    } else {
      assert ToLower(err)[i - |stage| - 2..i - |stage| - 2 + |p|] == p;
    }
  }

  lemma NoLeadingBlank(k: nat)
    requires k < |PATTERNS|
    ensures |PATTERNS[k]| > 0 && PATTERNS[k][0] != ' '
  {
  }

  /** A stage label is neutral if it lacks some character of each pattern; skip is settled apart. */
  lemma NeutralBy(stage: string, marks: string, skip: nat)
    requires ToLower(stage) == stage && |marks| == |PATTERNS|
    requires forall k :: 0 <= k < |PATTERNS| && k != skip ==> marks[k] in PATTERNS[k] && marks[k] !in stage
    requires skip < |PATTERNS| ==> !Contains(stage, PATTERNS[skip])
    ensures Neutral(stage)
  {
    forall k | 0 <= k < |PATTERNS| && k != skip ensures !Contains(stage, PATTERNS[k]) {
      forall i: nat | i + |PATTERNS[k]| <= |stage| ensures !OccursAt(stage, PATTERNS[k], i) {
      }
    }
  }

  lemma StopLabel()
    ensures Neutral("stop instance")
  {
    NeutralBy("stop instance", "rrumdfwrbm/dd", |PATTERNS|);
  }

  lemma GetLabel()
    ensures Neutral("get instance")
  {
    NeutralBy("get instance", "oooodoooooodd", |PATTERNS|);
  }

  lemma StartLabel()
    ensures Neutral("start instance")
  {
    NeutralBy("start instance", "oooodoooooodd", |PATTERNS|);
  }

  lemma RunningLabel()
    ensures Neutral("wait for running")
  {
    NeutralBy("wait for running", "ccsmdeeebc/dd", |PATTERNS|);
  }

  lemma StoppedLabel()
    ensures Neutral("wait for stopped")
  {
    var stage := "wait for stopped";
    assert PATTERNS[5] == "eof";
    forall i: nat | i + 3 <= |stage| ensures !OccursAt(stage, "eof", i) {
      assert stage[i] != 'e';
      assert stage[i..i + 3][0] == stage[i];
    }
    NeutralBy(stage, "ccnml nnbc/ll", 5);
  }

  /** What the environment reported behind a failed restart; None when the wait ran into its deadline. */
  function Cause(f: RestartFailure): Option<string> {
    match f
    case StopFailed(err) => Some(err)
    case StartFailed(err) => Some(err)
    case NotStopped(TimedOut(_)) => None
    case NotRunning(TimedOut(_)) => None
    case NotStopped(e) => Some(e.err)
    case NotRunning(e) => Some(e.err)
  }

  lemma TimeoutClassified(target: string, polls: nat)
    ensures IsConnectionText(TimeoutText(target, polls))
  {
    var word, text := "timeout", TimeoutText(target, polls);
    assert text[..|word|] == word;
    assert ToLower(word) == word == PATTERNS[3];
    assert ToLower(text)[0..|word|] == word;
    assert OccursAt(ToLower(text), PATTERNS[3], 0);
    assert Contains(ToLower(text), PATTERNS[3]);
  }

  lemma WaitClassified(e: WaitError, target: string)
    ensures IsConnectionText(WaitText(e, target)) <==> e.TimedOut? || IsConnectionText(e.err)
  {
    match e
    case Cancelled(_) =>
    case GetFailed(err) =>
      GetLabel();
      LabelIsTransparent("get instance", err);
    case TimedOut(polls) =>
      TimeoutClassified(target, polls);
  }

  function Stage(f: RestartFailure): string {
    match f
    case StopFailed(_) => "stop instance"
    case NotStopped(_) => "wait for stopped"
    case StartFailed(_) => "start instance"
    case NotRunning(_) => "wait for running"
  }

  lemma StagesAreNeutral(f: RestartFailure)
    ensures Neutral(Stage(f))
  {
    match f
    case StopFailed(_) => StopLabel();
    case NotStopped(_) => StoppedLabel();
    case StartFailed(_) => StartLabel();
    case NotRunning(_) => RunningLabel();
  }

  /** The agent takes a failed restart for a connection error exactly when the environment's own
      error is one, or when a wait ran into its deadline: that text begins with "timeout". */
  lemma RestartClassified(f: RestartFailure)
    ensures IsConnectionText(RestartText(f)) <==> Cause(f).None? || IsConnectionText(Cause(f).value)
  {
    StagesAreNeutral(f);
    match f
    case StopFailed(err) => LabelIsTransparent(Stage(f), err);
    case StartFailed(err) => LabelIsTransparent(Stage(f), err);
    case NotStopped(e) =>
      WaitClassified(e, STOPPED);
      LabelIsTransparent(Stage(f), WaitText(e, STOPPED));
    case NotRunning(e) =>
      WaitClassified(e, RUNNING);
      LabelIsTransparent(Stage(f), WaitText(e, RUNNING));
  }

  /** A failed restart makes its goroutine drop the OCI client, whatever the failure count, if the
      cause is a connection error or a deadline; otherwise only the third failure does. Events of
      others may come between the return and the record. */
  lemma FailedRestartDropsOci(cfg: Config, s: State, id: nat, f: RestartFailure, t: State, o: Outcome)
    requires id < |s.goroutines| && s.goroutines[id].pc.Awaiting?
    requires id < |t.goroutines|
    requires t.goroutines[id] == Step(cfg, s, Run(id, RestartError(RestartText(f)))).goroutines[id]
    ensures Step(cfg, t, Run(id, o)).goroutines[id].pc.Disconnect? <==>
              || Cause(f).None?
              || IsConnectionText(Cause(f).value)
              || t.links.ociFailures + 1 >= 3
  {
    RestartClassified(f);
  }

  /** So does every instance that is merely slow, on its first failure already: STOP or START is
      acknowledged, every call is answered, and the state it waits for never comes. */
  lemma SlowInstanceDropsOci(cfg: Config, s: State, id: nat, env: Environment, begin: int, t: State, o: Outcome)
    requires id < |s.goroutines| && s.goroutines[id].pc.Awaiting? && id < |t.goroutines|
    requires EnvironmentPaced(env) && env.stop.err.None?
    requires || NeverThere(env.stopping, STOPPED)
             || (Halting(env, begin).err.None? && env.start.err.None? && NeverThere(env.starting, RUNNING))
    ensures var c := CycleOf(env, begin);
      && c.err.Some?
      && (t.goroutines[id] == Step(cfg, s, Run(id, RestartError(RestartText(c.err.value)))).goroutines[id] ==>
            Step(cfg, t, Run(id, o)).goroutines[id].pc.Disconnect?)
  {
    var c := CycleOf(env, begin);
    SlowCycleTimesOut(env, begin);
    assert c.err.Some? && Cause(c.err.value).None?;
    if t.goroutines[id] == Step(cfg, s, Run(id, RestartError(RestartText(c.err.value)))).goroutines[id] {
      FailedRestartDropsOci(cfg, s, id, c.err.value, t, o);
    }
  }
}
