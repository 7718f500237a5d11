/** Labels, spacing and convergence of the updater over every run. */
module WanDnsTheorems {
  import opened Common
  import opened WanDnsSpec
  import D = Detection

  // ---- detection ----

  /** The provider answered, with an address. */
  predicate Carries(body: Option<string>) {
    body.Some? && D.BodyAddress(body.value).Some?
  }

  /** Provider k carries the address ip, and none before it carries any. */
  ghost predicate FirstToCarry(bodies: seq<Option<string>>, k: nat, ip: string) {
    && k < |bodies| && Carries(bodies[k]) && ip == D.Print(D.BodyAddress(bodies[k].value).value)
    && forall j :: 0 <= j < k ==> !Carries(bodies[j])
  }

  /** The first provider with an address wins, and nothing is detected exactly if there is none. */
  lemma {:induction false} FirstProviderWins(bodies: seq<Option<string>>, ip: string)
    ensures Detect(bodies) == Some(ip) <==> exists k: nat :: FirstToCarry(bodies, k, ip)
    ensures Detect(bodies).None? <==> forall k :: 0 <= k < |bodies| ==> !Carries(bodies[k])
  {
    if bodies != [] && !Carries(bodies[0]) {
      FirstProviderWins(bodies[1..], ip);
      FirstInRest(bodies, ip);
      assert forall k :: 0 < k < |bodies| ==> bodies[k] == bodies[1..][k - 1];
    } else if bodies != [] {
      assert Detect(bodies) == Some(ip) ==> FirstToCarry(bodies, 0, ip);
    }
  }

  lemma FirstInRest(bodies: seq<Option<string>>, ip: string)
    requires bodies != [] && !Carries(bodies[0])
    ensures (exists k: nat :: FirstToCarry(bodies, k, ip)) <==> exists k: nat :: FirstToCarry(bodies[1..], k, ip)
  {
    var rest := bodies[1..];
    if k: nat :| FirstToCarry(bodies, k, ip) {
      assert forall j :: 0 <= j < k - 1 ==> rest[j] == bodies[j + 1];
      assert FirstToCarry(rest, k - 1, ip);
    }
    if k: nat :| FirstToCarry(rest, k, ip) {
      assert forall j :: 0 < j <= k ==> bodies[j] == rest[j - 1];
      assert FirstToCarry(bodies, k + 1, ip);
    }
  }

  // ---- label rotation ----

  /** The gauge shows lastIP and nothing else. */
  predicate LabelsOk(u: Updater) {
    u.series == if u.lastIP == "" then {} else {u.lastIP}
  }

  lemma {:induction false} DetectedIsAddress(bodies: seq<Option<string>>)
    ensures Detect(bodies).Some? ==> exists q :: Detect(bodies).value == D.Print(q)
  {
    if bodies != [] && !(bodies[0].Some? && D.BodyAddress(bodies[0].value).Some?) {
      DetectedIsAddress(bodies[1..]);
    }
  }

  lemma DetectedIsText(bodies: seq<Option<string>>)
    ensures Detect(bodies).Some? ==> Detect(bodies).value != ""
  {
    DetectedIsAddress(bodies);
    if Detect(bodies).Some? {
      var q :| Detect(bodies).value == D.Print(q);
      D.PrintParses(q);
      assert D.Split("", '.') == [""];
    }
  }

  /** markUpdated leaves the gauge alone, so it keeps the labels right exactly when it is given the
      address that is already current: it relies on its caller. */
  lemma {:induction false} MarkUpdatedNeedsCurrent(u: Updater, ip: string, now: int)
    requires LabelsOk(u) && ip != ""
    ensures LabelsOk(MarkUpdated(u, ip, now)) <==> ip == u.lastIP
  {
    assert u.lastIP != "" ==> u.lastIP in u.series;
    assert ip in {ip};
  }

  // ---- acknowledged updates and their distance ----

  function Acked(patches: seq<Patch>): nat {
    if patches == [] then 0
    else Acked(patches[..|patches| - 1]) + if patches[|patches| - 1].acked.Some? then 1 else 0
  }

  ghost predicate SpacingOk(cooldown: int, w: World) {
    && (w.updater.lastUpdated.Some? ==>
          exists k :: 0 <= k < |w.patches| && w.patches[k].acked == w.updater.lastUpdated)
    && (forall k :: 0 <= k < |w.patches| && w.patches[k].acked.Some? ==>
          w.updater.lastUpdated.Some? && w.patches[k].acked.value <= w.updater.lastUpdated.value)
    && (w.updater.lastUpdated.Some? ==> w.updater.lastUpdated.value <= w.clock)
    && w.lastCheck <= w.clock
    && (forall j, k :: 0 <= j < k < |w.patches| && w.patches[j].acked.Some? ==>
          w.patches[k].issuedAt - w.patches[j].acked.value >= cooldown)
  }

  ghost predicate WorldOk(cooldown: int, w: World) {
    && LabelsOk(w.updater) && SpacingOk(cooldown, w)
    && w.updater.successes == Acked(w.patches)
    && w.updater.successes + w.updater.failures == |w.patches|
  }

  lemma AckedAppend(patches: seq<Patch>, p: Patch)
    ensures Acked(patches + [p]) == Acked(patches) + if p.acked.Some? then 1 else 0
  {
    assert (patches + [p])[..|patches|] == patches;
  }

  lemma PatchKeeps(cooldown: int, w: World, ip: string, i: Input)
    requires WorldOk(cooldown, w) && ip == w.updater.lastIP
    requires !InCooldown(w.updater, cooldown, i.checkedAt) && i.checkedAt <= i.issuedAt <= i.ackedAt
    requires w.updater.lastUpdated.Some? ==> w.updater.lastUpdated.value <= i.checkedAt
    requires w.clock == i.ackedAt && w.lastCheck == i.checkedAt
    ensures WorldOk(cooldown, PatchStep(w, ip, i))
  {
    var p := Patch(ip, i.issuedAt, if i.patch.Done? then Some(i.ackedAt) else None);
    assert PatchStep(w, ip, i).patches == w.patches + [p];
    AckedAppend(w.patches, p);
  }

  lemma TickKeeps(cooldown: int, w: World, i: Input)
    requires WorldOk(cooldown, w) && InOrder(w, i)
    ensures WorldOk(cooldown, TickStep(cooldown, w, i))
  {
    DetectedIsText(i.bodies);
    if Detect(i.bodies).Some? {
      var ip := Detect(i.bodies).value;
      var u := RecordCurrentIP(w.updater, ip).(inCooldown := false);
      var x := w.(clock := i.ackedAt, lastCheck := i.checkedAt, updater := u);
      assert LabelsOk(u) && u.lastIP == ip;
      if !InCooldown(u, cooldown, i.checkedAt) {
        PatchKeeps(cooldown, x, ip, i);
      }
    }
  }

  lemma {:induction false} RunsAreOk(cooldown: int, record: string, events: seq<Event>)
    ensures WorldOk(cooldown, Exec(cooldown, record, events))
  {
    if events != [] {
      var w, e := Exec(cooldown, record, events[..|events| - 1]), events[|events| - 1];
      RunsAreOk(cooldown, record, events[..|events| - 1]);
      if e.Tick? && InOrder(w, e.input) {
        TickKeeps(cooldown, w, e.input);
      }
    }
  }

  /** Across all ticks the gauge shows the last detected address alone, or nothing before the first. */
  lemma GaugeShowsLastIP(cooldown: int, record: string, events: seq<Event>)
    ensures var u := Exec(cooldown, record, events).updater;
            u.series == if u.lastIP == "" then {} else {u.lastIP}
  {
    RunsAreOk(cooldown, record, events);
  }

  /** A PATCH is issued no sooner than the cooldown after any acknowledged one. */
  lemma PatchesSpaced(cooldown: int, record: string, events: seq<Event>, j: nat, k: nat)
    requires j < k < |Exec(cooldown, record, events).patches|
    requires Exec(cooldown, record, events).patches[j].acked.Some?
    ensures var p := Exec(cooldown, record, events).patches; p[k].issuedAt - p[j].acked.value >= cooldown
  {
    RunsAreOk(cooldown, record, events);
  }

  /** Every acknowledged PATCH is at least the cooldown old. */
  ghost predicate CooledDown(cooldown: int, w: World, now: int) {
    forall k :: 0 <= k < |w.patches| && w.patches[k].acked.Some? ==> now - w.patches[k].acked.value >= cooldown
  }

  lemma CooldownIsHistory(cooldown: int, w: World, now: int)
    requires WorldOk(cooldown, w)
    ensures InCooldown(w.updater, cooldown, now) <==> !CooledDown(cooldown, w, now)
  {
    if w.updater.lastUpdated.Some? {
      var k :| 0 <= k < |w.patches| && w.patches[k].acked == w.updater.lastUpdated;
    }
  }

  /** A tick sends a PATCH exactly if it detects an address, every acknowledged PATCH is at least the
      cooldown old, and the record could be fetched and is another; the record follows unless the
      PATCH got lost, and the cooldown gauge shows whether an older PATCH stood in the way. */
  lemma PatchedExactly(cooldown: int, record: string, events: seq<Event>, i: Input)
    requires InOrder(Exec(cooldown, record, events), i)
    ensures var w := Exec(cooldown, record, events); var x := Step(cooldown, w, Tick(i)); var d := Detect(i.bodies);
      var sends := d.Some? && CooledDown(cooldown, w, i.checkedAt) && i.fetched && w.record != d.value;
      && x.patches == w.patches + (if sends then [Patch(d.value, i.issuedAt, if i.patch.Done? then Some(i.ackedAt)
                                                                             else None)] else [])
      && x.record == (if sends && !i.patch.NotDone? then d.value else w.record)
      && x.updater.inCooldown == (if d.Some? then !CooledDown(cooldown, w, i.checkedAt) else w.updater.inCooldown)
  {
    RunsAreOk(cooldown, record, events);
    CooldownIsHistory(cooldown, Exec(cooldown, record, events), i.checkedAt);
  }

  /** The update counters are the acknowledged and the other PATCHes. */
  lemma PatchesCounted(cooldown: int, record: string, events: seq<Event>)
    ensures var w := Exec(cooldown, record, events);
            w.updater.successes == Acked(w.patches) && w.updater.failures == |w.patches| - Acked(w.patches)
  {
    RunsAreOk(cooldown, record, events);
  }

  /** What the ticks detected last. */
  function LastDetected(cooldown: int, record: string, events: seq<Event>): string {
    if events == [] then ""
    else
      var before, e := events[..|events| - 1], events[|events| - 1];
      if e.Tick? && InOrder(Exec(cooldown, record, before), e.input) && Detect(e.input.bodies).Some?
      then Detect(e.input.bodies).value else LastDetected(cooldown, record, before)
  }

  /** lastIP is the last detected address, in the cooldown or not, and whether it was applied or not. */
  lemma {:induction false} LastIPIsDetected(cooldown: int, record: string, events: seq<Event>)
    ensures Exec(cooldown, record, events).updater.lastIP == LastDetected(cooldown, record, events)
  {
    if events != [] {
      LastIPIsDetected(cooldown, record, events[..|events| - 1]);
    }
  }

  /** All calls of a tick at the instant 0. */
  function Instant(bodies: seq<Option<string>>, patch: Fate): Event {
    Tick(Input(bodies, 0, true, 0, patch, 0))
  }

  lemma AddressDetected(q: D.Quad)
    ensures Detect([Some(D.Print(q))]) == Some(D.Print(q))
  {
    D.PlainBodyRoundTrips("", q, "");
    assert "" + D.Print(q) + "" == D.Print(q);
  }

  lemma PrintsDiffer(q: D.Quad, r: D.Quad)
    requires q != r
    ensures D.Print(q) != D.Print(r)
  {
    D.PrintParses(q);
    D.PrintParses(r);
  }

  /** Before any acknowledged PATCH a tick that sees another address issues one. */
  lemma PatchedBy(cooldown: int, w: World, bodies: seq<Option<string>>, ip: string, patch: Fate)
    requires w.clock == 0 && w.updater.lastUpdated.None? && !patch.NotDone?
    requires Detect(bodies) == Some(ip) && w.record != ip
    ensures var x := Step(cooldown, w, Instant(bodies, patch));
      && x.clock == 0 && x.record == ip
      && x.patches == w.patches + [Patch(ip, 0, if patch.Done? then Some(0) else None)]
      && (patch.AnswerLost? ==> x.updater.lastUpdated.None?)
  {
  }

  lemma ExecAppend(cooldown: int, record: string, events: seq<Event>, e: Event)
    ensures Exec(cooldown, record, events + [e]) == Step(cooldown, Exec(cooldown, record, events), e)
  {
    assert (events + [e])[..|events|] == events;
  }

  lemma TwoPatches(
      cooldown: int, record: string, one: seq<Option<string>>, other: seq<Option<string>>, ip: string, next: string)
      returns (events: seq<Event>)
    requires Detect(one) == Some(ip) && Detect(other) == Some(next)
    requires record != ip && ip != next
    ensures |events| == 2 && Exec(cooldown, record, events[..1]).record == ip
    ensures var w := Exec(cooldown, record, events);
            w.record == next && w.patches == [Patch(ip, 0, None), Patch(next, 0, Some(0))]
  {
    var first, second := Instant(one, AnswerLost), Instant(other, Done);
    ExecAppend(cooldown, record, [], first);
    ExecAppend(cooldown, record, [first], second);
    PatchedBy(cooldown, Init(record), one, ip, AnswerLost);
    PatchedBy(cooldown, Step(cooldown, Init(record), first), other, next, Done);
    assert [] + [first] == [first] && [first] + [second] == [first, second];
    events := [first, second];
    assert events[..1] == [first];
  }

  /** The spacing does need the acknowledgement: a PATCH that takes effect but whose answer is lost
      starts no cooldown, and the next PATCH may follow at the same instant. */
  lemma LostAnswersAreNotSpaced(cooldown: int, record: string, q: D.Quad, r: D.Quad) returns (events: seq<Event>)
    requires q != r && record != D.Print(q)
    ensures |events| == 2 && Exec(cooldown, record, events[..1]).record == D.Print(q)
    ensures var w := Exec(cooldown, record, events);
            w.record == D.Print(r) && w.patches == [Patch(D.Print(q), 0, None), Patch(D.Print(r), 0, Some(0))]
  {
    AddressDetected(q);
    AddressDetected(r);
    PrintsDiffer(q, r);
    events := TwoPatches(cooldown, record, [Some(D.Print(q))], [Some(D.Print(r))], D.Print(q), D.Print(r));
  }

  // ---- convergence ----

  /** The tick sees the address ip and both Cloudflare calls work. */
  predicate Sees(e: Event, ip: string) {
    e.Tick? ==> Detect(e.input.bodies) == Some(ip) && e.input.fetched && e.input.patch.Done?
  }

  /** What has happened since the world was v: the record follows with one PATCH at most, and if it
      has not followed yet then every check so far fell into the cooldown. */
  ghost predicate Following(cooldown: int, v: World, w: World, ip: string) {
    && (w.record == ip ==>
          if v.record == ip then w.patches == v.patches
          else |w.patches| == |v.patches| + 1 && w.patches[|v.patches|].ip == ip)
    && (w.record != ip ==>
          && w.record == v.record && w.patches == v.patches
          && w.updater.lastUpdated == v.updater.lastUpdated
          && (w.lastCheck == v.lastCheck || InCooldown(v.updater, cooldown, w.lastCheck)))
  }

  lemma StepFollows(cooldown: int, v: World, w: World, e: Event, ip: string)
    requires Following(cooldown, v, w, ip) && Sees(e, ip)
    ensures Following(cooldown, v, Step(cooldown, w, e), ip)
  {
  }

  lemma {:induction false} RunFollows(cooldown: int, record: string, past: seq<Event>, future: seq<Event>, ip: string)
    requires forall e :: e in future ==> Sees(e, ip)
    ensures Following(cooldown, Exec(cooldown, record, past), Exec(cooldown, record, past + future), ip)
  {
    if future == [] {
      assert past + future == past;
    } else {
      var before, e := future[..|future| - 1], future[|future| - 1];
      RunFollows(cooldown, record, past, before, ip);
      assert (past + future)[..|past + future| - 1] == past + before;
      StepFollows(cooldown, Exec(cooldown, record, past), Exec(cooldown, record, past + before), e, ip);
    }
  }

  /**
   Convergence. If from some instant on every tick detects ip, the Cloudflare calls work and a
   check is never more than gap old, then one cooldown and one gap later the record is ip, after at
   most one PATCH; and no PATCH was issued if the record was ip to begin with.
   */
  lemma RecordConverges(cooldown: int, record: string, past: seq<Event>, future: seq<Event>, ip: string, gap: nat)
    requires cooldown > 0 && forall e :: e in future ==> Sees(e, ip)
    requires var w := Exec(cooldown, record, past + future); w.clock - w.lastCheck <= gap
    requires Exec(cooldown, record, past + future).clock >= Exec(cooldown, record, past).clock + cooldown + gap
    ensures var v, w := Exec(cooldown, record, past), Exec(cooldown, record, past + future);
      && w.record == ip
      && (if v.record == ip then w.patches == v.patches
          else |w.patches| == |v.patches| + 1 && w.patches[|v.patches|].ip == ip)
  {
    RunFollows(cooldown, record, past, future, ip);
    RunsAreOk(cooldown, record, past);
  }
}
