/**
 The WAN-IP updater of internal/wandns/wandns.go with the DNS record it keeps in sync.

 The record is the environment: only the updater changes it, and a PATCH may fail with or without
 having taken effect. Ticks follow one another on a clock that never goes back.
 */
module WanDnsSpec {
  import opened Common
  import D = Detection

  datatype Fate = Done | AnswerLost | NotDone

  /** What one tick meets: the provider answers, the instants of the cooldown check, of the PATCH
      and of its acknowledgement, and how the two Cloudflare calls go. */
  datatype Input = Input(
    bodies: seq<Option<string>>, checkedAt: int, fetched: bool, issuedAt: int, patch: Fate, ackedAt: int)

  datatype Patch = Patch(ip: string, issuedAt: int, acked: Option<int>)

  /** lastUpdated is None for Go's zero time; series are the live labels of the WanIPCurrent gauge. */
  datatype Updater = Updater(
    lastUpdated: Option<int>, lastIP: string, series: set<string>, inCooldown: bool,
    successes: nat, failures: nat)

  datatype World = World(updater: Updater, record: string, clock: int, lastCheck: int, patches: seq<Patch>)

  datatype Event = Advance(to: int) | Tick(input: Input)

  function Detect(bodies: seq<Option<string>>): Option<string> {
    if bodies == [] then None
    else if bodies[0].Some? && D.BodyAddress(bodies[0].value).Some?
    then Some(D.Print(D.BodyAddress(bodies[0].value).value))
    else Detect(bodies[1..])
  }

  function RecordCurrentIP(u: Updater, ip: string): Updater {
    if u.lastIP == ip then u
    else u.(series := (if u.lastIP != "" then u.series - {u.lastIP} else u.series) + {ip}, lastIP := ip)
  }

  predicate InCooldown(u: Updater, cooldown: int, now: int) {
    u.lastUpdated.Some? && now - u.lastUpdated.value < cooldown
  }

  function MarkUpdated(u: Updater, ip: string, now: int): Updater {
    u.(lastUpdated := Some(now), lastIP := ip)
  }

  /** updateRecord and what tick does with its answer. */
  function PatchStep(w: World, ip: string, i: Input): World {
    var u := w.updater;
    var record := if i.patch.NotDone? then w.record else ip;
    if i.patch.Done? then
      w.(updater := MarkUpdated(u, ip, i.ackedAt).(successes := u.successes + 1), record := record,
         patches := w.patches + [Patch(ip, i.issuedAt, Some(i.ackedAt))])
    else
      w.(updater := u.(failures := u.failures + 1), record := record,
         patches := w.patches + [Patch(ip, i.issuedAt, None)])
  }

  function TickStep(cooldown: int, w: World, i: Input): World {
    var v := w.(clock := i.ackedAt, lastCheck := i.checkedAt);
    match Detect(i.bodies)
    case None => v
    case Some(ip) =>
      var u := RecordCurrentIP(w.updater, ip);
      if InCooldown(u, cooldown, i.checkedAt) then v.(updater := u.(inCooldown := true))
      else
        var x := v.(updater := u.(inCooldown := false));
        if !i.fetched || w.record == ip then x else PatchStep(x, ip, i)
  }

  predicate InOrder(w: World, i: Input) {
    w.clock <= i.checkedAt <= i.issuedAt <= i.ackedAt
  }

  function Step(cooldown: int, w: World, e: Event): World {
    match e
    case Advance(to) => if w.clock <= to then w.(clock := to) else w
    case Tick(i) => if InOrder(w, i) then TickStep(cooldown, w, i) else w
  }

  function Init(record: string): World {
    World(Updater(None, "", {}, false, 0, 0), record, 0, 0, [])
  }

  function Exec(cooldown: int, record: string, events: seq<Event>): World {
    if events == [] then Init(record)
    else Step(cooldown, Exec(cooldown, record, events[..|events| - 1]), events[|events| - 1])
  }
}
