/** The Updater object of internal/wandns/wandns.go, updated in place, and the record it keeps. */
module WanDnsObject {
  import opened Common
  import D = Detection
  import W = WanDnsSpec
  import T = WanDnsTheorems

  /** The DNS record behind the Cloudflare API. */
  class Cloudflare {
    var record: string
    ghost var patches: seq<W.Patch>

    constructor (record: string)
      ensures this.record == record && patches == []
    {
      this.record := record;
      patches := [];
    }

    method FetchRecord(fetched: bool) returns (current: Option<string>)
      ensures current == if fetched then Some(record) else None
    {
      current := if fetched then Some(record) else None;
    }

    method UpdateRecord(ip: string, i: W.Input) returns (ok: bool)
      modifies this
      ensures ok == i.patch.Done?
      ensures record == if i.patch.NotDone? then old(record) else ip
      ensures patches == old(patches) + [W.Patch(ip, i.issuedAt, if ok then Some(i.ackedAt) else None)]
    {
      ok := i.patch == W.Done;
      if i.patch != W.NotDone {
        record := ip;
      }
      patches := patches + [W.Patch(ip, i.issuedAt, if ok then Some(i.ackedAt) else None)];
    }
  }

  class Updater {
    const cooldown: int
    const cloudflare: Cloudflare

    var lastUpdated: Option<int>
    var lastIP: string

    // The Prometheus series: live WanIPCurrent labels, the cooldown gauge, the update counters.
    var series: set<string>
    var inCooldown: bool
    var successes: nat
    var failures: nat

    ghost var clock: int
    ghost var lastCheck: int

    ghost function Counters(): W.Updater
      reads this
    {
      W.Updater(lastUpdated, lastIP, series, inCooldown, successes, failures)
    }

    ghost function View(): W.World
      reads this, cloudflare
    {
      W.World(Counters(), cloudflare.record, clock, lastCheck, cloudflare.patches)
    }

    constructor (cooldown: int, cloudflare: Cloudflare)
      requires cloudflare.patches == []
      ensures this.cooldown == cooldown && this.cloudflare == cloudflare
      ensures View() == W.Init(cloudflare.record)
    {
      this.cooldown, this.cloudflare := cooldown, cloudflare;
      lastUpdated, lastIP, series, inCooldown := None, "", {}, false;
      successes, failures := 0, 0;
      clock, lastCheck := 0, 0;
    }

    /** The first provider whose answer carries an address wins. */
    method Detect(bodies: seq<Option<string>>) returns (ip: Option<string>)
      ensures ip == W.Detect(bodies)
      ensures ip.Some? ==> exists k: nat :: T.FirstToCarry(bodies, k, ip.value)
      ensures ip.None? ==> forall k :: 0 <= k < |bodies| ==> !T.Carries(bodies[k])
    {
      for k := 0 to |bodies|
        invariant W.Detect(bodies) == W.Detect(bodies[k..])
        invariant forall j :: 0 <= j < k ==> !T.Carries(bodies[j])
      {
        if bodies[k].Some? {
          ip := D.ParseDetectionBody(bodies[k].value);
          if ip.Some? {
            assert T.FirstToCarry(bodies, k, ip.value);
            return;
          }
        }
      }
      return None;
    }

    method RecordCurrentIP(ip: string)
      modifies this
      ensures Counters() == W.RecordCurrentIP(old(Counters()), ip)
      ensures clock == old(clock) && lastCheck == old(lastCheck)
    {
      if lastIP == ip {
        return;
      }
      if lastIP != "" {
        series := series - {lastIP};
      }
      lastIP := ip;
      series := series + {ip};
    }

    predicate InCooldown(now: int)
      reads this
      ensures InCooldown(now) == W.InCooldown(Counters(), cooldown, now)
    {
      lastUpdated.Some? && now - lastUpdated.value < cooldown
    }

    method MarkUpdated(ip: string, now: int)
      modifies this
      ensures Counters() == W.MarkUpdated(old(Counters()), ip, now)
      ensures clock == old(clock) && lastCheck == old(lastCheck)
    {
      lastUpdated := Some(now);
      lastIP := ip;
    }

    /** The end of a tick: the PATCH and the record of its answer. */
    method Apply(ip: string, i: W.Input)
      modifies this, cloudflare
      ensures View() == W.PatchStep(old(View()), ip, i)
    {
      var ok := cloudflare.UpdateRecord(ip, i);
      if !ok {
        failures := failures + 1;
        return;
      }
      successes := successes + 1;
      MarkUpdated(ip, i.ackedAt);
    }

    method Tick(i: W.Input)
      requires W.InOrder(View(), i)
      modifies this, cloudflare
      ensures View() == W.Step(cooldown, old(View()), W.Tick(i))
    {
      clock, lastCheck := i.ackedAt, i.checkedAt;
      var ip := Detect(i.bodies);
      if ip.None? {
        return;
      }
      RecordCurrentIP(ip.value);
      if InCooldown(i.checkedAt) {
        inCooldown := true;
        return;
      }
      inCooldown := false;
      var current := cloudflare.FetchRecord(i.fetched);
      if current.None? || current.value == ip.value {
        return;
      }
      Apply(ip.value, i);
    }
  }
}
