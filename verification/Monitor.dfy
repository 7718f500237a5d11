/** The Monitor object of internal/monitor/monitor.go, updated in place, and the Consul it talks to. */
module MonitorObject {
  import opened Common
  import M = MonitorSpec

  /** Consul as far as one node's sessions and key go; the client of the source is a reference to it. */
  class ConsulServer {
    const timing: M.Timing
    var sessions: map<nat, int>
    var holder: Option<nat>
    var freeAt: int
    var nextId: nat
    var clock: int

    constructor (timing: M.Timing)
      ensures this.timing == timing && View() == M.Init(timing).consul && clock == 0
    {
      this.timing := timing;
      sessions, holder, freeAt, nextId, clock := map[], None, 0, 0, 0;
    }

    ghost function View(): M.Consul
      reads this
    {
      M.Consul(sessions, holder, freeAt, nextId)
    }

    method CreateSession(fate: M.Fate) returns (id: Option<nat>)
      modifies this
      ensures View() == M.CreateSession(old(View()), clock, fate) && clock == old(clock)
      ensures id == if fate.Done? then Some(old(nextId)) else None
    {
      if fate.NotDone? {
        return None;
      }
      id := if fate.Done? then Some(nextId) else None;
      sessions := sessions[nextId := clock];
      nextId := nextId + 1;
    }

    /** A nil entry, for a session that is gone, is reported like an error. */
    method RenewSession(id: nat, fate: M.Fate) returns (ok: bool)
      modifies this
      ensures View() == M.RenewSession(old(View()), id, clock, fate) && clock == old(clock)
      ensures ok == (fate.Done? && id in old(sessions))
    {
      ok := fate.Done? && id in sessions;
      if !fate.NotDone? && id in sessions {
        sessions := sessions[id := clock];
      }
    }

    method AcquireKey(id: nat, fate: M.Fate) returns (acquired: bool)
      modifies this
      ensures View() == M.AcquireKey(old(View()), id, clock, fate) && clock == old(clock)
      ensures acquired == (fate.Done? && M.Acquirable(old(View()), id, clock))
    {
      var free := id in sessions && (holder == Some(id) || (holder.None? && clock >= freeAt));
      acquired := fate.Done? && free;
      if !fate.NotDone? && free {
        holder := Some(id);
      }
    }

    method DestroySession(id: nat, fate: M.Fate)
      modifies this
      ensures View() == M.DestroySession(timing, old(View()), id, clock, fate) && clock == old(clock)
    {
      if fate.NotDone? || id !in sessions {
        return;
      }
      sessions := sessions - {id};
      if holder == Some(id) {
        holder, freeAt := None, clock + timing.lockDelay;
      }
    }
  }

  class Monitor {
    /** What newConsul dials. */
    const server: ConsulServer

    var client: ConsulServer?
    var sessionID: Option<nat>
    var state: M.Phase
    var renewCount: nat

    // The two Prometheus gauges.
    var consulConnected: nat
    var sessionActive: nat

    ghost var lastTick: int
    ghost var running: bool
    ghost var ops: seq<M.Op>

    /** Every client the monitor holds is one of the server's. */
    ghost predicate Dialed()
      reads this
    {
      client == null || client == server
    }

    ghost function View(): M.Lease
      reads this, server
    {
      M.Lease(M.Monitor(state, client != null, sessionID, renewCount, consulConnected, sessionActive),
              server.View(), server.clock, lastTick, running, ops)
    }

    constructor (server: ConsulServer)
      requires server.View() == M.Init(server.timing).consul && server.clock == 0
      ensures this.server == server && Dialed() && View() == M.Init(server.timing)
    {
      this.server := server;
      client, sessionID, state, renewCount := null, None, M.Disconnected, 0;
      consulConnected, sessionActive := 0, 0;
      lastTick, running, ops := 0 - server.timing.gap, true, [];
    }

    method TransitionTo(newState: M.Phase)
      requires Dialed()
      modifies this
      ensures Dialed() && View() == old(View()).(monitor := M.TransitionTo(old(View()).monitor, newState))
    {
      state := newState;
      if newState == M.Disconnected {
        client := null;
        sessionID := None;
        consulConnected := 0;
        sessionActive := 0;
      }
    }

    method TryConnect(a: M.Answers)
      requires Dialed()
      modifies this, server
      ensures Dialed() && View() == M.ConnectStep(server.timing, old(View()), a)
    {
      if !a.client || !a.leader {
        return;
      }
      client := server;
      state := M.Connecting;
      consulConnected := 1;
      TryCreateSession(a);
    }

    method TryCreateSession(a: M.Answers)
      requires Dialed()
      modifies this, server
      ensures Dialed() && View() == M.CreateStep(server.timing, old(View()), a)
    {
      if client == null {
        TransitionTo(M.Disconnected);
        return;
      }
      var id := client.CreateSession(a.create);
      if id.None? {
        TransitionTo(M.Disconnected);
        consulConnected := 0;
        return;
      }
      LockKey(id.value, a);
    }

    /** The rest of tryCreateSession: the key is written under the new session, or the session is
        destroyed again. */
    method LockKey(id: nat, a: M.Answers)
      requires Dialed() && client != null
      modifies this, server
      ensures Dialed() && View() == M.AcquireStep(server.timing, old(View()), id, a)
    {
      var acquired := client.AcquireKey(id, a.acquire);
      ops := ops + [M.Acquired(id, acquired)];
      if !acquired {
        client.DestroySession(id, a.destroy);
        ops := ops + [M.Destroyed(id)];
        TransitionTo(M.Disconnected);
        consulConnected := 0;
        return;
      }
      sessionID := Some(id);
      state := M.Active;
      renewCount := 0;
      sessionActive := 1;
    }

    method TryRenew(a: M.Answers)
      requires Dialed()
      modifies this, server
      ensures Dialed() && View() == M.RenewStep(old(View()), a)
    {
      if client == null || sessionID.None? {
        TransitionTo(M.Disconnected);
        return;
      }
      var renewed := client.RenewSession(sessionID.value, a.renew);
      ops := ops + [M.Renewed(sessionID.value, renewed)];
      if !renewed {
        sessionActive := 0;
        TransitionTo(M.Connecting);
        return;
      }
      renewCount := renewCount + 1;
    }

    method Tick(a: M.Answers)
      requires Dialed() && running && server.clock - lastTick >= server.timing.gap
      modifies this, server
      ensures Dialed() && View() == M.Step(server.timing, old(View()), M.Beat(a))
    {
      match state {
        case Disconnected => TryConnect(a);
        case Connecting => TryCreateSession(a);
        case Active => TryRenew(a);
      }
      assert View() == M.TickStep(server.timing, old(View()), a);
      lastTick := server.clock;
    }

    method Cleanup(a: M.Answers)
      requires Dialed() && running
      modifies this, server
      ensures Dialed() && View() == M.Step(server.timing, old(View()), M.Stop(a))
    {
      if client != null && sessionID.Some? {
        client.DestroySession(sessionID.value, a.destroy);
        ops := ops + [M.Destroyed(sessionID.value)];
      }
      sessionActive := 0;
      consulConnected := 0;
      running := false;
    }
  }
}
