# Oracle Watchdog, verified

A Dafny model of Oracle Watchdog: the agent that restarts silent instances, the monitor that keeps
a heartbeat lease in Consul, the OCI stop/start cycle between them, and the WAN DNS updater. Check
it with `dafny verify dfyconfig.toml`.

## How the model is built

**Agent** (`Agent*.dfy`). `AgentSpec` is a state machine whose events are the critical sections of
the polling loop and of any number of `restartNode` goroutines, each with its own program counter.
`Exec` folds `Step` over any sequence of events; an event that the program counters do not allow
changes nothing, so the sequences of events are exactly the interleavings. `AgentObject.Agent` is
the mutable object: every method updates its fields as the source does and equals the
corresponding step, and `Valid` ties the fields to `Exec` over the events so far. `AgentHistory`
replays the log of readings and launches; `AgentSafety`, `AgentHealth` and `AgentTimeline` hold the
inductive invariants, `AgentTheorems` what follows for every run, and `AgentRecords` what the failure and
outcome counters record of it. `AgentPasses` says what a pass
makes of a node's history, and `CeilingLimit` builds a run that exceeds the attempt ceiling.

**OCI cycle** (`OciClient.dfy`, `RestartErrors.dfy`). `waitForState` is a loop on a clock that only
calls and pauses move; what the API answers, how long it takes and when the context is cancelled
are parameters, and calls and result of a cycle are a function of them. `RestartErrors` says how the
agent classifies each way a cycle can fail.

**Heartbeat** (`Monitor*.dfy`). The monitor and the Consul sessions and key it drives. Sessions die
between `ttl` and `emax` after they were last touched, the key has at most one holder and goes with
it, the lock delay is a parameter, and any call may fail with or without having taken effect.

**Both together** (`Heartbeat.dfy`, `Completeness.dfy`, `Accuracy.dfy`, `AccuracyLimit.dfy`). One
clock, the agent reading the key that the monitor's sessions hold: a silent node is restarted within
a bound, a healthy node is not restarted, and exactly how slow a pass may be for that across a failed
renewal.

**WAN DNS** (`WanDns*.dfy`, `Detection.dfy`). The updater with the record it keeps, and the parser of
provider answers.

Time is in nanoseconds. Error texts are strings, node names are wrapped strings, and the log,
the event trace and the goroutines' program counters exist only to state properties.

## What the proofs turned up

- A wait of the OCI cycle that reaches its deadline fails with a text that begins with "timeout", so
  `isConnectionError` takes it for a connection error: a slow instance drops the OCI client on the
  first failure, although the limit is three (`RestartErrors.RestartClassified`,
  `RestartErrors.SlowInstanceDropsOci`).
- `now` is read once, before the first key of a pass (`internal/agent/agent.go:291`), so a slow pass
  makes an absence look old. Across a failed renewal "no restart if lock delay and tick gap do not
  exceed the timeout" is therefore false; what counts is lock delay, tick gap and the lag of a pass
  together. Without a lock delay, as the monitor asks for, tick gap and lag must stay below the
  timeout; with one, the three together must not exceed it; and as soon as they do, some run restarts
  a healthy node (`AccuracyLimit.ThresholdIsExact`). Under the shortest accepted timeout of a minute
  and ticks up to 29 seconds apart, a pass that lags by 31 seconds suffices
  (`AccuracyLimit.ShortestTimeout`).
- A present reading may fall between the increment of the attempt counter and the `RestartInstance`
  call it stands for. Then one call more than the ceiling can follow, and for every ceiling it does in
  some run (`CeilingLimit.CeilingIsExceeded`); `AgentTheorems.CallsUnderCeiling` says exactly when.
- `README.md:80` says that the monitor goes back to disconnected when Consul is unavailable; a failed
  renewal goes to connecting and keeps the client and the stale session id
  (`internal/monitor/monitor.go:315-323`). The stale session keeps the key until it expires, and a
  disconnected monitor can no longer free it (`MonitorTheorems.CleanupFreesKey`,
  `MonitorTheorems.KeyLeftBehind`).
- The comment at `internal/wandns/wandns.go:112-114` calls `lastIP` the address applied to
  Cloudflare; it is the last detected one. `markUpdated` keeps the gauge right only because the
  address it gets is already current (`WanDnsTheorems.MarkUpdatedNeedsCurrent`).
- The cooldown separates a PATCH from earlier acknowledged ones. A PATCH whose answer is lost starts
  no cooldown (`WanDnsTheorems.LostAnswersAreNotSpaced`).

## Model

| member | source | states |
|---|---|---|
| ConnectionErrors.IsConnectionError | internal/agent/agent.go:552-563 | nil is no connection error; any other error is one exactly if its lower-cased text contains one of the patterns |
| ConnectionErrors.ClassifiedExactly | internal/agent/agent.go:535-563 | without reference to lower-casing: a text is a connection error exactly if it spells out one of the thirteen failures in any mixture of cases |
| ConnectionErrors.CaseIsIgnored | internal/agent/agent.go:556 | texts that differ only in the case of letters are classified alike |
| ConnectionErrors.UnexpectedEof | internal/agent/agent.go:556 | "unexpected EOF" is a connection error |
| ConnectionErrors.WrappingKeepsConnectionErrors | internal/agent/agent.go:535-563 | any text around a connection error leaves it one |
| AgentObject.Agent.TryConnectOCI | internal/agent/agent.go:237-252 | a failed factory changes nothing; success sets client and state and clears the failure count |
| AgentObject.Agent.TryConnectConsul | internal/agent/agent.go:214-235 | the same for Consul |
| AgentObject.Agent.HandleMissingNode | internal/agent/agent.go:361-403 | the whole new state after an absent reading: ignored, timer started, still waiting, or launched |
| AgentObject.Agent.HandleAliveNode | internal/agent/agent.go:407-420 | a present reading drops the timer and the attempts of its node and nothing else |
| AgentObject.Agent.TrackConsulFailures | internal/agent/agent.go:425-449 | a clean pass resets the count; the third failed pass in a row asks for the client to be dropped |
| AgentObject.Agent.CheckNodes | internal/agent/agent.go:278-330 | with goroutines running between its reads, a pass reads the nodes in order up to the first connection error, which drops Consul and leaves the count; any other failed read makes the pass count as one failure, and the third in a row drops Consul; a pass without any resets the count |
| AgentObject.Agent.RestartNode | internal/agent/agent.go:451-529 | with any other events between its critical sections a goroutine ends after at most eight of them |
| AgentSafety.StepWrites | internal/agent/agent.go:361-403 | an absent reading launches exactly if the history has a counted absent reading at least the timeout older in pass time, no restart in flight and attempts below the ceiling |
| AgentSafety.RunsAreSafe | internal/agent/agent.go:65-95 | the invariant of tracking maps, goroutines and counters holds in every reachable state |
| AgentTheorems.SingleFlight | internal/agent/agent.go:366-402 | flags are exactly the goroutines before their deferred delete, one per node; no node is both restarting and timed; the WaitGroup counts unfinished goroutines |
| AgentTheorems.MemoryIsHistory | internal/agent/agent.go:361-420 | the three maps are a fold over the log of readings and launches |
| AgentTheorems.LaunchesJustified | internal/agent/agent.go:373-402 | behind every launch stand two absent readings at least the timeout apart, with no present reading and no launch of the node between them |
| AgentTheorems.RateLimit | internal/agent/agent.go:373-402 | k launches of a node need a window of at least k - 1 timeouts, for all configurations and outcomes |
| AgentTheorems.CeilingHolds | internal/agent/agent.go:369-371 | attempts plus the restart that has yet to increment never exceed the ceiling, and a node at its ceiling has no running timer |
| AgentTheorems.CallsCountedExactly | internal/agent/agent.go:492-500 | RestartInstance calls since the last present reading, counted exactly: attempts, less a pending call, plus one if that reading fell between an increment and its call |
| AgentTheorems.CallsUnderCeiling | internal/agent/agent.go:407-420 | at most one call more than the ceiling between present readings, and that exactly if the last present reading was straddled, the counter is at the ceiling and its call is made |
| CeilingLimit.CeilingIsExceeded | internal/agent/agent.go:492-500 | for every ceiling and every configuration that lists the node, some run makes the call beyond it |
| AgentTheorems.OutcomesConserved | internal/agent/agent.go:466-528 | launches are successes plus failures plus the unresolved one; attempts are launches less OCI skips less the one not yet started |
| AgentTheorems.OciHealth | internal/agent/agent.go:506-524 | connected means a client; connected with three failures means a goroutine is about to drop it; with no restart in flight that cannot be |
| AgentTheorems.ConsulHealth | internal/agent/agent.go:282-289 | a connected Consul has fewer than three failed passes at the select, and a pass always has a client, so the nil guard is never taken |
| AgentRecords.FailuresAreConsecutive | internal/agent/agent.go:92-94 | both counters are the number of failures since the last success, clean pass or reconnection, or since the begin; a pass is clean if none of its reads failed |
| AgentRecords.PassRemembersErrors | internal/agent/agent.go:295-309 | a pass goes on after an error that is no connection error, and remembers exactly that there was one |
| AgentRecords.OutcomesRecorded | internal/agent/agent.go:466-528 | the three counters in terms of what happened: attempts are goroutines that found OCI, failures those that did not and calls that returned an error, successes calls that returned nil and attempts in dry-run |
| AgentTheorems.StartUp | internal/agent/agent.go:155-157 | before its first tick the agent has tried both connections |
| AgentTheorems.TickHeals | internal/agent/agent.go:186-208 | with goroutines running between its critical sections, a tick from any reachable select starts a pass exactly if Consul was or could be reached, and leaves OCI connected exactly if it was or could be reached and no goroutine dropped it since |
| AgentTheorems.CallsConfigured | internal/agent/agent.go:478-500 | RestartInstance gets configured nodes only, and is never called in dry-run |
| AgentTheorems.ShutdownBegins | internal/agent/agent.go:159-166 | Run takes the cancelled branch at the select and nowhere else, so a tick under way is finished |
| AgentTheorems.NoLaunchAfterCancel | internal/agent/agent.go:159-163 | once Run waits, no goroutine is launched any more |
| AgentTheorems.ReturnIsClean | internal/agent/agent.go:451-464 | when Run returns, no flag is left and every launch has exactly one outcome |
| AgentTheorems.DrainingEnds | internal/agent/agent.go:159-163 | under every schedule the goroutines take at most as many critical sections as there is work, and when none is left Wait returns |
| AgentTheorems.RunCanReturn | internal/agent/agent.go:159-163 | from every state of the drain some continuation of at most that many steps and one reaches the return |
| OciClient.Client.WaitForState | internal/oci/client.go:140-205 | polls and result are those that the answers demand: at most thirty polls, ten seconds apart, all begun before the deadline, each with the reply of its turn; success exactly if the last one read the target, any other result with its cause; returns within one call and one pause of the deadline |
| OciClient.SlowWaitTimesOut | internal/oci/client.go:151-204 | a wait that is never cancelled, never fails and never reads the target ends in a timeout |
| OciClient.ThirtyPolls | internal/oci/client.go:151-204 | an instance that answers at once and never gets there is polled thirty times, every ten seconds, for five minutes |
| OciClient.Client.RestartInstance | internal/oci/client.go:54-96 | calls, result and clock are those that the answers demand; every call and every error text is what STOP, START or a poll answered; STOP first, START only after an acknowledged STOP and right after a STOPPED reading; success exactly for STOP, STOPPED, START, RUNNING in that order; at most thirty polls in each wait; a time bound |
| RestartErrors.RestartClassified | internal/oci/client.go:64-91 | a failed cycle counts as a connection error exactly if its cause is one or a wait reached its deadline |
| RestartErrors.FailedRestartDropsOci | internal/agent/agent.go:506-517 | after a failed cycle the goroutine drops the client exactly for such a cause or on the third failure |
| RestartErrors.SlowInstanceDropsOci | internal/agent/agent.go:506-517 | a cycle whose calls are all answered, but in which the instance never stops or never runs, fails and drops the client whatever the failure count |
| MonitorObject.Monitor.Tick | internal/monitor/monitor.go:181-337 | one tick, with all its calls, as a step of the lease |
| MonitorObject.Monitor.TransitionTo | internal/monitor/monitor.go:339-356 | disconnecting clears client, session and gauges; other transitions only the state |
| MonitorObject.Monitor.Cleanup | internal/monitor/monitor.go:392-413 | destroys the session it knows, if any, and zeroes the gauges |
| MonitorTheorems.StateIsConsistent | internal/monitor/monitor.go:75-101 | state, client, session id and gauges agree at every tick boundary, and the gauges are zero once stopped; active means acquired and renewed since, as renewCount counts; connecting only right after a failed renewal |
| MonitorTheorems.TickEnds | internal/monitor/monitor.go:181-337 | where a tick ends for all answers: active exactly if the session was renewed or a new one locked, connecting exactly if a renewal failed, disconnected otherwise, with client, id, gauges and renewCount |
| MonitorTheorems.TickSessions | internal/monitor/monitor.go:240-337 | what a tick does to the sessions: it touches the one it renews, and adds one exactly if it locks it or leaves an orphan |
| MonitorTheorems.TickActivates | internal/monitor/monitor.go:240-296 | a tick whose calls are answered activates exactly if the key is free, and otherwise leaves no session behind |
| MonitorTheorems.FailedSessionsAreAbandoned | internal/monitor/monitor.go:314-323 | a session whose renewal failed is never renewed again |
| MonitorTheorems.OrphansBounded | internal/monitor/monitor.go:278-286 | n live sessions need an expiry bound of n - 1 tick gaps, however calls fail |
| MonitorTheorems.AtMostOneLease | internal/monitor/monitor.go:240-337 | if failed calls have no effect and destroys arrive, the live session is exactly the holder of the key |
| MonitorTheorems.CleanupDestroys | internal/monitor/monitor.go:392-413 | the clean-up destroys the session it knows, if the call arrives, and no other |
| MonitorTheorems.CleanupFreesKey | internal/monitor/monitor.go:392-409 | the clean-up frees the key exactly if the monitor was not disconnected, or nobody held it |
| MonitorTheorems.KeyLeftBehind | internal/monitor/monitor.go:278-286 | a run with one refused renewal in which it does not |
| Completeness.SilentNodeIsRestarted | internal/agent/agent.go:361-403 | a node whose monitor went silent is restarted within emax + timeout + 2 delta, in every interleaving |
| Accuracy.HealthyNodeIsLeftAlone | internal/monitor/monitor.go:298-337 | ticks within the ttl and answered calls keep the key held at every instant, and nothing is launched |
| Accuracy.AbsencesFitWindow | internal/monitor/monitor.go:314-323 | around one failed renewal all absent readings of the node fit into a window of lock delay plus tick gap, and a shorter one if there is a lock delay |
| Accuracy.FailedRenewalsAreForgiven | internal/agent/agent.go:361-403 | across any number of failed renewals, none while the agent still misses the node, nothing is launched if the longest gap of the key and the lag of a pass stay below the timeout |
| Accuracy.OneFailedRenewalIsForgiven | internal/monitor/monitor.go:314-323 | the same across one failed renewal, without that condition |
| AccuracyLimit.SlowPassIsPunished | internal/agent/agent.go:291 | whenever gap and lag reach the timeout, a run with one failed renewal, every other call answered and every tick in time launches a restart |
| AccuracyLimit.ThresholdIsExact | internal/agent/agent.go:291-316 | both directions: one failed renewal, and as well any number of them that the agent sees the key between, is forgiven if and only if tick gap plus lag stay below the timeout, or with a lock delay all three together do not exceed it |
| AccuracyLimit.ShortestTimeout | internal/config/config.go:291-293 | with the code's constants and the shortest accepted timeout, passes must lag by less than 31 seconds |
| WanDnsObject.Updater.Tick | internal/wandns/wandns.go:206-265 | one detect-compare-update cycle as a step of updater and record |
| WanDnsObject.Updater.Detect | internal/wandns/wandns.go:274-288 | returns the address of the first provider that carries one, and nothing only if none does |
| WanDnsTheorems.FirstProviderWins | internal/wandns/wandns.go:274-288 | an address is detected if and only if the first provider that carries any carries it |
| WanDnsTheorems.PatchedExactly | internal/wandns/wandns.go:206-265 | a tick sends a PATCH exactly if it detects an address, every acknowledged PATCH is a cooldown old, and the record was fetched and is another; what becomes of record and cooldown gauge |
| WanDnsTheorems.PatchesCounted | internal/wandns/wandns.go:240-252 | the success and failure counters are the acknowledged and the other PATCHes |
| WanDnsTheorems.LastIPIsDetected | internal/wandns/wandns.go:503-514 | lastIP is the last detected address, in the cooldown or not, applied or not |
| WanDnsTheorems.GaugeShowsLastIP | internal/wandns/wandns.go:503-514 | the live series are the last detected address alone, or none |
| WanDnsTheorems.MarkUpdatedNeedsCurrent | internal/wandns/wandns.go:493-498 | marking an update keeps the series right exactly if the address is already current |
| WanDnsTheorems.PatchesSpaced | internal/wandns/wandns.go:482-498 | a PATCH is issued no sooner than the cooldown after any acknowledged one |
| WanDnsTheorems.LostAnswersAreNotSpaced | internal/wandns/wandns.go:240-251 | a PATCH whose answer is lost takes effect without a cooldown, and the next one follows at the same instant |
| WanDnsTheorems.RecordConverges | internal/wandns/wandns.go:206-265 | a stable address reaches the record within cooldown plus gap, with one PATCH, or none if it was there |
| Detection.ParseDetectionBody | internal/wandns/wandns.go:321-335 | returns the printed address of the body, and fails exactly if there is none |
| Detection.ExtractedExactly | internal/wandns/wandns.go:321-335 | the address is the whole trimmed body, or else the first line "ip=" with an address in white space |
| Detection.ParsePrint | internal/wandns/wandns.go:323-324 | strict parsing and printing of addresses are inverse to each other |
| Detection.PrintedDotted | internal/wandns/wandns.go:323-324 | addresses are printed as four decimal bytes with dots between them |
| Detection.SpacesAreWhite | internal/wandns/wandns.go:321-335 | white space is that of Unicode, character by character |
| Detection.PlainBodyRoundTrips | internal/wandns/wandns.go:321-324 | every printed address, with any white space around it, is extracted from its own text |

## Left out

- FailedRenewalsAreForgiven: says nothing of a renewal that fails while the agent still counts the absence after an earlier one.
- ThresholdIsExact: takes ticks closer together than the ttl and an expiry that may come one tick gap after it; if Consul ended sessions more sharply, the bound would still be sufficient, but the failing run might not exist.
- FailedRestartDropsOci: says when the goroutine goes on to drop the client; between the two critical sections others may reconnect, and the late drop then hits the fresh client.
- ParseDetectionBody: IPv6 and IPv4-mapped forms of net.ParseIP; addresses are dotted quads only.
- Calls of one monitor tick happen at one instant, so an agent read never falls between them.
- Counters are bumped together with the critical section next to them; they are written nowhere else.
- Clients are kept as present or absent, except the monitor's, which is a reference to its server.
- The missing-nodes gauge, tracing spans, logs, the metrics server and the unlocked read of the failure count for a log line.
- OCI, Consul, HTTP and JSON clients: their calls are parameters; a Cloudflare answer is either usable or not.
- Changes of the DNS record by anybody else, and the record id cache, which is never read.
- The WireGuard resolver, a straight-line compare-and-set whose label rotation is that of the updater.
- Configuration loading; its bounds appear as preconditions where a proof needs them.
- Lower-casing beyond the characters that can become ASCII letters; no other character can complete a pattern.
