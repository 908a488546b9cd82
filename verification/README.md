# fastllm-proxy: the control loops, modelled and proved

fastllm-proxy is a gateway in front of LLM inference engines. Before a request reaches an engine it passes a rate
limiter, a response cache, a chain of models with failover, and an admission gate whose ceiling follows the engine's own
queue. Behind those sit a health and ejection state machine, a vote among replicas, engine detection, and a registry
that is rebuilt while requests are running. This project models those loops and proves what they keep over every run.

| file | models |
|---|---|
| `Admission`, `AdmissionGate`, `AdmissionPacing` | the gate with whole operations as steps, the gate as an object, and how fast its ceiling may fall |
| `AdmissionMicro`, `AdmissionQueue` | the same gate one atomic action at a time, request actions interleaved with a half-done `shrink` or `grow`, and the queue bound there |
| `GateInstall`, `GateHandover` | a gate put on a backend that is already serving, and one engine's load across rebuilds |
| `Registry`, `Reload`, `ReloadRuns` | the interner, the build loop, and any sequence of reloads and gate installs |
| `Failover` | the two nested failover loops, for every sequence of outcomes |
| `Health`, `HealthCauses` | ejection, backoff and stall detection, and exactly why a backend leaves and returns |
| `FleetProtocol`, `FleetStore`, `FleetVerdict`, `Ordering` | N replicas with a report store, the store over time, and the tally |
| `Limiter`, `LimiterMeaning`, `LimiterRetry`, `LimiterWindow`, `LimiterEviction` | the token buckets, what their figures mean, their waits, their bound over a window, and idle eviction |
| `Multipart`, `MultipartForm` | the field locator and the splice, over bytes and over the form a client meant |
| `Cache` | the response cache against a plain TTL map |
| `Detect` | who is asked for engine metrics, and when the asking stops |

Each component has a value for its state, one function per operation, and theorems about every run of those functions.
Where the source updates an object or runs a loop there is also a class or a method, proved equal to the function (or,
for the tally and the reload, to a declarative description of the result).

`dafny verify dfyconfig.toml` checks the project.

## Where the code and a natural claim differ

Each of these has a lemma with an input or a run that breaks the claim, and a lemma that says exactly when it holds.

- *The ceiling plus the debt never exceeds the configured maximum.* False between `debt.fetch_add` and `capacity.store` of
  a shrink (`AdmissionMicro.BooksCanExceedTheCeiling`). An action breaks it exactly when it raises the debt by more than
  the stored ceiling and the older debt leave room for (`BooksStayFitIff`, `BooksExceedOnlyAfterOwing`).
  The bound on slots that exist, and so on requests in flight, never fails (`EveryInterleavingBalances`).
- *A gate at rest has as many free permits as its ceiling.* False if permits come back between `forget_permits` and the
  debt being raised (`ALateDebtLeavesSpareSlots`). "Nothing is free while a slot is owed" survives a step exactly when no
  slot overtakes a debt it never saw (`OwedStaysOutIff`), and the gate at rest has its ceiling free exactly when every slot
  owed was paid (`QuietGate`).
- *No more than `max_queued` callers wait.* The bound is read before the caller is counted, so callers racing between the
  two overfill the queue (`AdmissionQueue.RacingCallersOverfill`), by less than the number that race (`QueueBound`,
  `QueueStaysWithinIff`). With whole operations as steps it holds.
- *Idle eviction is invisible.* Every request reads the same buckets with and without evictions exactly when no request is
  short: one that follows a re-created entry, nothing charged in between, under a limit L with L * (60 - seconds since) >
  60 * the limit it was re-created under, an absent limit counting as zero (`LimiterEviction.EvictionShowsIff`). Then every
  answer is the same (`EvictionIsInvisible`); a token bucket that reads differently gives some cost a different answer
  (`ADifferenceShows`). Every raise has a trace that shows it (`RaisingTokensShows`, `RaisingRequestsShows`).
- *A refused request is admitted after `retry_after`.* Exactly when both its costs fit their capacities
  (`LimiterRetry.RetryAfterIsExact`); otherwise a finite wait is quoted and the request is never admitted
  (`AnOversizedRequestIsQuotedAWait`).
- *Once every stored vote is unhealthy no ejection is withdrawn.* False while one replica has never doubted the backend
  (`FleetProtocol.OneOptimistSuffices`). A withdrawal is still possible exactly while reports are believed at all, some
  replica reports healthy and there is another one (`WithdrawalPossibleIff`).
- *A backend written off by deadline is asked exactly one more question when it turns healthy*, as the comment at
  src/engine_scrape.rs:81-87 has it, *and a flapping check cannot turn the verdict back into a poll* (lines 135-136). A
  failed recheck opens a new round (`Detect.ARecheckIsNotTheLastQuestion`), and with health checks passing and metrics
  silent the asking never ends (`PollingIsUnbounded`). A recheck is the last question exactly as long as no later sweep
  comes a retry interval after it (`RecheckIsFollowedIff`); each buys at most four (`FourProbesPerRecheck`).
- *The same uid means the same configuration*, as the comments at src/registry.rs:84-89 and 1387-1390 have it. Extra
  headers are copied into a backend and are not in its key, so an edit to them alone never reaches the running object
  (`ReloadRuns.AHeaderEditIsLost`, `HeadersArriveIff`). The same goes for an edit of `default_max_tokens` between unset
  and 0, which the key text spells alike (src/registry.rs:97).
- *A rebuilt backend keeps its engine's gate.* It adopts the gate of the first same-engine backend in uid order and of no
  other (`ReloadRuns.ASecondBackendsGateIsLost`, `RebuiltSharesTheFirstGate`); with one backend per engine it always does
  (`GateSurvivesReloads`).
- *A gate is seeded with the requests its engine is already running.* Not with those of an object rebuilt before it had a
  gate: the comment at src/registry.rs:845-847 has the in-flight count feed routing only, and
  `enable_auto_admission` seeds from it (`GateHandover.AStrayIsNotSeeded`, `SeedsCoverTheEngineIff`).
- *A new value spliced over a field is found again.* Exactly when it does not contain the delimiter
  (`Multipart.RoundTripIffNoDelimiter`, `MultipartForm.ADelimiterInTheValueIsLost`, `AModelNameWithADelimiterIsLost`).

## Assumptions

- Integers are unbounded: counters do not wrap. The one width that matters, the 32-bit uid, is explicit, as is the
  saturation of `per_replica_ceiling` at `u32::MAX`.
- `f64` is `real`. Instants and durations are numbers. The limiter, the fleet's store and the cache's
  answers take a clock that does not go back; the admission, health, detection and cache budget theorems take instants in
  any order.
- The semaphore hands a returned permit to the longest waiter. One scraper task runs `shrink`, `grow` and `restore_full`.
- In `AdmissionMicro` each atomic read-modify-write is one action; effects of weak memory beyond interleaving are not
  modelled. Elsewhere an operation is one step.
- `router.pick` chooses any untried backend or none; with no further model to go to, an untried backend is always found,
  as `pick_ejected` does. The retry budget, the gate and the upstream answer arbitrarily. The failure texts of
  different kinds are different.
- The identity key is a record: its text is taken to be unambiguous although it is joined with `|`.
- `ResponseCache::clear` empties the map and the byte count in one step.
- A multipart boundary has no CR, as no HTTP header value does. The header test `part_is_named` is a parameter of every
  multipart theorem, so they hold for every such test.

## Model

| member | source | states |
|---|---|---|
| Admission.EveryStateBalances | src/admission.rs:418-493 | After any sequence of admits, waits, cancels, drops, seed releases, readings and restores from a fresh or seeded gate: free + held + seeded = ceiling + debt <= max_concurrent, waiters only while nothing is free, nothing free while slots are owed; the settings never change |
| Admission.StatusCountsLiveWork | src/admission.rs:504-518 | In every reachable state the `in_use` that `status()` derives from the books is exactly the live permits plus the outstanding seeds, and never above max_concurrent |
| Admission.AdmitsOnlyUnderTheCeiling | src/admission.rs:525-593 | In every run a request is admitted on arrival exactly when the in-use count is below the current ceiling; no step, waking a waiter included, ends with an admission above the ceiling; a refused or queued arrival takes no slot |
| Admission.DrainedGateIsWhole | src/admission.rs:418-433 | Once every request has ended, whatever shrinks, grows and restores happened, the free permits equal the ceiling, the debt is 0 and nobody is queued |
| Admission.PermitsAreAccountedFor | src/admission.rs:418-433 | In every run admissions = live permits + permits dropped: none is lost or invented |
| Admission.EveryCallerIsAccountedFor | src/admission.rs:556-593 | In every run the callers that asked were admitted, are waiting, were refused, timed out or hung up: no queue place is leaked, and each refusal is counted under its reason |
| Admission.BooksAreDetermined | src/admission.rs:504-518 | In every reachable state the free permits are the ceiling less the work in flight, the debt the work less the ceiling, never both |
| Admission.ArrivalsAreSettled | src/admission.rs:556-571 | In every run a caller that may wait gets in iff the work in flight is below the ceiling, else queues iff there is room, else is refused |
| Admission.ReturnsAreSettled | src/admission.rs:418-433 | In every run a returned slot goes to a waiter iff there is one and the work in flight did not exceed the ceiling |
| Admission.StepKeepsBalance | src/admission.rs:525-697 | Every single operation keeps the balance, the bound and the waiter rule |
| Admission.RestoreReachesTheCeiling | src/admission.rs:688-697 | From any balanced state a restore ends at exactly max_concurrent with no debt and no cooldown, keeps every permit and seed, and hands out every new slot |
| Admission.GrowTowardsRestore | src/admission.rs:661-697 | Each turn of the restore loop raises the ceiling by one and leaves the loop's final state the same, whatever the mix of debt, waiters and free slots |
| AdmissionGate.Gate.constructor | src/admission.rs:437-451 | A new gate is the model's fresh gate: all slots free, nothing owed |
| AdmissionGate.Gate.WithInFlight | src/admission.rs:464-471 | A gate built over running requests is the model's seeded gate |
| AdmissionGate.Gate.TryAdmit | src/admission.rs:525-530 | Admits iff a permit is free, and the whole state is the model's |
| AdmissionGate.Gate.NoteRefused | src/admission.rs:535-541 | Moves only the refusal counter of that reason |
| AdmissionGate.Gate.Admit | src/admission.rs:556-593 | Admitted, refused as full or left waiting, each under its exact condition, with the model's state |
| AdmissionGate.Gate.LeaveQueue | src/admission.rs:582-593 | A waiter that times out or hangs up leaves the queue and nothing else, counted only if it timed out |
| AdmissionGate.Gate.DropPermit | src/admission.rs:418-433 | A dropped permit pays the debt first, else wakes the longest waiter, else is free again |
| AdmissionGate.Gate.ReleaseSeed | src/admission.rs:479-493 | A pre-gate request's end returns one seed by the same route, or nothing when none is left |
| AdmissionGate.Gate.Shrink | src/admission.rs:644-658 | Forgetting idle permits and owing the rest is one step of the model, whose ceiling is proved to halve exactly |
| AdmissionGate.Gate.ConsiderShrink | src/admission.rs:626-641 | Halves only past the cooldown, with the stamp |
| AdmissionGate.Gate.Grow | src/admission.rs:661-676 | Raises the ceiling by one by cancelling debt or adding a permit |
| AdmissionGate.Gate.ObserveAt | src/admission.rs:614-623 | A reading shrinks, grows or does nothing as the model says |
| AdmissionGate.Gate.RestoreFull | src/admission.rs:688-697 | The loop of single grows ends, and equals the model's closed form |
| AdmissionPacing.HalvingsAreACooldownApart | src/admission.rs:614-641 | For any readings, instants going backwards included, two halvings with no restore between them are stamped at least SHRINK_COOLDOWN apart |
| AdmissionPacing.CeilingMovesExactly | src/admission.rs:614-697 | In every run a reading at or above high water, ten seconds or more after the last halving, leaves the ceiling at max(1, half of it); a reading of an empty queue raises it by one up to max_concurrent; a restore sets it to max_concurrent; nothing else moves it |
| AdmissionPacing.HalvingsAreExact | src/admission.rs:644-658 | With no growth or restore since it stood at c, h halvings leave the ceiling at exactly max(1, floor(c / 2^h)) |
| AdmissionPacing.CeilingFloor | src/admission.rs:614-676 | After h halvings since the last restore the ceiling is at least max(1, floor(max_concurrent / 2^h)) and never above max_concurrent |
| AdmissionPacing.HalvingsFitTheSpan | src/admission.rs:626-641 | Readings spanning T hold at most T / SHRINK_COOLDOWN + 1 halvings since the last restore |
| AdmissionPacing.CeilingFallsNoFasterThanTheCooldown | src/admission.rs:614-658 | So over a span T the ceiling keeps at least max_concurrent / 2^(T / SHRINK_COOLDOWN + 1) |
| AdmissionMicro.EveryInterleavingBalances | src/admission.rs:418-493 | With request actions between the separate atomic actions of shrink and grow: all slots wherever they stand = ceiling + debt + an explicit in-transit term, and held + seeded <= slots <= max_concurrent, in every reachable state |
| AdmissionMicro.NextKeepsBalance | src/admission.rs:644-676 | Every atomic action keeps that account |
| AdmissionMicro.StoredCeilings | src/admission.rs:644-676 | In every interleaving a shrink stores max(1, half of the ceiling) and begins iff the ceiling is above 1, a grow stores one more and begins iff below max_concurrent, and nothing else moves the ceiling |
| AdmissionMicro.BooksExceedTheCeilingOnlyMidShrink | src/admission.rs:644-658 | In every reachable state ceiling + debt <= max_concurrent unless the scraper stands between raising the debt and storing the halved ceiling, and then iff the slots in existence fit what the cut leaves |
| AdmissionMicro.BooksStayFitIff | src/admission.rs:644-658 | Across any atomic action the books stay within max_concurrent iff it is not an owing with older debt + cut - forgotten > max_concurrent - stored ceiling; storing the halved ceiling always brings them back |
| AdmissionMicro.BooksExceedOnlyAfterOwing | src/admission.rs:644-658 | In every run, books above max_concurrent follow such an owing with no store since |
| AdmissionMicro.BooksCanExceedTheCeiling | src/admission.rs:644-658 | A reachable state with two slots configured and ceiling + debt = 3 |
| AdmissionMicro.OwedStaysOutIff | src/admission.rs:418-433 | Across one action "nothing is free while a slot is owed" survives iff no slot overtakes the debt |
| AdmissionMicro.QuietGate | src/admission.rs:418-493 | When everything has ended, free = ceiling + debt; free = ceiling iff the slots the shrinks owed equal the slots paid; if nothing ever overtook a debt, that is so |
| AdmissionMicro.ALateDebtLeavesSpareSlots | src/admission.rs:644-658 | A reachable state at rest with a ceiling of 1 and 2 free permits |
| AdmissionMicro.UninterruptedShrink | src/admission.rs:644-658 | The four actions of a shrink run without interruption are the whole operation |
| AdmissionMicro.UninterruptedGrow | src/admission.rs:661-676 | The same for grow, with the waiter it wakes |
| AdmissionMicro.UninterruptedDrop | src/admission.rs:418-433 | The same for a permit's drop |
| AdmissionMicro.UninterruptedSeedRelease | src/admission.rs:479-493 | The same for a seed's release |
| AdmissionMicro.UninterruptedAdmit | src/admission.rs:556-593 | The same for an arrival: admitted, queued or refused as full |
| AdmissionQueue.QueueBound | src/admission.rs:566-571 | In every interleaving with never more than P callers between the look at the queue and the count, the queue exceeds max_queued by less than P; with one at a time it never does |
| AdmissionQueue.QueueStaysWithinIff | src/admission.rs:566-571 | Across any atomic action the bound survives iff it is not a count into a queue already full |
| AdmissionQueue.RacingCallersOverfill | src/admission.rs:566-571 | For every P a run in which P racing callers all enter a queue of one |
| AdmissionQueue.EveryoneIsSomewhere | src/admission.rs:556-593 | In every interleaving everyone who came was let in, is at the door or queued, was refused, or gave up |
| AdmissionQueue.NobodyIsStuck | src/admission.rs:556-593 | In any state a caller at the door has exactly one next action |
| GateInstall.ReplicasCoverTheBox | src/admission.rs:187-216 | For every replica count, 0 read as 1 and saturation included, the per-replica ceilings add up to at least the box's target of 16 or the engine's smaller batch and exceed it by less than one slot per replica, and each is at least 1; the other settings are the fixed ones |
| GateInstall.InvOverALife | src/registry.rs:872-877 | Over a backend's whole life in-flight = ungated + gated guards, and the seeds left are the surviving pre-gate requests less those the ceiling had no room to seed |
| GateInstall.InstallNeverRaisesLoad | src/registry.rs:771-785 | Installing a gate over u0 running requests: pre-gate requests plus permits stay <= max(max_concurrent, u0) for the whole run, seeds never exceed the surviving pre-gate requests, and all are back once those end |
| GateInstall.OffStaysUngated | src/registry.rs:771-785 | A backend configured Off never gets a gate |
| GateInstall.Backend.constructor | src/registry.rs:326-438 | A new backend has a gate iff its mode is Explicit |
| GateInstall.Backend.BeginRequest | src/registry.rs:872-877 | The request counts and captures the gate in one step |
| GateInstall.Backend.EnableAutoAdmission | src/registry.rs:771-785 | Installs a fresh gate seeded with the in-flight count iff the mode is Auto and there is none |
| GateInstall.Backend.EndRequest | src/registry.rs:1180-1190 | A guard that captured no gate returns a seed to the gate installed since; every guard gives up its in-flight count |
| GateInstall.Backend.RestoreAutoAdmission | src/registry.rs:806-820 | Restores iff the mode is Auto, a gate is there, and the reading is stale where that is asked |
| GateHandover.LoadIsBoundedAcrossGenerations | src/registry.rs:824-856 | Over any number of rebuilds slots balance, and the engine's load stays within max(max_concurrent, what the gate found running) plus the requests stranded on gateless objects, of which there are none unless a rebuild happened with requests running and no gate |
| GateHandover.SeedsCoverTheEngineIff | src/registry.rs:771-785 | An install leaves exactly the room the engine's running requests leave iff none is stranded or the current object's fill the ceiling alone |
| GateHandover.AStrayIsNotSeeded | src/registry.rs:838-856 | A run in which a ceiling of one ends with two requests on the engine |
| Registry.Interner.constructor | src/registry.rs:60-71 | Starts with no names |
| Registry.Interner.Intern | src/registry.rs:74-115 | A known key answers its uid for ever; a new key takes a uid no other key has; fails iff all 2^32 are taken, and then changes nothing |
| Registry.CarriedIsTheOne | src/registry.rs:1383-1385 | The lookup by uid finds the previous generation's object iff it has one |
| Registry.BuiltKeeps | src/registry.rs:1392-1405 | A new object carries its own key's uid and either its predecessor's gate, in the same mode, or a gate of its own iff Explicit |
| Registry.EnlistKeeps | src/registry.rs:1410-1415 | Enlisting adds the object to its model's pool unless the uid is there, and no pool lists a uid twice |
| Reload.UidOrder | src/registry.rs:1418-1419 | The listing holds each uid once, in increasing order |
| Reload.Build | src/registry.rs:1366-1435 | A build fails iff an entry needs a new object its headers do not allow or uids have run out, leaving the names it made; otherwise it yields exactly the configured keys in uid order, the old object for every key that was being served and a new one otherwise, and pools that are each model's keys in order of first mention |
| ReloadRuns.Apply | src/registry.rs:1366-1435 | A refused configuration leaves the running generation in place; an accepted one is a step of the reload system |
| ReloadRuns.StepKeeps | src/registry.rs:1366-1435 | Reloads and installs keep every invariant, every name, and every object's uid, settings and gate; no pool ever lists a uid twice |
| ReloadRuns.UidsAreNeverReused | src/registry.rs:74-115 | Between any two moments of any run, two keys have the same uid iff they are the same key |
| ReloadRuns.UnchangedKeyKeepsItsObject | src/registry.rs:1380-1408 | A key configured through every reload in between is served by the same live object |
| ReloadRuns.GateSurvivesReloads | src/registry.rs:848-856 | While an engine has one backend at a time in one gate mode, whatever else is edited, every generation admits through the same gate |
| ReloadRuns.ModesDecideGates | src/registry.rs:848-856 | In every run a live backend in mode Off has no gate and one in mode Explicit has one |
| ReloadRuns.DetectionInstallsOnce | src/registry.rs:771-785 | Detection gives a gate to exactly the Auto backend named, if it has none, one no object held before, and changes nothing else |
| ReloadRuns.RebuiltSharesTheFirstGate | src/registry.rs:824-856 | A rebuilt backend holds a given old gate iff the first same-engine backend of the previous generation, in uid order, held it in the same mode |
| ReloadRuns.ASecondBackendsGateIsLost | src/registry.rs:1396-1403 | A run from the empty registry: two backends of one engine configured, the second detected and gated, then edited; it keeps its engine and mode and loses its gate |
| ReloadRuns.HeadersArriveIff | src/registry.rs:84-107 | A configured backend runs with its entry's extra headers iff it was not being served before, or already had them |
| ReloadRuns.AHeaderEditIsLost | src/registry.rs:363-371 | A reload that changes only extra headers and leaves the old ones running |
| Failover.TakeTurn | src/proxy.rs:1160-1230 | A turn ends unprepared, retries, moves on or commits only under the source's condition for each, the retry budget included; an abandoned turn has given back its guard and permit and left a failure that says what happened |
| Failover.JudgeAnswer | src/proxy.rs:1230-1335 | A dispatched turn is retried here only with the budget's leave and a backend left, moved on from or committed only under the source's conditions; only a committed one keeps its guard and permit |
| Failover.TryModel | src/proxy.rs:1045-1274 | One model's turns: every attempt lawful (the router's choice where it is usable) and explained, earlier models untouched, and the model left only when exhausted |
| Failover.Serve | src/proxy.rs:1045-1605 | For every script the loops end; every attempt is of an authorised model, new to it, within its turns, the router's choice where that is usable and otherwise on the last model only, and after a dispatch made only with the retry budget's leave; every recorded failure is what happened, only a 5xx or 429 counting against an upstream that answered; only a committed response keeps a guard and its permit; every model left was exhausted (turns, backends, retry budget, or no healthy backend with another model to go to); a retryable answer is committed only from the last model with no retry left; otherwise 503 iff the last recorded failure was a gate refusal, a sibling's answer or 502 iff not |
| Failover.NoBackendTwice | src/proxy.rs:1045-1060 | In a lawful log models come in chain order and no backend is tried twice within a model |
| Failover.AttemptsPerModel | src/proxy.rs:1045-1060 | At most max_retries + 1 attempts per model and none outside the authorised chain |
| Failover.FirstUntriedIsUntried | src/router.rs:184-199 | The last-resort pick finds an untried backend iff there is one |
| Failover.EndingFollowsLastFailure | src/proxy.rs:1552-1605 | Comparing the kept refusal with `last_error` decides 503 exactly when the last failure was a refusal, with that refusal's reason |
| Health.EarlyReturnNeedsAServingPeer | src/registry.rs:1001-1021 | In every run a traffic ejection ends before its deadline only by a withdrawal with a peer serving traffic, and after it only so or by a passing probe |
| Health.BackoffDoubles | src/registry.rs:1055-1073 | Consecutive traffic ejections, whatever the clock does: each deadline is 30 to 300 s out, doubles while ejections start within 600 s and resets otherwise, and unless the clock went back deadlines do not move back while it doubles |
| Health.ProbeReadmits | src/registry.rs:1085-1101 | A passing probe leaves the backend in rotation iff no traffic deadline is still ahead, so always 300 s or more after the last traffic ejection |
| Health.ProbationIsOneStrike | src/registry.rs:964-970 | A backend readmitted after a traffic ejection, with only scrapes and probes since (no response and no withdrawal), is out again at the first timeout, for thresholds up to the probation count plus one |
| Health.DeadlineStands | src/registry.rs:1055-1115 | While a backend is out nothing moves its deadline or forgets why it is out |
| Health.StallNeedsSustainedSilence | src/registry.rs:583-656 | In every trace a stall fires only after `threshold` consecutive frozen samples with work running, and only if some earlier sample moved |
| Health.StaticEngineIsNeverEjected | src/registry.rs:583-656 | An engine whose counters never move is never ejected for it, whatever else happens in between |
| Health.StallEvidence | src/registry.rs:547-566 | The stall count never exceeds the frozen samples in a row behind it; the moved flag holds iff some sample moved; the stored reading is the latest scrape's |
| HealthCauses.CountersAreEvidence | src/registry.rs:964-1115 | In every run the timeout, missed-probe and stall counters are exactly the evidence in the history: how many in a row since what clears them |
| HealthCauses.LeavesExactly | src/registry.rs:583-656 | In every run a backend in rotation leaves it iff a timeout, a missed probe or a frozen sample after earlier movement completes its threshold; traffic exits set a deadline 30 to 300 s out and are marked, probe exits are not; every exit is counted |
| HealthCauses.StallIsReportedExactly | src/registry.rs:583-656 | A scrape reports a stall iff it completes `threshold` frozen samples with work running since the last clearing event, some sample having moved before |
| HealthCauses.ReturnsExactly | src/registry.rs:1001-1101 | In every run a backend out of rotation returns iff a probe passes with no traffic deadline ahead, or a withdrawal comes that a traffic ejection allows only with a peer serving |
| HealthCauses.ByTrafficMeans | src/registry.rs:1055-1101 | The traffic mark holds iff some traffic exit has had no passing probe at or after its deadline since |
| HealthCauses.UnconfirmedMeans | src/registry.rs:447-449 | A replica votes healthy iff in rotation and no withdrawal is without a passing probe since |
| HealthCauses.FrozenMeansUnmoved | src/registry.rs:583-656 | Two scrapes read as frozen iff both token counters and, where reported, cache figure and step count stand still |
| Health.BackendHealth.constructor | src/registry.rs:391-402 | A new backend is in rotation |
| Health.BackendHealth.Eject | src/registry.rs:1035-1046 | Leaves rotation, counted once |
| Health.BackendHealth.EjectOnTraffic | src/registry.rs:1055-1073 | The model's traffic ejection, deadline and streak included |
| Health.BackendHealth.OnTimeout | src/registry.rs:964-970 | Ejects at the threshold as the model does |
| Health.BackendHealth.OnFleetVerdict | src/registry.rs:1001-1021 | Withdraws as the model does and says whether it did |
| Health.BackendHealth.OnProbeOk | src/registry.rs:1085-1101 | The model's readmission, reporting the return iff it was out and is in |
| Health.BackendHealth.OnProbeFailed | src/registry.rs:1105-1115 | The model's failure count, reporting the exit iff it was in and is out |
| Health.BackendHealth.OnScrape | src/registry.rs:547-566 | Check, then record the reading; a completed stall ejects, as HealthCauses states over runs |
| Health.BackendHealth.DetectStall | src/registry.rs:583-656 | The model's stall decision and state, ejection included |
| FleetProtocol.NeverVotesHealthyAgain | src/registry.rs:447-449 | In any run of N replicas and the store where no probe passes, a replica that has voted unhealthy never votes healthy again |
| FleetProtocol.NothingIsWithdrawn | src/state.rs:180-195 | From a state where every replica is in doubt and no healthy vote is believed or on its way, no such run withdraws an ejection |
| FleetProtocol.OneOptimistSuffices | src/health_report.rs:380-388 | One replica that never doubted is enough for a sibling to withdraw, in five steps |
| FleetProtocol.WithdrawalPossibleIff | src/health_report.rs:260-330 | With every believed vote unhealthy and nothing in flight, some run without a passing probe withdraws an ejection iff reports are believed at all, some replica is not in doubt and there is another replica |
| FleetProtocol.WithdrawalRestsOnVotes | src/state.rs:180-195 | In any run an ejection is withdrawn only on a reply whose tally had a strict majority of the other believed replicas healthy, a traffic ejection only if one of those healthy votes had work in flight |
| FleetVerdict.TallyUp | src/health_report.rs:286-311 | The nested loops count, per backend, exactly the votes, the healthy votes, their addresses and whether one has work in flight |
| FleetVerdict.Render | src/health_report.rs:312-329 | The listing is the declarative verdict: one entry per reported backend, in key order, each saying what the votes say |
| FleetVerdict.InNameOrder | src/health_report.rs:274-276 | Every live report once, in name order |
| FleetVerdict.VerdictIsUnique | src/health_report.rs:312-329 | The verdict is determined by the live reports: it does not depend on map order |
| FleetVerdict.ContradictsIffMajorityOfOthers | src/health_report.rs:380-388 | With one entry per replica and the asker's own vote unhealthy, `contradicts` holds iff a strict majority of the others report healthy |
| FleetVerdict.ServingIffAPeerIsBusy | src/health_report.rs:393-398 | `serving_for` holds iff some replica reports the backend healthy with work in flight there |
| FleetStore.BelievedIffRecent | src/health_report.rs:260-277 | Over any sequence of reports and questions, a replica is believed iff its latest report is younger than its lifetime, and with that report |
| FleetVerdict.Fleet.constructor | src/health_report.rs:247-252 | Starts with no reports |
| FleetVerdict.Fleet.Record | src/health_report.rs:260-265 | Replaces that replica's report and returns the previous one |
| FleetVerdict.Fleet.Current | src/health_report.rs:271-277 | Exactly the unexpired reports, in name order; exactly those stay in the store |
| FleetVerdict.Fleet.Verdict | src/health_report.rs:286-330 | The verdict of the unexpired reports |
| Limiter.RateLimiter.Check | src/limiter.rs:357-460 | Decides on both dimensions before committing either, as the model does |
| Limiter.RateLimiter.StateFor | src/limiter.rs:462-477 | A known principal's entry, or a new full one |
| Limiter.RateLimiter.Evict | src/limiter.rs:320-324 | Drops exactly the idle entries |
| Limiter.RateLimiter.DrainCounts | src/limiter.rs:482-492 | Every principal's counts, handed over and zeroed |
| Limiter.RateLimiter.Apply | src/limiter.rs:498-510 | The loop over allowances is the model's, whose shares are pinned by `ReconciledCapacity` |
| Limiter.CapacityWithinConfigured | src/limiter.rs:215-221 | A share never yields more than the configured limit, and a full share yields it exactly |
| LimiterMeaning.AdmittedIff | src/limiter.rs:357-423 | A request is admitted iff the bucket it meets in each limited dimension reads at least its cost; without limits always, leaving no trace; other principals are untouched |
| LimiterMeaning.AdmissionTakesTheCost | src/limiter.rs:149-152 | An admission lowers each limited bucket by exactly its cost and touches no other; a refusal touches none |
| LimiterMeaning.NoCapacityQuotesAMinute | src/limiter.rs:124-142 | A dimension with no capacity always refuses and quotes at least a minute, exactly one if it refuses alone |
| LimiterMeaning.RemainingIsExact | src/limiter.rs:432-434 | The remaining figure is the largest cost that dimension would pay for at once |
| LimiterMeaning.ResetIsWhenFull | src/limiter.rs:435-457 | The reset figure is the first whole second at which every limited bucket is full |
| LimiterMeaning.ReconciledCapacity | src/limiter.rs:498-510 | After a reconcile the last allowance naming a principal gives each dimension its limit times that dimension's own share clamped to [0, 1], within half a millionth of the limit; one not named keeps its capacities; no bucket moves |
| LimiterMeaning.DemandIsCounted | src/limiter.rs:366-379 | Over every run the counts a drain hands over are exactly what was asked for in each limited dimension, admitted or not, since the entry was made or last drained |
| LimiterRetry.RetryAfterIsExact | src/limiter.rs:124-142 | A refusal leaves both buckets alone, and the same request replayed at t is admitted iff both costs fit their capacities and t >= now + retry_after |
| LimiterRetry.HeaderIsLongEnough | src/proxy.rs:2762-2763 | The header's whole seconds (section 10.2.3 of RFC 9110) are long enough when the costs fit |
| LimiterRetry.HeaderIsTheFirstSecond | src/proxy.rs:2762-2763 | The header is the first whole number of seconds, from one up, not shorter than the wait |
| LimiterRetry.AnOversizedRequestIsQuotedAWait | src/limiter.rs:124-142 | An entry, limits and cost that are quoted a minute and refused at every instant |
| LimiterWindow.EveryWindowOfEveryRun | src/limiter.rs:357-510 | Over every window of every run, shares and limits changing but the effective capacity (limit scaled by the share in force) met by any request never above C, the cost admitted from one bucket is at most C + C * T / 60, evictions included |
| LimiterWindow.WindowBound | src/limiter.rs:124-163 | The same from any valid state, and no bucket ever goes below 0 |
| LimiterWindow.CoveredThroughout | src/limiter.rs:124-163 | At every point what was spent plus what is left is covered by one bucket of capacity C plus its refill since the window opened |
| LimiterWindow.AnEarlySweepBreaksTheBound | src/limiter.rs:320-324 | For every limit and every idle cutoff below 60 s, a run that spends more than the bucket and its refill |
| LimiterEviction.EvictionIsInvisible | src/limiter.rs:320-324 | At full share, with idle cutoffs of at least 60 s and no short request, every decision with its remaining and reset figures is the same as without evictions |
| LimiterEviction.EvictionShowsIff | src/limiter.rs:195-213 | On every trace, limits changing in any way: every request reads both limiters' buckets alike iff no request follows, uncharged, an entry re-created under a limit too low for its own limit to be reached by then |
| LimiterEviction.ADifferenceShows | src/limiter.rs:357-460 | Token buckets that read differently are told apart by some request's answer |
| LimiterEviction.NoRaiseIsNeverShort | src/limiter.rs:195-213 | No limit raised within a minute of an earlier request is enough |
| LimiterEviction.RaisingTokensShows | src/limiter.rs:195-213 | For every low < high token limit a trace where evicting turns an admission into a refusal |
| LimiterEviction.RaisingRequestsShows | src/limiter.rs:195-213 | For every low < high request limit a trace where evicting changes the answer |
| Multipart.FindBytes | src/multipart.rs:100-105 | The first occurrence at or after a position, by the loop |
| Multipart.FindIsFirst | src/multipart.rs:100-105 | What the search returns is an occurrence with none before it |
| Multipart.FirstIsFound | src/multipart.rs:100-105 | An occurrence with none before it is what the search returns |
| Multipart.LocateField | src/multipart.rs:39-60 | The loop over parts is the recursive locator |
| Multipart.ReplaceRange | src/multipart.rs:68-74 | The buffer filled in three pieces is the splice |
| Multipart.FieldsAreApart | src/multipart.rs:39-60 | Two located fields are the same range or at least a delimiter apart |
| Multipart.SpliceRelocatesEveryField | src/multipart.rs:39-74 | With no delimiter in the new value, every header test finds in the spliced body the field it found before, at the same or the shifted offset, and nothing it did not find before |
| Multipart.SpliceKeepsOtherBytes | src/multipart.rs:68-74 | And every other field has its original bytes there, the spliced one the new value |
| Multipart.RoundTripIffNoDelimiter | src/multipart.rs:39-74 | For any body, the spliced field is found at the same start with exactly the new value iff the value does not contain the delimiter |
| Multipart.RewriteSetsOnlyTheModel | src/proxy.rs:1722-1731 | Rewriting the model of a multipart request sets that field to the upstream name and leaves every other field's bytes; a name already right leaves the body as it is |
| MultipartForm.LocatorFindsTheFirstNamedField | src/multipart.rs:39-60 | In the rendering of any form whose parts are encodable (section 5.1.1 of RFC 2046) the locator returns the place of the first field the test accepts, and nothing iff there is none |
| MultipartForm.SpliceRewritesTheForm | src/multipart.rs:68-74 | That range holds the field's value, and splicing any new value gives byte for byte the rendering of the same form with that one value replaced |
| MultipartForm.ADelimiterInTheValueIsLost | src/multipart.rs:39-74 | For every encodable form and every test that accepts one of its fields, the delimiter spliced over that field is not found again whole |
| MultipartForm.AModelNameWithADelimiterIsLost | src/multipart.rs:39-98 | The same for a one-field upload with a model Content-Disposition header |
| Cache.GetsMatchThePlainMap | src/cache.rs:107-187 | In every run a get returns exactly the last accepted entry for its key if unexpired and nothing otherwise |
| Cache.BudgetsHold | src/cache.rs:136-187 | In every reachable state, instants in order or not, the byte count is the sum of the stored bodies, and both budgets are respected |
| Cache.PutFollows | src/cache.rs:136-187 | A put is kept iff its body is at most 512 KiB, its lifetime not zero, and the entries unexpired at that instant leave room for one more entry and its bytes; it loses no unexpired entry but the one it replaces |
| Cache.GetFollows | src/cache.rs:107-134 | A get answers as the plain map and drops at most an expired entry |
| Cache.SumBodies | src/cache.rs:161-164 | The summing loop is the sum |
| Cache.ResponseCache.constructor | src/cache.rs:77-87 | Starts empty |
| Cache.ResponseCache.Lookup | src/cache.rs:107-134 | The model's get, counted as a hit or a miss |
| Cache.ResponseCache.Store | src/cache.rs:136-187 | The model's put, counted iff the entry is kept |
| Cache.ResponseCache.Clear | src/cache.rs:204-207 | Empties the map and the byte count |
| Detect.FourProbesSettleARound | src/engine_scrape.rs:65-99 | In any run every round has at most four unparsed probes, the fourth settles it, and retries are five minutes or more apart |
| Detect.AskedExactly | src/engine_scrape.rs:118-133 | In every run a backend never asked, or whose last answer parsed, is asked at every sweep; one being retried from five minutes after the last question on; one written off iff nothing answered and it is healthy now |
| Detect.JudgedExactly | src/engine_scrape.rs:155-253 | In every run a parsed answer is forgotten, two "not an engine" in a row from a backend in rotation settle it, fifteen minutes after the round opened anything settles it, to be rechecked iff the last question went unanswered, and otherwise it is asked again |
| Detect.AFoundEngineIsKeptAsking | src/engine_scrape.rs:170-180 | After a parsed probe the very next sweep asks, whatever the health and the clock, and the first unparsed answer then opens a new round at its own instant |
| Detect.HostedProviderIsLeftAlone | src/engine_scrape.rs:155-253 | An address that only ever answers "not an engine" is probed at most four times in all, at most twice if it is healthy at the second, and never rechecked |
| Detect.NeverHealthyNeverAskedAgain | src/engine_scrape.rs:118-144 | One that is never healthy is never probed after its verdict |
| Detect.FourProbesPerRecheck | src/engine_scrape.rs:118-253 | In any run without a successful parse the probes are at most 4 * (1 + rechecks) |
| Detect.RecheckIsFollowedIff | src/engine_scrape.rs:118-144 | After a failed recheck another question follows iff some later sweep comes a retry interval or more after it |
| Detect.PollingIsUnbounded | src/engine_scrape.rs:135-144 | For every N a run from the start in which all N sweeps ask |
| Detect.ARecheckIsNotTheLastQuestion | src/engine_scrape.rs:78-91 | A run from the start: written off, rechecked, and asked again |
| Detect.Scraper.Sweep | src/engine_scrape.rs:118-253 | One sweep takes every listed backend one step of the model, pinned by `AskedExactly` and `JudgedExactly`, and touches no other |

## Left out

- HTTP, TLS, JSON, streaming bodies, protocol translation, signals and the command line: plumbing over libraries.
- Router policies (round robin, least loaded, latency, prefix affinity): the failover theorems hold for any choice among
  untried backends, so a policy would add only easy members.
- `part_is_named`, `boundary` and `field_value` in src/multipart.rs: text trimming and case folding; every header test is
  covered because the test is a parameter.
- The JSON branch of `rewrite_model_if_needed`.
- The peer-address map of `apply_fleet_verdict` and the forwarding to a sibling: a sibling's answer is one boolean.
- Reconciliation of shares between replicas (src/reconcile.rs): the limiter takes the resulting allowances as given.
- The retry budget's own accounting, MCP, A2A, configuration parsing, usage records, telemetry histograms and averages,
  Prometheus text parsing, cache keys and hashes.
- Replicas that join or restart during a fleet run.
- Requests that begin on an object of an older generation after a reload, through a registry they had already loaded.
- Failover.TryModel: does not model the backoff delay between retries, the timeout and error counters it bumps on the
  backend, or the unmasking of an error hidden in a 200; the upstream's answer is taken after unmasking.
- LimiterWindow.EveryWindowOfEveryRun: states the bound for idle cutoffs of at least 60 s; below them it is false
  (`AnEarlySweepBreaksTheBound`), and the background task uses a longer one.
- Health.ProbationIsOneStrike: is stated for thresholds up to the probation count plus one; a larger configured threshold
  needs more timeouts, as in the source.
