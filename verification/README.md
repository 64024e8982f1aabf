# Wattfeder: a verified model of the edge agent

Wattfeder manages one household: it takes one telemetry observation per interval, classifies it, decides a
battery command, commits everything in one transaction, applies the command and writes a record. This project
models that protocol and the simulated household around it, and proves what holds over every run, every failure
and every restart.

## How the model is built

| file | what it models |
|---|---|
| `Basics.dfy` | options, results, instants, 64-bit durations, `strings.TrimSpace` tests, reason texts |
| `Observations.dfy`, `LatestState.dfy`, `Health.dfy`, `ControlPolicy.dfy`, `Classifier.dfy` | `internal/household` |
| `Contracts.dfy`, `Storage.dfy`, `Migrations.dfy` | `internal/persistence` and its SQLite adapter |
| `Runtime.dfy`, `Clock.dfy` | `internal/application`: one interval, the loop, one run; the instant clock |
| `Faults.dfy`, `Battery.dfy`, `Simulator.dfy` | `internal/simulator` |
| `Simulation.dfy` | the program on a fast clock, simulator as source and sink |
| `Integrity.dfy`, `Safety.dfy`, `Progress.dfy`, `Records.dfy`, `Replay.dfy`, `HealthHistory.dfy` | theorems about storage, runs and what they record |
| `ClosedLoop.dfy`, `Openings.dfy`, `OpenLoop.dfy` | the loop with the simulator: the reserve, exactly when it fails, exactly on which schedules it can |
| `FreshStart.dfy`, `Resume.dfy`, `Timeline.dfy` | the loop with the simulator: the reserve from an empty database, restarts, time |
| `Outcomes.dfy`, `Profiles.dfy`, `Scenario.dfy` | what a schedule is recorded as, the shape of a simulated day, and the shipped day of unreliable telemetry |

Code that changes things step by step is a class or a method with a loop: `StateRecord`, `Transaction`,
`Repository`, `SchemaStore`, `Outside` (sink and output), `InstantClock`, `Household` (the simulator), and the
methods `ProcessInterval`, `RunLoop`, `RunAgent`, `Simulate`, `Validate`, `At`, `Migrate`. Each is proved equal to a
function of the old state (`Commit`, `Process`, `Interval`, `Loop`, `Run`, `Next`, `Completed`, `PlantLoop`,
`Migrated`), and the theorems are about those functions.

What the outside world does is given with each interval as a `Fate`: cancellation, an exhausted or failing source, a
storage failure at any statement, a sink or write failure, or a crash before the commit, between commit and
delivery, or after delivery. A script of steps is one finite stretch of one run; `Launch`es are runs one after
another on one database, each with a snapshot that may fail to be read. The clock reading of each interval is an
input.

Times are nanoseconds since Go's zero time with a UTC flag, and `Sub` saturates as Go's does. Quantities are reals;
only raw readings can be non-finite. The simulator's random stream, `sin(pi * x)`, `exp(-x * x / 2)` and event-name hash
are function values ("the weather") of which only ranges, non-blankness and, where needed, injectivity are assumed; the
shape of a day adds what `Profiles.Shaped` says of the two curves. `Scenario.ParabolicFits` gives weather that meets all
of it. `WrapLaw`, `SubLaw`, `SpacesAreWhite`, `TrimSpaceLaw` and `SqlTrimLaw` tie the models of Go's and SQL's primitives
to what these are documented to do.

## Where the code and its documents differ

- ADR-004 says that only a valid newer event restores health. The code also leaves `offline` on a missing
  heartbeat or an old event as soon as the recorded contact does not count as lost: `RestoredWithoutNewerEvent`
  says exactly when, and `SilenceRestoresHealth` gives a run without any valid event.
- ADR-004 lists a missing heartbeat as `stale`, later `offline`. The code reports what contact age and state age
  say, `online` included: `MissingHeartbeatStretch`.
- The duplicate fault is described as redelivering the prior interval's observation. The code redelivers the prior
  interval's own sample, which may never have been delivered. On some valid schedules the battery then falls below
  the policy's reserve. `RunBreaksExactly` says on which runs, interval by interval; `SafeIffNeverSinks` says on which
  schedules it can happen at all, and `SafeFromEmptyIffNeverSinks` on which from an empty database;
  `RedeliveryAfterReDatedEvent` and `RepeatedRedelivery` are two that do it from there in any weather.
- The battery state is described as restored after a restart. The simulated battery resumes from the charge last
  reported to storage, which is not the charge the last command left: `RestartCharge` says exactly when they differ,
  and `RestartRefillsTheBattery` gives a run without faults.
- A fault whose last step does not fit a 64-bit `int` passes validation and applies nowhere:
  `OverflowingFaultNeverApplies`.
- The strictly-newer guard in storage is described as a second line of defence. With two writers it drops the
  command row, answers "stored", and the command is applied: `SecondWriterLosesTheRow`, `TwoInstancesOnOneDevice`.

## Model

| member | source | states |
|---|---|---|
| `Observations.ValidatedIffComplete` | internal/household/raw_telemetry.go:23-49 | a reading passes iff it reports every measurement, finite, and they make a valid event; then it becomes exactly that event |
| `Observations.RejectionLaw` | internal/household/raw_telemetry.go:23-49 | a refused reading names the first absent measurement; with none absent, its ID, time or device ID, in this order; else the first measurement out of range |
| `Observations.EnvelopeLaw` | internal/household/observation_envelope.go:19-40 | what is wrong with an envelope, in the order of the checks, and that a good one is available iff it carries a reading |
| `LatestState.StateRecord.ApplyTelemetry` | internal/household/state.go:24-46 | the record becomes the event's state when there was none or the event is strictly newer, stays put otherwise, and an invalid or foreign event is an error that changes nothing |
| `LatestState.AppliedLaw` | internal/household/state.go:24-46 | an event is refused iff it is invalid or of another device; otherwise the newer of state and event stands, field by field |
| `Health.DefaultHealthPolicy` | internal/household/health_policy.go:18-38 | default thresholds exist iff three intervals fit a 64-bit duration, and then are two and three intervals |
| `Health.HealthPolicyLaw` | internal/household/health_policy.go:18-38 | with any given thresholds: missing ones are two and three intervals, and interval, stale and offline threshold must be positive and in order, with the error of the first that is not |
| `Health.ValidIfMade` | internal/household/health_policy.go:9-38 | the valid thresholds are the ones the constructor makes |
| `ControlPolicy.DecidedCommandIsValid` | internal/household/policy.go:40-110 | every decided command passes command validation, from any state; which command that is, is `DecisionLaw` |
| `ControlPolicy.DecisionLaw` | internal/household/policy.go:40-110 | a command charges iff PV exceeds load and the charge is below 100, with exactly the surplus; it discharges iff load exceeds PV, the charge is above 20 and the price is at least 0.30, with the deficit if that energy fits above the reserve and else with exactly the energy above it; otherwise it idles |
| `ControlPolicy.DecisionReason` | internal/household/policy.go:40-104 | each reason is given iff its cause holds |
| `ControlPolicy.CommandLaw` | internal/household/command.go:29-52 | a command is valid iff it has a reason and a power that fits its decision, and a refusal names a fault it has |
| `ControlPolicy.NewPolicyLaw` | internal/household/policy.go:23-33 | a policy exists iff the capacity is finite and positive and the interval positive, with the error of the first that is not |
| `Battery.CommandMovesEnergy` | internal/simulator/simulator.go:268-296 | by decision and power alone: a charge raises stored energy by power times hours up to capacity, a discharge lowers it by that down to zero, idling leaves the charge |
| `Battery.FaithfulIntervalLaw` | internal/simulator/simulator.go:268-296 | an interval decided from the battery's own charge stores a surplus up to full, takes a dear deficit out down to the reserve, and otherwise changes nothing |
| `Battery.DecidedCommandKeepsReserve` | internal/household/policy.go:43-110 | run on the charge it was decided from, a command keeps the charge at or above min(charge, 20) and loses energy only when a charge fills the battery |
| `Battery.NextEnergy` | internal/simulator/simulator.go:277-296 | the stored energy moves by power times hours, clamped between empty and full |
| `Battery.BelowFloor` | internal/simulator/simulator.go:277-296 | the charge ends below a floor iff the floor is positive and the energy, unclamped, would |
| `Battery.IdleHolds` | internal/simulator/simulator.go:232-253 | an interval without a command leaves the charge exactly unchanged |
| `Classifier.PanicsExactlyOnForeignDevice` | internal/household/classify.go:72-78 | the panic is reached iff a well-formed newer event names another device than the prior state |
| `Classifier.ClassifiedContents` | internal/household/classify.go:36-119 | what is kept depends on the observation alone; what replaces the state on event time alone; a command is suppressed iff the event is not accepted or more than an interval late |
| `Classifier.DispositionLaw` | internal/household/classify.go:36-144 | the disposition from the observation and the time of the latest state alone: exactly when it is each of the five |
| `Classifier.DispositionReason` | internal/household/classify.go:36-144 | the reason of each disposition; a rejection names what was found wrong first: envelope, reading, device, time |
| `Classifier.HealthLaw` | internal/household/classify.go:72-164 | status, reason and last contact: an accepted event is `stale` iff its lag exceeds the interval and `online` otherwise; a rejection is `invalid` for its reason; an unavailable source is `offline` and keeps the contact; old events and silence follow contact age, standing invalidity and state age |
| `Classifier.ClassifiedHealthIsDurable` | internal/household/classify.go:80-179 | from durable or no prior health, the new health is always durable |
| `Classifier.ClassifiedTransition` | internal/household/classify.go:166-179 | the transition time moves only with the status, to the time of evaluation |
| `Classifier.RestoredWithoutNewerEvent` | internal/household/classify.go:146-164 | exactly when a device leaves `offline` or `invalid` for `online` or `stale` without an accepted event |
| `Contracts.ValidIffWellShaped` | internal/persistence/contracts.go:44-130 | validation accepts exactly the results whose event, state, command and health belong together and carry durable times |
| `Contracts.RefusalNamesTheFault` | internal/persistence/contracts.go:44-130 | the reason for which a result is refused names a fault that it has |
| `Contracts.RefusalOrder` | internal/persistence/contracts.go:44-102 | event, state, command and health are looked at in this order: what is wrong with an earlier part is reported whatever the later parts are |
| `Storage.ValidResultMeetsConstraints` | internal/persistence/sqlite/migrations.go:20-78 | a valid result meets every column constraint and foreign key of the schema, but for the uniqueness of its command |
| `Storage.SchemaLaw` | internal/persistence/sqlite/migrations.go:20-78 | exactly the rows the schema takes; for commands, exactly those the program takes for valid, once for each stored event |
| `Storage.Transaction.InsertTelemetry` | internal/persistence/sqlite/repository.go:280-308 | inserts a new event and reports it; a known event changes nothing |
| `Storage.Transaction.ReplaceLatestStateIfNewer` | internal/persistence/sqlite/repository.go:313-338 | replaces the device's row iff there is none or the state is strictly newer |
| `Storage.Transaction.InsertCommand` | internal/persistence/sqlite/repository.go:361-375 | adds the command row, or fails on a constraint and changes nothing |
| `Storage.Transaction.UpsertHealth` | internal/persistence/sqlite/repository.go:340-359 | writes the device's health row |
| `Storage.Repository.CommitProcessing` | internal/persistence/sqlite/repository.go:230-278 | statement by statement, with a failure possible at each, the commit is all or nothing: stored with every row its result calls for, a duplicate, or an error that changes nothing |
| `Storage.Repository.Snapshot` | internal/persistence/sqlite/repository.go:168-225 | what a restart reads back: health row joined with latest row, nothing found, or the error of a failing read |
| `Storage.UnknownDevice` | internal/persistence/sqlite/repository.go:168-225 | a device without a health row reads back as nothing |
| `Integrity.CommitKeepsIntact` | internal/persistence/sqlite/repository.go:230-278 | a commit by any caller keeps referential integrity: commands and latest rows belong to stored accepted events, states equal their events, health stands beside every state |
| `Integrity.CommitOnlyFailsForCause` | internal/persistence/sqlite/repository.go:230-278 | on an intact database a commit fails iff its result is invalid or storage fails; the command insert never conflicts; anything but "stored" leaves the database identical |
| `Integrity.CommitOnlyAdds` | internal/persistence/sqlite/repository.go:280-402 | no event or command is ever removed or rewritten and no other device is touched |
| `Integrity.LatestRowIsMaximum` | internal/persistence/sqlite/repository.go:310-338 | after any sequence of commits, failing anywhere, each device's latest row is the first submitted state of the largest event time, the original row included |
| `Integrity.CommitSequenceIsSafe` | internal/persistence/contracts.go:152-163 | integrity, immutability and isolation over any sequence of commits by any callers |
| `Runtime.Outside.Apply` | internal/application/contracts.go:20-26 | a non-nil command reaches the sink with its event, a nil one only counts as a call |
| `Runtime.ProcessObservation` | internal/application/run.go:181-239 | classify, decide, build and commit compute `Process` from memory, database and observation |
| `Runtime.ProcessInterval` | internal/application/run.go:153-253 | one interval under any fate has exactly the effect `Interval` on database, memory, sink and output |
| `Runtime.RunLoop` | internal/application/run.go:118-147 | the loop performs its intervals in order and stops at the first that ends it |
| `Runtime.RunAgent` | internal/application/run.go:95-147 | configuration checks, restored snapshot or the failure to read it, bounded loop |
| `Safety.ProposalShape` | internal/application/run.go:182-199 | what is proposed for storage, from the classification alone: event, state and command present exactly when they should be |
| `Safety.ProposalValidity` | internal/application/run.go:267-297 | for a memory read back from storage and a durable time of evaluation, the panic and every invalid proposal come from foreign observations and from nothing else |
| `Safety.ProcessMeaning` | internal/application/run.go:209-239 | under a single writer an observation either changes nothing or stores exactly the rows its event calls for, and memory equals storage again |
| `Safety.GuardNeverFires` | internal/persistence/sqlite/repository.go:310-332 | with memory equal to storage the strictly-newer guard never holds a state back |
| `Safety.RecordTellsTheTruth` | internal/application/run.go:215-252 | every written record is true of storage: event kept, state replaced, command recorded, duplicate, and the health a restart would read |
| `Safety.LoopIsSafe` | internal/application/run.go:111-144 | memory refines storage through every loop, whatever is observed and whatever fails, and deliveries are the command rows gained |
| `Safety.RunIsSafe` | internal/application/run.go:205-244 | within one run the delivered commands are the recorded ones in order, with at most the last missing, and only after a crash |
| `Safety.DurableBeforeApplied` | docs/engineering/adr/ADR-003-atomic-persistence-before-command.md:24-25 | over all runs, devices, failures, crashes, restarts and failing restarts on one database, every delivered command is durable with the same content, belongs to a stored accepted event, and no event's command is delivered twice |
| `Progress.IntervalContinues` | internal/application/run.go:172-252 | an undisturbed interval ends the run iff its observation is foreign, and then changes nothing |
| `Progress.NoObservationStopsTheLoop` | internal/application/run.go:82-88 | an undisturbed loop goes through its whole script, one sink call and one record an interval, iff no observation is foreign |
| `Progress.NoObservationStopsTheRun` | internal/application/run.go:95-147 | a whole run on any intact database goes on or finishes iff the device ID is not blank, three intervals fit a duration, the snapshot can be read and no observation it takes is foreign |
| `Progress.AppliedButNotRecorded` | internal/persistence/sqlite/repository.go:257-267 | with any memory at all, a delivered command has its row iff the event is newer than the stored row |
| `Progress.SecondWriterLosesTheRow` | internal/persistence/sqlite/repository.go:310-332 | an agent with older memory than the stored row is told "stored" and runs a command that has no row |
| `Progress.TwoInstancesOnOneDevice` | internal/persistence/sqlite/repository.go:310-332 | for every agent: two instances start on the empty database, the later reading is stored first, and the earlier one's command is sent without a row |
| `Progress.NewEventInterval` | internal/application/run.go:191-244 | under every fate that lets it reach the sink, an unknown newer event becomes the state, is stored, and is commanded iff it is not late |
| `Progress.SentMeansReached` | internal/application/run.go:209-244 | no command is sent under any other fate, but for one the sink refuses |
| `Records.RunExplains` | internal/application/run.go:111-252 | over every run on any database: records are about its first observations in order, one each, as many as the bound when it finishes; each names its agent, device, receive time and event; an accepted event is `online` iff it is commanded and `stale` iff it is not, which is iff it came more than an interval late; rejections are `invalid` for their own reason and unavailability is `offline`; and a command charges or discharges exactly when its event's measurements call for it |
| `Replay.RunHears` | internal/application/run.go:118-147 | a run goes on, finishes or stops cleanly iff it gets to its loop and the loop over the intervals it heard runs on, and it has that loop's effect |
| `Replay.RestartIsInvisible` | internal/application/run.go:111-144 | for a source that does not listen: a run that finishes, is stopped cleanly or is still going, followed by a run from storage under any bound, gives the same database, records and commands as one run over what both hear under the sum of their counts |
| `Replay.LoopAbsorbs` | internal/application/run.go:225-239 | stored events and latest row after a loop depend on the arrivals alone, not on clock readings or health |
| `Replay.DeliveryOrderIsIrrelevant` | docs/engineering/adr/ADR-004-observation-disposition-and-device-health.md:35-38 | two runs that hear the same set of events, in any order and repetition, and go on, finish or stop cleanly, store the same events and the same latest row, the newest of all |
| `Replay.ReplayChangesNothing` | docs/engineering/adr/ADR-004-observation-disposition-and-device-health.md:97-99 | after a run that went on, finished or stopped cleanly, a second run over any of its observations, in any order and repetition, ends well, adds no event, command or state, reports every event as duplicate, sends the battery nothing, and changes nothing at all if every observation carried an event |
| `HealthHistory.InvalidIsSticky` | internal/household/classify.go:97-119 | within a run, after a rejected interval every record reports `invalid` until one is accepted or `offline`, duplicates included |
| `HealthHistory.InvalidIsStickyForGood` | internal/household/classify.go:97-119 | over all runs, crashes and restarts from any intact database, after a rejected evaluation every later durable one is `invalid` until one accepts its observation or is `offline` |
| `HealthHistory.SilenceRestoresHealth` | internal/household/classify.go:121-164 | for every agent: malformed, unavailable, silent reports `invalid`, `offline`, `online` with no valid event |
| `HealthHistory.MissingInterval` | internal/household/classify.go:121-131 | a missing heartbeat reports the status given by contact age, standing invalidity and state age, and does not disturb what later silence will report |
| `HealthHistory.MissingHeartbeatStretch` | internal/household/classify.go:146-164 | in a stretch of missing heartbeats the status only degrades, changes at most twice, and is `offline` iff contact was made and its age reached the threshold |
| `HealthHistory.TransitionTimeIsTruthful` | internal/household/classify.go:166-179 | over all runs, crashes and restarts, from any health history or none, the stored transition time is the evaluation time of the first interval of the present stretch of one status |
| `Faults.RejectedEverywhere` | internal/simulator/fault.go:59-75 | a value rejected on the sample reading is rejected in every reading |
| `Faults.AcceptedFault` | internal/simulator/fault.go:118-163 | the accepted parameters of each kind; an invalid measurement must be out of its range |
| `Faults.SubstituteLaw` | internal/simulator/simulator.go:196-224 | standing in for one measurement changes that one and nothing else |
| `Faults.ActiveIffMeant` | internal/simulator/fault.go:98-109 | a valid fault applies at exactly its configured steps if the last one fits an `int`, and nowhere otherwise |
| `Faults.OverlapIffShared` | internal/simulator/fault.go:111-115 | two valid faults overlap iff they share a step and both ranges fit |
| `Faults.OverflowingFaultNeverApplies` | internal/simulator/fault.go:105-163 | a valid fault that never applies |
| `Faults.Validate` | internal/simulator/fault.go:169-185 | the nested loops accept exactly the schedules of valid, pairwise disjoint faults |
| `Faults.At` | internal/simulator/fault.go:188-196 | the scan returns the first active fault, if any |
| `Faults.ScheduleIsAFunction` | internal/simulator/fault.go:165-196 | a validated schedule has at most one active fault a step, and the same faults in any order give the same one |
| `Simulator.Household.New` | internal/simulator/simulator.go:90-109 | there is a new simulator iff the configuration is valid, and it starts its first profile day with the configured charge |
| `Simulator.AcceptedConfig` | internal/simulator/config.go:32-77 | the accepted configurations, with every interval of which a whole number makes a day |
| `Simulator.Household.StartDay` | internal/simulator/simulator.go:261-266 | a new day end and three draws, in order |
| `Simulator.Household.NextObservation` | internal/simulator/simulator.go:119-186 | hands out `Next`: refuses while one is pending, rolls the day over, samples the interval, applies the step's fault as `DeliveredByKind` says |
| `Simulator.DeliveredByKind` | internal/simulator/simulator.go:154-224 | the whole delivery under each kind of fault: only a missing heartbeat delivers nothing, only an unavailable source no reading, only a delay arrives later, by its length; name, time and every measurement of the reading |
| `Simulator.Household.Complete` | internal/simulator/simulator.go:235-259 | completes the pending interval, with the energy `CompletionMovesEnergy` says, or refuses and changes nothing |
| `Simulator.CompletionMovesEnergy` | internal/simulator/simulator.go:235-259 | for every pending interval and valid command or none: a charge adds its energy up to full, a discharge removes it down to empty, nil and idle change nothing |
| `Simulator.NaturalSampleIsSound` | internal/simulator/simulator.go:298-344 | whatever the random stream, each interval's sample is a valid measurement |
| `Profiles.SunShines` | internal/simulator/simulator.go:298-308 | there is sun iff the hour is between six and eighteen, at most the day's peak, at noon exactly that, and as much before noon as after it |
| `Profiles.AroundTheClock` | internal/simulator/simulator.go:335-344 | a bell is the same at equal distances before and after its peak, across midnight too |
| `Profiles.LoadPeaks` | internal/simulator/simulator.go:310-316 | on one day the load is higher at seven than at thirteen and highest at nineteen; `DemandInTheMorning` and its like give the height and width of each peak |
| `Profiles.PricePeaks` | internal/simulator/simulator.go:318-325 | on one day the price is below its base at thirteen, above it at seven and highest at nineteen |
| `Profiles.ClockHour` | internal/simulator/simulator.go:331-333 | the profile hour is hour, minute and second of the clock, every day |
| `ClosedLoop.ConfiguredAgentIsWired` | cmd/wattfeder/main.go:123-129 | a valid simulator configuration makes a valid policy for the same battery and interval |
| `ClosedLoop.DeliveredEvent` | internal/simulator/simulator.go:154-224 | the event that arrives under each kind of fault, if any, with its name, time and values |
| `ClosedLoop.PlantAdvances` | internal/application/run.go:172-252 | in every interval the simulator has an observation ready and takes the command |
| `ClosedLoop.EventReportsPresentCharge` | internal/simulator/simulator.go:159-160 | on a safe schedule an event unknown to storage reports the battery's present charge |
| `ClosedLoop.PlantIntervalKeepsReserve` | internal/simulator/simulator.go:119-259 | one interval of the composed loop keeps what the reserve theorem needs |
| `ClosedLoop.ReserveFloor` | internal/household/policy.go:9-10 | from any intact database, for any weather, clock and failures, on every safe schedule: each command is decided from the battery's actual charge, and the charge stays within min(start, 20) and 100 |
| `Openings.IntervalOpensExactly` | internal/simulator/simulator.go:159-160 | on any schedule and under any fate, an interval runs a command decided from another charge than the battery's iff it redelivers an unknown newer sample taken before the battery moved and the command gets through; any other command is faithful |
| `Openings.ReserveBreaksExactly` | internal/household/policy.go:91-110 | such an interval takes the charge below min(charge, 20) iff it does that and the old charge's command discharges more than the present charge has above the reserve |
| `Openings.LoopBreaksExactly` | internal/application/run.go:118-147 | over any number of intervals: some command is decided from another charge iff the run comes to an interval that opens, and some command goes below a floor iff it comes to one that sinks it |
| `Openings.RunBreaksExactly` | cmd/wattfeder/main.go:205-248 | the same for whole runs from any intact database, with min(start, 20) as the floor |
| `OpenLoop.UnsafeScheduleDrains` | internal/simulator/simulator.go:154-170 | on every unsafe schedule, a household of fitting size goes 30, ..., 30, 20, 10 percent in every weather that names its samples apart, from every database that knows the earlier deliveries and nothing else of the device |
| `OpenLoop.SomeRunPrimes` | internal/application/run.go:95-147 | one run for another device leaves such a database |
| `OpenLoop.SafeIffNeverSinks` | internal/simulator/fault.go:165-196 | a schedule is safe iff no household on it, in any weather, from any intact database and whatever befalls it, goes below its reserve |
| `OpenLoop.RedeliveryAfterReDatedEvent` | internal/simulator/simulator.go:159-165 | a re-dated event at step 1 and a duplicate at step 2 take the charge 30, 20, 10, from an empty database, in any weather that names its samples apart and none as the re-dated event |
| `OpenLoop.RepeatedRedelivery` | internal/simulator/simulator.go:159-160 | a missing heartbeat at step 1 and duplicates at steps 2 and 3 take it 30, 30, 20, 10, from an empty database, in any weather that names its samples apart |
| `OpenLoop.RepeatedNameIsSafe` | internal/simulator/simulator.go:161-165 | a re-dated event that repeats its name before a duplicate is safe |
| `FreshStart.OwnEvent` | internal/application/run.go:191-239 | from an empty database the schedule alone decides whether a step's event is new to storage and newer than the state |
| `FreshStart.ReserveFloorFromEmpty` | internal/household/policy.go:9-10 | from the empty database the reserve holds on every schedule whose redeliveries follow no step whose event is newer than all before and leaves its sample stale |
| `FreshStart.FreshOpeningSinks` | internal/simulator/simulator.go:154-170 | on any other schedule an even household goes from 30 percent to the reserve in equal shares and takes one more |
| `FreshStart.SafeFromEmptyIffNeverSinks` | internal/simulator/fault.go:165-196 | that condition holds iff no household on the schedule, in any weather and whatever befalls it, goes below its reserve from the empty database |
| `FreshStart.SafeIsSafeFromEmpty` | internal/simulator/fault.go:165-196 | a schedule that is safe on every database is safe from the empty one |
| `FreshStart.SameTimeIsSafeFromEmpty` | internal/simulator/simulator.go:161-165 | a schedule that some database lets sink a household and the empty one does not |
| `Resume.RestartCharge` | cmd/wattfeder/main.go:218-229 | after any run on any valid schedule a restart resumes from the stranded charge if the run stranded one, from the charge the last command was decided from if no event was accepted since, and from the present charge otherwise; so it resumes where the battery is iff no charge was stranded and, unless an event was accepted since, the last command left the charge it was decided from |
| `Resume.SafeRestartCharge` | cmd/wattfeder/main.go:218-229 | on a safe schedule: from the charge before the last command if no event was accepted since, and from the present charge otherwise |
| `Resume.ReserveOverRestarts` | internal/household/policy.go:9-10 | over any number of restarts on safe schedules, however each run ends, no charge goes below a floor that is at most the reserve and not above any charge the household is given to start from: the stored one, or a configured one that a run finding none stored starts from |
| `Resume.RestartRefillsTheBattery` | cmd/wattfeder/main.go:218-229 | without faults, in any weather that names its samples apart: one interval takes the charge from 30 to 20; a run that goes on idles there, a restarted one starts from 30 and discharges again |
| `ClosedLoop.SeparatedDuplicatesAreSafe` | internal/simulator/fault.go:19-24 | a schedule whose duplicates never follow a duplicate or a re-dated event is safe |
| `ClosedLoop.EnergyIsConserved` | internal/simulator/simulator.go:277-296 | over a run, stored energy is the initial energy plus signed commanded energy less clipped energy; only a charge clips, and leaves the battery exactly full |
| `ClosedLoop.RestoredConfigIsValid` | cmd/wattfeder/main.go:218-229 | the restored charge is the stored state's, and the configuration stays valid |
| `Clock.InstantClock.Tick` | internal/application/clock.go:61-67 | fires at once, one duration later |
| `Timeline.AdvanceKeepsSchedule` | internal/simulator/simulator.go:127-131 | handing out step k leaves the day end at start + 24h * (1 + (k - 1) div N), the time inside that day, three draws a day |
| `Timeline.EveryIntervalOnTime` | internal/simulator/simulator.go:116-152 | that holds at every interval of every run that gets there, with no pending error; and the sample behind it is named after device and instant, reports the battery's charge, and otherwise depends on the instant and the day's three draws, in order and range, alone |
| `Timeline.Lockstep` | internal/application/clock.go:46-67 | on the instant clock, clock and simulator both read start + i * interval at interval i |
| `Timeline.FaultFreeRun` | internal/application/run.go:118-144 | without faults and from an empty database every interval is accepted with a command and `online` since the start |
| `Outcomes.KindIsRecorded` | internal/simulator/simulator.go:154-186 | whatever storage holds: a missing heartbeat is recorded `missing`, an unavailable step `unavailable` and `offline`, a missing or bad measurement `rejected` and `invalid` for the configured measurement, at the arrival time of its kind |
| `Outcomes.CalmRunGoesOn` | internal/application/run.go:118-252 | no schedule of faults stops a run on which nothing else goes wrong |
| `Outcomes.ScheduleIsRecorded` | internal/application/run.go:118-252 | from the empty database, in any weather that names its samples apart and none as the schedule does, and for any battery: disposition, receive time, presence of a command, rejection reason, health status, health reason and transition time of every record follow from schedule and clock alone |
| `Scenario.ShippedDay` | scenarios/unreliable-telemetry-day.json:21-39 | in every such weather the shipped day runs to its end, and all twelve dispositions, health statuses and presences of a command are those the file expects |
| `Scenario.ShippedAfternoon` | scenarios/unreliable-telemetry-day.json:31 | its ninth step charges the battery for every seed, in every weather with the shape of the day's curves |
| `Simulation.Simulate` | cmd/wattfeder/main.go:205-248 | the migrated program on a fast clock: nothing runs if a snapshot cannot be read or a configuration is refused; otherwise database, battery, records and ending are those of `PlantLoop` from the restored charge, bounded by the interval count |
| `Migrations.SchemaStore.AppliedMigrations` | internal/persistence/sqlite/repository.go:134-164 | the history is accepted iff it counts from 1 without a gap and is no longer than the list |
| `Migrations.SchemaStore.Migrate` | internal/persistence/sqlite/repository.go:81-127 | succeeds iff the history is a prefix of the list by version and name and the missing scripts succeed; ends with the full list; changes nothing on failure |
| `Migrations.MigratingAgainChangesNothing` | internal/persistence/contracts.go:153-154 | migrating an up-to-date database is a no-op |
| `Migrations.MigratesIffTablesMatch` | internal/persistence/sqlite/migrations.go:16-89 | with a prefix history, the program's own list migrates iff the tables are those of that version |
| `Migrations.MigratedDatabaseShowsEveryState` | internal/persistence/sqlite/migrations.go:60-89 | a first-version or empty database always migrates; commands and states stay as they were, every event is kept with its receive time and is accepted, each state and nothing else gets a health row, `online` since its event was received; and no snapshot hides a state, then or after any later commits |

## Left out

- FaultFreeRun: requires that no interval falls on Go's zero time, an instant no event can carry.
- RestartIsInvisible: the statement is for sources that do not listen to commands; the simulator does, and for it
  `RestartCharge` states what a restart changes.
- Simulate: begins after the migration, which `SchemaStore.Migrate` models; commands reach the simulator only, so the
  output kept is the records.
- SafeFromEmptyIffNeverSinks: for weather whose sample names differ from each other and from the schedule's made-up
  ones, as hashes do; a database left by the household's own earlier runs is between this case and the general one.
- ReserveOverRestarts: the runs are those of one household; a run for another device leaves its rows alone.
- DeliveryOrderIsIrrelevant: dispositions, commands and health do depend on the order; only stored events and the latest
  row do not.
- Float rounding, overflow and underflow of finite values: quantities are reals, so a discharge limit that rounds to
  zero or just past the reserve is not captured.
- Non-finite values outside raw readings: telemetry and commands handed to storage by another caller are finite here.
- The real clock, goroutines, contexts and grace deadlines: any clock reading and any failure may occur instead.
- The SQLite driver, SQL text, RFC 3339 formatting and its year range: rows round-trip exactly and commits are atomic.
- SHA-256, the random generator, sine and exponential values: function values with stated ranges and shapes.
- ShippedAfternoon: the other commands of the shipped day charge or discharge as the seed's factors have it, so their
  decisions are not stated.
- SunShines: the curves are known by bounds that sine and exponential meet, not by their values.
- Addition to an instant that leaves the range of Go's `time.Time`: instants are unbounded.
- The wording of reasons and errors: one constructor each; device IDs and values inside the texts are dropped.
- Command-line flags, signals, logs, metrics, tracing, the ops server and the demo loader.
