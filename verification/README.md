# Irrigation controller: a verified model of the firmware

This project models the control plane of the irrigation controller's firmware and proves properties of it in Dafny. It covers
four linked parts.

- **Interlock and program runner.** Zones, their outputs, the master valve, the system state and the running program share one
  state store. Output and valve drivers may fail on any call, time advances, and a try-lock guards each service. The model
  proves what relays may be energised, what the master valve must be, what the events of a program run look like, how long a
  completed run lasted, and what a run leaves behind, over whole runs of service calls, and also for any number of tasks that
  interleave inside the services.
- **Persistent configuration.** A length-prefixed binary format with the CRC-32 of section 8 of RFC 1952, and two storage slots
  with generations and read-back verification: the format byte for byte, round trip, size bound, error detection, and atomicity of a
  save.
- **Scheduler and configuration manager.** Scheduler entries point into slot arrays that the manager rewrites in place. The
  model proves that the slots agree with the configuration, that occurrences follow their entries, that a schedule is handled on
  exactly the days that are its own and at most once on each whatever the manager does meanwhile, and that a mutation is all or
  nothing and makes exactly what it means. Over whole lives of mutations and
  reboots it proves that acknowledged changes survive and generated ids never repeat.
- **Shelly response parser.** A recursive-descent recogniser, proved exact against the grammar of RFC 8259, sections 2 to 7.

## How the model is laid out

The objects of the original are classes with the same fields, references and locks: the state store, the drivers, the zone,
master valve, program and scheduler services, the history, the repository and the configuration manager. Each method is proved
to compute a function of the old state; the theorems are about those functions and about runs of them. `SystemReady.AppMain` builds
the objects, and `SystemReady.PerformAll` and `SystemReady.Change` connect calls on them to the runs of the theorems.

The functions that methods compute are themselves held against statements that do not mention them: on the fields of the
configuration (`MutationMeanings`, `ConfigurationMeanings`), on bytes and characters (`CodecLayout`, `CrcStandard`, `SlotContents`,
`ShellyDevices`), on days, times and durations (`ScheduledDays`, `RunRecords`), and on the state before a call and what the drivers
answered (`ServiceOutcomes`, `ProgramAnswers`).

What the model cannot see is a parameter. A driver is a function from the number of the call to its outcome: success means that
the action happened; a failing set leaves its own output at any level and may only switch other outputs off; a confirmed valve
action that fails leaves the valve anywhere. The clock is a function from the number of the reading to a 64-bit value. Storage
answers each read, write and commit in any way. HTTP replies are arbitrary bytes. Every theorem is for all of them; the ones about
durations need a clock that does not go back.

Some results are not what a reader of the code might expect. Each is stated with the exact condition under which it happens.

- A save compares generations with slot B even when B is not valid, and decoding stores the generation before it looks at the
  checksum. If A is valid and B is damaged under a larger generation, a save answers OK and the next load still returns the old
  configuration (`SlotStore.SaveThenLoad` says exactly when, `SlotStore.TrapIsReachable` how it comes about). A mutation that was
  acknowledged then does not survive a reboot (`ConfigurationRuns.AcknowledgedSurvivesReboot`), and an acknowledged id is generated
  again (`ConfigurationRuns.IdRepeatsInTheTrap`); so it is after a boot that cannot read the newer slot.
- A configuration loaded at boot takes the place of the defaults while their slots are still in use. If the ids of both do not
  fit, the views stop half way and do not agree with the configuration (`ManagerRuns.BootLoadRefines` and
  `ConfigurationRuns.StartUpInForce` say exactly when, `ManagerRuns.BootLoadCanFail` shows one).
- The end of a program switches off what the program knows of. A zone that somebody else opened while the program waited stays on
  under an open valve, and an abort that finds the zone of its step closed already gives up before it closes the valve
  (`ProgramOutcomes.EndingSettles` says exactly when all is settled, `OutsideOpenUnsettles` and `OutsideCloseThenAbort` show both).
- Starting and aborting test for an active program before they take the lock. A start whose test is out of date replaces the program
  of the one that runs, and an abort whose test is out of date terminates it a second time. `ProgramRaces.RacesAreTraced` says
  exactly when the trace survives, and both violations are reached from READY.

Other deviations from what one might assume, modelled as the code has them: closing a faulted zone may leave an output UNKNOWN
while the master valve is closed, so only outputs that are ON imply an open valve; a program is known at run time, and in the
history, by its display name; the flag `enabled` of a created schedule is whatever the array element held before.

## Model

| member | source | states |
|---|---|---|
| `MutationMeanings.MutationMeans` | firmware/app/configuration/configuration_manager.c:243-327 | In any state, a mutation that answers OK made of the configuration exactly what it means, field by field: the flag, name, steps, mask, time or program it was given at that index, the appended entry with its generated id, the list without the deleted entry, the counter one higher, and all else equal; any other answer changed nothing |
| `MutationMeanings.MutationAnswersExactly` | firmware/app/configuration/configuration_manager.c:109-327 | The answer of every mutation, from the configuration, the arguments and the acknowledgement of the save alone: REJECTED, NOT_FOUND, REFERENCED, INTERNAL_ERROR or OK, in that order of tests; accepted mutations save exactly what they mean and nothing else is saved |
| `MutationMeanings.AcceptedHasMeaning` | firmware/app/configuration/configuration_manager.c:243-327 | Every accepted mutation has a result, so the statement above is never empty |
| `MutationMeanings.MeantIsUnique` | firmware/app/configuration/configuration_manager.c:243-327 | The meaning of a mutation leaves no choice: two configurations that are both meant are equal |
| `MutationMeanings.DraftIsValid` | firmware/app/configuration/configuration_manager.c:231-234 | What a mutation makes of a valid configuration is valid exactly when its arguments fit: plain names, steps on configured zones of 1 ms to an hour, a time of day on some day of the week, a configured program, a generated id not in use |
| `MutationMeanings.GeneratedIds` | firmware/app/configuration/configuration_manager.c:256-303 | A generated id is the word "program-" or "schedule-" and the digits of the counter, without leading zeros |
| `MutationMeanings.MutationReachesScheduler` | firmware/app/configuration/configuration_manager.c:109-153 | After an accepted mutation the entry that the scheduler has of any schedule carries the id, flag, mask, hour and minute of that schedule; after an enabling or disabling, the flag that was given |
| `MutationMeanings.EntriesInForce` | firmware/app/configuration/configuration_manager.c:89-106 | In force, the scheduler has one entry for each configured schedule, with its fields, and the slot the entry points to holds the program it names |
| `RuntimeViews.SlotsHoldPrograms` | firmware/app/configuration/configuration_manager.c:64-87 | Views that agree with a configuration hold each configured program in exactly one slot: display name, every step with its zone and its duration in order, no final delay; and no other program is in a slot |
| `ConfigurationMeanings.ValidMeans` | firmware/app/configuration/irrigation_configuration.c:6-99 | A configuration is valid exactly when its version is 1 and its zones, programs and schedules fit the board and each other, spelled out in characters, counts and ranges |
| `Decimals.DecimalIsTheNumeral` | firmware/app/configuration/configuration_manager.c:263 | Printing gives the digits of the number without leading zeros, and nothing else is printed |
| `ScheduledDays.TickHandlesExactly` | firmware/domain/scheduler/scheduler_service.c:128-163 | A tick handles an entry if and only if it is enabled, the weekday is one of the days that add up to its mask, hour and minute are those of the tick, and its last handled day is another; an impossible time is REJECTED and changes nothing |
| `ScheduledDays.MaskHasDays` | firmware/domain/scheduler/scheduler_service.h:12 | Every acceptable mask is the sum of the powers of two of some weekdays, and of no others |
| `ScheduledDays.HandledOnItsDays` | firmware/domain/scheduler/scheduler_service.c:66-163 | Over mutations, failing saves, rollbacks, ticks and calls of all services in any order: a schedule that no mutation touches is handled on a day if and only if a tick of that day falls on its minute while it is enabled for that weekday, but for the one day on which it had been handled before the run; a disabled one is never handled |
| `ScheduledDays.StartsAsConfigured` | firmware/domain/scheduler/scheduler_service.c:147-157 | Whatever the scheduler starts for a schedule is the program that the schedule names, with the configured name, steps and durations, and with the schedule as its origin |
| `ScheduledDays.ConfigureTakesOver` | firmware/domain/scheduler/scheduler_service.c:66-112 | A list of entries is taken over exactly if it has at most sixteen, with masks 1 to 127, times of day and different ids; otherwise REJECTED and nothing changes |
| `RunRecords.RecordsTell` | firmware/domain/history/program_execution_history.c:38-65 | In every run the history is one record for each of the first sixteen executions, and each record tells of its execution field by field; the planned duration is what the steps and the final delay add up to, or 2^32 - 1; a COMPLETED one lasted at least the delay of the valve, its steps and its final delay |
| `RunRecords.CompletedAsConfigured` | firmware/domain/programs/program_service.c:153-205 | A configured program that is recorded as COMPLETED lasted at least as long as the durations configured for its steps |
| `RunRecords.PlannedIsTheSum` | firmware/domain/programs/program_service.c:5-10 | The planned duration is the smaller of 2^32 - 1 and the sum of the steps and the final delay |
| `RunRecords.EndedRecordIsKept` | firmware/domain/history/program_execution_history.c:12-24 | A record is appended exactly if there is room and the repository accepts it; otherwise it stays in flight, ended |
| `ServiceOutcomes.OpenZoneExactly` | firmware/domain/zones/zone_service.c:52-127 | Everything an open leaves behind, from the state before it and what the drivers answered: refusals, the zone open from now on for the time asked or its own, or at fault with its output OFF or UNKNOWN |
| `ServiceOutcomes.CloseZoneExactly` | firmware/domain/zones/zone_service.c:129-166 | Everything a close leaves behind: refusals, the zone idle with every output OFF and MANUAL back to READY, or at fault with its output UNKNOWN |
| `ServiceOutcomes.SafeCloseExactly` | firmware/domain/zones/zone_service.c:168-185 | A safe close is the close of the one zone whose output is not OFF, or nothing |
| `ServiceOutcomes.TimeoutsExactly` | firmware/domain/zones/zone_service.c:187-208 | Processing the time of the zones closes the one that has been open for its duration or longer, by the difference of a 64-bit clock, and reports it, or only reads the clock |
| `ServiceOutcomes.OpenMasterExactly` | firmware/domain/master_valve/master_valve_service.c:29-53 | Everything an opening of the master valve leaves behind |
| `ServiceOutcomes.ProcessMasterExactly` | firmware/domain/master_valve/master_valve_service.c:55-73 | The valve counts as OPEN exactly when the delay since its confirmation is over |
| `ServiceOutcomes.CloseMasterExactly` | firmware/domain/master_valve/master_valve_service.c:75-99 | Everything a closing of the master valve leaves behind |
| `ServiceOutcomes.ConfiguredZones` | firmware/app/state/state_store.c:55-87 | Acceptable lists of zones by counts, outputs and ids, and the state each zone starts in |
| `ProgramAnswers.StartAnswers` | firmware/domain/programs/program_service.c:126-151 | When a start is refused and how, the event with the planned duration, and that the program then waits for the valve or ends in FAULT with the answer of the valve; a start after a fault is refused but leaves its program in the service |
| `ProgramAnswers.ProcessAnswers` | firmware/domain/programs/program_service.c:153-205 | A process call answers OK exactly if the program goes on and any other answer ended it in FAULT, except that the end of the final delay is COMPLETED whatever the valve answers |
| `ProgramAnswers.AbortAnswers` | firmware/domain/programs/program_service.c:207-226 | An abort answers OK exactly if the program ended as ABORTED, and otherwise it ended in FAULT |
| `ProgramAnswers.ProcessAnswersFrom` | firmware/domain/programs/program_service.c:153-205 | Where the answer of a process call comes from: a faulted valve or the opening of the first zone while the program waits, the closing of a zone whose step is over, and the closing of the valve at the end |
| `ProgramAnswers.AbortAnswersFrom` | firmware/domain/programs/program_service.c:207-226 | Where the answer of an abort comes from: the closing of the running zone, and if that went well the closing of a valve that is not closed |
| `CrcStandard.CheckValue` | firmware/infrastructure/persistence/configuration_repository.c:12-20 | The CRC of the nine digits "123456789" is 0xcbf43926, the check value of the CRC-32 of section 8 of RFC 1952 |
| `CrcStandard.Residue` | firmware/infrastructure/persistence/configuration_repository.c:12-20 | Any bytes followed by their stored checksum leave the register at 0xdebb20e3, the residue of that CRC |
| `CodecLayout.BlobExactly` | firmware/infrastructure/persistence/configuration_repository.c:53-87 | The blob of a valid configuration byte for byte: "ICFG", version 1, generation, length and checksum, then its fields in order, texts behind their lengths and numbers with the least significant byte first |
| `CodecLayout.EncodeExactly` | firmware/infrastructure/persistence/configuration_repository.c:27-87 | What encoding refuses and in which order: counts beyond the tables, another version, a text that is empty or too long |
| `CodecLayout.DecodeExactly` | firmware/infrastructure/persistence/configuration_repository.c:89-127 | What decoding answers to every byte sequence: CORRUPT without the magic, INCOMPATIBLE for another version, CORRUPT for a length or checksum that is not that of the payload, INCOMPATIBLE for more entries than fit, and else the one configuration whose fields fill the payload, INVALID if it is not valid, or CORRUPT if there is none |
| `CodecLayout.GenerationIsInTheHeader` | firmware/infrastructure/persistence/configuration_repository.c:94-99 | The generation is taken from the header before the rest is looked at |
| `SlotContents.LoadExactly` | firmware/infrastructure/persistence/configuration_repository.c:142-158 | A load returns the configuration kept under the greater generation, the first of two equal ones; if neither slot keeps one it reports another format before a failing read, and that before damage |
| `SlotContents.SaveExactly` | firmware/infrastructure/persistence/configuration_repository.c:160-184 | When a save writes nothing and what it answers then; otherwise which slot it writes, the bytes, the number, and that OK means written and read back as a configuration under that number |
| `SlotContents.SlotReads` | firmware/infrastructure/persistence/configuration_repository.c:129-140 | What each slot counts as, from the bytes it holds |
| `SlotContents.StartUpExactly` | firmware/main/system_ready.c:188-223 | A start-up runs on what loads or on the defaults, and binds a repository exactly if there is a storage partition that can be used |
| `SlotContents.BootExactly` | firmware/app/configuration/configuration_manager.c:204-229 | A boot takes over what loads; over two empty slots it saves the defaults; over another format, failing or damaged storage it keeps the defaults, leaves both slots alone and says which it was |
| `InterlockRuns.RunIsInterlocked` | firmware/domain/zones/zone_service.c:52-185 | In every service run and for every driver behaviour: each energised relay is recorded ON or UNKNOWN; a zone is OPEN exactly when its output is ON; at most one zone is OPEN or FAULT; the system is MANUAL exactly when some zone is OPEN; ON implies the master valve OPEN and confirmed open; every lock is free after the call |
| `InterlockRuns.FaultLocksOut` | firmware/domain/zones/zone_service.c:85-100 | Once a zone fault event was published, no later call of any kind asks the output driver to switch anything on, and the system stays in ERROR |
| `InterlockRuns.FaultIsFinal` | firmware/app/state/state_store.c:267-276 | Once a program reached FAULT no program starts again: whatever is called, no execution event follows |
| `InterlockRuns.SafeCloseIsHonest` | firmware/domain/zones/zone_service.c:168-185 | A safe close answers OK exactly when it leaves every output OFF; otherwise some output is UNKNOWN |
| `InterlockRuns.ExpiredZoneIsClosed` | firmware/domain/zones/zone_service.c:187-208 | A zone whose time has run out is closed, or its output is UNKNOWN; when no zone has, nothing is touched |
| `Interlock.OpenZoneKeeps` | firmware/domain/zones/zone_service.c:52-117 | Opening a zone keeps the interlock and the lockout on every path, driver failures included; OK means that zone's output is ON |
| `Interlock.CloseZoneKeeps` | firmware/domain/zones/zone_service.c:129-156 | Closing a zone keeps the interlock and the lockout; OK leaves all outputs OFF, a failed drive leaves an output UNKNOWN |
| `Interlock.FaultIsSafe` | firmware/app/state/state_store.c:190-204 | Recording a zone fault keeps zones, outputs and system state consistent and puts the system in ERROR |
| `Interlock.OpenIsSafe` | firmware/app/state/state_store.c:155-170 | The guarded store transition to OPEN keeps the store consistent and switches on exactly that output |
| `Interlock.CloseIsSafe` | firmware/app/state/state_store.c:172-188 | The store transition to IDLE leaves every output OFF and takes MANUAL back to READY |
| `InterlockRuns.CloseMasterKept` | firmware/domain/master_valve/master_valve_service.c:75-99 | Closing the master valve keeps the interlock: it never leaves OPEN while an output is ON |
| `InterlockRuns.OpenMasterKept` | firmware/domain/master_valve/master_valve_service.c:29-53 | Opening the master valve keeps the interlock and the lockout on every path: OPENING is recorded only after a confirmed action, anything else is FAULT |
| `InterlockRuns.ProcessMasterKept` | firmware/domain/master_valve/master_valve_service.c:55-73 | Waiting out the pre-open delay keeps the interlock and the lockout |
| `ProgramOutcomes.EndingSettles` | firmware/domain/programs/program_service.c:54-226 | In any state between calls, the call that ends a program leaves all outputs OFF with the valve CLOSED or FAULT, or some output UNKNOWN, if and only if a condition held before it: for a process call, no output but the running zone's is ON; for an abort in a step, the step's zone is OPEN or FAULT or all is settled already. ABORTED always means the valve confirmed closed |
| `ProgramOutcomes.ProgramEndsSafely` | firmware/domain/programs/program_service.c:126-226 | A program started in any reachable state and any calls by anybody after it: as long as nobody else opens a zone, the process call that ends it settles everything as above; if nobody else closes zones either, so does an abort |
| `ProgramOutcomes.OutsideOpenUnsettles` | firmware/domain/programs/program_service.c:191-205 | A zone opened by somebody else while a program waits is not settled by the end of the program |
| `ProgramOutcomes.OutsideCloseThenAbort` | firmware/domain/programs/program_service.c:207-226 | A running zone closed by somebody else and then an abort: the program ends in FAULT and the master valve stays OPEN |
| `ProgramProgress.CompletesInExactly` | firmware/domain/programs/program_service.c:153-205 | From a master valve CLOSED or FAULT, with drivers that succeed and zones known and enabled, a program of n steps is COMPLETED after exactly n + 2 process calls and active before that, whenever each of them comes after its deadline; the time of the master valve may be processed at any moment in between, and any call that the state refuses may come in |
| `ProgramProgress.ProcessProgress` | firmware/domain/programs/program_service.c:153-205 | Each such call answers OK and lowers the number of calls still needed by exactly one |
| `ProgramRaces.RacesAreTraced` | firmware/domain/programs/program_service.c:126-226 | With the test and the lock of start, process and abort as separate steps, and any calls of anybody in between, from READY: the trace is at every moment a sequence of executions, the one in flight being the program the service holds, if and only if every start that gets the lock finds no program active or the very same one, and every abort that gets it finds one active |
| `ProgramRaces.LockKeepsTrace` | firmware/domain/programs/program_service.c:129-140 | One call that gets the lock keeps the trace exactly under that condition, which can be read off the state at the lock |
| `ProgramRaces.SecondStartReplaces` | firmware/domain/programs/program_service.c:129-140 | Two starts tested before either takes the lock: the second answers INVALID_STATE, but the service then holds its program while the trace is that of the first |
| `ProgramRaces.SecondAbortTerminatesAgain` | firmware/domain/programs/program_service.c:207-226 | Two aborts tested before either takes the lock: one STARTED and two TERMINATED |
| `RunHistory.RunIsTraced` | firmware/domain/programs/program_service.c:12-87 | The execution events of every run, whatever else is called in between, are a sequence of complete executions (STARTED, then STEP_STARTED i and STEP_COMPLETED i in order from 0, then one TERMINATED) and the one in flight exactly while a program is active; complete executions are never taken back |
| `RunHistory.HistoryOfRun` | firmware/domain/history/program_execution_history.c:38-65 | The history is the projections of the first sixteen executions; a COMPLETED record has all steps started and completed, and lasted at least the pre-open delay, all steps and the final delay, hence at least the planned duration |
| `RunHistory.FoldExecution` | firmware/domain/history/program_execution_history.c:38-65 | Folding the events of one finished execution into a history with room appends exactly its projection |
| `RunHistory.FullStays` | firmware/domain/history/program_execution_history.c:12-24 | A full table never changes again |
| `RunHistory.HistoryGrows` | firmware/domain/history/program_execution_history.c:12-24 | Records are only ever appended |
| `Executions.RunMoves` | firmware/domain/programs/program_service.c:54-226 | Every run keeps the trace, the phase of the program and its time bounds in agreement |
| `Executions.StartMoves` | firmware/domain/programs/program_service.c:126-151 | A start adds STARTED only where the store lets a program begin, and then the execution is at its first phase |
| `Executions.OpenCurrentZoneMoves` | firmware/domain/programs/program_service.c:69-87 | Recording a running step and publishing STEP_STARTED go together, no earlier than the pre-open delay and the steps before it allow |
| `Executions.AdvanceMoves` | firmware/domain/programs/program_service.c:177-190 | A completed step is followed by the next one, or by the final delay exactly after the last |
| `Executions.FinishEnds` | firmware/domain/programs/program_service.c:25-29 | A terminal state and TERMINATED go together and end the execution in flight |
| `Histories.ProgramExecutionHistory.Handle` | firmware/domain/history/program_execution_history.c:38-65 | The event handler, updating the record in flight and the table in place, computes the fold step, for every answer of a history repository |
| `Histories.ProgramExecutionHistory.AppendTerminalRecord` | firmware/domain/history/program_execution_history.c:12-24 | Appends the record in flight if there is one, there is room, and the repository, if any, takes it; otherwise it stays in flight. The repository is asked only where it could be appended |
| `Interleaving.InterleavingIsInterlocked` | firmware/app/state/state_store.c:136-170 | With any number of tasks interleaved at single store, driver and lock steps: ON implies the master valve OPEN and confirmed open at every step; a zone is OPEN exactly when its output is ON; at most one zone is OPEN or FAULT; an energised relay is recorded, or the holder of the zone lock is about to record it; each lock has at most one holder |
| `Interleaving.InterleavingLocksOut` | firmware/domain/zones/zone_service.c:92-107 | Under interleaving too, once a fault was published or ERROR is recorded no output is ever switched on again, not even by an opener already inside |
| `Interleaving.CommitIsRefusedAfterClose` | firmware/app/state/state_store.c:155-170 | A close may begin between the drive and the commit of an open: the relay is then on under a closing valve, and the store's second check refuses to record it |
| `Interleaving.MasterActKept` | firmware/domain/master_valve/master_valve_service.c:29-99 | Steps of the master valve operations keep the store consistent when other tasks run between them |
| `SoloTasks.SoloOpenIsOpen` | firmware/domain/zones/zone_service.c:52-117 | Uninterrupted, the fine-grained steps of an open are the open of the zone service: same store, relays, commands, events, clock readings and result |
| `SoloTasks.SoloCloseIsClose` | firmware/domain/zones/zone_service.c:129-156 | Likewise for a close |
| `SoloTasks.SoloSafeCloseIsSafeClose` | firmware/domain/zones/zone_service.c:168-185 | Likewise for a safe close, with the first failure |
| `SoloTasks.SoloTimeoutsIsTimeouts` | firmware/domain/zones/zone_service.c:187-208 | Likewise for closing expired zones |
| `SoloTasks.SoloMasterOpenIsOpen` | firmware/domain/master_valve/master_valve_service.c:29-53 | Likewise for opening the master valve |
| `SoloTasks.SoloMasterProcessIsProcess` | firmware/domain/master_valve/master_valve_service.c:55-73 | Likewise for waiting out its delay |
| `SoloTasks.SoloMasterCloseIsClose` | firmware/domain/master_valve/master_valve_service.c:75-99 | Likewise for closing it |
| `StateStores.StateStore.ConfigureZones` | firmware/app/state/state_store.c:55-87 | Accepts at most eight zones on distinct outputs of the board under distinct ids, and nothing else; a rejected list changes nothing |
| `StateStores.StateStore.FindZoneIndex` | firmware/app/state/state_store.c:7-18 | The first zone with an id |
| `StateStores.StateStore.HasActiveOutput` | firmware/app/state/state_store.c:25-33 | Whether some output is not OFF |
| `StateStores.StateStore.MasterCloseEligible` | firmware/app/state/state_store.c:35-40 | Whether the master valve may be closed |
| `StateStores.StateStore.PrepareZoneOpen` | firmware/app/state/state_store.c:136-153 | Whether a zone may be opened now, and if so its output and configured duration |
| `StateStores.StateStore.OpenZone` | firmware/app/state/state_store.c:155-170 | The guarded transition to OPEN, in place |
| `StateStores.StateStore.CloseZone` | firmware/app/state/state_store.c:172-188 | The transition to IDLE, in place |
| `StateStores.StateStore.RecordZoneFault` | firmware/app/state/state_store.c:190-204 | The transition to FAULT, in place |
| `StateStores.StateStore.BeginMasterClose` | firmware/app/state/state_store.c:239-246 | The guarded transition to CLOSING |
| `Plants.Driven` | firmware/hal/outputs/output_driver.h:10-14 | The driver contract: OK means that exactly the asked-for level is there; a failing set may leave its own output at any level and only switches others off |
| `ZoneServices.ZoneService.OpenLocked` | firmware/domain/zones/zone_service.c:52-117 | The steps of an open, in place, compute its specification |
| `ZoneServices.ZoneService.Actuate` | firmware/domain/zones/zone_service.c:92-117 | The prepare, drive, commit and fault handling of an open, in place |
| `ZoneServices.ZoneService.CloseLocked` | firmware/domain/zones/zone_service.c:129-156 | The steps of a close, in place |
| `ZoneServices.ZoneService.Open` | firmware/domain/zones/zone_service.c:119-127 | The open behind its try-lock: refused without effect while the lock is held, and the lock is released on every path |
| `ZoneServices.ZoneService.Close` | firmware/domain/zones/zone_service.c:158-166 | The close behind its try-lock |
| `ZoneServices.ZoneService.SafeClose` | firmware/domain/zones/zone_service.c:168-185 | The loop over zones that closes every output that is not OFF and reports the first failure |
| `ZoneServices.ZoneService.ProcessTimeouts` | firmware/domain/zones/zone_service.c:187-208 | The loop over zones that closes expired ones until one cannot be closed |
| `MasterValveServices.MasterValveService.Open` | firmware/domain/master_valve/master_valve_service.c:29-53 | Opens only from CLOSED or FAULT, records OPENING after confirmation and FAULT otherwise, behind its try-lock |
| `MasterValveServices.MasterValveService.ProcessTime` | firmware/domain/master_valve/master_valve_service.c:55-73 | OPENING becomes OPEN after the delay; before it the call is OK without effect |
| `MasterValveServices.MasterValveService.Close` | firmware/domain/master_valve/master_valve_service.c:75-99 | Closes only with all outputs OFF, records CLOSED after confirmation and FAULT otherwise |
| `ProgramServices.ProgramService.PlannedDurationMs` | firmware/domain/programs/program_service.c:5-10 | The loop sums the steps and the final delay, saturated at 32 bits |
| `ProgramServices.ProgramService.Start` | firmware/domain/programs/program_service.c:126-151 | The start of a program, in place, with its lock released on every path |
| `ProgramServices.ProgramService.Process` | firmware/domain/programs/program_service.c:153-205 | One call of the program state machine, in place |
| `ProgramServices.ProgramService.OpenCurrentZone` | firmware/domain/programs/program_service.c:69-87 | Opens the zone of the current step or ends the program in FAULT |
| `ProgramServices.ProgramService.AdvanceStep` | firmware/domain/programs/program_service.c:177-190 | Goes on to the next step or to the final delay |
| `ProgramServices.ProgramService.Fault` | firmware/domain/programs/program_service.c:54-62 | Closes the master valve if it may be closed, and terminates in FAULT |
| `ProgramServices.ProgramService.Abort` | firmware/domain/programs/program_service.c:207-226 | The abort, in place |
| `SystemReady.Boot` | firmware/main/system_ready.c:258-269 | The services as they are wired are in the state from which runs start, exactly when the outputs started safely and the zones do not clash |
| `SystemReady.LoadConfiguration` | firmware/main/system_ready.c:188-223 | The manager after loading or persisting the defaults; without a partition, or when storage failed, no repository is bound |
| `SystemReady.StartConfiguration` | firmware/main/system_ready.c:276-292 | The manager with its scheduler begins in the world that the lives of a configuration begin in |
| `SystemReady.AppMain` | firmware/main/system_ready.c:225-292 | The controller comes up exactly when its outputs started safely, the defaults are valid, the zones do not clash and the scheduler takes the entries; services, configuration and history then are where runs start |
| `SystemReady.Change` | firmware/app/configuration/configuration_manager.c:243-327 | Any mutation of the manager object is a step of a life of the configuration |
| `SystemReady.PerformAll` | firmware/main/system_ready.c:264-269 | Any calls on the wired objects are a run, so what is proved of runs holds of the objects |
| `Crc32.Compute` | firmware/infrastructure/persistence/configuration_repository.c:12-20 | The nested loops compute the checksum that CheckValue and Residue identify, over exactly the bytes given |
| `Crc32.BitwiseMatchesTable` | firmware/infrastructure/persistence/configuration_repository.c:12-20 | The bitwise loop over any start value leaves the same register as the table-driven loop of section 8 of RFC 1952 |
| `Crc32.StepLinear` | firmware/infrastructure/persistence/configuration_repository.c:17 | A step of the register is linear |
| `Crc32.StepInjective` | firmware/infrastructure/persistence/configuration_repository.c:17 | A step of the register is injective |
| `Crc32.FourBytesAreOneWord` | firmware/infrastructure/persistence/configuration_repository.c:15-18 | Four byte steps are thirty-two steps of one 32-bit word |
| `Crc32.BurstDetected` | firmware/infrastructure/persistence/configuration_repository.c:12-20 | Two messages that differ only within four consecutive bytes have the same CRC if and only if they are equal |
| `CodecMethods.Encode` | firmware/infrastructure/persistence/configuration_repository.c:53-87 | Encoding into the buffer succeeds exactly on encodable configurations and writes exactly their blob |
| `CodecMethods.WritePayload` | firmware/infrastructure/persistence/configuration_repository.c:60-82 | The nested loops over zones, programs, steps and schedules stay inside the buffer and write the payload |
| `CodecMethods.Decode` | firmware/infrastructure/persistence/configuration_repository.c:89-127 | The nested reading loops compute the decoding, reading only inside the blob |
| `CodecMethods.ReadPayload` | firmware/infrastructure/persistence/configuration_repository.c:103-126 | Every read of the payload is inside the blob, through all nested loops |
| `CodecTheorems.RoundTrip` | firmware/infrastructure/persistence/configuration_repository.c:53-127 | Decoding the blob of a valid configuration gives back the same configuration and generation |
| `CodecTheorems.DecodeIsStable` | firmware/infrastructure/persistence/configuration_repository.c:53-127 | What decoding accepts is valid, and decoding its re-encoding gives it again |
| `CodecTheorems.PayloadBound` | firmware/infrastructure/persistence/configuration_repository.h:13-19 | The payload of a configuration that fits the tables is at most 3025 bytes |
| `CodecTheorems.BurstIsCorrupt` | firmware/infrastructure/persistence/configuration_repository.c:99-102 | A blob that differs from an accepted one only within four consecutive payload bytes is CORRUPT |
| `SlotStore.SaveThenLoad` | firmware/infrastructure/persistence/configuration_repository.c:160-184 | Of all the ways storage can behave during a save that answered OK: the next load returns exactly what was read back, under the new generation, unless the slots were in the trap where A is valid and a damaged B carries a larger generation; there it returns what it returned before. What was read back is the saved configuration whenever storage made nothing up; the answer itself compares only the generation |
| `SlotStore.AcknowledgedLoads` | firmware/infrastructure/persistence/configuration_repository.c:142-184 | After a save that answered OK, whatever landed: the load returns it under a generation larger than that of every valid slot if and only if the slots were not in the trap |
| `SlotStore.AcknowledgedIsNew` | firmware/infrastructure/persistence/configuration_repository.c:174-182 | A lost write is never acknowledged |
| `SlotStore.SaveIsAtomic` | firmware/infrastructure/persistence/configuration_repository.c:160-184 | Acknowledged or not, a save leaves the load as it was, or makes it return the new configuration, or leaves it failing |
| `SlotStore.AcknowledgedIsNeverLost` | firmware/infrastructure/persistence/configuration_repository.c:142-184 | Over any run of saves that are lost, cut short, damaged or wrongly reported, with failing reads: as long as no save is acknowledged in the trap, what an acknowledged save stored is only ever replaced by what a later save was given |
| `SlotStore.TrapIsReachable` | firmware/infrastructure/persistence/configuration_repository.c:160-184 | How two saves and a damaged slot lead into that trap |
| `SlotStore.CutShortKeepsOld` | firmware/infrastructure/persistence/configuration_repository.c:160-184 | A save cut short with the slot undecodable or as before leaves the load as it was |
| `SlotStore.CutShortIsAtomic` | firmware/infrastructure/persistence/configuration_repository.c:160-184 | Whatever of old, new or undecodable lands, the load returns the old or the new configuration and nothing else |
| `SlotStore.DamagedWriteIsReported` | firmware/infrastructure/persistence/configuration_repository.c:174-182 | A write that lands damaged within a burst is reported, not acknowledged |
| `SlotStore.RunLoadsLastSaved` | firmware/infrastructure/persistence/configuration_repository.c:142-184 | Over runs of saves that land or are lost, a load returns the last one that landed |
| `SlotStore.LoadedIsValid` | firmware/infrastructure/persistence/configuration_repository.c:142-158 | Whatever the slots hold, a configuration that is loaded is valid |
| `ConfigurationRepository.Repository.Load` | firmware/infrastructure/persistence/configuration_repository.c:142-158 | Loading selects between the two slots as it reads them, storage failures included |
| `ConfigurationRepository.Repository.Save` | firmware/infrastructure/persistence/configuration_repository.c:160-184 | Slots and answer are those of the protocol, for what its reads saw and what its write did |
| `ConfigurationRepository.Repository.ReadSlot` | firmware/infrastructure/persistence/configuration_repository.c:129-140 | Reads and classifies one slot |
| `Configuration.Validate` | firmware/app/configuration/irrigation_configuration.c:40-99 | The nested loops accept exactly the valid configurations |
| `Configuration.TextIsValid` | firmware/app/configuration/irrigation_configuration.c:6-18 | The loop accepts exactly the texts of allowed characters that fit |
| `Configuration.ValidatedZonesAreTheBoard` | firmware/app/configuration/irrigation_configuration.c:40-99 | Validation implies that the configured zones are exactly the board's, by pigeonhole |
| `Schedules.OccurrenceIsTheDay` | firmware/domain/scheduler/scheduler_service.c:24-27 | Occurrence numbers are injective on days and never the sentinel |
| `Schedules.ConfigureKeepsOccurrences` | firmware/domain/scheduler/scheduler_service.c:66-112 | Reconfiguring keeps the occurrence of every unchanged entry, wherever its index moves, and starts every other entry unhandled |
| `Schedules.HandleMeans` | firmware/domain/scheduler/scheduler_service.c:147-157 | The recorded status says whether the program was started with this schedule as its origin, skipped because a program was active, or refused |
| `SchedulerRuns.ProcessFromHandles` | firmware/domain/scheduler/scheduler_service.c:140-160 | From any entry of a tick on: an entry is handled once, and its row written, exactly if the tick will handle it; what makes it due is TickHandlesExactly |
| `SchedulerRuns.HandledAtMostOnce` | firmware/domain/scheduler/scheduler_service.c:66-163 | Over any interleaving of ticks, reconfigurations and other service calls with days that never go back, an entry that every reconfiguration keeps is handled at most once per day |
| `ManagedScheduling.HandledAtMostOnceByDay` | firmware/domain/scheduler/scheduler_service.c:66-163 | Manager and scheduler together: over mutations, failing saves, rollbacks, ticks and calls of all services in any order, with days that never go back, a schedule that no mutation touches is handled at most once per day |
| `ManagedScheduling.ChangeIsOps` | firmware/app/configuration/configuration_manager.c:109-153 | A mutation is none, one or two reconfigurations of the scheduler, and the entry of a schedule it does not touch is in all of them |
| `SchedulerServices.SchedulerService.ConfigureLocked` | firmware/domain/scheduler/scheduler_service.c:66-112 | The loops, comparing ids through the shared buffers, compute the new entries and occurrences; a rejected list changes nothing |
| `SchedulerServices.SchedulerService.CheckAndPreserve` | firmware/domain/scheduler/scheduler_service.c:75-92 | The first loop decides exactly whether the list is acceptable and finds what each entry keeps |
| `SchedulerServices.SchedulerService.RecordPreserved` | firmware/app/state/state_store.c:332-353 | The loop that records or resets occurrences under their new indices changes exactly the rows in range and nothing else of the store |
| `SchedulerServices.SchedulerService.Process` | firmware/domain/scheduler/scheduler_service.c:129-163 | The loop over entries, in place, computes the tick: which entries it handles is TickHandlesExactly, what becomes of each is HandleMeans |
| `SlotTables.PlaceAllPlaces` | firmware/app/configuration/configuration_manager.c:65-86 | If the ids in use and the wanted ids fit, every wanted id gets a slot of its own and no slot in use is given another id |
| `SlotTables.PlaceAllStuck` | firmware/app/configuration/configuration_manager.c:67-69 | If they do not fit, some wanted id ends up without a slot |
| `RuntimeViews.RebuildRefines` | firmware/app/configuration/configuration_manager.c:58-107 | After a rebuild every configured program and schedule has exactly one slot holding its data and nothing else has one, if and only if the ids in use and the configured ids fit the tables; ids that stay configured keep their slots |
| `RuntimeViews.RebuildKeepsLiveIds` | firmware/app/configuration/configuration_manager.c:58-107 | No id buffer in use is overwritten with another id, whether or not everything fits |
| `RuntimeViews.RebuildGoesBack` | firmware/app/configuration/configuration_manager.c:109-145 | After any rebuild, even one that stopped half way, a rebuild for the old configuration makes the views agree with it again |
| `ManagerOperations.RebuildBetween` | firmware/app/configuration/configuration_manager.c:109-118 | Between two valid configurations a rebuild agrees with the new one if and only if their ids fit together, and then keeps shared slots |
| `ManagerOperations.ConfigureRefined` | firmware/app/configuration/configuration_manager.c:118-121 | From views that agree with a valid configuration the scheduler always accepts, and unchanged entries keep their occurrences |
| `ManagerOperations.ReplaceIsAllOrNothing` | firmware/app/configuration/configuration_manager.c:109-153 | Any replacement, fitting or not: OK only for a valid candidate that is saved; on any failure the old configuration is in force again with views and scheduler; after OK the candidate is in force if and only if its ids fit beside the old ones, and then every valid saved candidate succeeds and untouched entries keep their occurrences |
| `ManagerOperations.RollbackSucceeds` | firmware/app/configuration/configuration_manager.c:120-145 | A rollback always succeeds, also from views that stopped half way |
| `ManagerOperations.RollbackRestoresEntries` | firmware/app/configuration/configuration_manager.c:135-145 | After a rollback the scheduler's entries equal the old ones by value |
| `ManagerRuns.MutationIsAllOrNothing` | firmware/app/configuration/configuration_manager.c:243-327 | Every create, update, delete, enable and rename is all or nothing: OK exactly when its draft is valid and its save acknowledged; every valid draft reaches the save |
| `ManagerRuns.MutationAnswers` | firmware/app/configuration/configuration_manager.c:109-153 | Also where the views do not agree: OK means that the draft was valid and saved, anything else keeps the configuration |
| `ManagerRuns.DraftFits` | firmware/app/configuration/configuration_manager.c:256-319 | The ids of a single mutation always fit beside the old ones |
| `ManagerRuns.DraftKeepsPrograms` | firmware/app/configuration/configuration_manager.c:279-288 | No mutation takes away a program that a schedule names |
| `ConfigurationRuns.ReachableConfigurationsAreValid` | firmware/app/configuration/configuration_manager.c:109-241 | In every life of mutations and reboots over any storage, every configuration is valid and has exactly the board's zones |
| `ConfigurationRuns.StartUpInForce` | firmware/main/system_ready.c:188-292 | After a start-up the views, the scheduler and the configuration agree if and only if what was loaded fits beside the defaults |
| `ConfigurationRuns.RunInForce` | firmware/app/configuration/configuration_manager.c:109-241 | They agree at every moment of a life in which every loaded configuration fits |
| `ConfigurationRuns.AcknowledgedSurvivesReboot` | firmware/app/configuration/configuration_manager.c:128-146 | A mutation that answered OK survives a reboot: the controller comes up with the configuration that was in force, exactly outside the trap; in the trap it comes up with the one before |
| `ConfigurationRuns.GeneratedIdsNeverRepeat` | firmware/app/configuration/configuration_manager.c:256-305 | An id whose creation was acknowledged is never generated again, across deletions, reboots, lost, damaged and wrongly reported saves and failed reads, as long as no save is acknowledged in the trap, no boot loads something else than what is stored, and no counter wraps |
| `ConfigurationRuns.IdRepeatsInTheTrap` | firmware/app/configuration/configuration_manager.c:263 | In the trap, on storage that does everything right, a creation, a reboot and the same creation acknowledge the same id twice |
| `ConfigurationRuns.IdRepeatsAfterFailedRead` | firmware/app/configuration/configuration_manager.c:204-217 | So does a boot that cannot read the newer slot |
| `Decimals.DecimalIsInjective` | firmware/app/configuration/configuration_manager.c:263 | Different numbers print differently |
| `ManagerRuns.BootLoadRefines` | firmware/app/configuration/configuration_manager.c:204-217 | A configuration loaded at boot gets views that agree with it if and only if its ids and the defaults' fit together |
| `ManagerRuns.BootLoadCanFail` | firmware/app/configuration/configuration_manager.c:204-217 | A default program and four other stored ones do not fit, and the views do not agree |
| `ManagerRuns.DefaultsAreInForce` | firmware/app/configuration/configuration_manager.c:155-185 | Valid defaults are in force after initialisation |
| `ManagerRuns.SchedulerJoins` | firmware/app/configuration/configuration_manager.c:343-347 | A fresh scheduler takes over the entries of the configuration in force |
| `ConfigurationManagers.ConfigurationManager.RebuildRuntimeViews` | firmware/app/configuration/configuration_manager.c:58-107 | The loops over slot arrays and id buffers, in place, compute the rebuilt views, whose slots SlotsHoldPrograms and EntriesInForce read field by field |
| `ConfigurationManagers.ConfigurationManager.RebuildProgramSlots` | firmware/app/configuration/configuration_manager.c:64-87 | The program half, with its early return when no slot is left |
| `ConfigurationManagers.ConfigurationManager.RebuildScheduleSlots` | firmware/app/configuration/configuration_manager.c:89-106 | The schedule half, with its early returns |
| `ConfigurationManagers.ConfigurationManager.Persist` | firmware/app/configuration/configuration_manager.c:128-134 | The save of a candidate: slots and answer of the repository's save, or none where no repository is bound |
| `ConfigurationManagers.ConfigurationManager.ReplaceCandidate` | firmware/app/configuration/configuration_manager.c:109-153 | Validation, rebuild, reconfiguration, save and rollback, in place, compute the replacement: manager, views, scheduler, slots in storage and answer |
| `ConfigurationManagers.ConfigurationManager.CreateProgram` | firmware/app/configuration/configuration_manager.c:256-275 | Drafts a program under a generated id and replaces the configuration, storage included |
| `ConfigurationManagers.ConfigurationManager.UpdateProgram` | firmware/app/configuration/configuration_manager.c:256-277 | Drafts a changed program |
| `ConfigurationManagers.ConfigurationManager.DeleteProgram` | firmware/app/configuration/configuration_manager.c:279-288 | Refuses a program that some schedule names, and otherwise drafts the list without it |
| `ConfigurationManagers.ConfigurationManager.CreateSchedule` | firmware/app/configuration/configuration_manager.c:290-308 | Drafts a schedule under a generated id |
| `ConfigurationManagers.ConfigurationManager.UpdateSchedule` | firmware/app/configuration/configuration_manager.c:290-310 | Drafts a changed schedule |
| `ConfigurationManagers.ConfigurationManager.DeleteSchedule` | firmware/app/configuration/configuration_manager.c:312-319 | Drafts the list without a schedule |
| `ConfigurationManagers.ConfigurationManager.EnableSchedule` | firmware/app/configuration/configuration_manager.c:321-327 | Sets the flag that was given, as MutationMeans reads field by field, and replaces the configuration, storage included |
| `ConfigurationManagers.ConfigurationManager.RenameZone` | firmware/app/configuration/configuration_manager.c:243-254 | Drafts a zone with another display name |
| `ConfigurationManagers.ConfigurationManager.LoadOrPersistDefaults` | firmware/app/configuration/configuration_manager.c:204-229 | What was stored takes the place of the defaults, the defaults are saved where nothing was, any other state of storage changes nothing; the answer says which of these happened, and the slots are those of the save |
| `ConfigurationManagers.ConfigurationManager.JoinScheduler` | firmware/app/configuration/configuration_manager.c:343-347 | A scheduler without entries takes over those of the views, or is not bound |
| `ShellyDevices.ObedientDeviceConfirms` | firmware/hal/master_valve/shelly_master_valve_driver.c:213-252 | Asked to open or to close, the driver brings a device that does what it is asked, at the configured address and within the configured timeout, into that state and answers OK, and the same replies never confirm the other state |
| `ShellyDevices.PathsAsk` | firmware/hal/master_valve/shelly_master_valve_driver.c:220-236 | The set path is the words of the RPC with the digits of the switch after id= and true or false after on=, the status path names the same switch, and no other path is sent |
| `ShellyDevices.SetPathEndsInValue` | firmware/hal/master_valve/shelly_master_valve_driver.c:220-222 | What the set path asks for is the rendering of the value that the confirmation looks for |
| `ShellyDevices.UsableReplies` | firmware/hal/master_valve/shelly_master_valve_driver.c:195-211 | A reply is usable exactly if the call succeeded with a 2xx status, the body leaves room for its terminator, and it is an acceptable document without "error" |
| `ShellyDevices.FailuresMean` | firmware/hal/master_valve/shelly_master_valve_driver.c:213-244 | The transport's own failure is passed on and an unusable reply is INTERNAL_ERROR, for either request; an unconfigured driver is REJECTED |
| `ShellyDevices.ClassesAreJson` | firmware/hal/master_valve/shelly_master_valve_driver.c:14-47 | White space, digits, hexadecimal digits and escapes, character by character |
| `ShellyDevices.GrammarIsJson` | firmware/hal/master_valve/shelly_master_valve_driver.c:49-193 | The punctuation, the three words and the two keys, character by character |
| `ShellyResponse.ParseResponseIsExact` | firmware/hal/master_valve/shelly_master_valve_driver.c:157-193 | The parser accepts exactly the object texts of the grammar whose raw top-level "output" key occurs at most once with a Boolean value, and reports that value and whether a top-level "error" key exists |
| `ShellyResponse.ParseResponseAnswers` | firmware/hal/master_valve/shelly_master_valve_driver.c:157-193 | The answer to every text of the grammar, acceptable or not; nested keys make no difference |
| `ShellyResponse.FoldMeans` | firmware/hal/master_valve/shelly_master_valve_driver.c:163-192 | Reading members one after the other amounts to counting the "output" keys and looking for "error" |
| `ShellyValues.ValueRead` | firmware/hal/master_valve/shelly_master_valve_driver.c:125-149 | Every JSON value is skipped to its end |
| `ShellyValues.ValueFound` | firmware/hal/master_valve/shelly_master_valve_driver.c:125-149 | Whatever is skipped is one JSON value after white space |
| `ShellyValues.ItemsFound` | firmware/hal/master_valve/shelly_master_valve_driver.c:51-70 | Whatever the array loop passes is the items of an array |
| `ShellyValues.MembersFound` | firmware/hal/master_valve/shelly_master_valve_driver.c:72-98 | Whatever the object loop passes is the members of an object |
| `ShellyTheorems.NumberRead` | firmware/hal/master_valve/shelly_master_valve_driver.c:100-123 | Every number of the grammar is skipped to its end |
| `ShellyTheorems.NumberFound` | firmware/hal/master_valve/shelly_master_valve_driver.c:100-123 | Whatever is skipped as a number is a number of the grammar |
| `ShellyTheorems.ParseStringFound` | firmware/hal/master_valve/shelly_master_valve_driver.c:19-47 | Whatever is read as a string is a string of the grammar, with its number of units |
| `ShellyTheorems.KeyComparison` | firmware/hal/master_valve/shelly_master_valve_driver.c:151-155 | Counting units while comparing raw bytes still compares the whole raw key |
| `ShellyMethods.ReadString` | firmware/hal/master_valve/shelly_master_valve_driver.c:19-47 | The cursor loop over a string never passes the terminator and computes the recogniser |
| `ShellyMethods.SkipJsonNumber` | firmware/hal/master_valve/shelly_master_valve_driver.c:100-123 | The cursor code for numbers computes the recogniser |
| `ShellyMethods.SkipJsonArray` | firmware/hal/master_valve/shelly_master_valve_driver.c:51-70 | The array loop computes the recogniser and ends |
| `ShellyMethods.SkipJsonObject` | firmware/hal/master_valve/shelly_master_valve_driver.c:72-98 | The object loop computes the recogniser and ends |
| `ShellyMethods.SkipJsonValue` | firmware/hal/master_valve/shelly_master_valve_driver.c:125-149 | The mutual recursion ends: every nested value starts after its bracket |
| `ShellyMethods.ParseShellyResponse` | firmware/hal/master_valve/shelly_master_valve_driver.c:157-193 | The member loop computes the recogniser of responses |
| `ShellyDriver.ShellyMasterValveDriver.Request` | firmware/hal/master_valve/shelly_master_valve_driver.c:195-211 | OK exactly for a reply with a success status, a body that fits, and a response object without "error" |
| `ShellyDriver.ShellyMasterValveDriver.constructor` | firmware/hal/master_valve/shelly_master_valve_driver.c:262-277 | Configured exactly with a host that fits, a port and a timeout |
| `ShellyDriver.ShellyMasterValveDriver.SetAndConfirm` | firmware/hal/master_valve/shelly_master_valve_driver.c:213-244 | The requests sent, with host, port, path and timeout, and the result for every pair of replies: the transport's failure, INTERNAL_ERROR or OK; an unanswered set is not followed by another request; the paths are those of PathsAsk |
| `ShellyDriver.ShellyMasterValveDriver.ConfirmedExactly` | firmware/hal/master_valve/shelly_master_valve_driver.c:213-244 | OK exactly when the driver is configured, the set request was answered and the status request reported the requested output, which no reply does for both |
| `ShellyDriver.PathsFit` | firmware/hal/master_valve/shelly_master_valve_driver.c:220-236 | The formatted paths always fit their buffer; the two set paths of a switch differ, the status paths of two switches differ, and no set path is a status path |

## Left out

- Interleaving.InterleavingIsInterlocked: a store call, a driver call, a publication and a lock operation are atomic steps; the memory orders of `atomic_flag` and torn reads of the store are not modelled, because they are properties of the compiler and the chip.
- ConfigurationManagers.ConfigurationManager.CreateSchedule: the flag that the unused array element held before is a parameter, because the elements behind the count are not part of the configuration here.
- ProgramServices.ProgramService.Start: takes the program by value; the original keeps a pointer into the manager's slots, whose contents the web interface refuses to edit while a program is active.
- ShellyDriver.ShellyMasterValveDriver.SetAndConfirm: how the transport carries a request and keeps its timeout is not modelled; a reply is arbitrary.
- Program calls that interleave inside their locked parts with zone and master valve calls: a locked part is whole in the runs and in ProgramRaces, and zone and master valve operations are interleaved fully in Interleaving.
- Generated ids after 2^32 creations, where the counters wrap, and after a wholesale replacement, which can set the counters to anything; saves after 2^32 - 1 generations, which are refused.
- Occurrences across a reboot: they live in memory and are forgotten, so the results about days are for one power cycle.
- `scheduler_service_set_enabled`, which forgets the occurrence of one entry by design; the manager changes the flag by a reconfiguration, which is modelled.
- The contents of the development kit's defaults: any configuration stands for them.
- The mutex of the scheduler: each of its operations is one step.
- Null arguments and missing callbacks: references are never null.
- The event bus's table of subscribers, the command bus, logging and the status LED: events are a trace, and only the history reads it.
- `program_execution_history_interrupt_active`, which the firmware does not call.
- Web, Wi-Fi, time synchronisation and the conversion of calendar time: the scheduler takes its time as input.
- The concrete GPIO, expander, HTTP and flash drivers: they are the parameters described above.
- The system states RUNNING, OTA and MAINTENANCE, which no transition reaches, and the transition from ERROR back to BOOT, which nothing calls.
