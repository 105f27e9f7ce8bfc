# Solar-surplus charging: a verified model

This project models the part of the charging system that decides how much current each
charger may draw and that keeps track of who is charging: the surplus calculator, the control
loop around it with its solar gate, the commander that talks to the chargers, the OCPP 1.6
transaction handlers with their in-memory repositories, the router and its policy, the upstream
relay with its throttle, and the event emitter. The program's stateful components are Dafny classes
whose methods follow the program's branches and loops; each method is proved against a
function on plain values, and the theorems are about runs of those functions.

| file | what it holds |
|---|---|
| `Calculator.dfy`, `CalculatorRuns.dfy`, `CalculatorLimits.dfy` | the calculator; its debounce as a property of a charger's history, wear bound; limits, hysteresis, hot changes, non-interference |
| `Controller.dfy`, `SolarGate.dfy`, `Keys.dfy`, `Trace.dfy` | the control loop as a class and as `Tick`, the solar gate as `Evaluate`, the text keys of its caches, the log of what it does |
| `ControlSteps.dfy`, `GateCommands.dfy`, `ControlOrder.dfy`, `ControlQuiet.dfy`, `ControlSharing.dfy` | one tick: frames, overrides, stale data, exact conditions for every gate command and stale send and for what the commander lets through, irrelevance of listing order, quiescence, what calling the calculator per connector leads to |
| `GateHold.dfy`, `Power.dfy` | when the gate holds a tick back; calculator and tick in watts, from the fields of the readings |
| `Device.dfy`, `ControlDedup.dfy` | the limits in force at the chargers, standing and live; the profile cache against a loop that always sends |
| `SolarGateRuns.dfy` | one evaluation of the gate: counters, bursts, alternation of marks and releases |
| `Handover.dfy` | the gate's commands as the commander meets them, in the order of the trace and charger by charger |
| `System.dfy`, `SystemGate.dfy`, `SystemProfiles.dfy`, `SystemHistory.dfy`, `GateRuns.dfy` | runs of ticks interleaved with connections, status reports, parameter changes and user commands; what a run leaves in repository and settings, by its history; one concrete run of the gate |
| `Sites.dfy`, `SiteRuns.dfy` | such runs together with the chargers' transactions, restarts and the limits in force; two concrete runs |
| `Commander.dfy`, `Spacing.dfy` | contactor cooldown and charging profiles; counting spaced moments in a window |
| `Ports.dfy`, `ChargerRepository.dfy`, `Sessions.dfy`, `MeterRepository.dfy` | entities and in-memory repositories |
| `Handler.dfy`, `Readings.dfy`, `Transactions.dfy` | the message handlers; what the samples of a message mean; the transaction protocol between chargers and a central system that can lose its memory |
| `Csms.dfy` | runtime parameter changes and the bridge for Home Assistant's commands; the methods that touch the loop's state are proved to be operations of `System` |
| `Messages.dfy`, `Policy.dfy`, `Router.dfy`, `Throttle.dfy` | the messages, the routing policy, the router, the upstream relay with its throttle |
| `Emitter.dfy` | the event emitter |
| `Options.dfy`, `Sequences.dfy` | small shared definitions |

`dafny verify dfyconfig.toml` checks everything.

## How the program is represented

- Watts are integers and divided with floor, as the energy adapter stores readings
  (`internal/adapter/inbound/ha/energy.go:188`); the grid voltage is a positive parameter,
  230 in the program. Values the program stores with 32 bits (safe current, solar threshold)
  wrap; the two tick counters are unbounded.
- Time is in nanoseconds and is a parameter. Generated identifiers are parameters; runs of
  transactions assume they are fresh, and `TxIDRange` says what the generator's arithmetic gives.
- What the outside answers is a parameter of a step: the readings (`Energy`), the repositories'
  answers during one tick (`View`), and for the profiles sent (`Replies`) the connectors that accept
  a TxDefaultProfile, the transaction the session repository answers for each, and the connectors
  that accept its TxProfile. Each profile has its own answer, and a refused one leaves the charger as
  it was. Errors of the program's ports are `None`, a missing entry or a refusal.
- Limits in force (`Device`) follow `docs/hardware/abb-terra-ac.md:71-79`: a TxDefaultProfile accepted
  during a transaction is the standing limit for later ones and does not reach that transaction, a
  TxProfile does, and a transaction starts under the standing limit. Both profiles carry profile id 1
  (`internal/adapter/outbound/ocpp/profile.go`), and by section 5.16 of OCPP 1.6 a charger replaces a profile by a
  new one with the same id. That the charger keeps the two side by side, as that document describes, is an assumption.
- The iteration order of Go maps is an arbitrary choice: `ListChargers`, `GetActiveSession`,
  `GetSessionByTransactionID` and `Merge` are loops over a set in any order.
- The caches keyed by "charger:connector" are kept as maps from text, each with a ghost map
  from pairs beside it; `KeyInjective` is why the two agree.
- The trace of a controller records its calls to the commander in order, whether or not the commander's
  cooldown or the charger then refuses them, as the program ignores those errors. How the outside world
  meets a start or stop, from when it is tried to when it is answered, is a parameter of the tick, one
  attempt for each position of the trace (`World`); `RunTick` states the commander's books after the tick.
  Profiles are sent through the commander too: `Controller.InStep` says that it has sent exactly the profiles of the
  trace, and every method that sends or logs keeps it.
- A restart (`Wipe`) loses the sessions, the charger repository, the caches and the counters, and may
  change the settings; open transactions and limits in force stay.

## Where the obvious claim does not hold

The model keeps what the code does; for each of these there is the exact condition or a
concrete case.

- A throttle of r per minute is kept for all arrivals only if r divides 60: `RateHonouredIff`;
  `ThrottleBound` is what holds in general.
- The default current of a parameter change is not validated, so profiles outside 6..32 A can follow:
  `UpdateIsSafeIff` says exactly after which changes none can, and `UnvalidatedDefault` is a case.
- Changing the limits leaves remembered limits alone. A charger held below the minimum is answered the
  remembered limit however far it is outside the new ones, 32 A under a new maximum of 10; `InBoundsIff` is
  the exact condition. Only from its third call on is it at most one ampere over the maximum, and never
  more than one under the minimum: `RecoveryAfterHotChange`, `HotChangeMarginsAreReached`.
- The profile cache remembers that a limit was accepted, not whether it reached the transaction under
  way, so a transaction can keep an old limit: `LimitsAgreeIff`, `LiveIsCachedIff`, `CacheRefinesIff`;
  `RestartLeavesOldLimit` is a run without any refusal.
- A limit set by hand does not pass through the profile cache, so a later send may be skipped
  although another limit is in force: `ManualKeepsCoherentIff`, `ManualLimitStays`.
- With limits changed while running, two consecutive limits can be one ampere apart:
  `NoChatterIff`, `ChatterAfterRaisedMinimum`; and a limit can move twice before it settles: `SettlesIff`.
- The gate restarts a charger that was overridden after the gate held it: `RemoteStartIff` has no condition
  on overrides, and `OverriddenIsStarted` is a run that comes to it.
- The gate holds online chargers that do not charge: `MarkIff` is the exact condition for holding one, and
  `MarkWithStopIff` for a stop to come with it; in the run `IdleIsMarked` none does. Later it starts them all the same.
- Two start or stop requests under way at once can switch a contactor twice within the
  cooldown: `TwoUnderWayBreakSpacing`; `SpacingIff` is the exact condition.
- The gate's stops for a charger with several transactions pass the cooldown one by one, so of a burst shorter
  than the cooldown, which must then be positive (`internal/csms/csms.go:325` accepts 0), at most one is accepted, and
  the others are not tried again: `BurstThroughCommander`, `HeldIsNotRetried`.
- The full surplus is offered at every drawing connector: `TickOffersIff` for a first tick, `SettledOffersIff`
  from the third on, `TwoChargersOverdraw` for a case.
- The debounce counts calls, one per drawing connector, and not ticks: `StoppedFromTickIff`.

## Model

| member | source | states |
|---|---|---|
| SmartCharging.Calculator.constructor | internal/domain/smartcharging/calculator.go:31-40 | a new calculator remembers no charger |
| SmartCharging.Calculator.SetLimits | internal/domain/smartcharging/calculator.go:42-47 | only the limits change; remembered limits are not clamped to the new ones |
| SmartCharging.Calculator.Confirm | internal/domain/smartcharging/calculator.go:68-90 | one verdict moves the two confirmation counters as the debounce does |
| SmartCharging.Calculator.Limit | internal/domain/smartcharging/calculator.go:94-130 | stop, hold while debouncing, cap, hysteresis hold or new limit, with its reason |
| SmartCharging.Calculator.Compute | internal/domain/smartcharging/calculator.go:49-131 | one call answers as the debounce and the hysteresis memory of that charger say, and updates that charger only |
| Power.BelowIff | internal/domain/smartcharging/calculator.go:49-90 | a call counts as below the minimum exactly when that is positive and solar minus consumption, or without either what is fed into the grid, does not reach it; the answer says stop exactly when the debounce then does |
| Power.LimitFitsPower | internal/domain/smartcharging/calculator.go:103-140 | a running answer at or above the minimum draws at most an ampere over solar minus consumption, or over what is fed into the grid, and below the cap leaves less than two amperes unused |
| Power.ReasonTells | internal/domain/smartcharging/calculator.go:92-153 | the reason published says where the limit comes from, and a new limit is exactly the power left over in whole amperes, or the cap |
| CalculatorRuns.DebounceIsHistory | internal/domain/smartcharging/calculator.go:62-90 | after any verdicts the debounce is stopped exactly when three below in a row came later than any two at or above in a row |
| CalculatorRuns.StopsByHistory | internal/domain/smartcharging/calculator.go:49-101 | in any run of calls and limit changes an answer says stop exactly when the history of that charger's calls, each judged by the limits then in force, says so |
| CalculatorRuns.CountersFollowVerdicts | internal/domain/smartcharging/calculator.go:42-90 | the stored counters are a function of the charger's verdicts alone |
| CalculatorRuns.BoundedWear | internal/domain/smartcharging/calculator.go:70-90 | answers that turn to a stop k times take at least 5k-2 calls of the charger, whatever the readings and limit changes |
| CalculatorRuns.StopAnswersAreStops | internal/domain/smartcharging/calculator.go:92-101 | a charger's answers turn to a stop just as often as its debounce does |
| CalculatorRuns.WearBoundIsTight | internal/domain/smartcharging/calculator.go:70-90 | a history with k stops in exactly 5k-2 calls exists for every k |
| CalculatorLimits.LimitTracksSurplus | internal/domain/smartcharging/calculator.go:50-57 | a running answer at or above the minimum is within 1 A of the capped ideal, and (limit-1) times the voltage never exceeds the surplus |
| CalculatorLimits.InBoundsIff | internal/domain/smartcharging/calculator.go:94-130 | an answer lies within the limits in force exactly when it is not a remembered limit held from outside them |
| CalculatorLimits.NoChatterIff | internal/domain/smartcharging/calculator.go:103-130 | under fixed limits and from any memory, consecutive limits are equal, at least 2 A apart, or the later one is a stop, exactly unless the earlier one was held one ampere under a raised minimum and the later call is below it |
| CalculatorLimits.NoChatterInRuns | internal/domain/smartcharging/calculator.go:49-131 | the same of any two consecutive answers to one charger in a run, whatever other chargers do in between |
| CalculatorLimits.NoChatter | internal/domain/smartcharging/calculator.go:115-124 | the corollary without exception for a memory that is not under the minimum |
| CalculatorLimits.ChatterAfterRaisedMinimum | internal/domain/smartcharging/calculator.go:103-113 | a concrete step of 1 A when the minimum was raised over a remembered limit |
| CalculatorLimits.SettlesIff | internal/domain/smartcharging/calculator.go:103-130 | while the capped ideals stay in {a, a+1} the limit changes at most twice from any memory, and at most once exactly unless a first call below a raised minimum lifts it before it settles 2 A or more higher |
| CalculatorLimits.SettlesTwice | internal/domain/smartcharging/calculator.go:103-130 | a concrete run with two changes, from 6 A under a raised minimum of 11 to 11 and to 20 |
| CalculatorLimits.SettlesAtOnce | internal/domain/smartcharging/calculator.go:115-130 | the corollary, at most once, for a memory that is not under the minimum |
| CalculatorLimits.RecoveryAfterHotChange | internal/domain/smartcharging/calculator.go:42-131 | after the last change of limits every answer is at least min-1, and from a charger's third call on at most max+1, from any reachable state |
| CalculatorLimits.HotChangeMarginsAreReached | internal/domain/smartcharging/calculator.go:115-124 | both one-ampere margins are reached |
| CalculatorLimits.BoundsKept | internal/domain/smartcharging/calculator.go:92-131 | while the limits in force stay in lo..hi, so do answers and remembered limits |
| CalculatorLimits.FixedLimits | internal/domain/smartcharging/calculator.go:49-131 | without changes of limits a charger's memory is a function of its own ideal currents |
| CalculatorLimits.ChargersDoNotInterfere | internal/domain/smartcharging/calculator.go:49-131 | each answer in an interleaved run equals the one that charger gets running alone with the same limit changes |
| ChargerRepositories.ChargerRepository.UpsertCharger | internal/domain/ports/inmemory.go:28-33 | the charger's entry is replaced, no other |
| ChargerRepositories.ChargerRepository.GetCharger | internal/domain/ports/inmemory.go:35-43 | the entry, or an error when unknown |
| ChargerRepositories.ChargerRepository.ListChargers | internal/domain/ports/inmemory.go:45-53 | every charger exactly once, in any order |
| ChargerRepositories.ChargerRepository.MarkOnline | internal/domain/ports/inmemory.go:55-65 | only the flag changes; an unknown charger is an error and changes nothing |
| ChargerRepositories.ChargerRepository.UpsertConnector | internal/domain/ports/inmemory.go:67-84 | the first connector with the number is replaced in place, or the connector is appended |
| ChargerRepositories.ChargerRepository.GetConnector | internal/domain/ports/inmemory.go:86-96 | the first connector with the number, an error exactly when there is none |
| ChargerRepositories.ChargerRepository.ListConnectors | internal/domain/ports/inmemory.go:98-108 | the stored connectors in order; none for an unknown charger |
| ChargerRepositories.UpsertedKeepsDistinct | internal/domain/ports/inmemory.go:67-84 | connector numbers of a charger stay distinct, the upserted connector is in the list, and every other connector is unchanged |
| Sessions.SessionRepository.CreateSession | internal/domain/ports/inmemory.go:122-130 | the session is stored under its id, or under a generated one if it has none |
| Sessions.SessionRepository.UpdateSession | internal/domain/ports/inmemory.go:132-140 | an existing session is replaced; a missing one is an error and nothing changes |
| Sessions.SessionRepository.GetActiveSession | internal/domain/ports/inmemory.go:142-151 | some active session of the connector, or none exactly when there is none |
| Sessions.SessionRepository.GetSessionByTransactionID | internal/domain/ports/inmemory.go:153-162 | some session of the charger's transaction, stopped ones included, or none exactly when there is none |
| Sessions.SessionRepository.GetSession | internal/domain/ports/inmemory.go:164-172 | the session under the id |
| MeterStore.MeterRepository.StoreMeterValues | internal/domain/ports/inmemory.go:210-215 | the values are appended in order |
| MeterStore.MeterRepository.GetMeterValues | internal/domain/ports/inmemory.go:217-227 | the charger's values within the inclusive time range, in stored order |
| MeterStore.MeterRepository.GetMeterValuesBySession | internal/domain/ports/inmemory.go:229-239 | the session's values, in stored order |
| MeterStore.MeterRepository.PurgeOlderThan | internal/domain/ports/inmemory.go:241-255 | values not before the limit are kept in order, and purged plus kept is the old size |
| MeterStore.StoredIsFoundIff | internal/domain/ports/inmemory.go:217-239 | a value is returned, in its place, by exactly the queries for its charger whose range holds its time, both ends included, and by that for its session |
| MeterStore.PurgeInvisibleIff | internal/domain/ports/inmemory.go:217-255 | a purge leaves a query's result alone exactly when it removes no value the query returns |
| MeterStore.PurgeInvisibleFromLimit | internal/domain/ports/inmemory.go:217-255 | a purge is invisible to every query from the purge limit on |
| Keys.KeyInjective | internal/adapter/outbound/ocpp/controller.go:398-398 | two connectors with the same "charger:connector" key are the same connector, colons in charger names included |
| Keys.DecimalInjective | internal/adapter/outbound/ocpp/controller.go:398-398 | the decimal text of a connector number determines it, sign included |
| Keys.MirrorsUpdate | internal/adapter/outbound/ocpp/controller.go:399-400 | a store under a text key changes the record of that connector and no other |
| SolarGateRuns.EvaluateKeepsConsistent | internal/adapter/outbound/ocpp/controller.go:237-338 | the two tick counters are never both positive, only known chargers are held, and none once above is confirmed |
| SolarGateRuns.EvaluateKeepsCounters | internal/adapter/outbound/ocpp/controller.go:237-262 | each counter is the length of the current streak of its verdict, ticks without a reading not counting and a disabled gate resetting |
| SolarGateRuns.StopBurstOnTheThird | internal/adapter/outbound/ocpp/controller.go:256-296 | stop entries appear exactly on the third evaluation below in a row, for the online chargers without override, and reach every one not held yet |
| SolarGateRuns.StartBurstOnTheSecond | internal/adapter/outbound/ocpp/controller.go:299-335 | start entries appear exactly on the second evaluation at or above in a row, reach every held charger that is online, and release all listed |
| SolarGateRuns.EvaluateKeepsCoupled | internal/adapter/outbound/ocpp/controller.go:237-338 | per charger marks and releases alternate in the log, a remote stop only right behind a mark, a remote start only right behind a release |
| SystemGate.GateSoundInEveryRun | internal/adapter/outbound/ocpp/controller.go:237-338 | in every reachable state the counters are consistent, only known chargers are held, and each charger's whole history of marks and releases alternates |
| SystemGate.CountersMatchHistory | internal/adapter/outbound/ocpp/controller.go:237-262 | in every run the counters are the streaks of the history of verdicts |
| SystemGate.BurstsComeOnTime | internal/adapter/outbound/ocpp/controller.go:256-335 | in every run stop bursts come exactly on the third and start bursts exactly on the second verdict in a row, and they are complete |
| SystemGate.TickGate | internal/adapter/outbound/ocpp/controller.go:203-235 | of a tick's commands those of the gate come first and are the evaluation's; the rest are profiles and notices |
| GateCommands.RemoteStopIff | internal/adapter/outbound/ocpp/controller.go:271-293 | the exact condition under which a tick calls the commander to stop a given transaction |
| GateCommands.RemoteStartIff | internal/adapter/outbound/ocpp/controller.go:315-332 | the exact condition under which a tick calls the commander to start a connector; overrides play no part in it |
| GateCommands.TickIssues | internal/adapter/outbound/ocpp/controller.go:271-332 | per charger, the commands of a tick are exactly the stops of its transactions or the starts of its connectors, in order and each once, or none |
| GateCommands.MarkIff | internal/adapter/outbound/ocpp/controller.go:271-280 | the exact condition under which a tick holds a charger; whether it charges plays no part |
| GateCommands.MarkWithStopIff | internal/adapter/outbound/ocpp/controller.go:271-293 | a stop comes with it exactly when one of its numbered connectors has an active transaction |
| GateRuns.IdleIsMarked | internal/adapter/outbound/ocpp/controller.go:271-293 | from every initial state with the loop on, a run whose third dark tick holds a charger that has no transaction, and stops nothing |
| GateRuns.OverriddenIsStarted | internal/adapter/outbound/ocpp/controller.go:315-332 | that run continued: the user takes the charger over, and the second bright tick starts its connector |
| Handover.HandedFor | internal/adapter/outbound/ocpp/commander.go:125-189 | however the commands for several chargers interleave, each charger is sent those of its own that pass its own cooldown and connection, in order, whatever becomes of the others |
| GateCommands.BurstThroughCommander | internal/adapter/outbound/ocpp/commander.go:57-67 | what a tick issues for a charger against what the commander then has sent it: in a burst shorter than the cooldown a command goes out exactly when it can be sent, the charger was off cooldown before and has accepted none of the earlier ones; at most one is accepted, and a reachable charger off cooldown is sent exactly those up to the first it accepts |
| GateCommands.AskedIff | internal/adapter/outbound/ocpp/controller.go:271-332 | the exact condition for each request a tick has for a charger: stops of transactions active on numbered connectors, starts of numbered connectors for "solar" |
| GateCommands.StoppedIsHeld | internal/adapter/outbound/ocpp/controller.go:267-293 | a charger the gate issues a stop for is held from then on, whatever became of the stop |
| GateCommands.HeldIsNotRetried | internal/adapter/outbound/ocpp/controller.go:274-277 | while the gate holds a charger it issues no stop for it |
| Control.Controller.constructor | internal/adapter/outbound/ocpp/controller.go:44-70 | a new controller is enabled, its gate off and its caches empty |
| Control.Controller.SetEnabled | internal/adapter/outbound/ocpp/controller.go:74-80 | only the switch changes |
| Control.Controller.SetSafeAmps | internal/adapter/outbound/ocpp/controller.go:112-115 | the safe current is stored with 32 bits, nothing else changes |
| Control.Controller.SetManualOverride | internal/adapter/outbound/ocpp/controller.go:120-126 | the charger joins the overridden ones |
| Control.Controller.ClearManualOverride | internal/adapter/outbound/ocpp/controller.go:129-135 | the charger leaves the overridden ones |
| Control.Controller.ClearAllManualOverrides | internal/adapter/outbound/ocpp/controller.go:138-150 | nobody is overridden any more |
| Control.Controller.SetSolarThreshold | internal/adapter/outbound/ocpp/controller.go:170-172 | the threshold is stored with 32 bits; counters and held chargers stay |
| Control.Controller.LastSetAmps | internal/adapter/outbound/ocpp/controller.go:160-166 | the last limit the connector accepted, or 0 |
| Control.Controller.RunSolarGate | internal/adapter/outbound/ocpp/controller.go:237-338 | one evaluation of the gate: counters, held chargers, commands in order, and whether the tick stops here |
| Control.Controller.StopTransactions | internal/adapter/outbound/ocpp/controller.go:279-293 | a stop for each active transaction of a charger's numbered connectors goes through the commander, in order, each answered before the next |
| Control.Controller.StartConnectors | internal/adapter/outbound/ocpp/controller.go:323-332 | a start for each numbered connector likewise |
| Control.Controller.StopAllAtGate | internal/adapter/outbound/ocpp/controller.go:271-296 | the stop loop over all chargers |
| Control.Controller.StartAllAtGate | internal/adapter/outbound/ocpp/controller.go:315-335 | the start loop over all chargers |
| Control.Controller.SetChargingProfile | internal/adapter/outbound/ocpp/commander.go:75-96 | the commander sends the default profile and the live transaction's, logged as one entry; the answer is that to the default; what it has sent are exactly the profiles of the trace |
| Control.Controller.SetUnlessUnchanged | internal/adapter/outbound/ocpp/controller.go:449-469 | unless the last accepted limit was the same the commander is called, and what it accepts is remembered |
| Control.Controller.ProcessConnector | internal/adapter/outbound/ocpp/controller.go:395-473 | calculator call, notice when the stop flag flips, and a profile unless the last accepted one had the same limit |
| Control.Controller.ProcessCharger | internal/adapter/outbound/ocpp/controller.go:377-393 | the drawing connectors of one charger in order, none if it is overridden |
| Control.Controller.RevertAllToSafe | internal/adapter/outbound/ocpp/controller.go:482-518 | the safe limit, through the commander, to every drawing connector of every online charger that is not known to have it |
| Control.Controller.RunTick | internal/adapter/outbound/ocpp/controller.go:203-235 | one tick: disabled, stale, listing failed, held by the gate, or a pass over all chargers; what became of the gate's commands at the commander, and that it has sent exactly the profiles of the trace |
| Control.ProcessSplit | internal/adapter/outbound/ocpp/controller.go:229-234 | a pass over chargers is the passes over their connectors one after the other |
| ControlSteps.TargetsAreTheVisited | internal/adapter/outbound/ocpp/controller.go:377-393 | a pass visits exactly the connectors in Charging or SuspendedEVSE of the online chargers it does not skip |
| ControlSteps.TargetsDistinct | internal/adapter/outbound/ocpp/controller.go:377-393 | no connector is visited twice in one pass |
| ControlSteps.ProcessFrame | internal/adapter/outbound/ocpp/controller.go:377-473 | a pass changes caches and calculator memory only of chargers it visits, and sends only to them |
| ControlSteps.OverrideIsolation | internal/adapter/outbound/ocpp/controller.go:271-274 | a tick with fresh data sends an overridden charger no profile, notice or gate stop and leaves all memory of it alone |
| ControlSteps.StaleTickIsComplete | internal/adapter/outbound/ocpp/controller.go:482-518 | after a stale tick every drawing connector of every online charger that accepts has the safe limit on record, each got at most one send, and nothing else changed |
| ControlSteps.StaleSendIff | internal/adapter/outbound/ocpp/controller.go:482-518 | the exact condition under which a stale tick sends a given profile |
| ControlSteps.StaleTickSendsIff | internal/adapter/outbound/ocpp/controller.go:482-518 | at the commander: the exact condition under which a stale tick sends a connector a default profile, and the one for its transaction |
| ControlSteps.StaleTickRepeated | internal/adapter/outbound/ocpp/controller.go:482-518 | a stale tick repeated at once attempts exactly the sends that were refused, in order |
| ControlSteps.TickKeepsAmps | internal/adapter/outbound/ocpp/controller.go:203-518 | a tick keeps limits, safe current, remembered limits and every profile sent inside lo..hi |
| ControlDedup.TickAgrees | internal/adapter/outbound/ocpp/controller.go:414-518 | a tick with the profile cache leaves every connector at the standing limit a tick that always sends would, in the running, stopped and stale paths |
| ControlDedup.TickAgreesIff | internal/adapter/outbound/ocpp/controller.go:414-518 | from equal limits, standing and live, a tick with the cache and one without leave equal limits exactly when no send of the latter is both cached and of any effect |
| ControlDedup.TickSettles | internal/adapter/outbound/ocpp/controller.go:449-469 | a tick sends to each connector at most one limit; an accepted one is cached whether or not it reached the live transaction |
| Devices.DeliveredByProfiles | internal/adapter/outbound/ocpp/commander.go:75-96 | what a send puts in force is what the profiles the commander makes of it do, each with its own answer |
| Devices.RedundantIff | docs/hardware/abb-terra-ac.md:71-79 | a send changes nothing exactly when every limit it would set, standing and live, is in force already |
| Power.CallAdds | internal/adapter/outbound/ocpp/controller.go:395-473 | a connector's turn announces the stop flag exactly when it is not the one on record, and then sends the limit, or the safe one with a stop, exactly when it is not the one on record |
| Power.TickFitsPower | internal/adapter/outbound/ocpp/controller.go:340-473 | while solar minus consumption, or what is fed into the grid, readings that are not fresh counting as 0, reaches the minimum, every limit a tick sends or announces keeps to it but the safe limit of a stopped charger |
| Power.TickCounts | internal/adapter/outbound/ocpp/controller.go:340-396 | a tick counts for a charger once for each drawing connector, below or not by those readings, and not at all while the gate holds it back |
| GateHold.TickHeldBackIff | internal/adapter/outbound/ocpp/controller.go:237-338 | a tick with fresh data computes, sends and announces nothing exactly when the gate is on, solar is known, and it is below the threshold or at or above it for the first time in a row; otherwise it makes the pass over all visited connectors |
| GateHold.NewChargerComputedIff | internal/adapter/outbound/ocpp/controller.go:229-234 | a drawing charger never computed before is computed in a tick exactly when the gate does not hold it back |
| GateHold.CountersCountInARow | internal/adapter/outbound/ocpp/controller.go:237-262 | in every run the two counters are the dark and the bright ticks in a row, by threshold and reading |
| GateHold.HeldBackInEveryRun | internal/adapter/outbound/ocpp/controller.go:237-338 | in every run a tick is held back exactly when it is dark, or bright with no bright one right before it |
| ControlOrder.PassIsLocal | internal/adapter/outbound/ocpp/controller.go:377-473 | what a pass does to one charger is what the pass over that charger's connectors alone does |
| ControlOrder.InterleavingIrrelevant | internal/adapter/outbound/ocpp/controller.go:229-234 | passes with the same calls per charger, interleaved differently, leave the same state |
| ControlOrder.ListingOrderIrrelevant | internal/adapter/outbound/ocpp/controller.go:203-235 | a tick leaves the same state in whatever order the repository lists the chargers |
| ControlSharing.TickOffersIff | internal/adapter/outbound/ocpp/controller.go:229-234 | the first tick with k drawing connectors offers k times the capped ideal, which stays within the surplus exactly when k times it is at most the ideal |
| ControlSharing.SettledOffersIff | internal/adapter/outbound/ocpp/controller.go:395-473 | gate off, all constant and all sends accepted: from the third tick on the limits on record at k drawing connectors total k safe currents below the minimum, otherwise k capped ideals up to 1 A each, and fit into the surplus exactly when that total is at most the surplus in whole amperes |
| ControlSharing.TwoChargersOverdraw | internal/adapter/outbound/ocpp/controller.go:229-234 | two chargers and a surplus of 16 A: 32 A are offered |
| ControlSharing.StoppedFromTickIff | internal/adapter/outbound/ocpp/controller.go:387-396 | with constant readings below the minimum a new charger with d drawing connectors is stopped exactly from tick ceil(3/d) on |
| ControlQuiet.PassAdvances | internal/domain/smartcharging/calculator.go:62-131 | each pass that visits a charger moves its debounce and hysteresis memory a stage nearer to its fixed point |
| ControlQuiet.PassPins | internal/adapter/outbound/ocpp/controller.go:395-473 | from the second stage on a pass with accepted sends leaves the caches at what the next call would send |
| ControlQuiet.ThreeTicksSettle | internal/adapter/outbound/ocpp/controller.go:203-235 | three ticks with the same fresh readings settle every watched connector, from any state |
| ControlQuiet.QuietFromTheFourthTick | internal/adapter/outbound/ocpp/controller.go:395-473 | gate off, readings, settings and repository constant and all sends accepted: from any state, ticks from the fourth on send nothing and change nothing |
| System.RunKeepsRepo | internal/domain/ports/inmemory.go:28-84 | in every run charger ids and connector numbers stay distinct |
| System.ApplyKeepsRepo | internal/domain/ports/inmemory.go:28-84 | no operation deletes a charger |
| SystemHistory.OnlineIff | internal/adapter/outbound/ocpp/handler.go:583-641 | in every run a known charger is online exactly when it last connected or booted rather than disconnected |
| SystemHistory.KnownIff | internal/adapter/outbound/ocpp/handler.go:181-227 | a charger is known exactly when it ever connected or booted |
| SystemHistory.DetailsAreTheLastBoot | internal/adapter/outbound/ocpp/handler.go:181-227 | what is stored of it is what it said at its last boot, or nothing |
| SystemHistory.ListedIff | internal/adapter/outbound/ocpp/handler.go:255-301 | a connector is listed exactly as it was last reported |
| SystemHistory.OverriddenIff | internal/adapter/outbound/ocpp/controller.go:120-150 | in every run a charger is overridden exactly when the user took it over, by mode or by an accepted limit, and it was not handed back since, by mode, by switching the loop on, by the end of a transaction or by a disconnect |
| SystemHistory.EnabledByHistory | internal/adapter/outbound/ocpp/controller.go:74-80 | the loop is on exactly when it was last switched on, or was from the start |
| SystemHistory.ThresholdByHistory | internal/adapter/outbound/ocpp/controller.go:170-172 | the threshold is the last one set, kept with 32 bits |
| SystemHistory.LimitsByHistory | internal/csms/csms.go:321-342 | limits and safe current are those of the last change within 6..32, the latter kept with 32 bits |
| SystemProfiles.ProfilesWithin6And32 | internal/csms/csms.go:321-342 | over any run with default currents in range every profile the loop sends lies in 6..32 A |
| SystemProfiles.UpdateIsSafeIff | internal/csms/csms.go:321-342 | no run that goes on from a parameter change, with defaults in range from then on, sends a profile outside 6..32 A, exactly if the change is rejected or has its default in range too |
| SystemProfiles.UpdateKeepsBoundsIff | internal/csms/csms.go:321-342 | the step of that proof: exactly those changes keep the invariant on limits, safe current and remembered limits |
| SystemProfiles.UnvalidatedDefault | internal/csms/csms.go:322-325 | an accepted update with a default of 80 A after which a stale tick sends 80 A |
| SystemProfiles.StaleTicksInEveryRun | internal/adapter/outbound/ocpp/controller.go:482-518 | in every run a stale tick leaves the safe limit on record for exactly the accepting drawing connectors of online chargers |
| SystemProfiles.ManualKeepsCoherentIff | internal/csms/csms.go:434-457 | a limit set by hand leaves what is cached in force exactly when every accepting connector with a cached limit has that very limit cached |
| SystemProfiles.CacheRefinesAlwaysSending | internal/adapter/outbound/ocpp/controller.go:414-518 | over any run whose manual limits meet that condition the standing limit of every connector equals that of a controller that sends on every tick |
| SystemProfiles.SetAmpsGoesPastTheCache | internal/csms/csms.go:434-457 | a manual limit stands at every accepting numbered connector while the cache still says what it said |
| Sites.LimitsAgreeIff | internal/adapter/outbound/ocpp/controller.go:414-518 | over any execution, with transactions, restarts, refusals and manual limits, the standing and live limits are at every moment those of a controller that always sends, exactly when no tick skips a send that would change one |
| Sites.StandingLimitsAgree | internal/adapter/outbound/ocpp/controller.go:414-518 | the standing limits are, at every moment of an execution whose manual limits are safe |
| Sites.LiveIsCachedIff | internal/adapter/outbound/ocpp/commander.go:75-96 | the limit of a transaction under way is the cached one exactly when the last accepted send that was not skipped reached it or needed not, or it started after that send |
| Sites.HarmfulSkipIff | internal/adapter/outbound/ocpp/controller.go:449-457 | of an always-sending tick's sends exactly those are skipped to any harm that are cached, would reach the transaction, and whose connector has not caught up |
| Sites.CacheRefinesIff | internal/adapter/outbound/ocpp/controller.go:414-518 | with safe manual limits, all limits agree at every moment exactly when no tick skips a send to a transaction the last send missed |
| Sites.GateStopsOpenTransactions | internal/adapter/outbound/ocpp/controller.go:279-291 | every stop the gate issues names a transaction open on that charger, and a burst names all of the charger's that were started or metered since the last restart |
| Sites.EverySiteIsSound | internal/adapter/outbound/ocpp/controller.go:203-235 | both loops stay in the same state but for caches, the repository stays valid, and sessions and transactions stay in step |
| SiteRuns.RestartLeavesOldLimit | internal/adapter/outbound/ocpp/commander.go:84-93 | a run without refusals or manual limits: after a restart during a transaction only the standing limit follows, the cache then skips, and the transaction keeps 10 A where always sending gives 16 A |
| SiteRuns.ManualLimitStays | internal/csms/csms.go:434-457 | a run in which 16 A is sent, 10 A set by hand, automatic mode resumed, and the next tick's 16 A skipped |
| Csms.CSMS.UpdateCharging | internal/csms/csms.go:321-342 | accepted exactly when 6 <= min <= max <= 32; then calculator, controller, commander and handler all take the new values, otherwise none changes and the error names the first failing check |
| Csms.CmdBridge.ApplyAmps | internal/csms/csms.go:434-457 | the commander sends the limit to every numbered connector, and the charger is overridden exactly when one accepts |
| Csms.CmdBridge.OnSetSmartCharging | internal/csms/csms.go:485-497 | switching the loop on clears all overrides |
| Csms.CmdBridge.OnSetChargingMode | internal/csms/csms.go:499-508 | manual sets and automatic clears the charger's override |
| Csms.CmdBridge.OnSetSolarThreshold | internal/csms/csms.go:510-518 | the threshold is set |
| Csms.CmdBridge.StartCharging | internal/csms/csms.go:520-546 | the commander is asked, through its cooldown and in order, to start every numbered connector but those the repository answers a usable active transaction for; its books after that |
| Csms.StartsInOrder | internal/csms/csms.go:526-545 | at most one start for each connector listed, in their order |
| Csms.CmdBridge.StopCharging | internal/csms/csms.go:548-563 | the commander is asked, through its cooldown and in order of the connectors, to stop every usable active transaction the repository answers, and nothing else; its books after that |
| Csms.StopsInOrder | internal/csms/csms.go:554-562 | at most one stop for each connector listed, in their order |
| Handover.AskedFor | internal/adapter/outbound/ocpp/commander.go:125-189 | of such a list the charger is sent exactly those that pass its cooldown and connection |
| Csms.StopsTheOpenTransactions | internal/csms/csms.go:548-563 | in every execution the stops sent are of transactions really open on the charger's connectors, and every one started or metered since the last restart is among them |
| Commanding.Commander.constructor | internal/adapter/outbound/ocpp/commander.go:40-48 | a new commander has the default cooldown and no switch on record |
| Commanding.Commander.SetCooldown | internal/adapter/outbound/ocpp/commander.go:51-55 | the cooldown is replaced |
| Commanding.Commander.EnforceCooldown | internal/adapter/outbound/ocpp/commander.go:57-67 | refused exactly when a switch is on record and the cooldown has not passed |
| Commanding.Commander.RequestStartStop | internal/adapter/outbound/ocpp/commander.go:125-149 | refused on cooldown before anything is sent, or not sent because the connection fails, or under way |
| Commanding.Commander.OnStartStopConfirmation | internal/adapter/outbound/ocpp/commander.go:166-177 | only an accepted confirmation is put on record, at its own time |
| Commanding.Commander.SetChargingProfile | internal/adapter/outbound/ocpp/commander.go:75-96 | the default profile always, then the live transaction's on a numbered connector if the default was accepted; a refusal of the second is not an error |
| Commanding.Commander.RemoteCommand | internal/adapter/outbound/ocpp/commander.go:125-189 | one start or stop whose caller waits: refused on cooldown, not sent, refused, unanswered or put on record at the time of its answer |
| Commanding.GoingUpToTaken | internal/adapter/outbound/ocpp/commander.go:57-67 | of a burst shorter than the cooldown to a reachable charger off cooldown, the requests up to and with the first accepted go out, in order, and none after it |
| Commanding.SpacingIff | internal/adapter/outbound/ocpp/commander.go:57-73 | every switch keeps the cooldown it was checked against exactly when no accepted confirmation that answers no outstanding check comes within the cooldown |
| Commanding.ContactorSpacing | internal/adapter/outbound/ocpp/commander.go:57-73 | in particular if each confirmation comes before the charger's next checked command |
| Commanding.TwoUnderWayBreakSpacing | internal/adapter/outbound/ocpp/commander.go:125-189 | with two requests under way both pass the check, two switches come a nanosecond apart, and the spacing is broken |
| Commanding.LeavesIff | internal/adapter/outbound/ocpp/commander.go:57-67 | a command of a burst goes out exactly when the charger was off cooldown before it and is again since every earlier command it accepted |
| Commanding.SwitchesInAnyWindow | internal/adapter/outbound/ocpp/commander.go:57-73 | with a fixed cooldown C and no such early confirmation a window of length L holds at most ceil(L/C) switches of a charger |
| Handling.Handler.OnStatusNotification | internal/adapter/outbound/ocpp/handler.go:255-301 | the reported connector is upserted, nothing else changes |
| Handling.Handler.OnBootNotification | internal/adapter/outbound/ocpp/handler.go:181-227 | the charger is stored online with what it reported |
| Handling.Handler.OnStartTransaction | internal/adapter/outbound/ocpp/handler.go:478-530 | one session is stored, with the generated ids and the message's timestamp or the time of arrival |
| Handling.Handler.OnStopTransaction | internal/adapter/outbound/ocpp/handler.go:532-581 | the transaction's session, if known, is closed with the message's readings, and the charger's override is cleared |
| Handling.Handler.FindOrRecover | internal/adapter/outbound/ocpp/handler.go:310-365 | the session of the reported transaction, created and the connector set to Charging exactly when no session of it is known |
| Handling.Handler.ParseSampledValue | internal/adapter/outbound/ocpp/handler.go:434-476 | one sampled value: what is stored of it and what it reads of each quantity |
| Readings.PublishedIff | internal/adapter/outbound/ocpp/handler.go:367-476 | a message publishes a positive power, energy or current exactly when its last sample with a positive amount of that quantity reads it: watts or no unit a thousandth in kW, kWh a thousandfold in Wh, no measurand the energy register, any other unit or measurand nothing |
| Readings.MeansOneThing | internal/adapter/outbound/ocpp/handler.go:434-476 | a sample moves one quantity and reads one amount of it |
| Readings.StoredExactly | internal/adapter/outbound/ocpp/handler.go:434-476 | exactly the samples that are numbers are stored, in order, with their own fields |
| Readings.SamplesInOrder | internal/adapter/outbound/ocpp/handler.go:370-378 | the samples are taken group by group, each with its group's time or that of arrival |
| Handling.Handler.TakeReadings | internal/adapter/outbound/ocpp/handler.go:367-388 | all parseable samples in order, and the last positive power, energy and current |
| Handling.Handler.OnMeterValues | internal/adapter/outbound/ocpp/handler.go:303-394 | recovery, then the readings are stored under the session found |
| Handling.Handler.OnConnect | internal/adapter/outbound/ocpp/handler.go:583-599 | a known charger is marked online, an unknown one stored as a placeholder |
| Handling.Handler.OnDisconnect | internal/adapter/outbound/ocpp/handler.go:622-641 | the override is cleared and a known charger marked offline |
| Handling.LastPositiveMeaning | internal/adapter/outbound/ocpp/handler.go:376-386 | the reading published is 0 when no sample of the message is positive, and otherwise the positive one no later sample overrides |
| Handling.TxIDRange | internal/adapter/outbound/ocpp/handler.go:750-763 | generated transaction ids fit 31 bits and are the reserved 0 for exactly one draw, 4294967294 |
| Handling.TxIDDraws | internal/adapter/outbound/ocpp/handler.go:750-763 | which of the four-byte draws give an id: two for each but the smallest and the largest |
| Transactions.NoResurrection | internal/adapter/outbound/ocpp/handler.go:310-365 | MeterValues for a transaction with a session, stopped or not, create none |
| Transactions.RecoveryNeitherDuplicatesNorResurrects | internal/adapter/outbound/ocpp/handler.go:303-567 | whatever chargers send in whatever order, a charger's transaction has at most one session, none is lost, only closing changes one, and a stopped one is never active again |
| Transactions.StartToStop | internal/adapter/outbound/ocpp/handler.go:478-567 | a transaction started and stopped with no restart in between leaves one session with the id tag, readings and times of exactly that start and that stop, whatever else happens meanwhile |
| Transactions.StepKeepsInStep | internal/adapter/outbound/ocpp/handler.go:303-567 | start, meter, stop and restart each keep the coupling of sessions and open transactions |
| Transactions.BothSidesStayInStep | internal/adapter/outbound/ocpp/handler.go:303-567 | across starts, meter values, stops and restarts every active session is the open transaction of its connector |
| Transactions.OneActiveSession | internal/domain/ports/inmemory.go:142-151 | a connector never has two active sessions, so the lookup's order does not matter |
| Transactions.TxProfileNamesOpenTransaction | internal/adapter/outbound/ocpp/commander.go:84-93 | every TxProfile names the transaction really open on that connector |
| Transactions.AnnouncedTransactionIsFound | internal/domain/ports/inmemory.go:142-151 | an open transaction started or metered since the last restart is found, and a free connector answers none |
| Transactions.OneMeterValueRecovers | internal/adapter/outbound/ocpp/handler.go:317-365 | after a restart one MeterValues with its transaction id brings the session back, reconstructed with the id tag "recovered", no start reading and the time of the message |
| Relay.UpstreamRelay.ShouldThrottleMV | internal/adapter/outbound/ocpp/relay.go:218-236 | throttled exactly when less than 60/r whole seconds passed since the last one let through, which is remembered |
| Relay.UpstreamRelay.Connect | internal/adapter/outbound/ocpp/relay.go:82-149 | a charger with an upstream configured is connected once, and only if the connection starts |
| Relay.UpstreamRelay.Disconnect | internal/adapter/outbound/ocpp/relay.go:151-171 | the charger's connection goes, no other |
| Relay.UpstreamRelay.Forward | internal/adapter/outbound/ocpp/relay.go:196-301 | no connection, skipped, unsupported or passed on; only MeterValues are throttled, and only chargers' messages have a case |
| Relay.LetThroughSpaced | internal/adapter/outbound/ocpp/relay.go:218-236 | MeterValues let through for a charger are at least 60/r whole seconds apart |
| Relay.ThrottleBound | internal/adapter/outbound/ocpp/relay.go:218-236 | for a rate in 1..60 a minute lets through at most ceil(60 / floor(60/r)), whatever arrives when |
| Relay.RateHonouredIff | internal/adapter/outbound/ocpp/relay.go:224-234 | the configured rate is kept for all arrivals exactly when it divides 60 |
| Emitting.Emitter.Subscribe | pkg/csms/emitter.go:46-52 | a new empty channel of the configured size joins the others |
| Emitting.Emitter.Emit | pkg/csms/emitter.go:57-70 | each subscriber buffers the event or, if full, drops it |
| Emitting.DroppedIffFull | pkg/csms/emitter.go:46-70 | in every run each subscriber is offered every event since it joined, one is dropped for it exactly when its buffer is full at that moment, and each receipt hands it the oldest not yet received |
| Emitting.NothingDroppedWithRoom | pkg/csms/emitter.go:57-70 | with room at every emission nothing is dropped, and received followed by waiting is exactly what was emitted |
| Emitting.EveryStreamConserved | pkg/csms/emitter.go:46-70 | in every run received followed by buffered is a subsequence of the emitted events, buffers never overflow, and emitted is received plus buffered plus dropped |
| Emitting.StreamsAreIndependent | pkg/csms/emitter.go:57-70 | a subscriber's stream is what it would be if nobody else had subscribed |
| Policies.Merge | internal/domain/proxy/policy.go:173-203 | the loops over the override map, in any order, produce the merged policy |
| Policies.DecideMerged | internal/domain/proxy/policy.go:154-203 | an override decides its action in the direction the action belongs to, every other decision stays |
| Policies.MergeTwice | internal/domain/proxy/policy.go:173-203 | merging twice is merging once, the later overrides taking precedence |
| Policies.ProfileDecisionIff | internal/domain/proxy/policy.go:117-203 | a merged policy decides to forward SetChargingProfile exactly when an override says so |
| Policies.MarshalRoundTripIff | internal/domain/proxy/policy.go:210-233 | a value of the decision type survives its JSON text exactly when it is one of the four named ones, which are all that reading one yields |
| Routing.Router.ForwardAsync | internal/adapter/outbound/ocpp/router.go:68-76 | the message is handed to the relay, if there is one |
| Routing.Router.RouteInbound | internal/adapter/outbound/ocpp/router.go:78-156 | a charger's message is forwarded exactly when the policy decides so |
| Routing.Router.RouteOutbound | internal/adapter/outbound/ocpp/router.go:158-186 | a command is decided and nothing is forwarded |
| Routing.OnlyChargersMessagesGoUpstream | internal/adapter/outbound/ocpp/router.go:68-156 | in every run, whatever the policies, a message that went upstream came from that charger and its policy decided to forward it |
| Routing.NoProfileGoesUpstream | CONTEXT.md:36 | in no run, under no policies and overrides, does SetChargingProfile or any other command to a charger go upstream |
| Routing.GoesUpstreamIff | internal/adapter/outbound/ocpp/router.go:78-156 | with any overrides a message goes upstream exactly when it is a charger's, no override keeps it local, the charger is connected upstream and the throttle lets it through |

## Left out

- Floating point: the ratio of watts to volts is an integer division; rounding of fractional watts and voltages is not modelled.
- Concurrency inside one handler or tick: each handler and tick is one step, so the program's locks, goroutines and timeouts do not appear; a message handled in the middle of a tick is not modelled. Commands to the contactor are an exception, request and confirmation being separate events.
- Aliasing: the program keeps each charger's counters behind a reference in a map; here they are values in a map. The repositories return copies, as the program's do.
- Control.Controller.RunTick: the cooldown is fixed during a tick, and nobody else's commands reach the commander in the middle of one.
- Transactions.BothSidesStayInStep: assumes messages of a charger arrive in order and without loss, and that generated identifiers are fresh; the generator is random and could collide.
- Chargers that treat profiles otherwise than documented for the ABB Terra AC, a profile for connector 0 reaching the others, reboots of the charger, and meter registers that restart.
- Commands for all chargers at once (an empty charger name), which repeat the modelled command for each listed charger.
- Session listing with paging; reconnection of the upstream link; commands that come from upstream; stub answers: delegation.
- Routing.Router.RouteInbound: the handlers of the program go on the same way whatever the decision is, and the router's routes for commands have no caller.
- The program as wired forwards nothing and merges no overrides (`internal/csms/csms.go:96-97`); the router is modelled for every policy and with a relay, and what would read a policy from a file is not part of this model.
- Publishing: MQTT topics and discovery, the WebUI, logging, metrics, the live broadcaster and the text of errors.
- Configuration files, environment and reload classification.
- Sensor drift warnings and firmware version parsing, which only log.
- ClearChargingProfile, which is one send without state.
- The readings' age test and the unit normalisation of the energy adapter, which are inputs here.
- Authentication.
