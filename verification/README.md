# Verification model of the EcoFlow PowerOcean integration

The integration polls an EcoFlow PowerOcean inverter over Modbus. This project models its
decision engines in Dafny and proves what they are relied on for:

- **Reading** (`ReadPlan.dfy`, `BlockPlan.dfy`): registers are grouped into Modbus reads.
  The greedy pass is proved to use the fewest legal reads of all, and optional registers to
  leave the required reads alone.
- **Energy** (`Energy*.dfy`): lifetime counters that glitch are validated against a power
  budget. Published totals never fall, never rise faster than the power allows, pass no
  glitch on and are held no longer than the budget asks; an accepted 0 is left only for a
  value the budget covers or on the evidence of a second counter. Offsets, daily counters
  and the house balance sit on top.
- **Battery modes** (`Plans.dfy`, `ModeRuns.dfy`): zones of the solar surplus with
  hysteresis, and a wait that doubles for a step left early.
- **Control** (`ControlRules.dfy`, `ControlSafety.dfy`, `ControlRuns.dfy`, `Commands.dfy`,
  `Delivery.dfy`, `Settings.dfy`, `ClosedLoop.dfy`, `Control.dfy`): two state-of-charge guards
  that only ever stop the battery, the hand-back of self-consumption to the inverter, tracking
  the house on a setpoint, and sending the difference so that a failed write is repeated.
  `Commands` says what is decided in which frame, up to which power and why. `ClosedLoop`
  joins them to an inverter that obeys its registers, and says exactly when it keeps to the
  Charge Limit and the reserve, whatever the weather and whichever writes fail.
- **Heartbeat** (`Heartbeat.dfy`, `Authority.dfy`): the timed write that keeps the inverter
  obeying, and what it spares the controller.

Objects whose methods update fields are classes (`ModeState`, `Heartbeat`,
`EnergyProcessor`, `Coordinator`, `GuardHandback`, `ControlManager`); each method is proved
to do what a pure function says, and the properties over runs are lemmas about these
functions. Powers, energies and states of charge are exact reals, a missing reading is an
absent key or `None`, and time is a parameter: seconds, or whole microseconds in the energy
modules. What a write, a clock or the weather does is a parameter of each step, so every
lemma holds for all of it.

Where the code and its documentation differ, the code is followed:

- The greedy pass is optimal for overlapping registers too, and against any grouping, not
  only consecutive runs, which is more than its docstring says. With optional registers the
  docstring of plan_blocks (models.py:745) is not met: the required reads are the fewest,
  but another grouping of as many may house more optional registers
  (`BlockPlan.RegroupingSavesARead`). `BlockPlan.PlanIsFewestIff` says exactly when.
- The comment on witnessed totals (energy_processor.py:361-362) says a repeating garbage
  value is never taken. It is never taken as witnessed, but the budget of the ordinary rule
  keeps growing while the total is held, and takes it once it is covered
  (`EnergyWitness.GarbageTakenInTheEnd`). A misscaled counter likewise.
- Daily values are total minus snapshot (class docstring of EnergyProcessor), but a total
  that leaves a 0 which was not the counter drops its snapshot inside a day
  (energy_processor.py:436-444); the daily value then does not grow as the total does
  (`EnergyPipeline.RestartBreaksGrowth`).
- A command is recorded only once it is delivered, so that a failed one is repeated
  (control.py:1744-1745). One failure escapes this: going back to Automatic may clear the
  old command's setpoint and then fail to change the method, after which the old command is
  taken for settled although its setpoint is gone (`Delivery.HalfClearedGoesUnnoticed`).
  `Delivery.SetpointKeptUnlessHalfCleared` says that this is the only such failure.
- A lapse is seen only where a poll or a reconnect finds the heartbeat too old
  (control.py:725-735 and 1713-1717). One that the heartbeat's timer ends between two polls
  goes unseen, and nothing is sent (`Authority.LapseGoesUnseen`, `Delivery.MissedLapseStays`), until a model that reports
  its method tells of it.
- The constants of the heartbeat leave half a second per round for the wire
  (`Heartbeat.NeverLapsesIff`), while one attempt may take three (const.py:100).
- A battery setpoint of 0 limits nothing, which is why a power of 0 is held instead
  (control.py:1443-1450). The check comes before the power is rounded: half a watt or less
  passes it and is sent as 0 (`ClosedLoop.TinyDischargeRunsFree`).
- A guard's decision never waits for the dwell between commands, but a mode's own does even
  under a guard (control.py:1730-1739). The limit is kept late by up to a minute where an
  earlier switch failed (`ClosedLoop.DwellKeepsCharging`, `ClosedLoop.LateRoundStops`).
- A release of a full battery that is half cleared leaves the inverter charging past its
  limit for as long as the hold that follows stays the decision
  (`ClosedLoop.HalfClearedCharges`).

`ClosedLoop.InverterStopsAtChargeLimit` says which polls stop an inverter that follows the
method it was told: all that reach what it follows, except for a power rounded away and a
full battery. The others leave it as it was. These are polls that dwell, polls whose send
fails, and polls with nothing to send, of which the last stop it too unless a command was
half cleared or a lapse missed before (`ClosedLoop.ToldStops`).

## Model

| member | source | states |
|---|---|---|
| ReadPlan.Group | custom_components/ef_powerocean_tcpmodbus/models.py:785-808 | The greedy pass returns the reads of its specification, none longer than one Modbus response, so building a read never raises |
| ReadPlan.GroupReadsOk | custom_components/ef_powerocean_tcpmodbus/models.py:785-808 | Judged word by word, every read is legal: within 125 words, touching an avoided address only inside a wanted register, never over more than max_gap unwanted words in a row; together the reads hold exactly the registers, in address order |
| ReadPlan.GroupIsFewest | custom_components/ef_powerocean_tcpmodbus/models.py:745-808 | Whatever legal reads fetch the registers, in whatever grouping (not only consecutive runs, and with overlapping registers allowed), there are at least as many of them |
| ReadPlan.GroupFetches | custom_components/ef_powerocean_tcpmodbus/models.py:785-808 | The greedy reads are themselves such reads, so the minimum is attained |
| ReadPlan.BlockReadAgrees | custom_components/ef_powerocean_tcpmodbus/models.py:728-735 | For any device memory, a register cut out of its block's response is what reading it alone gives |
| BlockPlan.PlanBlocks | custom_components/ef_powerocean_tcpmodbus/models.py:738-782 | The plan equals its specification and no read is longer than one response |
| BlockPlan.PlanKeepsRegisters | custom_components/ef_powerocean_tcpmodbus/models.py:754-782 | Every register is read in exactly one block, as often as it was asked for, in all three ways of planning |
| BlockPlan.PlanReadsOk | custom_components/ef_powerocean_tcpmodbus/models.py:738-782 | Every read of a plan is legal word by word |
| BlockPlan.PlanKeepsRequiredReads | custom_components/ef_powerocean_tcpmodbus/models.py:763-782 | Optional registers leave the start and the count of every required read as they were, and its registers in it |
| BlockPlan.OptionalNeverWidens | custom_components/ef_powerocean_tcpmodbus/models.py:763-778 | An optional register joins the first required read that already covers it, and goes apart exactly when none does |
| BlockPlan.RequiredReadsAreFewest | custom_components/ef_powerocean_tcpmodbus/models.py:745-782 | Against any plan by the same rule with the required registers grouped freely: none fetches these in fewer reads, so a plan exceeds another by at most its reads apart, and by nothing where every optional register has a home |
| BlockPlan.PlanIsFewestIff | custom_components/ef_powerocean_tcpmodbus/models.py:745-782 | Otherwise a plan is the fewest exactly when no choice of windows on the required registers, finitely many, beats the greedy reads of these, each with the rest of the optional registers grouped apart |
| BlockPlan.RegroupingSavesARead | custom_components/ef_powerocean_tcpmodbus/models.py:754-782 | An input with three reads where two would do, so the docstring fails for optional registers |
| BlockPlan.IsolatedPlanIsFewest | custom_components/ef_powerocean_tcpmodbus/models.py:745-762 | With optional registers isolated, or without any, no plan by the rule needs fewer reads |
| BlockPlan.IsolatedReadsAreOfOneKind | custom_components/ef_powerocean_tcpmodbus/models.py:754-762 | With optional registers isolated, no read mixes the two kinds: the plan starts with the very reads that a plan without optional registers has, and the reads after them hold optional registers only |
| Plans.ModeState.Choose | custom_components/ef_powerocean_tcpmodbus/plans.py:230-258 | The loop with its fields does what the pure step does, terminates, and keeps the deficit step free of any wait and the running step the one of the zone |
| Plans.ModeState.SwitchTo | custom_components/ef_powerocean_tcpmodbus/plans.py:266-282 | The fields after a switch, with the doubled or cleared wait of the step left |
| ModeRuns.ZoneForIdempotent | custom_components/ef_powerocean_tcpmodbus/plans.py:169-185 | A repeated surplus keeps the zone it led to |
| ModeRuns.ReversalNeedsMove | custom_components/ef_powerocean_tcpmodbus/plans.py:169-185 | Two zone changes in opposite directions are a deadband of surplus apart |
| ModeRuns.ClearSurplusHasItsZone | custom_components/ef_powerocean_tcpmodbus/plans.py:169-185 | A surplus clear of every dead band has the zone of its class, whatever the current zone |
| ModeRuns.BandKeepsZone | custom_components/ef_powerocean_tcpmodbus/plans.py:169-185 | Inside a dead band the zone is one of the two neighbours, the current one where that is a neighbour |
| ModeRuns.UnlimitedZones | custom_components/ef_powerocean_tcpmodbus/plans.py:169-185 | Without a limit there are only the surplus and the deficit, apart from the band around zero |
| ModeRuns.PollRunsItsStep | custom_components/ef_powerocean_tcpmodbus/plans.py:230-258 | So a poll in which no step has to wait runs the step that the mode has for the class of the surplus; an unknown surplus, or one a full battery cannot take, counts as a deficit |
| ModeRuns.ZonesRunTheirSteps | custom_components/ef_powerocean_tcpmodbus/plans.py:134-143 | A zone without a step runs that of its neighbour closer to zero |
| ModeRuns.RunningStepGoesOn | custom_components/ef_powerocean_tcpmodbus/plans.py:248-264 | The step that runs goes on where the surplus asks for it, whatever it waited for once |
| ModeRuns.ZoneReversalsBounded | custom_components/ef_powerocean_tcpmodbus/plans.py:169-185 | Over any run of surpluses, deadband times reversals is at most the total variation of the surplus |
| ModeRuns.FallbackIsFirst | custom_components/ef_powerocean_tcpmodbus/plans.py:251-255 | The step run is the first one on the way from the target zone to the deficit that is running or has waited long enough, and the way ends after at most two steps |
| ModeRuns.SwitchRateBounded | custom_components/ef_powerocean_tcpmodbus/plans.py:230-282 | Over any run, switches to one step other than the deficit's are 60 s apart, so T seconds see at most T / 60 + 1 |
| ModeRuns.WaitDoubles | custom_components/ef_powerocean_tcpmodbus/plans.py:266-282 | After k early exits in a row the wait is min(60 * 2^(k-1), 900) seconds |
| ModeRuns.WaitServed | custom_components/ef_powerocean_tcpmodbus/plans.py:260-264 | A step that is switched to again was left at least that wait before |
| Heartbeat.RetriesFitBudget | custom_components/ef_powerocean_tcpmodbus/heartbeat.py:39-48 | For every scan interval the waits of one write add up to at most 15 s |
| Heartbeat.RetriesFillBudget | custom_components/ef_powerocean_tcpmodbus/heartbeat.py:39-48 | They fill the 15 s: each wait is one scan interval, of at least a second and at most the budget, and one more would not fit |
| Heartbeat.SuccessIsDatedByItsStart | custom_components/ef_powerocean_tcpmodbus/heartbeat.py:163-208 | A success is dated by the start of the attempt that was accepted, however late its answer; a write without one leaves the last success |
| Heartbeat.WritesAreSpaced | custom_components/ef_powerocean_tcpmodbus/heartbeat.py:150-161 | The next write starts at least 5 s after this one ended and 20 s after the last success; one due within ten seconds of a success is not sent |
| Heartbeat.Heartbeat.WriteHeartbeat | custom_components/ef_powerocean_tcpmodbus/heartbeat.py:163-221 | One write with its retries, by what becomes of each attempt: the fields, the answer and the time it ends |
| Heartbeat.Heartbeat.RunOnce | custom_components/ef_powerocean_tcpmodbus/heartbeat.py:136-161 | One round of the timer: the write, then when the next one starts |
| Heartbeat.AgeBounded | custom_components/ef_powerocean_tcpmodbus/heartbeat.py:136-197 | At every instant of a run in which one of every two rounds lands, the last success is at most 59 s old plus twice the time a round spends on the wire, for every scan interval and jitter |
| Heartbeat.NeverLapsesIff | custom_components/ef_powerocean_tcpmodbus/heartbeat.py:90-161 | So the inverter stays in control throughout every such run exactly where a round spends at most half a second on the wire |
| Heartbeat.LandingIsOnTimeIff | custom_components/ef_powerocean_tcpmodbus/heartbeat.py:150-161 | A round that lands puts the loop on time, whatever came before, except exactly where a write landed within ten seconds and one was refused since |
| Heartbeat.BoundIsTight | custom_components/ef_powerocean_tcpmodbus/heartbeat.py:150-161 | For every time on the wire up to a second, a run in which two successes come exactly 59 s and twice that time apart |
| Heartbeat.RefusalLapses | custom_components/ef_powerocean_tcpmodbus/heartbeat.py:159-160 | One permanent refusal puts the next write 900 s away, so control lapses: the bound needs that there is none |
| Energy.EnergyProcessor.ApplyOffsets | custom_components/ef_powerocean_tcpmodbus/energy_processor.py:174-184 | Each device total above 0 gets its offset; a 0 and everything else stays |
| Energy.EnergyProcessor.ValidateTotals | custom_components/ef_powerocean_tcpmodbus/energy_processor.py:227-352 | The loop over the dictionaries does to each total exactly what Check does, and touches nothing else; a poll less than a second after another returns that one's data |
| Energy.EnergyProcessor.DailyConfirms | custom_components/ef_powerocean_tcpmodbus/energy_processor.py:354-393 | The witness run kept, and when it confirms |
| Energy.EnergyProcessor.ConfirmsFirstRead | custom_components/ef_powerocean_tcpmodbus/energy_processor.py:413-434 | The first read kept, and when it is confirmed |
| Energy.EnergyProcessor.ChangeOffsets | custom_components/ef_powerocean_tcpmodbus/energy_processor.py:186-225 | Each total whose offset changed moves, with its snapshot, acceptance time and latches; the others stay |
| Energy.EnergyProcessor.DeriveDaily | custom_components/ef_powerocean_tcpmodbus/energy_processor.py:458-504 | Each daily counter and its snapshot after a poll, over a day change or not |
| Energy.EnergyProcessor.ClampCalculated | custom_components/ef_powerocean_tcpmodbus/energy_processor.py:568-628 | The calculated values published |
| EnergyRuns.DeliveredIs | custom_components/ef_powerocean_tcpmodbus/energy_processor.py:455-456 | The budget is power times time |
| EnergyRuns.NeverFalls | custom_components/ef_powerocean_tcpmodbus/energy_processor.py:283-350 | Once a poll has been noted, a published total never falls, for any reads and any clock |
| EnergyRuns.FirstValueIsPublished | custom_components/ef_powerocean_tcpmodbus/energy_processor.py:284-290 | A first read is published as it is, and a 0 among them is not accepted |
| EnergyRuns.CountersAreBounded | custom_components/ef_powerocean_tcpmodbus/const.py:725-783 | Which power bounds which counter, and 30 kW where it is not known |
| EnergyRuns.UndatedIsCheckedFromLastPoll | custom_components/ef_powerocean_tcpmodbus/energy_processor.py:283-310 | A total without an acceptance time is checked from the poll before, and believed where there was none |
| EnergyRuns.HoldIsRemembered | custom_components/ef_powerocean_tcpmodbus/energy_processor.py:311-350 | A read that is not published is held with what was published and since when; one that is published ends the hold |
| EnergyRuns.RateBounded | custom_components/ef_powerocean_tcpmodbus/energy_processor.py:302-350 | Over any run, a total above 0 grows by at most what the maximum power delivers between the acceptances at its ends, plus 0.01 kWh per rise |
| EnergyRuns.AcceptedZeroJumps | custom_components/ef_powerocean_tcpmodbus/energy_processor.py:311-331 | A run of polls from an accepted 0 that breaks the rate bound: it ends at 5001 kWh after four minutes, so the bound needs a baseline above 0 |
| EnergyRuns.GlitchesPassUnseen | custom_components/ef_powerocean_tcpmodbus/energy_processor.py:273-350 | For a counter that rises within its budget, read truly, not at all or as a value it could not have reached, every poll publishes the value last read truly |
| EnergyRuns.TakenOnceBelievable | custom_components/ef_powerocean_tcpmodbus/energy_processor.py:306-350 | A value above the baseline that persists is published exactly when the budget since the last acceptance covers it, whatever its daily counter reads |
| EnergyRuns.FirstReadNeedsFollower | custom_components/ef_powerocean_tcpmodbus/energy_processor.py:291-300 | A 0 read first gives way to a read exactly when that read follows the non-zero read before it within the budget |
| EnergyWitness.TakenMeansWitnessed | custom_components/ef_powerocean_tcpmodbus/energy_processor.py:306-393 | An accepted 0 is left only for a value its budget covers, or after a chain of three or more of the latest reads, each following the one before, whose daily counter rose by 1 kWh or more and whose total by the same within 4 percent |
| EnergyWitness.GenuineCounterIsTaken | custom_components/ef_powerocean_tcpmodbus/energy_processor.py:306-393 | The converse: the true counter, whose reads agree with its daily counter within 0.02 kWh and 2 percent, replaces an accepted 0 by the third of them once they rose by 1 kWh, however far beyond the budget |
| EnergyWitness.UnwitnessedStaysIff | custom_components/ef_powerocean_tcpmodbus/energy_processor.py:311-331 | As long as no two reads witness each other, an accepted 0 stays exactly as long as no read above 0 is within the budget at the time, whatever bogus reads of 0 come in between |
| EnergyWitness.MisscaledNeverWitnessed | custom_components/ef_powerocean_tcpmodbus/energy_processor.py:311-393 | So a total rising k times its daily counter with abs(k - 1) > 0.04, a repeating value (k = 0) included, replaces an accepted 0 exactly when the budget covers it |
| EnergyWitness.StuckDailyNeverWitnessed | custom_components/ef_powerocean_tcpmodbus/energy_processor.py:354-393 | The same for a daily counter that is stuck |
| EnergyWitness.GarbageTakenInTheEnd | custom_components/ef_powerocean_tcpmodbus/energy_processor.py:354-363 | A value that repeats over an accepted 0 is taken exactly once the growing budget covers it, whatever its daily counter reads |
| EnergyOffsets.OffsetKeepsToday | custom_components/ef_powerocean_tcpmodbus/energy_processor.py:189-212 | A changed offset keeps total minus snapshot, hence today's value |
| EnergyOffsets.OffsetIsAdded | custom_components/ef_powerocean_tcpmodbus/energy_processor.py:174-184 | A reading above 0 gets the offset, a 0 does not |
| EnergyOffsets.OffsetMovesTotal | custom_components/ef_powerocean_tcpmodbus/energy_processor.py:189-216 | A changed offset moves a total to the latest device reading with the new offset, or by the change where there is none, and forgets what was held, read first or witnessed |
| EnergyOffsets.NextReadIsTaken | custom_components/ef_powerocean_tcpmodbus/energy_processor.py:189-216 | The next read within the budget is published as read plus new offset, not held |
| EnergyOffsets.DeviceRiseIsTaken | custom_components/ef_powerocean_tcpmodbus/energy_processor.py:203-216 | Where the device had a reading, the published total goes on by the device's own rise |
| EnergyOffsets.OffsetFromHeldTotalStays | custom_components/ef_powerocean_tcpmodbus/energy_processor.py:191-194 | An offset worked out from a held total keeps it at its published value |
| EnergyOffsets.TwoChangesAreOne | custom_components/ef_powerocean_tcpmodbus/energy_processor.py:198-212 | Two changes of an offset equal one direct change of data and snapshot, except exactly when they lead back to the first offset while the device reports something other than what is published |
| EnergyPipeline.Coordinator.UpdateData | custom_components/ef_powerocean_tcpmodbus/coordinator.py:1156-1189 | One whole poll leaves the coordinator in the next state of the runs the properties below are about: totals, daily counters, house totals and what is remembered |
| EnergyPipeline.PollPublishesReading | custom_components/ef_powerocean_tcpmodbus/coordinator.py:1160-1168 | A whole poll publishes of an accepted total the raw reading with the user's offset exactly where the power limits it brings cover the rise, and keeps what was published otherwise |
| EnergyPipeline.HouseIsTheBalance | custom_components/ef_powerocean_tcpmodbus/telemetry.py:164-184 | The house total is solar plus import plus discharge less export and charge of the totals published with it, unless that is below 0 or below the house total before |
| EnergyPipeline.HouseTodayIsKept | custom_components/ef_powerocean_tcpmodbus/energy_processor.py:568-628 | The house's use of today follows its balance in the same way, and only a new day lets it fall |
| EnergyPipeline.UseTodayIs | custom_components/ef_powerocean_tcpmodbus/telemetry.py:164-184 | That balance, by the daily counters published with it |
| EnergyPipeline.SizesSetLimits | custom_components/ef_powerocean_tcpmodbus/coordinator.py:1212-1227 | The capacity a poll reads sets the battery's two limits from that poll on, and no other |
| EnergyPipeline.RolloverIsLatestDay | custom_components/ef_powerocean_tcpmodbus/energy_processor.py:553-566 | A day turns once: the rollover is the latest day seen, and never goes back |
| EnergyPipeline.MissingTotalHidesToday | custom_components/ef_powerocean_tcpmodbus/energy_processor.py:469-474 | Within a day a missing total hides the daily counter and keeps its snapshot |
| EnergyPipeline.DayStartsInPoll | custom_components/ef_powerocean_tcpmodbus/energy_processor.py:476-502 | The first whole poll of a new day publishes of each total what the device says it counted since midnight, where believable, or else 0 |
| EnergyPipeline.MidnightStartsOver | custom_components/ef_powerocean_tcpmodbus/energy_processor.py:469-502 | So, whatever was counted before, a poll on a turned day leaves a snapshot that makes today just that; a total missing then leaves no snapshot |
| EnergyPipeline.FirstPollStartsToday | custom_components/ef_powerocean_tcpmodbus/energy_processor.py:476-502 | So does the first poll of a total there is |
| EnergyPipeline.DaysAreCounted | custom_components/ef_powerocean_tcpmodbus/energy_processor.py:458-504 | Over any run, across however many days, a daily counter shows what the day started with plus what its total has grown since |
| EnergyPipeline.HouseTotalIsPeak | custom_components/ef_powerocean_tcpmodbus/telemetry.py:164-184 | Once the five totals have been read, every poll publishes a house total, the largest of 0 and the energy balances so far, whatever goes missing or is held |
| EnergyPipeline.HouseTotalNeverFalls | custom_components/ef_powerocean_tcpmodbus/energy_processor.py:568-628 | It never falls and is not negative |
| EnergyPipeline.DailyFollowsTotal | custom_components/ef_powerocean_tcpmodbus/energy_processor.py:476-502 | Within a day a daily counter grows by exactly what its total grows, whatever is read of either, as long as no read restarts it |
| EnergyPipeline.AboveZeroIsSameDay | custom_components/ef_powerocean_tcpmodbus/energy_processor.py:291-331 | Above 0 no read does |
| EnergyPipeline.RestartCountsFromDevice | custom_components/ef_powerocean_tcpmodbus/energy_processor.py:436-444 | A read that takes a total away from a 0 that was not the counter leaves the daily counter at what the device can be believed to have counted |
| EnergyPipeline.DailyFollowsTotalIff | custom_components/ef_powerocean_tcpmodbus/energy_processor.py:436-502 | Over a whole day a daily counter grows by what its total grows exactly if no read restarts it, or the one that does finds the device to have counted as much |
| EnergyPipeline.RestartBreaksGrowth | custom_components/ef_powerocean_tcpmodbus/energy_processor.py:311-331 | A run with such a read: the total leaps from 0 to 5001 kWh within a day, the daily counter to 1 |
| EnergyPipeline.PipelineCounts | custom_components/ef_powerocean_tcpmodbus/coordinator.py:1156-1189 | Over any run of whole polls each total goes its own way, as the lemmas on totals and daily counters have it |
| EnergyPipeline.CountedRuns | custom_components/ef_powerocean_tcpmodbus/energy_processor.py:458-504 | What is published of a total does not depend on the daily counter, so the lemmas about runs of its reads hold of it |
| EnergyPipeline.PipelineNeverFalls | custom_components/ef_powerocean_tcpmodbus/energy_processor.py:283-350 | So no published total falls in a run of whole polls |
| ControlSafety.ChargeLimitSafe | custom_components/ef_powerocean_tcpmodbus/control.py:1012-1072 | On models that track setpoints, at or past the Charge Limit no decision charges the battery, in any mode and any state of the controller, and the inverter is left to itself only under a natural power of -200 W or less; the one exception is a full battery under a surplus |
| ControlSafety.ReserveSafe | custom_components/ef_powerocean_tcpmodbus/control.py:1410-1542 | At or below the Battery Reserve no decision drains the battery, wherever the reserve is the controller's to keep |
| ControlSafety.PinnedBetweenLimits | custom_components/ef_powerocean_tcpmodbus/control.py:1410-1508 | Stopped at both limits, the battery idles in every mode, up to the same exception |
| ControlSafety.CarryOutSafe | custom_components/ef_powerocean_tcpmodbus/control.py:1410-1470 | Both claims for carrying out any one step, whatever the mode, the power and what is remembered |
| ControlSafety.OneWaySafe | custom_components/ef_powerocean_tcpmodbus/control.py:1116-1195 | Both claims for Automatic reproduced one way |
| ControlSafety.NeverTurnedAround | custom_components/ef_powerocean_tcpmodbus/control.py:1452-1470 | A step that commands a power is sent as it is, held, or left to the inverter while full; never turned into another command |
| ControlSafety.StoppedExactlyWhenMoving | custom_components/ef_powerocean_tcpmodbus/control.py:1572-1594 | Such a step is stopped exactly when it would move the battery a way it is stopped for, by the margin a step already stopped has to clear, or when that cannot be told |
| ControlSafety.BlindFramesHold | custom_components/ef_powerocean_tcpmodbus/control.py:1137-1140 | Without a known surplus a battery stopped at the Charge Limit is only held or discharged |
| ControlSafety.SlipBounded | custom_components/ef_powerocean_tcpmodbus/plans.py:188-209 | Until the next poll the battery charges by no more than the surplus has risen since the frame |
| Commands.PowersAreBounded | custom_components/ef_powerocean_tcpmodbus/control.py:953-1010 | In every mode, state and frame no decision exceeds what is configured, what the inverter can convert, what it is rated for and what it lets out; Export Solar First stays 100 W under the device's cap |
| Commands.UserPowerIsCommanded | custom_components/ef_powerocean_tcpmodbus/control.py:1552-1562 | A mode's power is commanded as the user set it where no bound lies below it and nothing stops the step, and is otherwise lowered to one of the bounds and no further |
| Commands.SolarTargetIsWantedOrBound | custom_components/ef_powerocean_tcpmodbus/control.py:1596-1610 | The limit of Export Solar First is the user's power or one of its bounds, and there is none exactly where the device's cap is unknown or leaves nothing |
| Commands.OneWayFollows | custom_components/ef_powerocean_tcpmodbus/control.py:1116-1195 | The decision of a settled Automatic reproduced one way: a charge w with surplus - 101 < w <= surplus, a discharge with need <= w < need + 101, as far as their bounds allow; a hold where the surplus moves the battery a forbidden way; Automatic exactly once handed back |
| Commands.GuardedAutomaticFollows | custom_components/ef_powerocean_tcpmodbus/control.py:1116-1195 | So does the whole decision in Automatic under the Charge Limit: the surplus is stored until the limit and the house covered throughout |
| Commands.ReservedAutomaticFollows | custom_components/ef_powerocean_tcpmodbus/control.py:1116-1195 | The same under the Battery Reserve |
| Commands.SmallMovesAreKept | custom_components/ef_powerocean_tcpmodbus/control.py:1183-1189 | A move of less than 100 W that imports nothing sends no new setpoint |
| Commands.UnsettledWaits | custom_components/ef_powerocean_tcpmodbus/control.py:1183-1189 | Until the battery has settled, one of less than 500 W sends none either way |
| Commands.BatteryCommandSettles | custom_components/ef_powerocean_tcpmodbus/control.py:1197-1225 | When that is, in measurements and seconds |
| Commands.GridCommandSettles | custom_components/ef_powerocean_tcpmodbus/control.py:1197-1225 | The same for a command measured at the grid |
| Commands.OtherWaysStartOver | custom_components/ef_powerocean_tcpmodbus/control.py:1133-1136 | With other ways forbidden than the last time nothing is handed back at once, and the wait is a minute again |
| Commands.HoldingModelsHold | custom_components/ef_powerocean_tcpmodbus/control.py:1141-1164 | Models that only hold do so exactly where a way is stopped now and nothing is handed back, judged by the smaller of two surpluses that disagree |
| Commands.SolarFirstRuns | custom_components/ef_powerocean_tcpmodbus/control.py:1392-1470 | Export Solar First, selected anew: which of its three commands it decides on, at what power and with what status, for every surplus |
| Commands.UnknownCapRunsAutomatic | custom_components/ef_powerocean_tcpmodbus/control.py:1596-1610 | Without a cap that leaves something it decides on Automatic, in whatever state it was |
| Commands.BannedChargeGivesWay | custom_components/ef_powerocean_tcpmodbus/control.py:1452-1464 | A charge that only the step bans is let through exactly within 100 W of the device's cap |
| Commands.BannedDischargeHolds | custom_components/ef_powerocean_tcpmodbus/control.py:1452-1467 | A discharge that only the step bans never is |
| Commands.UncappedGridTakes | custom_components/ef_powerocean_tcpmodbus/control.py:1544-1550 | Without a known cap nothing is let through |
| Commands.PlainModesRunThemselves | custom_components/ef_powerocean_tcpmodbus/plans.py:146-153 | Every other mode runs its own command in every frame |
| Commands.UnguardedModesAreSent | custom_components/ef_powerocean_tcpmodbus/control.py:1436-1470 | Without a guard Automatic is sent as it is, and Hold and a battery power of 0 hold |
| Commands.HoldReleasesExactly | custom_components/ef_powerocean_tcpmodbus/control.py:1351-1372 | A hold is given up exactly for a full battery under a surplus of more than 200 W |
| Commands.DecisionsOutrank | custom_components/ef_powerocean_tcpmodbus/control.py:1374-1384 | Standing aside outranks charging to the reserve, which outranks the mode unless its power is 0 |
| Commands.ReserveChargesBelowIt | custom_components/ef_powerocean_tcpmodbus/control.py:1049-1072 | When the battery charges up to its reserve, and that it stops there |
| Commands.ReserveIsOurs | custom_components/ef_powerocean_tcpmodbus/control.py:1510-1542 | When the reserve is the controller's to keep |
| Commands.RememberedStopHolds | custom_components/ef_powerocean_tcpmodbus/control.py:1452-1467 | A stop is remembered only by a decision that holds for it |
| Commands.OtherModesAreForgotten | custom_components/ef_powerocean_tcpmodbus/control.py:1376-1378 | A newly selected mode decides the same whatever modes ran before it, with all they remembered |
| Commands.ControlOffForgets | custom_components/ef_powerocean_tcpmodbus/control.py:1376-1380 | Control off leaves nothing of the mode behind either, and all to the inverter |
| Commands.DecisionIsUrgentIfExplained | custom_components/ef_powerocean_tcpmodbus/control.py:1410-1470 | A decision skips the dwell exactly where it has a status to show |
| Commands.StopIsExplained | custom_components/ef_powerocean_tcpmodbus/control.py:1472-1481 | A stopped step shows the guard it is stopped for, or its own reason |
| Commands.CarriedIsExplained | custom_components/ef_powerocean_tcpmodbus/control.py:1466-1470 | A step that is not stopped shows a guard that is latched, the Charge Limit first |
| Commands.HeldStepIsExplained | custom_components/ef_powerocean_tcpmodbus/control.py:1436-1441 | So does a hold of a mode that adapts |
| Commands.OneWayIsExplained | custom_components/ef_powerocean_tcpmodbus/control.py:1425-1434 | Automatic is reproduced exactly under a guard that concerns it, and shows it |
| Commands.SurplusIsTheBalance | custom_components/ef_powerocean_tcpmodbus/control.py:1089-1114 | In a frame that balances both sides of the balance tell one surplus, and the grid side is believed first |
| ControlRuns.GuardsConsistent | custom_components/ef_powerocean_tcpmodbus/control.py:1012-1047 | After one reading a stopped battery has its guard on, and a battery at a limit is stopped |
| ControlRuns.GuardsAreLatches | custom_components/ef_powerocean_tcpmodbus/control.py:1023-1047 | Each guard is a latch with a dead band of 5 points, each stop one of 2 |
| ControlRuns.GuardFlipsBounded | custom_components/ef_powerocean_tcpmodbus/control.py:1023-1047 | Over any run, 5 points per turn of a guard and 2 per turn of a stop, after the first, are at most the total variation of the state of charge |
| ControlRuns.HandedBackEarned | custom_components/ef_powerocean_tcpmodbus/control.py:1262-1279 | Control is handed back only after every poll for at least the wait wanted more than 500 W, and stays so only while 200 W are wanted |
| ControlRuns.HandbackWaitDoubles | custom_components/ef_powerocean_tcpmodbus/control.py:238-246 | The wait is min(60 * 2^k, 900) s after k early take-backs in a row, those for an unknown surplus included |
| ControlRuns.HandedBackInTime | custom_components/ef_powerocean_tcpmodbus/control.py:1262-1274 | Control is handed back as soon as every poll for the wait wanted more than 500 W |
| ControlRuns.TakenBackAtOnce | custom_components/ef_powerocean_tcpmodbus/control.py:1262-1279 | And taken back by the first poll that wants less than 200 W |
| ControlRuns.HoldingHandsBackExactly | custom_components/ef_powerocean_tcpmodbus/control.py:1246-1260 | When a model that can only hold runs itself, in watts and seconds |
| ControlRuns.OneWayIsWanting | custom_components/ef_powerocean_tcpmodbus/control.py:1116-1141 | Reproducing Automatic one way is such a poll, in which an unknown surplus takes control back |
| ControlRuns.TrackingIsClose | custom_components/ef_powerocean_tcpmodbus/control.py:1173-1195 | With the battery settled, a tracked discharge w satisfies need <= w < need + 101, a tracked charge surplus - 101 < w <= surplus |
| ControlRuns.TrackingWhileRamping | custom_components/ef_powerocean_tcpmodbus/control.py:1183-1189 | Until it has settled, the setpoint is off by less than 501 W |
| ControlRuns.TrackingImportsNothing | custom_components/ef_powerocean_tcpmodbus/control.py:1173-1195 | An inverter that follows exactly then imports nothing unless the surplus falls, up to the power that may be commanded |
| Delivery.MethodAlwaysAgreesIff | custom_components/ef_powerocean_tcpmodbus/control.py:1713-1717 | At every instant of a run, whichever writes fail, the device follows the commanded method unless the command is stale, exactly when every lapse that changed its method is noticed |
| Delivery.MissedLapseStays | custom_components/ef_powerocean_tcpmodbus/control.py:725-735 | A lapse that is missed stays, for any number of polls that decide the same |
| Delivery.UrgentChangeIsTold | custom_components/ef_powerocean_tcpmodbus/control.py:1730-1755 | A user's change, one with a status, one after a lapse and one a minute after the last write are told at once on a good link |
| Delivery.OrdinaryChangeWaits | custom_components/ef_powerocean_tcpmodbus/control.py:1730-1739 | Any other change waits |
| Delivery.RecordIsKept | custom_components/ef_powerocean_tcpmodbus/control.py:1744-1766 | What a round that is through leaves on record: when a write was last made, and the power a correction replaced |
| Delivery.OkIffGetsThrough | custom_components/ef_powerocean_tcpmodbus/control.py:1795-1815 | When a send succeeds, told from what it has to write |
| Delivery.DeliveredExactly | custom_components/ef_powerocean_tcpmodbus/control.py:1741-1755 | A send that gets through leaves the method set and its setpoint at sign times round(power), or the old command's register cleared |
| Delivery.FailedIsSentAgain | custom_components/ef_powerocean_tcpmodbus/control.py:1741-1755 | A failed send leaves what was commanded as it was; the same decision is then sent again and delivered once the link allows |
| Delivery.SetpointKeptUnlessHalfCleared | custom_components/ef_powerocean_tcpmodbus/control.py:1795-1815 | A round keeps the device's setpoint in step with the command exactly unless it goes back to Automatic, clears the old setpoint and then fails to change the method |
| Delivery.InStepIff | custom_components/ef_powerocean_tcpmodbus/control.py:1690-1766 | The inverter does what it was told last at every instant of a run exactly when each lapse is noticed and no round half clears a command |
| Delivery.HalfClearedGoesUnnoticed | custom_components/ef_powerocean_tcpmodbus/control.py:1725-1755 | After any such step, deciding on the old command again sends nothing, however often, and its setpoint stays cleared |
| ClosedLoop.RunStaysFaithful | custom_components/ef_powerocean_tcpmodbus/control.py:1690-1766 | Over any run of frames, settings, failed writes and lapses that misses no lapse and half clears no command, the controller keeps knowing method and setpoint of the inverter and running a step of its mode |
| Settings.ReadingMovesStops | custom_components/ef_powerocean_tcpmodbus/control.py:1023-1047 | Each stop evolves as a latch of its own with a band of 2 points, whatever its guard does in between |
| Settings.ChangeMovesStops | custom_components/ef_powerocean_tcpmodbus/control.py:846-874 | A change of the limits keeps a stop only where the last frame reaches the changed limit, or is near the limit that was left |
| Settings.SettingsTakeEffect | custom_components/ef_powerocean_tcpmodbus/control.py:846-874 | Settings take effect as asked for, limits out of range at the nearest percentage |
| Settings.FrameTellsNativeReserve | custom_components/ef_powerocean_tcpmodbus/control.py:1074-1087 | A reserve that the inverter keeps is the one it reports; a frame changes no other setting |
| ClosedLoop.ChangeLatchesFromLastFrame | custom_components/ef_powerocean_tcpmodbus/control.py:863-871 | Limits changed after a poll are latched from the state of charge that poll read |
| ClosedLoop.ChargeStaysStoppedIff | custom_components/ef_powerocean_tcpmodbus/control.py:1023-1036 | Once stopped at the Charge Limit the battery stays stopped through a run of frames, changes of settings, failed writes and lapses exactly until a reading 2 points below, a limit put above the reading it is latched from, or the limit off; no charging to the reserve sets in |
| ClosedLoop.ReserveStaysStoppedIff | custom_components/ef_powerocean_tcpmodbus/control.py:1037-1047 | The same for the Battery Reserve, also where it is read back from the inverter |
| ClosedLoop.UntouchedStopLasts | custom_components/ef_powerocean_tcpmodbus/control.py:1033-1047 | With the settings as they are, a stop lasts exactly until a reading 2 points clear |
| ClosedLoop.MovedLimitStopLasts | custom_components/ef_powerocean_tcpmodbus/control.py:863-871 | With another Charge Limit it lasts exactly where the last reading reaches that one |
| ClosedLoop.RaisedLimitReleases | custom_components/ef_powerocean_tcpmodbus/control.py:863-871 | So a limit raised by one point releases the battery at once, with no reading clear of either limit |
| ClosedLoop.DecisionIsACommand | custom_components/ef_powerocean_tcpmodbus/control.py:1374-1390 | Every decision names a command the inverter has, and holds at 1 W, so a hold is never sent as no limit |
| ClosedLoop.EffectIsPredicted | custom_components/ef_powerocean_tcpmodbus/plans.py:188-209 | An inverter that obeys its registers, 0 being no limit, moves its battery as predicted within 1 W, or as it likes where the power is rounded to 0 |
| ClosedLoop.EffectiveIsActedOn | custom_components/ef_powerocean_tcpmodbus/control.py:1741-1815 | A poll whose send reaches what the inverter follows makes it act on the decision, whatever its setpoint was; told from the link, what there is to write and the method found |
| ClosedLoop.IneffectiveChangesNothing | custom_components/ef_powerocean_tcpmodbus/control.py:1730-1815 | Any other poll, dwelling, with nothing to send or failing, leaves the battery to go on as it was |
| ClosedLoop.InverterStopsAtChargeLimit | custom_components/ef_powerocean_tcpmodbus/control.py:1690-1766 | A poll with the battery stopped at its Charge Limit leaves the inverter charging by at most the 1 W of a hold: where it acts, exactly unless the decision is rounded away, or the battery full, under a surplus; otherwise exactly where it was so before |
| ClosedLoop.InverterStopsAtReserve | custom_components/ef_powerocean_tcpmodbus/control.py:1690-1766 | The same for draining at the Battery Reserve, wherever the reserve is the controller's to keep |
| ClosedLoop.ToldStops | custom_components/ef_powerocean_tcpmodbus/control.py:1725-1741 | As long as the controller is in step, a poll with nothing to send stops the battery like one that acts |
| ClosedLoop.LateRoundStops | custom_components/ef_powerocean_tcpmodbus/control.py:1730-1739 | In step and on a good link, every poll a minute or more after the last write stops the battery, exactly unless the decision leaves the inverter alone: the dwell costs at most that minute |
| ClosedLoop.DecisionFits | custom_components/ef_powerocean_tcpmodbus/control.py:1870-1886 | The setpoint of every decision fits its register, so a decision is never refused for its value |
| ClosedLoop.InverterStaysStopped | custom_components/ef_powerocean_tcpmodbus/control.py:1690-1766 | So does, where no lapse is missed, every poll of a run from the one that reads the Charge Limit until one ends the stop, whichever writes fail and whatever is set meanwhile |
| ClosedLoop.InverterStaysStoppedAtReserve | custom_components/ef_powerocean_tcpmodbus/control.py:1690-1766 | The same for the Battery Reserve |
| ClosedLoop.HandbackNow | custom_components/ef_powerocean_tcpmodbus/control.py:843-874 | A poll or a change goes on with the hand-back exactly where no mode is selected, charging to the reserve is not switched and no change of a limit turns a guard over; otherwise it starts over |
| ClosedLoop.HandbackFollowsRun | custom_components/ef_powerocean_tcpmodbus/control.py:1227-1279 | The controller's hand-back over rounds that keep it, with the same ways forbidden, is the one HandedBackEarned and HandbackWaitDoubles are about |
| ClosedLoop.ControllerHandsBackEarned | custom_components/ef_powerocean_tcpmodbus/control.py:1116-1172 | So under a guard the inverter is left to itself, but for a full battery, only after every poll for at least the wait wanted more than 500 W |
| ClosedLoop.EarnedAfterGap | custom_components/ef_powerocean_tcpmodbus/control.py:1690-1766 | Whatever came before a poll that did not reproduce Automatic counts for nothing in that wait |
| ClosedLoop.TinyDischargeRunsFree | custom_components/ef_powerocean_tcpmodbus/control.py:1443-1450 | A decision rounded away comes up: a discharge of 0.4 W passes the check for zero but is sent as 0, so at the Charge Limit the inverter charges from the surplus |
| ClosedLoop.DwellKeepsCharging | custom_components/ef_powerocean_tcpmodbus/control.py:1730-1739 | A poll that dwells comes up: where a switch away from charging failed, the inverter charges on at the Charge Limit |
| ClosedLoop.HalfClearedCharges | custom_components/ef_powerocean_tcpmodbus/control.py:1725-1755 | A poll with nothing to send out of step comes up: a full battery is released, the method word fails, and the next hold is taken for told while the inverter charges |
| Authority.FairHeartbeatKeepsStep | custom_components/ef_powerocean_tcpmodbus/heartbeat.py:136-197 | Where the inverter lapses only once its window has run out, under a heartbeat of which one of every two rounds lands within half a second the inverter follows its method at every instant, and does all it was told exactly if no round half clears a command |
| Authority.WindowRunsOutBetween | custom_components/ef_powerocean_tcpmodbus/heartbeat.py:90-93 | A slower heartbeat lets the window run out between two polls at both of which it reports control |
| Authority.LapseGoesUnseen | custom_components/ef_powerocean_tcpmodbus/control.py:1713-1717 | So an inverter that lapses in between is missed and left as it is |
| Control.GuardHandback.Enter | custom_components/ef_powerocean_tcpmodbus/control.py:234-236 | The fields of a phase entered |
| Control.GuardHandback.TakeBack | custom_components/ef_powerocean_tcpmodbus/control.py:238-246 | The fields after control is taken back, with the doubled or reset wait |
| Control.ControlManager.UpdateGuards | custom_components/ef_powerocean_tcpmodbus/control.py:1012-1072 | The four latches and the charging to the reserve after a frame |
| Control.ControlManager.UpdateLimits | custom_components/ef_powerocean_tcpmodbus/control.py:846-874 | The settings, the latches and the hand-back after a change of limits |
| Control.ControlManager.SetChargeLimitSoc | custom_components/ef_powerocean_tcpmodbus/control.py:808-811 | A new Charge Limit takes the controller and the inverter to the next state of the runs in ClosedLoop, and one that is no change does nothing |
| Control.ControlManager.SelectFeature | custom_components/ef_powerocean_tcpmodbus/control.py:760-768 | Selecting a mode does the same, and starts the hand-back over |
| Control.ControlManager.AdvanceHandback | custom_components/ef_powerocean_tcpmodbus/control.py:1227-1279 | The hand-back after a poll, on models that track and on those that hold |
| Control.ControlManager.OneWayAutomatic | custom_components/ef_powerocean_tcpmodbus/control.py:1116-1195 | The hand-back, its ways and the decision, as the rules the safety lemmas are about |
| Control.ControlManager.CarryOut | custom_components/ef_powerocean_tcpmodbus/control.py:1410-1470 | The decision and everything remembered, as those rules |
| Control.ControlManager.DesiredCommand | custom_components/ef_powerocean_tcpmodbus/control.py:1374-1390 | The decision of the selected mode and everything remembered, as those rules |
| Control.ControlManager.SendControl | custom_components/ef_powerocean_tcpmodbus/control.py:1795-1815 | The device and the fields after a send, by what gets through |
| Control.ControlManager.Apply | custom_components/ef_powerocean_tcpmodbus/control.py:1690-1766 | One whole poll: latches, decision, memory, device and what is recorded as commanded |
| Control.ControlManager.Poll | custom_components/ef_powerocean_tcpmodbus/control.py:1680-1688 | A poll with control on takes the controller and the inverter to the next state of the runs in ClosedLoop, whatever fails, and where the battery is stopped at a limit the inverter keeps to it in the sense of InverterStopsAtChargeLimit and InverterStopsAtReserve |

## Left out

- Rounding of energies and powers to two or three decimals, and values that are not finite: arithmetic is exact, and decoding already drops the latter.
- Modbus transport, reconnecting, locks, cancellation, and other tasks writing the heartbeat between two rounds of its loop.
- Entities, services, configuration, repairs, diagnostics, status texts and the deviation a status is made from.
- The checks on the readings: whether control steps aside and whether a frame is suspect are inputs of each poll.
- User actions other than those of ClosedLoop.Turn (limits, mode, powers, charging to the reserve, expiry, a reserve read back): writing a native reserve to the inverter, the enabled switch, the battery saver and the grid feed switch. Each leaves a state the lemmas about one poll start from. GuardTrace and the other runs of single rules keep their limits fixed.
- Taking a held total by hand or after a day, which moves a baseline outside a poll.
- When a command is sent again because the inverter reports another method: it marks the command stale, which in the runs is a round that takes it for forgotten.
- Models that only hold (single phase): their hand-back and decisions are modelled, but the two safety claims are about models that track setpoints; the others allow the wrong way for about 30 s by design.
- The export cap of the percentage mode is an input in watts, not computed from the rated power.
- The battery's power limits that a poll works out from the capacity it reads are an input of that poll.
- A hand-back or a mode's state that starts over is reset in place, where the source puts a new object in its place; nothing else refers to the old one.
- Settings grouped in one value: ControlManager keeps its limits, powers and selected mode in one field where the source has several.
- Dictionaries and sets over the two ways the battery can move are records of two fields.
- Authority: the inverter's window is taken to run from the time a heartbeat was sent, and polls see a lapse only through it; other causes, as a restart of the inverter, are lapses of Delivery and ClosedLoop.
- ClosedLoop.DeviceBattery: the inverter of tests/simulation.py without its ramp, power ceilings, export limit, app reserve and interruptions; it follows a command at once.
- Control switched off, whose decision is Automatic, is in ControlManager.Apply but not in the runs of ClosedLoop.
- Heartbeat.NeverLapsesIff: assumes that no two rounds in a row fail and none is refused for good; without the first no timing could hold, and Heartbeat.RefusalLapses covers the second.
- EnergyPipeline.HouseTotalIsPeak: is about totals as each poll leaves them; a total moved by hand in between changes the balance, not the rule.
