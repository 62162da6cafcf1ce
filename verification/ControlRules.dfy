/**
 What the battery controller decides on one poll (control.py), as functions of what it
 remembers and of the frame just read. ControlManager updates its fields in step with
 them. Powers are in watts, times in seconds, positive battery power charges.
 */
module ControlRules {
  import opened Base
  import opened Plans

  const CONTROL_POWER_FALLBACK_MAX := 30000.0
  const GUARD_SOC_HYSTERESIS := 5.0
  const GUARD_RETURN_SOC := 2.0
  const GUARD_POWER_DEADBAND_W := 200.0
  const GUARD_TRACKING_STEP_W := 100.0
  const GUARD_SETTLE_S := 30.0
  const GUARD_HANDBACK_W := 500.0
  const GUARD_DIRECT_HANDBACK_W := 20.0
  const POWER_TOLERANCE_W := 500.0
  const SOLAR_EXPORT_CAP_MARGIN_W := 100.0
  const BATTERY_FULL_SOC := 99.0
  const HOLD_SETPOINT_W := 1.0

  datatype FeedMode = Limited | Unlimited | LimitedPercent

  /** The values of a poll the controller acts on. The percent cap is the rated power times
      the export percentage, where the frame has both. */
  datatype Inputs = Inputs(
    batteryPower: Option<real>,
    batterySoc: Option<real>,
    gridPower: Option<real>,
    housePower: Option<real>,
    solarPower: Option<real>,
    ratedPower: Option<real>,
    feedMode: Option<FeedMode>,
    minSocLimit: Option<real>,
    feedInPowerMax: Option<real>,
    percentCap: Option<real>,
    inverterCapacity: Option<real>)
  {
    function NaturalFromGridSide(): Option<real> {
      if batteryPower.None? || gridPower.None? then None else Some(batteryPower.value - gridPower.value)
    }

    function NaturalFromSolarSide(): Option<real> {
      if solarPower.None? || housePower.None? then None else Some(solarPower.value - housePower.value)
    }

    /** The surplus: what self-consumption alone would put into the battery. */
    function Natural(): Option<real> {
      if NaturalFromGridSide().Some? then NaturalFromGridSide() else NaturalFromSolarSide()
    }

    predicate Full() {
      batterySoc.Some? && batterySoc.value >= BATTERY_FULL_SOC
    }
  }

  const BARE_FRAME := Inputs(None, None, None, None, None, None, None, None, None, None, None)

  /** What the device lets out: an amount, anything, or nobody knows. */
  datatype ExportLimit = AtMost(watts: real) | Uncapped | Unknown

  function DeviceExportLimit(i: Inputs): ExportLimit {
    match i.feedMode
    case Some(Unlimited) => Uncapped
    case Some(Limited) => if i.feedInPowerMax.Some? then AtMost(i.feedInPowerMax.value) else Unknown
    case Some(LimitedPercent) => if i.percentCap.Some? then AtMost(i.percentCap.value) else Unknown
    case None => Unknown
  }

  /** What the user and the installation set; a poll changes none of it. */
  datatype Config = Config(
    tracks: bool,
    reserveNative: bool,
    maxCharged: Option<real>,
    maxDischarged: Option<real>,
    maxGrid: Option<real>,
    chargeLimit: real,
    reserve: real,
    reserveCharge: bool,
    feature: Feature,
    powers: map<Feature, real>)

  // ---------------------------------------------------------------------------
  // Power ceilings
  // ---------------------------------------------------------------------------

  /** A bound that is missing or reads zero bounds nothing. */
  function Bounded(ceiling: real, bound: Option<real>): real {
    if bound.Some? && bound.value != 0.0 then Min(ceiling, bound.value) else ceiling
  }

  function Ceiling(cfg: Config, i: Inputs, feature: Feature): real {
    var published := Bounded(CONTROL_POWER_FALLBACK_MAX, if feature.ExportToGrid? then i.feedInPowerMax else None);
    var configured := Bounded(published, match feature
                                         case ChargeBattery => cfg.maxCharged
                                         case DischargeBattery => cfg.maxDischarged
                                         case ImportFromGrid => cfg.maxGrid
                                         case _ => None);
    var converted := Bounded(configured, match feature
                                         case DischargeBattery => i.inverterCapacity
                                         case ExportToGrid => i.inverterCapacity
                                         case ExportSolarFirst => i.inverterCapacity
                                         case _ => None);
    var rated := Bounded(converted, if feature.ImportFromGrid? then None else i.ratedPower);
    match DeviceExportLimit(i)
    case AtMost(watts) =>
      if feature.ExportSolarFirst? && watts > SOLAR_EXPORT_CAP_MARGIN_W then Min(rated, watts) else rated
    case _ => rated
  }

  function ClampPower(cfg: Config, i: Inputs, watts: real, feature: Feature): real {
    Max(0.0, Min(watts, Ceiling(cfg, i, feature)))
  }

  // ---------------------------------------------------------------------------
  // State-of-charge guards
  // ---------------------------------------------------------------------------

  datatype Guards = Guards(charge: bool, reserve: bool, chargeStopped: bool, reserveStopped: bool)

  predicate ChargeGuardAfter(limit: real, on: bool, soc: real) {
    if limit >= 100.0 then false
    else if soc >= limit then true
    else if soc <= limit - GUARD_SOC_HYSTERESIS then false
    else on
  }

  predicate ReserveGuardAfter(reserve: real, on: bool, soc: real) {
    if reserve <= 0.0 then false
    else if soc <= reserve then true
    else if soc >= reserve + GUARD_SOC_HYSTERESIS then false
    else on
  }

  predicate ChargeStoppedAfter(limit: real, on: bool, stopped: bool, soc: real) {
    if !on || soc <= limit - GUARD_RETURN_SOC then false
    else if soc >= limit then true
    else stopped
  }

  predicate ReserveStoppedAfter(reserve: real, on: bool, stopped: bool, soc: real) {
    if !on || soc >= reserve + GUARD_RETURN_SOC then false
    else if soc <= reserve then true
    else stopped
  }

  /** One reading's effect on the four latches. */
  function GuardsAfter(chargeLimit: real, reserve: real, g: Guards, soc: real): Guards {
    var charge := ChargeGuardAfter(chargeLimit, g.charge, soc);
    var reserved := ReserveGuardAfter(reserve, g.reserve, soc);
    Guards(charge, reserved,
           ChargeStoppedAfter(chargeLimit, charge, g.chargeStopped, soc),
           ReserveStoppedAfter(reserve, reserved, g.reserveStopped, soc))
  }

  /** Whether the battery charges up to the reserve now. */
  predicate ReserveChargingAfter(cfg: Config, i: Inputs, g: Guards, soc: real) {
    var appCharges := !cfg.reserveNative && i.minSocLimit.Some? && i.minSocLimit.value > soc;
    var inverterCharges := cfg.feature.Automatic? && i.minSocLimit.Some? && i.minSocLimit.value >= cfg.reserve;
    && (cfg.reserveCharge || appCharges)
    && !cfg.reserveNative
    && !g.charge
    && !inverterCharges
    && soc < cfg.reserve
  }

  // ---------------------------------------------------------------------------
  // Handing back
  // ---------------------------------------------------------------------------

  datatype Phase = Tracking | Pending | HandedBack

  datatype Handback = Handback(phase: Phase, since: Option<real>, waitS: real) {
    function ElapsedS(now: real): real {
      if since.None? then 0.0 else now - since.value
    }

    function Enter(phase: Phase, now: real): Handback {
      this.(phase := phase, since := Some(now))
    }

    /** Back to tracking, with the wait doubled after a hand-back shorter than it, and back
        at a minute after a longer one. */
    function TakeBack(now: real): Handback {
      var wait :=
        if !phase.HandedBack? then waitS
        else if ElapsedS(now) < waitS then Min(2.0 * waitS, GUARD_HANDBACK_MAX_S)
        else GUARD_HANDBACK_S;
      Handback(Tracking, Some(now), wait)
    }
  }

  const FRESH_HANDBACK := Handback(Tracking, None, GUARD_HANDBACK_S)

  datatype Advanced = Advanced(handback: Handback, runsItself: bool)

  /** A set of ways the battery can move. */
  datatype Ways = Ways(charge: bool, discharge: bool)

  const NO_WAYS := Ways(false, false)

  /** The power in the way the guards allow. */
  function Wanted(natural: real, latched: Ways): real {
    if latched.charge then -natural else natural
  }

  /** One poll of the hand-back on a model that tracks setpoints. */
  function AdvanceTracking(h: Handback, wanted: real, now: real): Advanced {
    match h.phase
    case Tracking => Advanced(if wanted > GUARD_HANDBACK_W then h.Enter(Pending, now) else h, false)
    case Pending =>
      if wanted <= GUARD_HANDBACK_W then Advanced(h.Enter(Tracking, now), false)
      else if h.ElapsedS(now) < h.waitS then Advanced(h, false)
      else Advanced(h.Enter(HandedBack, now), true)
    case HandedBack =>
      if wanted < GUARD_POWER_DEADBAND_W then Advanced(h.TakeBack(now), false) else Advanced(h, true)
  }

  /** One poll of the hand-back on a model that can only hold. */
  function AdvanceHolding(h: Handback, wanted: real, now: real, writtenRecently: bool): Advanced {
    if h.phase.HandedBack? then
      if h.ElapsedS(now) >= GUARD_SETTLE_S && wanted <= -GUARD_DIRECT_HANDBACK_W then Advanced(h.TakeBack(now), false)
      else Advanced(h, true)
    else if writtenRecently then Advanced(h, false)
    else if wanted > GUARD_DIRECT_HANDBACK_W then Advanced(h.Enter(HandedBack, now), true)
    else Advanced(h, false)
  }

  function Advance(tracks: bool, h: Handback, natural: real, latched: Ways, now: real, writtenRecently: bool)
    : Advanced
  {
    if latched.charge && latched.discharge then Advanced(h.TakeBack(now), false)
    else if tracks then AdvanceTracking(h, Wanted(natural, latched), now)
    else AdvanceHolding(h, Wanted(natural, latched), now, writtenRecently)
  }

  // ---------------------------------------------------------------------------
  // Commands
  // ---------------------------------------------------------------------------

  datatype Decision = Decision(feature: Feature, power: real, status: Option<Status>, bypassDwell: bool)

  /** What the inverter was told last, and when. */
  datatype Commanded = Commanded(feature: Feature, power: real, retunedFrom: Option<real>, lastWrite: Option<real>) {
    predicate WrittenWithin(now: real, seconds: real) {
      lastWrite.Some? && now - lastWrite.value < seconds
    }
  }

  function Sign(feature: Feature): int {
    if feature.DischargeBattery? || feature.ExportToGrid? then -1 else 1
  }

  /** What a command is measured against. */
  function Measured(feature: Feature, i: Inputs): Option<real> {
    match feature
    case Automatic => None
    case ExportToGrid => i.gridPower
    case ImportFromGrid => i.gridPower
    case _ => i.batteryPower
  }

  function Signed(feature: Feature, power: real): real {
    if Sign(feature) == 1 then power else -power
  }

  /** Whether a small correction may be made: the measurement is near the commanded power
      and nearer to it than to the one before, or the last write is half a minute old. */
  predicate BatterySettled(c: Commanded, i: Inputs, now: real) {
    var measured := Measured(c.feature, i);
    || (&& measured.Some?
        && (var target := Signed(c.feature, c.power);
            var offBy := Abs(measured.value - target);
            && offBy <= Max(GUARD_TRACKING_STEP_W, Abs(target) * 0.15)
            && (c.retunedFrom.None? || offBy < Abs(measured.value - Signed(c.feature, c.retunedFrom.value)))))
    || !c.WrittenWithin(now, GUARD_SETTLE_S)
  }

  /** The hold, at the lowest setpoint; a full battery under a clear surplus is released. */
  function Hold(i: Inputs, blocked: Option<Status>): Decision {
    if i.Full() && i.Natural().GetOr(0.0) > GUARD_POWER_DEADBAND_W then Decision(Automatic, 0.0, blocked, blocked.Some?)
    else Decision(HoldBattery, HOLD_SETPOINT_W, blocked, blocked.Some?)
  }

  datatype Stop = Stop(step: Step, way: Way)

  /** What the controller remembers from one decision to the next. */
  datatype Mind = Mind(
    handback: Handback,
    handbackFor: Ways,
    oneWayRan: bool,
    stopped: Option<Stop>,
    modeFeature: Feature,
    mode: Standing)

  predicate SoundMind(m: Mind) {
    Sound(ModeOf(m.modeFeature), m.mode)
  }

  /** Everything a decision looks at besides what is remembered of decisions. */
  datatype Frame = Frame(cfg: Config, i: Inputs, g: Guards, c: Commanded, now: real)

  datatype Decided = Decided(mind: Mind, decision: Decision)

  predicate AtAppReserve(f: Frame) {
    !f.g.charge && f.i.minSocLimit.Some? && f.cfg.reserve <= f.i.minSocLimit.value
  }

  /** Whether the latched reserve guard concerns a step: Automatic is exempt where the
      inverter keeps a reserve at least as high. */
  predicate ReserveGuards(f: Frame, step: Step) {
    f.g.reserve && (!step.command.Automatic? || !(f.cfg.reserveNative || AtAppReserve(f)))
  }

  function EngagedGuard(f: Frame, step: Step): Option<Status> {
    if f.g.charge then Some(ChargeLimitReached)
    else if ReserveGuards(f, step) then Some(ReserveReached)
    else None
  }

  /** Whether a way is forbidden, and the status to show for it. */
  datatype Ban = Free | Banned(status: Option<Status>)

  datatype Bans = Bans(charge: Ban, discharge: Ban) {
    function On(way: Way): Ban {
      if way.Charge? then charge else discharge
    }

    function Banned(): Ways {
      Ways(charge.Banned?, discharge.Banned?)
    }
  }

  /** The bans of the latched guards and of the step itself; a guard's status goes first. */
  function ForbiddenWays(f: Frame, step: Step): Bans {
    Bans(if f.g.charge then Banned(Some(ChargeLimitReached))
         else if step.never == Some(Charge) then Banned(step.status) else Free,
         if ReserveGuards(f, step) then Banned(Some(ReserveReached))
         else if step.never == Some(Discharge) then Banned(step.status) else Free)
  }

  predicate AtLimit(g: Guards, way: Way) {
    if way.Charge? then g.chargeStopped else g.reserveStopped
  }

  /** The bans in effect at once: those of the step itself, and of a guard only while its
      stop is latched too. */
  function StoppingNow(f: Frame, forbidden: Bans, step: Step): Bans {
    Bans(if step.never == Some(Charge) || AtLimit(f.g, Charge) then forbidden.charge else Free,
         if step.never == Some(Discharge) || AtLimit(f.g, Discharge) then forbidden.discharge else Free)
  }

  /** The part of the surplus a tracked setpoint follows. */
  function Allowed(natural: real, forbidden: Ways): real {
    var noCharge := if forbidden.charge then Min(natural, 0.0) else natural;
    if forbidden.discharge then Max(noCharge, 0.0) else noCharge
  }

  function TrackedFeature(natural: real): Feature {
    if natural > 0.0 then ChargeBattery else DischargeBattery
  }

  /** The setpoint in whole watts that leaves the remainder to the grid as export. */
  function TrackedWatts(natural: real): real {
    if natural > 0.0 then natural.Floor as real else -(natural.Floor as real)
  }

  /** The next tracked setpoint. The last one is kept where it errs by less than 100 W on
      the exporting side, or by less than 500 W in any way before the battery has settled. */
  function StickyWatts(c: Commanded, i: Inputs, natural: real, now: real): real {
    var watts := TrackedWatts(natural);
    var slack := if natural > 0.0 then watts - c.power else c.power - watts;
    if c.feature == TrackedFeature(natural)
       && (0.0 <= slack < GUARD_TRACKING_STEP_W || (Abs(slack) < POWER_TOLERANCE_W && !BatterySettled(c, i, now)))
    then c.power else watts
  }

  /** Reproduces Automatic on the battery setpoint for a known allowed power. */
  function Track(f: Frame, natural: real, blocked: Status): Decision {
    if natural == 0.0 then Hold(f.i, Some(blocked))
    else
      var watts := StickyWatts(f.c, f.i, natural, f.now);
      if watts <= 0.0 then Hold(f.i, Some(blocked))
      else Decision(TrackedFeature(natural), ClampPower(f.cfg, f.i, watts, TrackedFeature(natural)), Some(blocked),
                    true)
  }

  /** The surplus a hand-back is judged by: where a model can only hold and the two sides
      of the balance disagree, the smaller one. */
  function HandbackPower(f: Frame, natural: real): real {
    if !f.cfg.tracks && f.i.NaturalFromGridSide().Some? && f.i.NaturalFromSolarSide().Some? then
      Min(f.i.NaturalFromGridSide().value, f.i.NaturalFromSolarSide().value)
    else natural
  }

  /** Automatic, the allowed way only, with the surplus known. */
  function Follow(f: Frame, m: Mind, natural: real, forbidden: Ways, latched: Ways, blocked: Status): Decided {
    var a := Advance(f.cfg.tracks, m.handback, natural, latched, f.now, f.c.WrittenWithin(f.now, GUARD_SETTLE_S));
    Decided(m.(handback := a.handback),
            if a.runsItself || (!f.cfg.tracks && forbidden == NO_WAYS) then
              Decision(Automatic, 0.0, Some(blocked), true)
            else if !f.cfg.tracks then Hold(f.i, Some(blocked))
            else Track(f, Allowed(natural, forbidden), blocked))
  }

  /** What is remembered once Automatic is reproduced for these ways: a fresh hand-back
      unless they are those of the last time. */
  function StartedFor(m: Mind, latched: Ways): Mind {
    m.(oneWayRan := true, handbackFor := latched,
       handback := if latched != m.handbackFor then FRESH_HANDBACK else m.handback)
  }

  /** Automatic, the allowed way only. */
  function OneWay(f: Frame, m: Mind, forbidden: Ways, latched: Ways, blocked: Status): Decided {
    var started := StartedFor(m, latched);
    if f.i.Natural().None? then
      Decided(started.(handback := started.handback.TakeBack(f.now)), Hold(f.i, Some(blocked)))
    else Follow(f, started, HandbackPower(f, f.i.Natural().value), forbidden, latched, blocked)
  }

  /** Whether a step with this power in a way counts as moving that way: any power does,
      and, for a step already stopped for it, all but a clear power the other way. */
  predicate MovesWay(step: Step, way: Way, watts: real, stopped: Option<Stop>) {
    if stopped == Some(Stop(step, way)) then watts > -GUARD_POWER_DEADBAND_W else watts > 0.0
  }

  function ForbiddenWayMoved(step: Step, surplus: Option<real>, power: real, forbidden: Bans,
                             stopped: Option<Stop>): Option<Way>
  {
    var battery := BatteryPower(step.command, surplus, power);
    if battery.None? then
      if forbidden.charge.Banned? then Some(Charge) else if forbidden.discharge.Banned? then Some(Discharge) else None
    else if forbidden.charge.Banned? && MovesWay(step, Charge, battery.value, stopped) then Some(Charge)
    else if forbidden.discharge.Banned? && MovesWay(step, Discharge, -battery.value, stopped) then Some(Discharge)
    else None
  }

  /** Whether the surplus alone comes within 100 W of a known export limit. */
  predicate GridCannotTake(i: Inputs, surplus: Option<real>) {
    && surplus.Some? && DeviceExportLimit(i).AtMost?
    && surplus.value > DeviceExportLimit(i).watts - SOLAR_EXPORT_CAP_MARGIN_W
  }

  /** The way a step has to be stopped for, if any. Charging that only the step itself bans
      is let through near the export limit. */
  function StopFor(f: Frame, m: Mind, step: Step, surplus: Option<real>, power: real,
                   forbidden: Bans): Option<Way>
  {
    var way := ForbiddenWayMoved(step, surplus, power, forbidden, m.stopped);
    if way == Some(Charge) && !f.g.charge && GridCannotTake(f.i, surplus) then None else way
  }

  /** The status that explains a stopped step. */
  function StoppedStatus(ban: Ban): Option<Status> {
    if ban.Banned? && ban.status.Some? then ban.status else Some(Active)
  }

  /** The decision a step comes to under the bans: reproduced one way, held, or as it is. */
  function CarryOut(f: Frame, m: Mind, mode: Mode, step: Step, surplus: Option<real>, limit: Option<real>): Decided {
    var latched := ForbiddenWays(f, step);
    var forbidden := StoppingNow(f, latched, step);
    var guard := EngagedGuard(f, step);
    var power := limit.GetOr(0.0);
    var free := m.(stopped := None);
    if step.command.Automatic? && guard.Some? then OneWay(f, free, forbidden.Banned(), latched.Banned(), guard.value)
    else if step.command.HoldBattery? then
      Decided(free, if !mode.Adapts() then Hold(f.i, None)
                    else Decision(HoldBattery, HOLD_SETPOINT_W, if guard.Some? then guard else step.status, true))
    else if power <= 0.0 && (step.command.ChargeBattery? || step.command.DischargeBattery?) then
      Decided(free, Hold(f.i, None))
    else
      var way := StopFor(f, m, step, surplus, power, forbidden);
      if way.Some? then
        Decided(m.(stopped := Some(Stop(step, way.value))), Hold(f.i, StoppedStatus(forbidden.On(way.value))))
      else if step.command.Automatic? then
        Decided(free, Decision(Automatic, 0.0, if mode.Adapts() then Some(AutomaticStatus) else None, mode.Adapts()))
      else
        Decided(free, Decision(step.command, power,
                               if mode.Adapts() then (if guard.Some? then guard else Some(Active)) else None,
                               mode.Adapts()))
  }

  /** The limit of exporting solar first: the user's power, at most 100 W below a known
      cap, and none where the cap is unknown or leaves nothing. */
  function SolarExportTarget(cfg: Config, i: Inputs): Option<real> {
    var clamped := ClampPower(cfg, i, Get(cfg.powers, ExportSolarFirst).GetOr(0.0), ExportSolarFirst);
    match DeviceExportLimit(i)
    case Unknown => None
    case Uncapped => Some(clamped)
    case AtMost(watts) =>
      if watts <= SOLAR_EXPORT_CAP_MARGIN_W then None else Some(Min(clamped, watts - SOLAR_EXPORT_CAP_MARGIN_W))
  }

  /** The user's power for the selected mode, clamped; in an adapting mode the limit of its
      zones. */
  function ModePower(cfg: Config, i: Inputs): Option<real> {
    if cfg.feature.ExportSolarFirst? then SolarExportTarget(cfg, i)
    else if cfg.feature.Automatic? || cfg.feature.HoldBattery? then None
    else Some(ClampPower(cfg, i, Get(cfg.powers, cfg.feature).GetOr(0.0), cfg.feature))
  }

  /** The step the mode runs now, and the mode's state with it. */
  function ModeAfter(f: Frame, m: Mind): Mind {
    var mode := ModeOf(m.modeFeature);
    if !mode.Adapts() then m
    else m.(mode := Chosen(mode, m.mode, Poll(f.i.Natural(), ModePower(f.cfg, f.i), f.now, f.i.Full()),
                           GUARD_POWER_DEADBAND_W))
  }

  /** The step that is carried out: one that never adapts is always its deficit step. */
  function StepOf(m: Mind): Step {
    if ModeOf(m.modeFeature).Adapts() then m.mode.step else ModeOf(m.modeFeature).deficit
  }

  /** Charging from the grid towards the reserve; none where that power is zero. */
  function ReservePower(f: Frame): real {
    ClampPower(f.cfg, f.i, Get(f.cfg.powers, ChargeBattery).GetOr(0.0), ChargeBattery)
  }

  /** The mode's state, which starts afresh with another mode or with control off. */
  function Selected(f: Frame, m: Mind, enabled: bool): Mind {
    if m.modeFeature != f.cfg.feature || !enabled then
      m.(modeFeature := f.cfg.feature, mode := Fresh(ModeOf(f.cfg.feature)), stopped := None)
    else m
  }

  /** What is remembered once a decision is made: the hand-back starts over unless Automatic
      was reproduced one way. */
  function Settled(m: Mind): Mind {
    if m.oneWayRan then m else m.(handback := FRESH_HANDBACK, handbackFor := NO_WAYS)
  }

  /** A whole decision, by precedence: control off, stepping aside, charging to the reserve,
      the mode's step. */
  function Decide(f: Frame, m: Mind, enabled: bool, aside: Option<Status>, reserveCharging: bool): Decided {
    var s := Selected(f, m, enabled);
    if !enabled then Decided(s, Decision(Automatic, 0.0, None, false))
    else if aside.Some? then Decided(s, Decision(Automatic, 0.0, aside, true))
    else if reserveCharging && ReservePower(f) > 0.0 then
      Decided(s.(stopped := None), Decision(ChargeBattery, ReservePower(f), Some(ChargingToReserve), true))
    else
      var chosen := ModeAfter(f, s);
      CarryOut(f, chosen, ModeOf(chosen.modeFeature), StepOf(chosen), f.i.Natural(), ModePower(f.cfg, f.i))
  }
}
