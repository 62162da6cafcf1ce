/**
 The battery modes (plans.py): which step a mode runs for a solar surplus, with the
 hysteresis between zones and the growing wait before a step runs again.
 */
module Plans {
  import opened Base

  const GUARD_HANDBACK_S := 60.0
  const GUARD_HANDBACK_MAX_S := 900.0

  datatype Feature =
    | Automatic
    | HoldBattery
    | ChargeBattery
    | DischargeBattery
    | ExportToGrid
    | ImportFromGrid
    | ExportSolarFirst

  datatype Way = Charge | Discharge

  datatype Status =
    | AutomaticStatus
    | ChargeLimitReached
    | ReserveReached
    | ChargingToReserve
    | BelowSolarExportLimit
    | Active
    | OffGrid
    | BatteryDisconnected
    | InconsistentReadings

  /** What a mode runs: a command, a way it bans by itself, and the status of that ban. */
  datatype Step = Step(command: Feature, never: Option<Way>, status: Option<Status>)

  function Plain(command: Feature): Step {
    Step(command, None, None)
  }

  datatype Zone = DeficitAboveLimit | Deficit | Surplus | SurplusAboveLimit {
    predicate IsSurplus() {
      Surplus? || SurplusAboveLimit?
    }

    function CloserToZero(): Zone {
      if SurplusAboveLimit? then Surplus else Deficit
    }

    /** How many zones lie between this one and the deficit zone, it included. */
    function Distance(): nat {
      match this
      case SurplusAboveLimit => 2
      case Surplus => 1
      case DeficitAboveLimit => 1
      case Deficit => 0
    }

    /** The zones in the order of the surplus. */
    function Rank(): int {
      match this
      case DeficitAboveLimit => 0
      case Deficit => 1
      case Surplus => 2
      case SurplusAboveLimit => 3
    }
  }

  /** The steps of a mode; StepFor fills in the zones without one. */
  datatype Mode = Mode(
    deficit: Step,
    surplus: Option<Step>,
    surplusAboveLimit: Option<Step>,
    deficitAboveLimit: Option<Step>)
  {
    predicate Adapts() {
      surplus.Some? || surplusAboveLimit.Some? || deficitAboveLimit.Some?
    }

    predicate UsesLimit() {
      surplusAboveLimit.Some? || deficitAboveLimit.Some?
    }

    function StepFor(zone: Zone): Step {
      match zone
      case DeficitAboveLimit => deficitAboveLimit.GetOr(deficit)
      case Deficit => deficit
      case Surplus => surplus.GetOr(deficit)
      case SurplusAboveLimit => surplusAboveLimit.GetOr(surplus.GetOr(deficit))
    }
  }

  function ModeOf(feature: Feature): Mode {
    if feature == ExportSolarFirst then
      Mode(Plain(Automatic),
           Some(Step(Automatic, Some(Charge), Some(BelowSolarExportLimit))),
           Some(Plain(ExportToGrid)),
           None)
    else Mode(Plain(feature), None, None, None)
  }

  /** Whether x is at or past the limit; no limit is infinitely far. */
  predicate Reaches(x: real, limit: Option<real>) {
    limit.Some? && x >= limit.value
  }

  /** The zone the surplus is in, leaving the current one only once clearly outside. */
  function ZoneFor(surplus: real, limit: Option<real>, current: Zone, deadband: real): Zone {
    if Reaches(surplus, limit) || (current.SurplusAboveLimit? && Reaches(surplus + deadband, limit)) then
      SurplusAboveLimit
    else if Reaches(-surplus, limit) || (current.DeficitAboveLimit? && Reaches(-surplus + deadband, limit)) then
      DeficitAboveLimit
    else if surplus < -deadband || (!current.IsSurplus() && surplus <= deadband) then Deficit
    else Surplus
  }

  /** The battery power a command leads to, positive charging, if it can be told. */
  function BatteryPower(command: Feature, surplus: Option<real>, power: real): Option<real> {
    match command
    case HoldBattery => Some(0.0)
    case ChargeBattery => Some(power)
    case DischargeBattery => Some(-power)
    case _ =>
      if surplus.None? then None
      else if command.ExportToGrid? then Some(surplus.value - power)
      else if command.ImportFromGrid? then Some(surplus.value + power)
      else surplus
  }

  /** Where a mode stands: its zone, its step and since when, and of each step left before
      the wait it has earned and the time it was left. */
  datatype Standing = Standing(
    zone: Zone,
    step: Step,
    since: Option<real>,
    cooldown: map<Step, real>,
    leftAt: map<Step, real>)
  {
    predicate MaySwitchTo(step: Step, now: real) {
      step !in leftAt || now - leftAt[step] >= Get(cooldown, step).GetOr(0.0)
    }
  }

  function Fresh(mode: Mode): Standing {
    Standing(Deficit, mode.deficit, None, map[], map[])
  }

  /** What every ModeState keeps: the deficit step never waits, the step running is the
      one of the zone, and any other step has a start. */
  predicate Sound(mode: Mode, s: Standing) {
    && mode.deficit !in s.leftAt
    && s.step == mode.StepFor(s.zone)
    && (s.step != mode.deficit ==> s.since.Some?)
  }

  function CooldownAfter(lasted: real, previous: real): real {
    if lasted < GUARD_HANDBACK_S then Min(Max(2.0 * previous, GUARD_HANDBACK_S), GUARD_HANDBACK_MAX_S) else 0.0
  }

  function Switched(mode: Mode, s: Standing, step: Step, now: real): Standing {
    if step == s.step then s
    else
      var left :=
        if s.step != mode.deficit && s.since.Some? then
          s.(cooldown := s.cooldown[s.step := CooldownAfter(now - s.since.value, Get(s.cooldown, s.step).GetOr(0.0))],
             leftAt := s.leftAt[s.step := now])
        else s;
      left.(step := step, since := Some(now))
  }

  /** One poll of an adapting mode. */
  datatype Poll = Poll(surplus: Option<real>, limit: Option<real>, now: real, batteryFull: bool)

  function TargetZone(mode: Mode, s: Standing, p: Poll, deadband: real): Zone {
    if p.surplus.None? || (mode.UsesLimit() && p.limit.None?) then Deficit
    else
      var zone := ZoneFor(p.surplus.value, p.limit, s.zone, deadband);
      if p.batteryFull && zone.IsSurplus() then Deficit else zone
  }

  predicate Runnable(mode: Mode, s: Standing, zone: Zone, now: real) {
    mode.StepFor(zone) == s.step || s.MaySwitchTo(mode.StepFor(zone), now)
  }

  /** The zone a target falls back to while its step has to wait. */
  function Fallback(mode: Mode, s: Standing, target: Zone, now: real): Zone
    decreases target.Distance()
  {
    if target.Deficit? || Runnable(mode, s, target, now) then target
    else Fallback(mode, s, target.CloserToZero(), now)
  }

  function Chosen(mode: Mode, s: Standing, p: Poll, deadband: real): (r: Standing)
    ensures Sound(mode, s) ==> Sound(mode, r)
  {
    var zone := Fallback(mode, s, TargetZone(mode, s, p, deadband), p.now);
    Switched(mode, s.(zone := zone), mode.StepFor(zone), p.now)
  }

  /** The state of one selected mode, updated in place by every poll. */
  class ModeState {
    var feature: Feature
    var zone: Zone
    var step: Step
    var since: Option<real>
    var cooldownS: map<Step, real>
    var leftAt: map<Step, real>

    function State(): Standing
      reads this
    {
      Standing(zone, step, since, cooldownS, leftAt)
    }

    predicate Valid()
      reads this
    {
      Sound(ModeOf(feature), State())
    }

    constructor (feature: Feature)
      ensures Valid() && this.feature == feature && State() == Fresh(ModeOf(feature))
    {
      this.feature := feature;
      zone, step, since := Deficit, ModeOf(feature).deficit, None;
      cooldownS, leftAt := map[], map[];
    }

    /** Starts over with a mode, as a new object would. */
    method Restart(selected: Feature)
      modifies this
      ensures Valid() && feature == selected && State() == Fresh(ModeOf(selected))
    {
      feature := selected;
      zone, step, since := Deficit, ModeOf(selected).deficit, None;
      cooldownS, leftAt := map[], map[];
    }

    method Choose(surplus: Option<real>, limit: Option<real>, now: real, deadband: real, batteryFull: bool)
      returns (chosen: Step)
      requires Valid()
      modifies this`zone, this`step, this`since, this`cooldownS, this`leftAt
      ensures Valid()
      ensures State() == Chosen(ModeOf(feature), old(State()), Poll(surplus, limit, now, batteryFull), deadband)
      ensures chosen == step
    {
      var mode := ModeOf(feature);
      var z: Zone;
      if surplus.None? || (mode.UsesLimit() && limit.None?) {
        z := Deficit;
      } else {
        z := ZoneFor(surplus.value, limit, zone, deadband);
        if batteryFull && z.IsSurplus() {
          z := Deficit;
        }
      }
      chosen := mode.StepFor(z);
      ghost var target := z;
      while chosen != step && !State().MaySwitchTo(chosen, now)
        invariant chosen == mode.StepFor(z)
        invariant Fallback(mode, State(), z, now) == Fallback(mode, State(), target, now)
        decreases z.Distance()
      {
        z := z.CloserToZero();
        chosen := mode.StepFor(z);
      }
      zone := z;
      SwitchTo(chosen, now);
    }

    method SwitchTo(next: Step, now: real)
      modifies this`step, this`since, this`cooldownS, this`leftAt
      ensures State() == Switched(ModeOf(feature), old(State()), next, now)
    {
      if next == step {
        return;
      }
      var leaving := step;
      if leaving != ModeOf(feature).deficit && since.Some? {
        var lasted := now - since.value;
        var previous := Get(cooldownS, leaving).GetOr(0.0);
        cooldownS := cooldownS[leaving := if lasted < GUARD_HANDBACK_S
                                          then Min(Max(2.0 * previous, GUARD_HANDBACK_S), GUARD_HANDBACK_MAX_S)
                                          else 0.0];
        leftAt := leftAt[leaving := now];
      }
      step := next;
      since := Some(now);
    }
  }
}
