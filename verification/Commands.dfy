/**
 What the controller commands, seen from outside: how high a power may be and when it is
 the user's own, how closely a tracked power follows the surplus, what each mode runs, and
 what a decision's status tells.
 */
module Commands {
  import opened Base
  import opened Plans
  import opened ControlRules
  import opened ControlSafety
  import opened ControlRuns
  import opened ModeRuns

  // ---------------------------------------------------------------------------
  // Powers
  // ---------------------------------------------------------------------------

  /** A power within a bound, which bounds nothing where it is missing or 0. */
  predicate Within(power: real, bound: Option<real>) {
    bound.Some? && bound.value != 0.0 ==> power <= Max(0.0, bound.value)
  }

  /** A power that a bound has lowered to itself. */
  predicate LoweredTo(power: real, bound: Option<real>) {
    bound.Some? && bound.value != 0.0 && power == Max(0.0, bound.value)
  }

  /** The power that a user has set for a mode. */
  function UserPower(cfg: Config, feature: Feature): real {
    Get(cfg.powers, feature).GetOr(0.0)
  }

  /** Every bound of a battery or grid command holds. */
  predicate Bounds(cfg: Config, i: Inputs, command: Feature, power: real) {
    && 0.0 <= power <= 30000.0
    && (command.ChargeBattery? ==> Within(power, cfg.maxCharged) && Within(power, i.ratedPower))
    && (command.DischargeBattery? ==>
          Within(power, cfg.maxDischarged) && Within(power, i.inverterCapacity) && Within(power, i.ratedPower))
    && (command.ExportToGrid? ==> Within(power, i.inverterCapacity) && Within(power, i.ratedPower))
    && (command.ImportFromGrid? ==> Within(power, cfg.maxGrid))
  }

  /** A power that is the one wanted, or one of the bounds that lie below it. */
  predicate WantedOrBound(cfg: Config, i: Inputs, command: Feature, power: real, wanted: real) {
    || power == Max(0.0, wanted) || power == 30000.0
    || (command.ChargeBattery? && LoweredTo(power, cfg.maxCharged))
    || (command.DischargeBattery? && (LoweredTo(power, cfg.maxDischarged) || LoweredTo(power, i.inverterCapacity)))
    || (command.ExportToGrid? && (LoweredTo(power, i.feedInPowerMax) || LoweredTo(power, i.inverterCapacity)))
    || (command.ImportFromGrid? && LoweredTo(power, cfg.maxGrid))
    || (!command.ImportFromGrid? && LoweredTo(power, i.ratedPower))
  }

  lemma ClampKeepsBounds(cfg: Config, i: Inputs, watts: real, command: Feature)
    requires command in {ChargeBattery, DischargeBattery, ExportToGrid, ImportFromGrid}
    ensures var power := ClampPower(cfg, i, watts, command);
            && Bounds(cfg, i, command, power) && power <= Max(0.0, watts)
            && (command.ExportToGrid? ==> Within(power, i.feedInPowerMax))
            && WantedOrBound(cfg, i, command, power, watts)
  {
  }

  /** The most that the inverter's settings let out, where they name an amount. */
  predicate CappedAt(i: Inputs, cap: real) {
    || (i.feedMode == Some(Limited) && i.feedInPowerMax == Some(cap))
    || (i.feedMode == Some(LimitedPercent) && i.percentCap == Some(cap))
  }

  /** The export of solar first stays 100 W under the inverter's own cap. */
  lemma SolarTargetKeepsBounds(cfg: Config, i: Inputs, cap: real)
    requires SolarExportTarget(cfg, i).Some?
    ensures var power := SolarExportTarget(cfg, i).value;
            && Bounds(cfg, i, ExportToGrid, power) && power <= Max(0.0, UserPower(cfg, ExportSolarFirst))
            && (CappedAt(i, cap) ==> power <= cap - 100.0)
  {
  }

  /** The inverter's own cap is not known. */
  predicate CapUnknown(i: Inputs) {
    || i.feedMode.None?
    || (i.feedMode == Some(Limited) && i.feedInPowerMax.None?)
    || (i.feedMode == Some(LimitedPercent) && i.percentCap.None?)
  }

  /** And is otherwise the power the user set, or lowered to a bound, and no further; there
      is none precisely where the cap is unknown or leaves nothing. */
  lemma SolarTargetIsWantedOrBound(cfg: Config, i: Inputs, cap: real)
    ensures CapUnknown(i) || (CappedAt(i, cap) && cap <= 100.0) ==> SolarExportTarget(cfg, i).None?
    ensures i.feedMode == Some(Unlimited) || (CappedAt(i, cap) && cap > 100.0) ==>
              SolarExportTarget(cfg, i).Some? &&
              var power := SolarExportTarget(cfg, i).value;
              || power == Max(0.0, UserPower(cfg, ExportSolarFirst)) || power == 30000.0
              || LoweredTo(power, i.inverterCapacity) || LoweredTo(power, i.ratedPower)
              || (CappedAt(i, cap) && power == cap - 100.0)
  {
  }

  /** What a decision of one mode may command. */
  predicate DecisionBounds(cfg: Config, i: Inputs, d: Decision, cap: real) {
    && Bounds(cfg, i, d.feature, d.power)
    && (d.feature.ExportToGrid? ==>
          if cfg.feature.ExportSolarFirst? then CappedAt(i, cap) ==> d.power <= cap - 100.0
          else Within(d.power, i.feedInPowerMax))
  }

  lemma HoldKeepsBounds(f: Frame, blocked: Option<Status>, cap: real)
    ensures DecisionBounds(f.cfg, f.i, Hold(f.i, blocked), cap)
  {
  }

  lemma OneWayKeepsBounds(f: Frame, m: Mind, forbidden: Ways, latched: Ways, blocked: Status, cap: real)
    ensures DecisionBounds(f.cfg, f.i, OneWay(f, m, forbidden, latched, blocked).decision, cap)
  {
    HoldKeepsBounds(f, Some(blocked), cap);
    if f.i.Natural().Some? {
      var natural := Allowed(HandbackPower(f, f.i.Natural().value), forbidden);
      ClampKeepsBounds(f.cfg, f.i, StickyWatts(f.c, f.i, natural, f.now), TrackedFeature(natural));
    }
  }

  /** A power that may be sent for a step as it is. */
  predicate StepBounds(cfg: Config, i: Inputs, step: Step, limit: Option<real>, cap: real) {
    DecisionBounds(cfg, i, Decision(step.command, limit.GetOr(0.0), None, false), cap)
  }

  lemma CarryOutKeepsBounds(f: Frame, m: Mind, mode: Mode, step: Step, limit: Option<real>, cap: real)
    requires StepBounds(f.cfg, f.i, step, limit, cap)
    ensures DecisionBounds(f.cfg, f.i, CarryOut(f, m, mode, step, f.i.Natural(), limit).decision, cap)
  {
    var latched := ForbiddenWays(f, step);
    var forbidden := StoppingNow(f, latched, step);
    var guard := EngagedGuard(f, step);
    HoldKeepsBounds(f, None, cap);
    if step.command.Automatic? && guard.Some? {
      OneWayKeepsBounds(f, m.(stopped := None), forbidden.Banned(), latched.Banned(), guard.value, cap);
    } else {
      var way := StopFor(f, m, step, f.i.Natural(), limit.GetOr(0.0), forbidden);
      if way.Some? {
        HoldKeepsBounds(f, StoppedStatus(forbidden.On(way.value)), cap);
      }
    }
  }

  lemma ModePowerKeepsBounds(f: Frame, m: Mind, cap: real)
    requires SoundMind(m) && m.modeFeature == f.cfg.feature
    ensures StepBounds(f.cfg, f.i, StepOf(ModeAfter(f, m)), ModePower(f.cfg, f.i), cap)
  {
    var feature := f.cfg.feature;
    if feature.ExportSolarFirst? {
      if ModePower(f.cfg, f.i).Some? {
        SolarTargetKeepsBounds(f.cfg, f.i, cap);
      } else {
        assert TargetZone(ModeOf(feature), m.mode, Poll(f.i.Natural(), None, f.now, f.i.Full()), GUARD_POWER_DEADBAND_W)
            == Deficit;
      }
    } else if feature in {ChargeBattery, DischargeBattery, ExportToGrid, ImportFromGrid} {
      ClampKeepsBounds(f.cfg, f.i, UserPower(f.cfg, feature), feature);
    }
  }

  lemma SelectedIsOfFeature(f: Frame, m: Mind)
    requires SoundMind(m)
    ensures SoundMind(Selected(f, m, true)) && Selected(f, m, true).modeFeature == f.cfg.feature
    ensures ModeAfter(f, Selected(f, m, true)).modeFeature == f.cfg.feature
  {
  }

  /** No decision of any mode, in any state, commands more than the installation, the
      inverter and the grid take: what is configured, what the inverter can convert, what it
      is rated for and what it lets out. */
  lemma PowersAreBounded(f: Frame, m: Mind, aside: Option<Status>, reserveCharging: bool, cap: real)
    requires SoundMind(m)
    ensures DecisionBounds(f.cfg, f.i, Decide(f, m, true, aside, reserveCharging).decision, cap)
  {
    var s := Selected(f, m, true);
    var chosen := ModeAfter(f, s);
    SelectedIsOfFeature(f, m);
    ClampKeepsBounds(f.cfg, f.i, UserPower(f.cfg, ChargeBattery), ChargeBattery);
    ModePowerKeepsBounds(f, s, cap);
    CarryOutKeepsBounds(f, chosen, ModeOf(chosen.modeFeature), StepOf(chosen), ModePower(f.cfg, f.i), cap);
  }

  /** No bound of a command lies below a power. */
  predicate Spares(cfg: Config, i: Inputs, command: Feature, power: real) {
    && Bounds(cfg, i, command, power)
    && (command.ExportToGrid? ==> Within(power, i.feedInPowerMax))
  }

  /** A mode's own power is commanded as the user set it where nothing bounds or stops it,
      and is otherwise lowered to one of the bounds, and no further. */
  lemma UserPowerIsCommanded(f: Frame, m: Mind)
    requires SoundMind(m) && f.cfg.feature in {ChargeBattery, DischargeBattery, ExportToGrid, ImportFromGrid}
    requires !f.g.chargeStopped && !f.g.reserveStopped && UserPower(f.cfg, f.cfg.feature) > 0.0
    ensures var d := Decide(f, m, true, None, false).decision;
            var wanted := UserPower(f.cfg, f.cfg.feature);
            && (Spares(f.cfg, f.i, f.cfg.feature, wanted) ==> d == Decision(f.cfg.feature, wanted, None, false))
            && (d.feature == f.cfg.feature ==>
                  d.power <= wanted && WantedOrBound(f.cfg, f.i, f.cfg.feature, d.power, wanted))
  {
    SelectedIsOfFeature(f, m);
    ClampKeepsBounds(f.cfg, f.i, UserPower(f.cfg, f.cfg.feature), f.cfg.feature);
    if Spares(f.cfg, f.i, f.cfg.feature, UserPower(f.cfg, f.cfg.feature)) {
      SparedIsKept(f.cfg, f.i, f.cfg.feature);
    }
  }

  lemma SparedIsKept(cfg: Config, i: Inputs, command: Feature)
    requires command in {ChargeBattery, DischargeBattery, ExportToGrid, ImportFromGrid}
    requires UserPower(cfg, command) > 0.0 && Spares(cfg, i, command, UserPower(cfg, command))
    ensures ClampPower(cfg, i, UserPower(cfg, command), command) == UserPower(cfg, command)
  {
  }

  // ---------------------------------------------------------------------------
  // Tracking
  // ---------------------------------------------------------------------------

  lemma ChargeIsSpared(cfg: Config, i: Inputs, watts: real)
    requires watts >= 0.0 && Spares(cfg, i, ChargeBattery, watts)
    ensures ClampPower(cfg, i, watts, ChargeBattery) == watts
  {
  }

  lemma DischargeIsSpared(cfg: Config, i: Inputs, watts: real)
    requires watts >= 0.0 && Spares(cfg, i, DischargeBattery, watts)
    ensures ClampPower(cfg, i, watts, DischargeBattery) == watts
  {
  }

  /** A smaller power is spared by every bound that spares a greater one. */
  lemma LessIsSpared(cfg: Config, i: Inputs, command: Feature, less: real, more: real)
    requires 0.0 <= less <= more && Spares(cfg, i, command, more)
    ensures Spares(cfg, i, command, less)
  {
  }

  /** A charge command is never told at 0. */
  predicate ToldSomething(c: Commanded) {
    c.feature.ChargeBattery? ==> c.power > 0.0
  }

  /** A charge that leaves less than 101 W of a surplus of at least 1 W, and takes no more
      than it. */
  predicate ChargesMost(d: Decision, surplus: real) {
    d.feature.ChargeBattery? && surplus - 101.0 < d.power <= surplus
  }

  /** A discharge that covers a need, by less than 101 W more. */
  predicate CoversNeed(d: Decision, need: real) {
    d.feature.DischargeBattery? && need <= d.power < need + 101.0
  }

  lemma TrackFollows(f: Frame, natural: real, blocked: Status)
    requires BatterySettled(f.c, f.i, f.now) && ToldSomething(f.c)
    ensures var d := Track(f, natural, blocked);
            && (natural >= 1.0 && Spares(f.cfg, f.i, ChargeBattery, natural) ==> ChargesMost(d, natural))
            && (natural < 0.0 && Spares(f.cfg, f.i, DischargeBattery, 101.0 - natural) ==> CoversNeed(d, -natural))
            && (0.0 <= natural < 1.0 ==> d == Hold(f.i, Some(blocked)))
  {
    TrackingIsClose(f, natural, blocked);
    var watts := StickyWatts(f.c, f.i, natural, f.now);
    if natural >= 1.0 && Spares(f.cfg, f.i, ChargeBattery, natural) {
      LessIsSpared(f.cfg, f.i, ChargeBattery, watts, natural);
      ChargeIsSpared(f.cfg, f.i, watts);
    }
    if natural < 0.0 && Spares(f.cfg, f.i, DischargeBattery, 101.0 - natural) {
      LessIsSpared(f.cfg, f.i, DischargeBattery, watts, 101.0 - natural);
      DischargeIsSpared(f.cfg, f.i, watts);
    }
  }

  /** Automatic reproduced one way, unless control is handed back: the battery follows the
      house within 101 W, on the side that imports nothing, as far as its bounds allow, and
      is held where the surplus would move it a forbidden way. */
  lemma OneWayFollows(f: Frame, m: Mind, forbidden: Ways, latched: Ways, blocked: Status, natural: real)
    requires f.cfg.tracks && BatterySettled(f.c, f.i, f.now) && ToldSomething(f.c) && f.i.Natural() == Some(natural)
    ensures var r := OneWay(f, m, forbidden, latched, blocked);
            var d := r.decision;
            if r.mind.handback.phase.HandedBack? then d == Decision(Automatic, 0.0, Some(blocked), true)
            else
              && (natural >= 1.0 && !forbidden.charge && Spares(f.cfg, f.i, ChargeBattery, natural) ==>
                    ChargesMost(d, natural))
              && (natural < 0.0 && !forbidden.discharge && Spares(f.cfg, f.i, DischargeBattery, 101.0 - natural) ==>
                    CoversNeed(d, -natural))
              && ((natural > 0.0 && forbidden.charge) || (natural < 0.0 && forbidden.discharge) ==>
                    d == Hold(f.i, Some(blocked)))
  {
    RunsItselfIsHandedBack(StartedFor(m, latched).handback, natural, latched, f.now,
                           f.c.WrittenWithin(f.now, GUARD_SETTLE_S));
    TrackFollows(f, Allowed(natural, forbidden), blocked);
  }

  lemma RunsItselfIsHandedBack(h: Handback, natural: real, latched: Ways, now: real, recently: bool)
    ensures var a := Advance(true, h, natural, latched, now, recently);
            a.runsItself == a.handback.phase.HandedBack?
  {
  }

  /** In Automatic under the Charge Limit alone, the controller stops the battery from
      charging only at the limit: before, it stores the surplus, and it always covers the
      house. */
  lemma GuardedAutomaticFollows(f: Frame, m: Mind, natural: real)
    requires f.cfg.tracks && BatterySettled(f.c, f.i, f.now) && ToldSomething(f.c) && f.i.Natural() == Some(natural)
    requires SoundMind(m) && f.cfg.feature.Automatic? && f.g.charge && !f.g.reserve
    ensures var r := Decide(f, m, true, None, false);
            r.mind.handback.phase.HandedBack? ||
            (&& (natural < 0.0 && Spares(f.cfg, f.i, DischargeBattery, 101.0 - natural) ==>
                   CoversNeed(r.decision, -natural))
             && (natural >= 1.0 && !f.g.chargeStopped && Spares(f.cfg, f.i, ChargeBattery, natural) ==>
                   ChargesMost(r.decision, natural))
             && (natural > 0.0 && f.g.chargeStopped ==> r.decision == Hold(f.i, Some(ChargeLimitReached))))
  {
    SelectedIsOfFeature(f, m);
    var chosen := ModeAfter(f, Selected(f, m, true));
    var step := StepOf(chosen);
    var latched := ForbiddenWays(f, step);
    OneWayFollows(f, chosen.(stopped := None), StoppingNow(f, latched, step).Banned(), latched.Banned(),
                  ChargeLimitReached, natural);
  }

  /** The same under the Battery Reserve alone. */
  lemma ReservedAutomaticFollows(f: Frame, m: Mind, natural: real)
    requires f.cfg.tracks && BatterySettled(f.c, f.i, f.now) && ToldSomething(f.c) && f.i.Natural() == Some(natural)
    requires SoundMind(m) && f.cfg.feature.Automatic? && f.g.reserve && !f.g.charge
    requires !f.cfg.reserveNative && (f.i.minSocLimit.Some? ==> f.i.minSocLimit.value < f.cfg.reserve)
    ensures var r := Decide(f, m, true, None, false);
            r.mind.handback.phase.HandedBack? ||
            (&& (natural >= 1.0 && Spares(f.cfg, f.i, ChargeBattery, natural) ==> ChargesMost(r.decision, natural))
             && (natural < 0.0 && !f.g.reserveStopped && Spares(f.cfg, f.i, DischargeBattery, 101.0 - natural) ==>
                   CoversNeed(r.decision, -natural))
             && (natural < 0.0 && f.g.reserveStopped ==> r.decision == Hold(f.i, Some(ReserveReached))))
  {
    SelectedIsOfFeature(f, m);
    var chosen := ModeAfter(f, Selected(f, m, true));
    var step := StepOf(chosen);
    var latched := ForbiddenWays(f, step);
    OneWayFollows(f, chosen.(stopped := None), StoppingNow(f, latched, step).Banned(), latched.Banned(),
                  ReserveReached, natural);
  }

  /** A model that can only hold is held wherever a way is stopped now, unless it runs itself,
      by the smaller of two surpluses that disagree. */
  lemma HoldingModelsHold(f: Frame, m: Mind, forbidden: Ways, latched: Ways, blocked: Status, natural: real)
    requires !f.cfg.tracks && f.i.Natural() == Some(natural)
    ensures var r := OneWay(f, m, forbidden, latched, blocked);
            r.decision == if r.mind.handback.phase.HandedBack? || !(forbidden.charge || forbidden.discharge)
                          then Decision(Automatic, 0.0, Some(blocked), true) else Hold(f.i, Some(blocked))
    ensures f.i.NaturalFromGridSide().Some? && f.i.NaturalFromSolarSide().Some? ==>
              OneWay(f, m, forbidden, latched, blocked).mind.handback
              == Advance(false, StartedFor(m, latched).handback,
                         if f.i.NaturalFromGridSide().value <= f.i.NaturalFromSolarSide().value
                         then f.i.NaturalFromGridSide().value else f.i.NaturalFromSolarSide().value,
                         latched, f.now, f.c.WrittenWithin(f.now, GUARD_SETTLE_S)).handback
  {
    HoldingHandsBackExactly(StartedFor(m, latched).handback, HandbackPower(f, natural), latched, f.now,
                            f.c.WrittenWithin(f.now, GUARD_SETTLE_S));
  }

  /** When a battery command has settled: a measurement within 100 W or 15 percent of it and,
      after a small correction, nearer to it than to the one before; or 30 s without a
      write. */
  lemma BatteryCommandSettles(c: Commanded, i: Inputs, now: real)
    requires c.feature in {ChargeBattery, DischargeBattery}
    ensures var target := if c.feature.ChargeBattery? then c.power else -c.power;
            var before := if c.feature.ChargeBattery? then c.retunedFrom.GetOr(0.0) else -c.retunedFrom.GetOr(0.0);
            BatterySettled(c, i, now) <==>
            || c.lastWrite.None? || now - c.lastWrite.value >= 30.0
            || (&& i.batteryPower.Some?
                && (Abs(i.batteryPower.value - target) <= 100.0
                    || Abs(i.batteryPower.value - target) <= 0.15 * Abs(c.power))
                && (c.retunedFrom.None?
                    || Abs(i.batteryPower.value - target) < Abs(i.batteryPower.value - before)))
  {
  }

  /** Until it has, corrections below 500 W wait. */
  lemma UnsettledWaits(f: Frame, natural: real, blocked: Status)
    requires !BatterySettled(f.c, f.i, f.now) && f.c.power > 0.0
    requires natural >= 1.0 && f.c.feature.ChargeBattery? && Spares(f.cfg, f.i, ChargeBattery, f.c.power)
    requires f.c.power - 499.0 <= natural <= f.c.power + 499.0
    ensures Track(f, natural, blocked) == Decision(ChargeBattery, f.c.power, Some(blocked), true)
  {
    ChargeIsSpared(f.cfg, f.i, f.c.power);
  }

  /** A grid command is measured at the grid in the same way. */
  lemma GridCommandSettles(c: Commanded, i: Inputs, now: real)
    requires c.feature in {ExportToGrid, ImportFromGrid} && c.retunedFrom.None?
    ensures var target := if c.feature.ImportFromGrid? then c.power else -c.power;
            BatterySettled(c, i, now) <==>
            || c.lastWrite.None? || now - c.lastWrite.value >= 30.0
            || (&& i.gridPower.Some?
                && (Abs(i.gridPower.value - target) <= 100.0
                    || Abs(i.gridPower.value - target) <= 0.15 * Abs(c.power)))
  {
  }

  /** Movements below 100 W that import nothing are not followed. */
  lemma SmallMovesAreKept(f: Frame, natural: real, blocked: Status)
    requires f.c.power > 0.0 && Spares(f.cfg, f.i, f.c.feature, f.c.power)
    requires || (f.c.feature.ChargeBattery? && f.c.power + 1.0 <= natural <= f.c.power + 99.0)
             || (f.c.feature.DischargeBattery? && 0.0 < -natural && f.c.power - 99.0 <= -natural <= f.c.power - 1.0)
    ensures Track(f, natural, blocked) == Decision(f.c.feature, f.c.power, Some(blocked), true)
  {
    if f.c.feature.ChargeBattery? {
      ChargeIsSpared(f.cfg, f.i, f.c.power);
    } else {
      DischargeIsSpared(f.cfg, f.i, f.c.power);
    }
  }

  /** Other ways than the last time are a new reason: control is not handed back at once,
      and the wait for it is a minute again. */
  lemma OtherWaysStartOver(f: Frame, m: Mind, forbidden: Ways, latched: Ways, blocked: Status)
    requires latched != m.handbackFor
    ensures var h := OneWay(f, m, forbidden, latched, blocked).mind.handback;
            && h.waitS == 60.0
            && (f.cfg.tracks ==> !h.phase.HandedBack? && (h.phase.Pending? ==> h.since == Some(f.now)))
  {
  }

  // ---------------------------------------------------------------------------
  // Holding, standing aside, charging to the reserve
  // ---------------------------------------------------------------------------

  /** Only a full battery under a surplus of more than 200 W is released instead of held. */
  lemma HoldReleasesExactly(i: Inputs, blocked: Option<Status>)
    ensures Hold(i, blocked) ==
            if i.batterySoc.Some? && i.batterySoc.value >= 99.0 && i.Natural().Some? && i.Natural().value > 200.0
            then Decision(Automatic, 0.0, blocked, blocked.Some?)
            else Decision(HoldBattery, 1.0, blocked, blocked.Some?)
  {
  }

  /** Standing aside outranks everything else, and charging to the reserve every mode. */
  lemma DecisionsOutrank(f: Frame, m: Mind, status: Status)
    ensures Decide(f, m, true, Some(status), true).decision == Decision(Automatic, 0.0, Some(status), true)
    ensures Decide(f, m, true, Some(status), false).decision == Decision(Automatic, 0.0, Some(status), true)
    ensures UserPower(f.cfg, ChargeBattery) > 0.0
            && Spares(f.cfg, f.i, ChargeBattery, UserPower(f.cfg, ChargeBattery)) ==>
              Decide(f, m, true, None, true).decision
              == Decision(ChargeBattery, UserPower(f.cfg, ChargeBattery), Some(ChargingToReserve), true)
    ensures UserPower(f.cfg, ChargeBattery) <= 0.0 ==>
              Decide(f, m, true, None, true) == Decide(f, m, true, None, false)
  {
    if UserPower(f.cfg, ChargeBattery) > 0.0 && Spares(f.cfg, f.i, ChargeBattery, UserPower(f.cfg, ChargeBattery)) {
      SparedIsKept(f.cfg, f.i, ChargeBattery);
    }
  }

  /** A battery below its reserve charges up to it where the user or the app asks for that,
      except under the Charge Limit, where the inverter keeps the reserve itself, and in
      Automatic where the app charges as far. At the reserve it stops. */
  lemma ReserveChargesBelowIt(cfg: Config, i: Inputs, g: Guards, soc: real)
    ensures soc >= cfg.reserve || g.charge || cfg.reserveNative ==> !ReserveChargingAfter(cfg, i, g, soc)
    ensures !g.charge && !cfg.reserveNative && soc < cfg.reserve ==>
              (ReserveChargingAfter(cfg, i, g, soc) <==>
               match i.minSocLimit
               case None => cfg.reserveCharge
               case Some(app) => (cfg.reserveCharge || app > soc) && !(cfg.feature.Automatic? && app >= cfg.reserve))
  {
  }

  /** The reserve is the controller's to keep under every command, and in Automatic unless
      the inverter keeps it itself, natively or by an app reserve as high that no Charge
      Limit outranks. */
  lemma ReserveIsOurs(f: Frame, step: Step)
    requires f.g.reserve
    ensures !step.command.Automatic? ==> ReserveGuards(f, step)
    ensures step.command.Automatic? ==>
              (!ReserveGuards(f, step) <==>
               f.cfg.reserveNative
               || (!f.g.charge && f.i.minSocLimit.Some? && f.i.minSocLimit.value >= f.cfg.reserve))
  {
  }

  // ---------------------------------------------------------------------------
  // What each mode runs
  // ---------------------------------------------------------------------------

  /** Every mode but Export Solar First runs its own command in every frame. */
  lemma PlainModesRunThemselves(f: Frame, m: Mind)
    requires SoundMind(m) && !f.cfg.feature.ExportSolarFirst?
    ensures StepOf(ModeAfter(f, Selected(f, m, true))) == Step(f.cfg.feature, None, None)
  {
    SelectedIsOfFeature(f, m);
  }

  /** Automatic and Hold without a guard. */
  lemma UnguardedModesAreSent(f: Frame, m: Mind)
    requires SoundMind(m) && !f.g.charge && !f.g.reserve && !f.g.chargeStopped && !f.g.reserveStopped
    ensures f.cfg.feature.Automatic? ==>
              Decide(f, m, true, None, false).decision == Decision(Automatic, 0.0, None, false)
    ensures f.cfg.feature.HoldBattery? ==> Decide(f, m, true, None, false).decision == Hold(f.i, None)
    ensures f.cfg.feature in {ChargeBattery, DischargeBattery} && UserPower(f.cfg, f.cfg.feature) <= 0.0 ==>
              Decide(f, m, true, None, false).decision == Hold(f.i, None)
  {
    SelectedIsOfFeature(f, m);
    ClampKeepsBounds(f.cfg, f.i, UserPower(f.cfg, ChargeBattery), ChargeBattery);
    ClampKeepsBounds(f.cfg, f.i, UserPower(f.cfg, DischargeBattery), DischargeBattery);
  }

  /** Export Solar First, selected anew with no guard latched, at a limit of 400 W or more:
      it exports the limit and stores what is above, keeps the battery from taking a surplus
      below the limit, and leaves a deficit, a full battery and an unknown surplus to the
      inverter. */
  lemma SolarFirstRuns(f: Frame, m: Mind, limit: real)
    requires m.modeFeature != ExportSolarFirst && f.cfg.feature.ExportSolarFirst?
    requires !f.g.charge && !f.g.reserve && !f.g.chargeStopped && !f.g.reserveStopped
    requires SolarExportTarget(f.cfg, f.i) == Some(limit) && limit >= 400.0
    ensures var d := Decide(f, m, true, None, false).decision;
            match f.i.Natural()
            case None => d.feature.Automatic?
            case Some(x) =>
              && (x >= limit && !f.i.Full() ==> d == Decision(ExportToGrid, limit, Some(Active), true))
              && (200.0 < x < limit && !f.i.Full() ==>
                    d == Decision(HoldBattery, 1.0, Some(BelowSolarExportLimit), true))
              && (x <= 200.0 || f.i.Full() ==>
                    d == Decision(Automatic, 0.0, Some(AutomaticStatus), true))
  {
    var anew := Fresh(ModeOf(ExportSolarFirst));
    var poll := Plans.Poll(f.i.Natural(), Some(limit), f.now, f.i.Full());
    assert ModePower(f.cfg, f.i) == Some(limit);
    var chosen := Chosen(ModeOf(ExportSolarFirst), anew, poll, GUARD_POWER_DEADBAND_W);
    assert ModeAfter(f, Selected(f, m, true)).mode == chosen;
  }

  /** With the inverter's cap unknown, or too low to leave anything, it leaves everything to
      the inverter, in whatever state the mode was. */
  lemma UnknownCapRunsAutomatic(f: Frame, m: Mind, cap: real)
    requires SoundMind(m) && f.cfg.feature.ExportSolarFirst?
    requires CapUnknown(f.i) || (CappedAt(f.i, cap) && cap <= 100.0)
    requires !f.g.charge && !f.g.reserve && !f.g.chargeStopped && !f.g.reserveStopped
    ensures Decide(f, m, true, None, false).decision == Decision(Automatic, 0.0, Some(AutomaticStatus), true)
  {
    SolarTargetIsWantedOrBound(f.cfg, f.i, cap);
    SelectedIsOfFeature(f, m);
  }

  /** Holding a surplus back gives way only where the grid would take less than 100 W more. */
  lemma BannedChargeGivesWay(f: Frame, m: Mind, mode: Mode, step: Step, limit: Option<real>, x: real, cap: real)
    requires step.command.Automatic? && step.never == Some(Charge) && m.stopped.None?
    requires !f.g.charge && !f.g.reserve && f.i.Natural() == Some(x) && x > 0.0 && CappedAt(f.i, cap)
    ensures var d := CarryOut(f, m, mode, step, f.i.Natural(), limit).decision;
            if x > cap - 100.0 then d.feature.Automatic? && d.power == 0.0
            else d == Hold(f.i, if step.status.Some? then step.status else Some(Active))
  {
  }

  /** Holding a need back never does. */
  lemma BannedDischargeHolds(f: Frame, m: Mind, mode: Mode, step: Step, limit: Option<real>, x: real)
    requires step.command.Automatic? && step.never == Some(Discharge) && m.stopped.None?
    requires !f.g.charge && !f.g.reserve && f.i.Natural() == Some(x)
    ensures var d := CarryOut(f, m, mode, step, f.i.Natural(), limit).decision;
            if x >= 0.0 then d.feature.Automatic? && d.power == 0.0
            else d == Hold(f.i, if step.status.Some? then step.status else Some(Active))
  {
  }

  lemma UncappedGridTakes(i: Inputs, surplus: Option<real>)
    requires i.feedMode == Some(Unlimited) || i.feedMode == None || surplus.None?
    ensures !GridCannotTake(i, surplus)
  {
  }

  // ---------------------------------------------------------------------------
  // Statuses
  // ---------------------------------------------------------------------------

  /** A decision waits for the dwell exactly where it has nothing to explain. */
  predicate UrgentIfExplained(d: Decision) {
    d.bypassDwell <==> d.status.Some?
  }

  lemma CarryOutIsUrgentIfExplained(f: Frame, m: Mind, mode: Mode, step: Step, limit: Option<real>)
    requires step.command.HoldBattery? ==> !mode.Adapts()
    ensures UrgentIfExplained(CarryOut(f, m, mode, step, f.i.Natural(), limit).decision)
  {
  }

  lemma DecisionIsUrgentIfExplained(f: Frame, m: Mind, aside: Option<Status>, reserveCharging: bool)
    requires SoundMind(m)
    ensures UrgentIfExplained(Decide(f, m, true, aside, reserveCharging).decision)
  {
    SelectedIsOfFeature(f, m);
    var chosen := ModeAfter(f, Selected(f, m, true));
    CarryOutIsUrgentIfExplained(f, chosen, ModeOf(chosen.modeFeature), StepOf(chosen), ModePower(f.cfg, f.i));
  }

  /** A step stopped by a guard shows that guard, and never waits; one stopped by itself shows
      why, or that it is active. */
  lemma StopIsExplained(f: Frame, m: Mind, mode: Mode, step: Step, limit: Option<real>)
    requires CarryOut(f, m, mode, step, f.i.Natural(), limit).mind.stopped.Some?
    ensures var r := CarryOut(f, m, mode, step, f.i.Natural(), limit);
            && r.mind.stopped.value.step == step && r.decision.bypassDwell
            && r.decision.status
               == (match r.mind.stopped.value.way
                   case Charge => if f.g.charge then Some(ChargeLimitReached)
                                  else if step.status.Some? then step.status else Some(Active)
                   case Discharge => if ReserveGuards(f, step) then Some(ReserveReached)
                                     else if step.status.Some? then step.status else Some(Active))
  {
  }

  /** Reproducing Automatic shows the guard it is done for, the Charge Limit first. */
  lemma OneWayIsExplained(f: Frame, m: Mind, mode: Mode, step: Step, limit: Option<real>)
    requires step.command.Automatic? && !m.oneWayRan
    ensures var r := CarryOut(f, m, mode, step, f.i.Natural(), limit);
            && r.mind.oneWayRan == (f.g.charge || ReserveGuards(f, step))
            && (r.mind.oneWayRan ==>
                  r.decision.status == Some(if f.g.charge then ChargeLimitReached else ReserveReached))
  {
  }

  /** A command of an adapting mode that is not stopped shows the guard that is latched, the
      Charge Limit first, or that the mode is active; the command of any other mode shows
      nothing. */
  lemma CarriedIsExplained(f: Frame, m: Mind, mode: Mode, step: Step, limit: Option<real>)
    requires step.command in {ExportToGrid, ImportFromGrid}
    requires CarryOut(f, m, mode, step, f.i.Natural(), limit).mind.stopped.None?
    ensures CarryOut(f, m, mode, step, f.i.Natural(), limit).decision
         == if !mode.Adapts() then Decision(step.command, limit.GetOr(0.0), None, false)
            else Decision(step.command, limit.GetOr(0.0), Some(GuardShown(f.g).GetOr(Active)), true)
  {
  }

  /** A hold of an adapting mode shows the guard too, or why the mode holds. */
  lemma HeldStepIsExplained(f: Frame, m: Mind, mode: Mode, step: Step, limit: Option<real>)
    requires step.command.HoldBattery? && mode.Adapts()
    ensures CarryOut(f, m, mode, step, f.i.Natural(), limit).decision
         == Decision(HoldBattery, 1.0, if GuardShown(f.g).Some? then GuardShown(f.g) else step.status, true)
  {
  }

  function GuardShown(g: Guards): Option<Status> {
    if g.charge then Some(ChargeLimitReached) else if g.reserve then Some(ReserveReached) else None
  }

  /** A stop is remembered only by a decision that holds for it, of the step the mode runs. */
  lemma RememberedStopHolds(f: Frame, m: Mind, reserveCharging: bool)
    requires SoundMind(m)
    ensures var r := Decide(f, m, true, None, reserveCharging);
            r.mind.stopped.Some? ==>
              && r.decision == Hold(f.i, r.decision.status) && r.decision.status.Some?
              && r.mind.stopped.value.step == StepOf(r.mind)
  {
    SelectedIsOfFeature(f, m);
  }

  // ---------------------------------------------------------------------------
  // What a mode forgets
  // ---------------------------------------------------------------------------

  /** Two minds that differ at most in the modes they come from. */
  predicate SameButMode(m: Mind, n: Mind) {
    m.handback == n.handback && m.handbackFor == n.handbackFor && m.oneWayRan == n.oneWayRan
  }

  /** What other modes did has no say in a newly selected one. */
  lemma OtherModesAreForgotten(f: Frame, m: Mind, n: Mind, aside: Option<Status>, reserveCharging: bool)
    requires SameButMode(m, n) && m.modeFeature != f.cfg.feature && n.modeFeature != f.cfg.feature
    ensures Decide(f, m, true, aside, reserveCharging) == Decide(f, n, true, aside, reserveCharging)
  {
    assert Selected(f, m, true) == Selected(f, n, true);
  }

  /** Nor has anything before control was off, and control off leaves all to the inverter. */
  lemma ControlOffForgets(f: Frame, m: Mind, n: Mind, aside: Option<Status>, reserveCharging: bool)
    requires SameButMode(m, n)
    ensures Decide(f, m, false, aside, reserveCharging) == Decide(f, n, false, aside, reserveCharging)
    ensures Decide(f, m, false, aside, reserveCharging).decision == Decision(Automatic, 0.0, None, false)
  {
  }

  // ---------------------------------------------------------------------------
  // The surplus
  // ---------------------------------------------------------------------------

  /** In a frame that balances, both sides tell the same surplus; the grid side is believed
      first. */
  lemma SurplusIsTheBalance(i: Inputs)
    ensures i.batteryPower.Some? && i.gridPower.Some? && i.solarPower.Some? && i.housePower.Some?
            && i.solarPower.value + i.gridPower.value == i.housePower.value + i.batteryPower.value ==>
              i.Natural() == Some(i.solarPower.value - i.housePower.value)
              == i.NaturalFromSolarSide() == i.NaturalFromGridSide()
    ensures i.batteryPower.Some? && i.gridPower.Some? ==>
              i.Natural() == Some(i.batteryPower.value - i.gridPower.value)
    ensures !(i.batteryPower.Some? && i.gridPower.Some?) ==> i.Natural() == i.NaturalFromSolarSide()
  {
  }
}
