/**
 The guards only ever stop the battery: at its limit no decision of any mode charges it,
 at the reserve none drains it, and a command is never turned around. Stated for models
 that track setpoints, for every state the controller may be in.
 */
module ControlSafety {
  import opened Base
  import opened Plans
  import opened ControlRules

  /** The battery power a decision leads to. */
  function Predicted(d: Decision, i: Inputs): Option<real> {
    BatteryPower(d.feature, i.Natural(), d.power)
  }

  /** A full battery under a clear surplus, which is left alone instead of held. */
  predicate FullException(d: Decision, i: Inputs) {
    d.feature.Automatic? && i.Full() && i.Natural().Some? && i.Natural().value > GUARD_POWER_DEADBAND_W
  }

  /** A decision that does not charge the battery, and leaves the inverter to itself only
      where it clearly discharges. */
  predicate NeverCharges(d: Decision, i: Inputs) {
    && Predicted(d, i).Some?
    && Predicted(d, i).value <= 0.0
    && (d.feature.Automatic? ==> Predicted(d, i).value <= -GUARD_POWER_DEADBAND_W)
  }

  predicate NeverDischarges(d: Decision, i: Inputs) {
    Predicted(d, i).Some? && Predicted(d, i).value >= 0.0
  }

  lemma HoldIdles(i: Inputs, blocked: Option<Status>)
    ensures FullException(Hold(i, blocked), i) || Predicted(Hold(i, blocked), i) == Some(0.0)
  {
  }

  lemma ClampNotNegative(cfg: Config, i: Inputs, watts: real, feature: Feature)
    ensures ClampPower(cfg, i, watts, feature) >= 0.0
  {
  }

  /** Where the guards decide that the inverter runs itself, the surplus goes the way they
      allow. */
  lemma HandedBackFlowsAllowed(h: Handback, natural: real, latched: Ways, now: real, recently: bool)
    requires Advance(true, h, natural, latched, now, recently).runsItself
    ensures Wanted(natural, latched) >= GUARD_POWER_DEADBAND_W
    ensures !(latched.charge && latched.discharge)
  {
  }

  /** A tracked setpoint moves the battery only the way that is left. */
  lemma TrackMovesAllowed(f: Frame, natural: real, blocked: Status)
    ensures var d := Track(f, natural, blocked);
            || FullException(d, f.i)
            || (&& Predicted(d, f.i).Some?
                && !d.feature.Automatic?
                && (natural <= 0.0 ==> Predicted(d, f.i).value <= 0.0)
                && (natural >= 0.0 ==> Predicted(d, f.i).value >= 0.0))
  {
    HoldIdles(f.i, Some(blocked));
    if natural != 0.0 {
      ClampNotNegative(f.cfg, f.i, StickyWatts(f.c, f.i, natural, f.now), TrackedFeature(natural));
    }
  }

  lemma OneWaySafe(f: Frame, m: Mind, forbidden: Ways, latched: Ways, blocked: Status)
    requires f.cfg.tracks && (forbidden.charge ==> latched.charge) && (forbidden.discharge ==> latched.discharge)
    ensures var d := OneWay(f, m, forbidden, latched, blocked).decision;
            && (forbidden.charge ==> FullException(d, f.i) || NeverCharges(d, f.i))
            && (forbidden.discharge ==> NeverDischarges(d, f.i))
  {
    HoldIdles(f.i, Some(blocked));
    if f.i.Natural().Some? {
      var handback := StartedFor(m, latched).handback;
      var natural := f.i.Natural().value;
      var recently := f.c.WrittenWithin(f.now, GUARD_SETTLE_S);
      if Advance(true, handback, natural, latched, f.now, recently).runsItself {
        HandedBackFlowsAllowed(handback, natural, latched, f.now, recently);
      } else {
        TrackMovesAllowed(f, Allowed(natural, forbidden), blocked);
      }
    }
  }

  /** What carrying out a step may lead to. A step with a never of its own is Automatic, as
      in every mode there is: under another command, the never giving way to curtailed
      solar would take the reserve's stop with it. */
  lemma CarryOutSafe(f: Frame, m: Mind, mode: Mode, step: Step, limit: Option<real>)
    requires f.cfg.tracks && (step.never.Some? ==> step.command.Automatic?)
    ensures var d := CarryOut(f, m, mode, step, f.i.Natural(), limit).decision;
            && (f.g.charge && f.g.chargeStopped ==> FullException(d, f.i) || NeverCharges(d, f.i))
            && (ReserveGuards(f, step) && f.g.reserveStopped ==> NeverDischarges(d, f.i))
  {
    var latched := ForbiddenWays(f, step);
    var forbidden := StoppingNow(f, latched, step);
    var guard := EngagedGuard(f, step);
    if step.command.Automatic? && guard.Some? {
      OneWaySafe(f, m.(stopped := None), forbidden.Banned(), latched.Banned(), guard.value);
    } else {
      HoldIdles(f.i, None);
      var way := StopFor(f, m, step, f.i.Natural(), limit.GetOr(0.0), forbidden);
      if way.Some? {
        HoldIdles(f.i, StoppedStatus(forbidden.On(way.value)));
      }
    }
  }

  /** Every step a mode runs with a never of its own is Automatic. */
  lemma OwnNeverIsAutomatic(f: Frame, m: Mind)
    requires SoundMind(m)
    ensures var step := StepOf(ModeAfter(f, Selected(f, m, true)));
            step.never.Some? ==> step.command.Automatic?
  {
  }

  /** While the battery is stopped at the Charge Limit no decision charges it. */
  lemma StoppedNeverCharges(f: Frame, m: Mind)
    requires f.cfg.tracks && SoundMind(m) && f.g.charge && f.g.chargeStopped
    ensures var d := Decide(f, m, true, None, false).decision;
            FullException(d, f.i) || NeverCharges(d, f.i)
  {
    var chosen := ModeAfter(f, Selected(f, m, true));
    OwnNeverIsAutomatic(f, m);
    CarryOutSafe(f, chosen, ModeOf(chosen.modeFeature), StepOf(chosen), ModePower(f.cfg, f.i));
  }

  /** While the battery is stopped at the Battery Reserve no decision drains it, wherever
      the reserve is the controller's to keep. */
  lemma StoppedNeverDischarges(f: Frame, m: Mind, reserveCharging: bool)
    requires f.cfg.tracks && SoundMind(m) && f.g.reserveStopped
    requires ReserveGuards(f, StepOf(ModeAfter(f, Selected(f, m, true))))
    ensures NeverDischarges(Decide(f, m, true, None, reserveCharging).decision, f.i)
  {
    var chosen := ModeAfter(f, Selected(f, m, true));
    OwnNeverIsAutomatic(f, m);
    CarryOutSafe(f, chosen, ModeOf(chosen.modeFeature), StepOf(chosen), ModePower(f.cfg, f.i));
  }

  /** At or past the Charge Limit no decision charges the battery, in any mode and any
      state of the controller, and the inverter is left to itself only where it clearly
      discharges. The one exception is a full battery under a surplus, which cannot
      charge. */
  lemma ChargeLimitSafe(f: Frame, before: Guards, m: Mind, reserveCharging: bool, soc: real)
    requires f.cfg.tracks && SoundMind(m)
    requires f.i.batterySoc == Some(soc) && f.cfg.chargeLimit <= soc && f.cfg.chargeLimit < 100.0
    requires f.g == GuardsAfter(f.cfg.chargeLimit, f.cfg.reserve, before, soc)
    requires reserveCharging == ReserveChargingAfter(f.cfg, f.i, f.g, soc)
    ensures var d := Decide(f, m, true, None, reserveCharging).decision;
            FullException(d, f.i) || NeverCharges(d, f.i)
  {
    StoppedNeverCharges(f, m);
  }

  /** At or below the Battery Reserve no decision drains the battery, wherever the reserve
      is the controller's to keep. */
  lemma ReserveSafe(f: Frame, before: Guards, m: Mind, reserveCharging: bool, soc: real)
    requires f.cfg.tracks && SoundMind(m)
    requires f.i.batterySoc == Some(soc) && soc <= f.cfg.reserve && f.cfg.reserve > 0.0
    requires f.g == GuardsAfter(f.cfg.chargeLimit, f.cfg.reserve, before, soc)
    requires ReserveGuards(f, StepOf(ModeAfter(f, Selected(f, m, true))))
    ensures NeverDischarges(Decide(f, m, true, None, reserveCharging).decision, f.i)
  {
    StoppedNeverDischarges(f, m, reserveCharging);
  }

  /** With the battery stopped at both limits it idles, whatever the mode. */
  lemma PinnedBetweenLimits(f: Frame, m: Mind)
    requires f.cfg.tracks && SoundMind(m)
    requires f.g.charge && f.g.chargeStopped && f.g.reserveStopped
    requires ReserveGuards(f, StepOf(ModeAfter(f, Selected(f, m, true))))
    ensures var d := Decide(f, m, true, None, false).decision;
            FullException(d, f.i) || Predicted(d, f.i) == Some(0.0)
  {
    var chosen := ModeAfter(f, Selected(f, m, true));
    OwnNeverIsAutomatic(f, m);
    CarryOutSafe(f, chosen, ModeOf(chosen.modeFeature), StepOf(chosen), ModePower(f.cfg, f.i));
  }

  /** A step that commands a power is sent as it is, held, or left to the inverter while
      the battery is full; no guard turns it into another command. */
  lemma NeverTurnedAround(f: Frame, m: Mind, mode: Mode, step: Step, limit: Option<real>)
    requires step.command in {ChargeBattery, DischargeBattery, ExportToGrid, ImportFromGrid}
    ensures var d := CarryOut(f, m, mode, step, f.i.Natural(), limit).decision;
            || (d.feature == step.command && d.power == limit.GetOr(0.0))
            || (d.feature.HoldBattery? && d.power == HOLD_SETPOINT_W)
            || FullException(d, f.i)
  {
  }

  /** How far a step has to move the battery a way to be stopped for it: at all, or, once it
      is stopped, any less than clearly the other way. */
  function StopsBeyond(step: Step, way: Way, stopped: Option<Stop>): real {
    if stopped == Some(Stop(step, way)) then -200.0 else 0.0
  }

  /** A guarded way is held exactly when the step would move the battery that way, up to
      the margin a step already stopped has to clear, or when that cannot be told. */
  lemma StoppedExactlyWhenMoving(f: Frame, m: Mind, mode: Mode, step: Step, limit: Option<real>)
    requires step.command in {ChargeBattery, DischargeBattery, ExportToGrid, ImportFromGrid}
    requires step.never.None?
    requires step.command in {ChargeBattery, DischargeBattery} ==> limit.GetOr(0.0) > 0.0
    requires (f.g.chargeStopped ==> f.g.charge) && (f.g.reserveStopped ==> f.g.reserve)
    ensures var power := BatteryPower(step.command, f.i.Natural(), limit.GetOr(0.0));
            (CarryOut(f, m, mode, step, f.i.Natural(), limit).mind.stopped.Some?) ==
            (|| (f.g.chargeStopped && (power.None? || power.value > StopsBeyond(step, Charge, m.stopped)))
             || (f.g.reserveStopped && (power.None? || -power.value > StopsBeyond(step, Discharge, m.stopped))))
  {
  }

  /** A frame that cannot tell the surplus never moves the battery under a guard that has
      stopped it, except on a battery setpoint that moves it the other way. */
  lemma BlindFramesHold(f: Frame, m: Mind, mode: Mode, step: Step, limit: Option<real>)
    requires f.cfg.tracks && (step.never.Some? ==> step.command.Automatic?)
    requires f.i.Natural().None? && f.g.charge && f.g.chargeStopped
    ensures CarryOut(f, m, mode, step, None, limit).decision.feature in {HoldBattery, DischargeBattery}
  {
    CarryOutSafe(f, m, mode, step, limit);
  }

  /** Until the next poll the weather may change, but the battery then charges by no more
      than the surplus has risen since the frame the decision was made on. */
  lemma SlipBounded(d: Decision, i: Inputs, surplus: real)
    requires NeverCharges(d, i)
    ensures BatteryPower(d.feature, Some(surplus), d.power).value <= Max(0.0, surplus - i.Natural().GetOr(surplus))
  {
  }
}
