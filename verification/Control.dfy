/**
 The control manager (control.py): its fields, updated in place by every poll in step with
 what ControlRules decides and Delivery sends.
 */
module Control {
  import opened Base
  import opened Plans
  import opened ControlRules
  import opened Delivery
  import opened Settings
  import opened ClosedLoop

  /** The phase Handback describes, as an object of fields. */
  class GuardHandback {
    var phase: Phase
    var since: Option<real>
    var waitS: real

    constructor ()
      ensures State() == FRESH_HANDBACK
    {
      phase, since, waitS := Tracking, None, GUARD_HANDBACK_S;
    }

    function State(): Handback
      reads this
    {
      Handback(phase, since, waitS)
    }

    /** Starts over, as a new object would. */
    method Restart()
      modifies this
      ensures State() == FRESH_HANDBACK
    {
      phase, since, waitS := Tracking, None, GUARD_HANDBACK_S;
    }

    method Enter(next: Phase, now: real)
      modifies this
      ensures State() == old(State()).Enter(next, now)
    {
      phase := next;
      since := Some(now);
    }

    method TakeBack(now: real)
      modifies this
      ensures State() == old(State()).TakeBack(now)
    {
      if phase.HandedBack? {
        var elapsed := State().ElapsedS(now);
        waitS := if elapsed < waitS then Min(2.0 * waitS, GUARD_HANDBACK_MAX_S) else GUARD_HANDBACK_S;
      }
      Enter(Tracking, now);
    }
  }

  class ControlManager {
    var cfg: Config
    var enabled: bool
    var inputs: Inputs
    var chargeGuard: bool
    var reserveGuard: bool
    var chargeStopped: bool
    var reserveStopped: bool
    var reserveCharging: bool
    const handback: GuardHandback
    var handbackFor: Ways
    var oneWayRan: bool
    var stopped: Option<Stop>
    const modeState: ModeState
    var commandedFeature: Feature
    var commandedPower: real
    var retunedFrom: Option<real>
    var lastControlWriteTime: Option<real>
    var controlStale: bool

    /** The settings are the defaults or were stored by an object before. */
    constructor (cfg: Config, enabled: bool)
      requires InRange(cfg)
      ensures Valid() && fresh(handback) && fresh(modeState)
      ensures this.cfg == cfg && this.enabled == enabled && controlStale == enabled && inputs == BARE_FRAME
      ensures GuardState() == Guards(false, false, false, false)
      ensures Told() == Commanded(Automatic, 0.0, None, None)
      ensures enabled ==> forall device :: Faithful(LiveState(device)) && LiveState(device).Setup().Sound()
    {
      this.cfg := cfg;
      this.enabled := enabled;
      inputs := BARE_FRAME;
      chargeGuard, reserveGuard, chargeStopped, reserveStopped, reserveCharging := false, false, false, false, false;
      handback := new GuardHandback();
      handbackFor, oneWayRan, stopped := NO_WAYS, false, None;
      modeState := new ModeState(Automatic);
      commandedFeature, commandedPower, retunedFrom, lastControlWriteTime := Automatic, 0.0, None, None;
      controlStale := enabled;
    }

    predicate Valid()
      reads this, modeState
    {
      modeState.Valid() && InRange(cfg)
    }

    function GuardState(): Guards
      reads this
    {
      Guards(chargeGuard, reserveGuard, chargeStopped, reserveStopped)
    }

    function Told(): Commanded
      reads this
    {
      Commanded(commandedFeature, commandedPower, retunedFrom, lastControlWriteTime)
    }

    /** What is remembered from one decision to the next. */
    function Remembered(): Mind
      reads this, handback, modeState
    {
      Mind(handback.State(), handbackFor, oneWayRan, stopped, modeState.feature, modeState.State())
    }

    /** The settings in force, with everything that depends on their history. */
    function SetupState(): Setup
      reads this, handback
    {
      Setup(cfg, GuardState(), reserveCharging, handback.State())
    }

    function FrameOf(i: Inputs, now: real): Frame
      reads this
    {
      Frame(cfg, i, GuardState(), Told(), now)
    }

    /** Latches both guards from a frame; a frame without a state of charge changes none. */
    method UpdateGuards(i: Inputs)
      modifies this`chargeGuard, this`reserveGuard, this`chargeStopped, this`reserveStopped, this`reserveCharging
      ensures SetupState() == old(SetupState()).Reading(i)
    {
      if i.batterySoc.None? {
        return;
      }
      var soc := i.batterySoc.value;
      LatchGuards(soc);
      LatchStops(soc);
      reserveCharging := ChargesToReserve(i, soc);
    }

    method ChargesToReserve(i: Inputs, soc: real) returns (charges: bool)
      ensures charges == ReserveChargingAfter(cfg, i, GuardState(), soc)
    {
      var appCharges := !cfg.reserveNative && i.minSocLimit.Some? && i.minSocLimit.value > soc;
      var inverterCharges := cfg.feature.Automatic? && i.minSocLimit.Some? && i.minSocLimit.value >= cfg.reserve;
      charges := (cfg.reserveCharge || appCharges) && !cfg.reserveNative && !chargeGuard && !inverterCharges
                 && soc < cfg.reserve;
    }

    /** Setup.Limited, on the fields; tells whether either limit changed. */
    method UpdateLimits(chargeLimit: real, reserve: real) returns (changed: bool)
      modifies this`cfg, this`chargeGuard, this`reserveGuard, this`chargeStopped, this`reserveStopped,
               this`reserveCharging, handback
      ensures SetupState() == old(SetupState()).Limited(chargeLimit, reserve, inputs)
      ensures changed == !SameLimits(cfg, old(cfg))
      ensures InRange(old(cfg)) ==> InRange(cfg)
    {
      var charge, kept := ClampSoc(chargeLimit), ClampSoc(reserve);
      if charge == cfg.chargeLimit && kept == cfg.reserve {
        return false;
      }
      var latchedCharge, latchedReserve := chargeGuard, reserveGuard;
      if inputs.batterySoc.Some? {
        if charge != cfg.chargeLimit {
          chargeGuard := false;
        }
        if kept != cfg.reserve {
          reserveGuard := false;
        }
      }
      cfg := cfg.(chargeLimit := charge, reserve := kept);
      UpdateGuards(inputs);
      if chargeGuard != latchedCharge || reserveGuard != latchedReserve {
        handback.Restart();
      }
      changed := true;
    }

    /** Setup.Following, on the fields, from the frame just stored. */
    method FollowNativeReserve()
      modifies this`cfg, this`chargeGuard, this`reserveGuard, this`chargeStopped, this`reserveStopped,
               this`reserveCharging, handback
      ensures SetupState() == old(SetupState()).Following(inputs)
      ensures InRange(old(cfg)) ==> InRange(cfg)
    {
      if !cfg.reserveNative || inputs.minSocLimit.None? || inputs.minSocLimit.value == cfg.reserve {
        return;
      }
      var changed := UpdateLimits(cfg.chargeLimit, inputs.minSocLimit.value);
    }

    /** A command whose time has run out gives way to Automatic. */
    method ExpireCommand()
      modifies this`cfg, handback
      ensures SetupState() == Expired(old(SetupState()), true)
    {
      cfg := cfg.(feature := Automatic);
      handback.Restart();
    }

    method LatchGuards(soc: real)
      modifies this`chargeGuard, this`reserveGuard
      ensures chargeGuard == ChargeGuardAfter(cfg.chargeLimit, old(chargeGuard), soc)
      ensures reserveGuard == ReserveGuardAfter(cfg.reserve, old(reserveGuard), soc)
    {
      if cfg.chargeLimit >= 100.0 {
        chargeGuard := false;
      } else if soc >= cfg.chargeLimit {
        chargeGuard := true;
      } else if soc <= cfg.chargeLimit - GUARD_SOC_HYSTERESIS {
        chargeGuard := false;
      }
      if cfg.reserve <= 0.0 {
        reserveGuard := false;
      } else if soc <= cfg.reserve {
        reserveGuard := true;
      } else if soc >= cfg.reserve + GUARD_SOC_HYSTERESIS {
        reserveGuard := false;
      }
    }

    method LatchStops(soc: real)
      modifies this`chargeStopped, this`reserveStopped
      ensures chargeStopped == ChargeStoppedAfter(cfg.chargeLimit, chargeGuard, old(chargeStopped), soc)
      ensures reserveStopped == ReserveStoppedAfter(cfg.reserve, reserveGuard, old(reserveStopped), soc)
    {
      if !chargeGuard || soc <= cfg.chargeLimit - GUARD_RETURN_SOC {
        chargeStopped := false;
      } else if soc >= cfg.chargeLimit {
        chargeStopped := true;
      }
      if !reserveGuard || soc >= cfg.reserve + GUARD_RETURN_SOC {
        reserveStopped := false;
      } else if soc <= cfg.reserve {
        reserveStopped := true;
      }
    }

    /** Advances the hand-back by one poll; tells whether the inverter runs itself. */
    method AdvanceHandback(natural: real, latched: Ways, now: real) returns (runsItself: bool)
      modifies handback
      ensures Advanced(handback.State(), runsItself)
           == Advance(cfg.tracks, old(handback.State()), natural, latched, now,
                      Told().WrittenWithin(now, GUARD_SETTLE_S))
    {
      if latched.charge && latched.discharge {
        handback.TakeBack(now);
        return false;
      }
      var wanted := Wanted(natural, latched);
      if !cfg.tracks {
        if handback.phase.HandedBack? {
          if handback.State().ElapsedS(now) >= GUARD_SETTLE_S && wanted <= -GUARD_DIRECT_HANDBACK_W {
            handback.TakeBack(now);
            return false;
          }
          return true;
        }
        if Told().WrittenWithin(now, GUARD_SETTLE_S) {
          return false;
        }
        if wanted > GUARD_DIRECT_HANDBACK_W {
          handback.Enter(HandedBack, now);
          return true;
        }
        return false;
      }
      match handback.phase {
        case Tracking =>
          if wanted > GUARD_HANDBACK_W {
            handback.Enter(Pending, now);
          }
          return false;
        case Pending =>
          if wanted <= GUARD_HANDBACK_W {
            handback.Enter(Tracking, now);
            return false;
          }
          if handback.State().ElapsedS(now) < handback.waitS {
            return false;
          }
          handback.Enter(HandedBack, now);
          return true;
        case HandedBack =>
          if wanted < GUARD_POWER_DEADBAND_W {
            handback.TakeBack(now);
            return false;
          }
          return true;
      }
    }

    /** StartedFor, on the fields: other ways than last time restart the hand-back. */
    method StartOneWay(latched: Ways)
      modifies this`oneWayRan, this`handbackFor, handback
      ensures Remembered() == StartedFor(old(Remembered()), latched)
    {
      oneWayRan := true;
      if latched != handbackFor {
        handback.Restart();
        handbackFor := latched;
      }
    }

    /** OneWay, on the fields. */
    method OneWayAutomatic(i: Inputs, forbidden: Ways, latched: Ways, blocked: Status, now: real)
      returns (d: Decision)
      modifies this`oneWayRan, this`handbackFor, handback
      ensures Decided(Remembered(), d) == OneWay(old(FrameOf(i, now)), old(Remembered()), forbidden, latched, blocked)
    {
      StartOneWay(latched);
      if i.Natural().None? {
        handback.TakeBack(now);
        return Hold(i, Some(blocked));
      }
      d := FollowOneWay(HandbackPower(FrameOf(i, now), i.Natural().value), i, forbidden, latched, blocked, now);
    }

    /** Hands back, holds or tracks, with the surplus known. */
    method FollowOneWay(natural: real, i: Inputs, forbidden: Ways, latched: Ways, blocked: Status, now: real)
      returns (d: Decision)
      modifies handback
      ensures Decided(Remembered(), d)
           == Follow(old(FrameOf(i, now)), old(Remembered()), natural, forbidden, latched, blocked)
    {
      var runsItself := AdvanceHandback(natural, latched, now);
      if runsItself {
        return Decision(Automatic, 0.0, Some(blocked), true);
      }
      if !cfg.tracks {
        if forbidden == NO_WAYS {
          return Decision(Automatic, 0.0, Some(blocked), true);
        }
        return Hold(i, Some(blocked));
      }
      d := Track(FrameOf(i, now), Allowed(natural, forbidden), blocked);
    }

    /** ControlRules.CarryOut, on the fields. */
    method CarryOut(mode: Mode, step: Step, surplus: Option<real>, limit: Option<real>, i: Inputs, now: real)
      returns (d: Decision)
      modifies this`oneWayRan, this`handbackFor, this`stopped, handback
      ensures Decided(Remembered(), d)
           == ControlRules.CarryOut(old(FrameOf(i, now)), old(Remembered()), mode, step, surplus, limit)
    {
      var f := FrameOf(i, now);
      var latched := ForbiddenWays(f, step);
      var forbidden := StoppingNow(f, latched, step);
      var guard := EngagedGuard(f, step);
      if step.command.Automatic? && guard.Some? {
        stopped := None;
        d := OneWayAutomatic(i, forbidden.Banned(), latched.Banned(), guard.value, now);
        return;
      }
      if step.command.HoldBattery? {
        stopped := None;
        if !mode.Adapts() {
          return Hold(i, None);
        }
        return Decision(HoldBattery, HOLD_SETPOINT_W, if guard.Some? then guard else step.status, true);
      }
      var power := limit.GetOr(0.0);
      if power <= 0.0 && (step.command.ChargeBattery? || step.command.DischargeBattery?) {
        stopped := None;
        return Hold(i, None);
      }
      var way := ForbiddenWayMoved(step, surplus, power, forbidden, stopped);
      if way == Some(Charge) && !chargeGuard && GridCannotTake(i, surplus) {
        way := None;
      }
      stopped := if way.None? then None else Some(Stop(step, way.value));
      if way.Some? {
        return Hold(i, StoppedStatus(forbidden.On(way.value)));
      }
      if step.command.Automatic? {
        return Decision(Automatic, 0.0, if mode.Adapts() then Some(AutomaticStatus) else None, mode.Adapts());
      }
      var status := if mode.Adapts() then (if guard.Some? then guard else Some(Active)) else None;
      d := Decision(step.command, power, status, mode.Adapts());
    }

    /** Decide, on the fields. */
    method DesiredCommand(i: Inputs, aside: Option<Status>, now: real) returns (d: Decision)
      requires Valid()
      modifies this`oneWayRan, this`handbackFor, this`stopped, handback, modeState
      ensures Valid()
      ensures Decided(Remembered(), d)
           == Decide(old(FrameOf(i, now)), old(Remembered()), enabled, aside, reserveCharging)
    {
      if modeState.feature != cfg.feature || !enabled {
        modeState.Restart(cfg.feature);
        stopped := None;
      }
      if !enabled {
        return Decision(Automatic, 0.0, None, false);
      }
      if aside.Some? {
        return Decision(Automatic, 0.0, aside, true);
      }
      var f := FrameOf(i, now);
      if reserveCharging && ReservePower(f) > 0.0 {
        stopped := None;
        return Decision(ChargeBattery, ReservePower(f), Some(ChargingToReserve), true);
      }
      var mode := ModeOf(modeState.feature);
      var power := ModePower(cfg, i);
      var surplus := i.Natural();
      var step := mode.deficit;
      if mode.Adapts() {
        step := modeState.Choose(surplus, power, now, GUARD_POWER_DEADBAND_W, i.Full());
      }
      d := CarryOut(mode, step, surplus, power, i, now);
    }

    /** What the controller believes the inverter was told. */
    function SenderState(): Sender
      reads this
    {
      Sender(Told(), controlStale)
    }

    /** Delivery.SendControl, on the fields. The device is given and returned as its
        registers. */
    method SendControl(device: Device, feature: Feature, power: real, link: Link, now: real)
      returns (ok: bool, after: Device)
      modifies this`lastControlWriteTime, this`controlStale
      ensures Sent(ok, after) == Delivery.SendControl(old(SenderState()), device, feature, power, link)
      ensures lastControlWriteTime == if ok then Some(now) else old(lastControlWriteTime)
      ensures controlStale == (!ok && old(controlStale))
    {
      ok, after := false, device;
      if !link.connected {
        return;
      }
      if CommandsPower(feature) {
        var written := WriteSetpoint(device, feature, power, link);
        ok, after := written.ok, written.device;
      } else if CommandsPower(commandedFeature) {
        var cleared := WriteSetpoint(device, commandedFeature, 0.0, link);
        ok, after := cleared.ok, cleared.device;
      } else {
        ok := true;
      }
      if !ok {
        return;
      }
      if MethodOf(feature) != MethodOf(commandedFeature) || controlStale {
        if !link.wordLands {
          ok := false;
          return;
        }
        after := after.(follows := MethodOf(feature));
      }
      lastControlWriteTime := Some(now);
      controlStale := false;
    }

    /** Takes in a frame, decides on it and applies the decision: everything that one call
        does to the fields and the device. Without authority over the inverter the command
        goes stale first. */
    method Apply(device: Device, i: Inputs, expired: bool, aside: Option<Status>, suspect: bool, inControl: bool,
                 force: bool, now: real, link: Link) returns (ok: bool, after: Device, d: Decision)
      requires Valid()
      modifies this`cfg, this`inputs, this`chargeGuard, this`reserveGuard, this`chargeStopped, this`reserveStopped,
               this`reserveCharging, this`oneWayRan, this`handbackFor, this`stopped,
               this`commandedFeature, this`commandedPower, this`retunedFrom, this`lastControlWriteTime,
               this`controlStale, handback, modeState
      ensures Valid() && inputs == i
      ensures var taken := Expired(old(SetupState()), expired).Taken(i, suspect);
              var r := Decide(Frame(taken.cfg, i, taken.guards, old(Told()), now),
                              old(Remembered()).(oneWayRan := false, handback := taken.handback), enabled, aside,
                              taken.reserveCharging);
              && SetupState() == taken.(handback := handback.State())
              && d == r.decision && Remembered() == Settled(r.mind)
      ensures Applied(SenderState(), after, ok)
           == ApplyDecision(Sender(old(Told()), old(controlStale) || (enabled && !inControl)), device, d, force, now,
                            link)
    {
      d := DecideOn(i, expired, aside, suspect, inControl, now);
      ok, after := ApplyDecided(device, d, force, now, link);
    }

    method DecideOn(i: Inputs, expired: bool, aside: Option<Status>, suspect: bool, inControl: bool, now: real)
      returns (d: Decision)
      requires Valid()
      modifies this`cfg, this`inputs, this`chargeGuard, this`reserveGuard, this`chargeStopped, this`reserveStopped,
               this`reserveCharging, this`oneWayRan, this`handbackFor, this`stopped, this`controlStale, handback,
               modeState
      ensures Valid() && inputs == i
      ensures var taken := Expired(old(SetupState()), expired).Taken(i, suspect);
              var r := Decide(Frame(taken.cfg, i, taken.guards, old(Told()), now),
                              old(Remembered()).(oneWayRan := false, handback := taken.handback), enabled, aside,
                              taken.reserveCharging);
              && SetupState() == taken.(handback := handback.State())
              && d == r.decision && Remembered() == Settled(r.mind)
      ensures controlStale == (old(controlStale) || (enabled && !inControl))
    {
      TakeIn(i, expired, suspect, inControl);
      d := Judge(i, aside, now);
    }

    /** Expired and Taken, on the fields: a frame whose readings are suspect moves the guards
        only with a reserve read back. */
    method TakeIn(i: Inputs, expired: bool, suspect: bool, inControl: bool)
      modifies this`cfg, this`inputs, this`chargeGuard, this`reserveGuard, this`chargeStopped, this`reserveStopped,
               this`reserveCharging, this`controlStale, handback
      ensures inputs == i
      ensures SetupState() == Expired(old(SetupState()), expired).Taken(i, suspect)
      ensures InRange(old(cfg)) ==> InRange(cfg)
      ensures controlStale == (old(controlStale) || (enabled && !inControl))
    {
      inputs := i;
      if expired {
        ExpireCommand();
      }
      FollowNativeReserve();
      if !suspect {
        UpdateGuards(i);
      }
      if enabled && !inControl {
        controlStale := true;
      }
    }

    /** All that a run of the controller and the inverter is about. */
    function LiveState(device: Device): Live
      reads this, handback, modeState
    {
      Live(cfg, inputs, GuardState(), reserveCharging, Remembered(), SenderState(), device)
    }

    /** A poll as the runs of ClosedLoop have it. Any lapse is in the device already. */
    function TurnOf(i: Inputs, expired: bool, aside: Option<Status>, suspect: bool, inControl: bool, now: real,
                    link: Link): Turn
      reads this`cfg
    {
      Turn(if expired then cfg.(feature := Automatic) else cfg, expired, i, aside, suspect, None, !inControl, false,
           now, link)
    }

    /** An unforced Apply whose failure is swallowed. With control on, it takes the
        controller and the inverter one round further, and a battery stopped at a limit
        stays stopped. */
    method Poll(device: Device, i: Inputs, expired: bool, aside: Option<Status>, suspect: bool, inControl: bool,
                now: real, link: Link) returns (after: Device)
      requires Valid()
      modifies this`cfg, this`inputs, this`chargeGuard, this`reserveGuard, this`chargeStopped, this`reserveStopped,
               this`reserveCharging, this`oneWayRan, this`handbackFor, this`stopped,
               this`commandedFeature, this`commandedPower, this`retunedFrom, this`lastControlWriteTime,
               this`controlStale, handback, modeState
      ensures Valid()
      ensures var t := old(TurnOf(i, expired, aside, suspect, inControl, now, link));
              var w := old(LiveState(device));
              enabled ==>
                && LiveState(after) == NextLive(w, t)
                && (MethodAgrees(LapsedIn(w, t)) && Acts(t) ==>
                      && (ChargeStoppedIn(w, t) ==> ChargeStopHolds(w, t, after))
                      && (ReserveStoppedIn(w, t) ==> ReserveStopHolds(w, t, after)))
    {
      ghost var w, t := LiveState(device), TurnOf(i, expired, aside, suspect, inControl, now, link);
      var ok, d;
      ok, after, d := Apply(device, i, expired, aside, suspect, inControl, false, now, link);
      if enabled {
        ExpiredIsChanged(w.Setup(), expired, w.i);
        assert LiveState(after) == NextLive(w, t);
        StopsHold(w, t);
      }
    }

    /** Whether a user's change has been made and nothing else has happened since. */
    ghost predicate Changed(w: Live, t: Turn)
      reads this, handback, modeState
    {
      && SetupState() == ChangedIn(w, t)
      && inputs == w.i && Remembered() == w.mind.(handback := handback.State()) && SenderState() == w.sender
    }

    /** A user's change is applied at once, with the last frame. */
    method ApplyChange(device: Device, aside: Option<Status>, suspect: bool, inControl: bool, now: real, link: Link,
                       ghost w: Live, ghost t: Turn) returns (after: Device)
      requires Valid() && enabled && Changed(w, t) && w.device == device
      requires t == Turn(t.cfg, t.restart, w.i, aside, suspect, None, !inControl, true, now, link)
      modifies this`cfg, this`inputs, this`chargeGuard, this`reserveGuard, this`chargeStopped, this`reserveStopped,
               this`reserveCharging, this`oneWayRan, this`handbackFor, this`stopped,
               this`commandedFeature, this`commandedPower, this`retunedFrom, this`lastControlWriteTime,
               this`controlStale, handback, modeState
      ensures Valid() && LiveState(after) == NextLive(w, t)
    {
      var ok, d;
      ok, after, d := Apply(device, inputs, false, aside, suspect, inControl, true, now, link);
    }

    method ChangeChargeLimit(soc: real, ghost w: Live, ghost t: Turn) returns (changed: bool)
      requires Valid() && w == LiveState(w.device)
      requires t.cfg == cfg.(chargeLimit := soc) && !t.restart
      modifies this`cfg, this`chargeGuard, this`reserveGuard, this`chargeStopped, this`reserveStopped,
               this`reserveCharging, handback
      ensures Valid() && changed == (ClampSoc(soc) != old(cfg).chargeLimit)
      ensures changed ==> Changed(w, t)
      ensures !changed ==> LiveState(w.device) == w
    {
      LimitedIsChanged(w.Setup(), soc, w.cfg.reserve, w.i);
      changed := UpdateLimits(soc, cfg.reserve);
    }

    /** A new Charge Limit, which is applied unless it is the old one. */
    method SetChargeLimitSoc(device: Device, soc: real, aside: Option<Status>, suspect: bool, inControl: bool,
                             now: real, link: Link) returns (after: Device)
      requires Valid() && enabled
      modifies this`cfg, this`inputs, this`chargeGuard, this`reserveGuard, this`chargeStopped, this`reserveStopped,
               this`reserveCharging, this`oneWayRan, this`handbackFor, this`stopped,
               this`commandedFeature, this`commandedPower, this`retunedFrom, this`lastControlWriteTime,
               this`controlStale, handback, modeState
      ensures Valid()
      ensures var t := Turn(old(cfg).(chargeLimit := soc), false, old(inputs), aside, suspect, None, !inControl, true,
                            now, link);
              LiveState(after) == if ClampSoc(soc) == old(cfg).chargeLimit then old(LiveState(device))
                                  else NextLive(old(LiveState(device)), t)
    {
      ghost var w := LiveState(device);
      ghost var t := Turn(cfg.(chargeLimit := soc), false, inputs, aside, suspect, None, !inControl, true, now, link);
      after := device;
      var changed := ChangeChargeLimit(soc, w, t);
      if changed {
        after := ApplyChange(device, aside, suspect, inControl, now, link, w, t);
      }
    }

    /** Another mode, or the same one again. */
    method SelectFeature(device: Device, feature: Feature, aside: Option<Status>, suspect: bool, inControl: bool,
                         now: real, link: Link) returns (after: Device)
      requires Valid() && enabled
      modifies this`cfg, this`inputs, this`chargeGuard, this`reserveGuard, this`chargeStopped, this`reserveStopped,
               this`reserveCharging, this`oneWayRan, this`handbackFor, this`stopped,
               this`commandedFeature, this`commandedPower, this`retunedFrom, this`lastControlWriteTime,
               this`controlStale, handback, modeState
      ensures Valid()
      ensures LiveState(after)
           == NextLive(old(LiveState(device)),
                       Turn(old(cfg).(feature := feature), true, old(inputs), aside, suspect, None, !inControl, true,
                            now, link))
    {
      ghost var w := LiveState(device);
      ghost var t := Turn(cfg.(feature := feature), true, inputs, aside, suspect, None, !inControl, true, now, link);
      cfg := cfg.(feature := feature);
      handback.Restart();
      after := ApplyChange(device, aside, suspect, inControl, now, link, w, t);
    }

    /** Decides; a hand-back that was not needed starts over. */
    method Judge(i: Inputs, aside: Option<Status>, now: real) returns (d: Decision)
      requires Valid()
      modifies this`oneWayRan, this`handbackFor, this`stopped, handback, modeState
      ensures Valid()
      ensures var r := Decide(old(FrameOf(i, now)), old(Remembered()).(oneWayRan := false), enabled, aside,
                              reserveCharging);
              d == r.decision && Remembered() == Settled(r.mind)
    {
      oneWayRan := false;
      d := DesiredCommand(i, aside, now);
      if !oneWayRan {
        handback.Restart();
        handbackFor := NO_WAYS;
      }
    }

    /** ApplyDecision, on the fields. */
    method ApplyDecided(device: Device, d: Decision, force: bool, now: real, link: Link)
      returns (ok: bool, after: Device)
      modifies this`commandedFeature, this`commandedPower, this`retunedFrom, this`lastControlWriteTime,
               this`controlStale
      ensures Applied(SenderState(), after, ok) == ApplyDecision(old(SenderState()), device, d, force, now, link)
    {
      ok, after := true, device;
      var changed := d.feature != commandedFeature || Round(d.power) != Round(commandedPower);
      if changed && !force && !d.bypassDwell && !controlStale && Told().WrittenWithin(now, MIN_CONTROL_DWELL_S) {
        return;
      }
      if changed || controlStale {
        ok, after := SendControl(device, d.feature, d.power, link, now);
        if !ok {
          return;
        }
      }
      if changed {
        retunedFrom := if d.feature != commandedFeature then None else Some(commandedPower);
      }
      commandedFeature := d.feature;
      commandedPower := d.power;
    }
  }
}
