/**
 The controller and the inverter together, over whole runs: frames come in, decisions are
 made and sent, writes fail, the inverter lapses. What the inverter then does with the
 battery is what the guards are for.
 */
module ClosedLoop {
  import opened Base
  import opened Plans
  import opened ControlRules
  import opened ControlSafety
  import opened ControlRuns
  import opened Delivery
  import opened Settings

  /** The controller's whole memory, the settings and the last frame included, and the
      inverter's registers. */
  datatype Live = Live(cfg: Config, i: Inputs, guards: Guards, reserveCharging: bool, mind: Mind, sender: Sender,
                       device: Device)
  {
    function World(): World {
      Delivery.World(sender, device)
    }

    function Setup(): Setup {
      Settings.Setup(cfg, guards, reserveCharging, mind.handback)
    }
  }

  /** One round: what the user wants set by now and whether the mode was selected anew, what
      is read, whether the inverter forgot its command and whether that was noticed, and
      what gets through. A user's change that waits for no poll brings the last frame again. */
  datatype Turn = Turn(cfg: Config, restart: bool, i: Inputs, aside: Option<Status>, suspect: bool,
                       lapsed: Option<Device>, noticed: bool, force: bool, now: real, link: Link)

  /** The settings and the latches after the user's changes. */
  function ChangedIn(w: Live, t: Turn): Setup {
    w.Setup().Changed(t.cfg, t.restart, w.i)
  }

  /** And once the frame has been taken in. */
  function TakenIn(w: Live, t: Turn): Setup {
    ChangedIn(w, t).Taken(t.i, t.suspect)
  }

  function GuardsNow(w: Live, t: Turn): Guards {
    TakenIn(w, t).guards
  }

  predicate ReserveChargingNow(w: Live, t: Turn) {
    TakenIn(w, t).reserveCharging
  }

  function MindNow(w: Live, t: Turn): Mind {
    w.mind.(oneWayRan := false, handback := TakenIn(w, t).handback)
  }

  /** The frame a round decides on. */
  function FrameIn(w: Live, t: Turn): Frame {
    Frame(TakenIn(w, t).cfg, t.i, GuardsNow(w, t), w.sender.told, t.now)
  }

  /** What ControlManager.Apply decides in a round, with control on. */
  function DecidedIn(w: Live, t: Turn): Decided {
    Decide(FrameIn(w, t), MindNow(w, t), true, t.aside, ReserveChargingNow(w, t))
  }

  function AttemptIn(w: Live, t: Turn): Attempt {
    Attempt(t.lapsed, t.noticed, DecidedIn(w, t).decision, t.force, t.now, t.link)
  }

  /** What a round's send starts from. */
  function LapsedIn(w: Live, t: Turn): World {
    Lapsed(w.World(), t.lapsed, t.noticed)
  }

  function AppliedIn(w: Live, t: Turn): Applied {
    var l := LapsedIn(w, t);
    ApplyDecision(l.sender, l.device, DecidedIn(w, t).decision, t.force, t.now, t.link)
  }

  /** The state ControlManager.Apply leaves. */
  function NextLive(w: Live, t: Turn): Live {
    Live(TakenIn(w, t).cfg, t.i, GuardsNow(w, t), ReserveChargingNow(w, t), Settled(DecidedIn(w, t).mind),
         AppliedIn(w, t).sender, AppliedIn(w, t).device)
  }

  function RunLive(w: Live, turns: seq<Turn>): Live
    decreases |turns|
  {
    if turns == [] then w else RunLive(NextLive(w, turns[0]), turns[1..])
  }

  /** What the rounds of a run amount to for the inverter. */
  function AttemptsOf(w: Live, turns: seq<Turn>): seq<Attempt>
    decreases |turns|
  {
    if turns == [] then [] else [AttemptIn(w, turns[0])] + AttemptsOf(NextLive(w, turns[0]), turns[1..])
  }

  /** The controller knows what the inverter does, and runs a step of its mode. */
  predicate Faithful(w: Live) {
    Agrees(w.World()) && SoundMind(w.mind)
  }

  lemma TurnStaysFaithful(w: Live, t: Turn)
    requires Faithful(w) && LapseHarmless(w.World(), AttemptIn(w, t)) && !HalfCleared(w.World(), AttemptIn(w, t))
    ensures Faithful(NextLive(w, t))
  {
    var attempt := AttemptIn(w, t);
    assert NextLive(w, t).World() == Attempted(w.World(), attempt);
    LapseHarmlessIff(w.World(), attempt);
    SetpointKeptUnlessHalfCleared(w.World(), attempt);
    AttemptKeepsMethod(w.World(), attempt);
    DecideStaysSound(FrameIn(w, t), MindNow(w, t), t.aside, ReserveChargingNow(w, t));
  }

  predicate SameMode(a: Mind, b: Mind) {
    a.modeFeature == b.modeFeature && a.mode == b.mode
  }

  lemma CarryOutKeepsMode(f: Frame, m: Mind, mode: Mode, step: Step, limit: Option<real>)
    ensures SameMode(CarryOut(f, m, mode, step, f.i.Natural(), limit).mind, m)
  {
  }

  lemma SelectedIsSound(f: Frame, m: Mind)
    requires SoundMind(m)
    ensures SoundMind(Selected(f, m, true)) && SoundMind(ModeAfter(f, Selected(f, m, true)))
  {
  }

  /** Only what a mode may run is ever running. */
  lemma DecideStaysSound(f: Frame, m: Mind, aside: Option<Status>, reserveCharging: bool)
    requires SoundMind(m)
    ensures SoundMind(Decide(f, m, true, aside, reserveCharging).mind)
  {
    SelectedIsSound(f, m);
    var chosen := ModeAfter(f, Selected(f, m, true));
    CarryOutKeepsMode(f, chosen, ModeOf(chosen.modeFeature), StepOf(chosen), ModePower(f.cfg, f.i));
  }

  /** Over any run in which no lapse is missed and no command half cleared, the controller
      keeps knowing what the inverter does; without either it would not (InStepIff). */
  lemma {:induction false} RunStaysFaithful(w: Live, turns: seq<Turn>)
    requires Faithful(w) && KeepsStep(w.World(), AttemptsOf(w, turns))
    ensures Faithful(RunLive(w, turns))
    ensures RunLive(w, turns).World() == RunRounds(w.World(), AttemptsOf(w, turns))
    decreases |turns|
  {
    if turns != [] {
      var next := NextLive(w, turns[0]);
      assert next.World() == Attempted(w.World(), AttemptIn(w, turns[0]));
      assert AttemptsOf(w, turns)[1..] == AttemptsOf(next, turns[1..]);
      TurnStaysFaithful(w, turns[0]);
      RunStaysFaithful(next, turns[1..]);
    }
  }

  // ---------------------------------------------------------------------------
  // What the inverter does with its registers
  // ---------------------------------------------------------------------------

  /** The battery power of an inverter that obeys its registers; a setpoint of 0 is no limit
      to it, and it then runs its own self-consumption. */
  function DeviceBattery(d: Device, surplus: real): real {
    if d.follows.BatteryLimits? && d.batterySetpoint != 0 then d.batterySetpoint as real
    else if d.follows.SystemFeed? && d.systemSetpoint != 0 then surplus + d.systemSetpoint as real
    else surplus
  }

  /** A battery power of half a watt or less is sent as 0, which limits nothing. */
  predicate RoundsAway(feature: Feature, power: real) {
    (feature.ChargeBattery? || feature.DischargeBattery?) && Round(power) == 0
  }

  lemma RoundIsNear(x: real)
    ensures x - 0.5 <= Round(x) as real <= x + 0.5
  {
  }

  /** A command the inverter has, holding at the lowest setpoint. */
  predicate IsCommand(feature: Feature, power: real) {
    !feature.ExportSolarFirst? && (feature.HoldBattery? ==> power == HOLD_SETPOINT_W)
  }

  lemma CarryOutIsACommand(f: Frame, m: Mind, mode: Mode, step: Step, limit: Option<real>)
    requires !step.command.ExportSolarFirst?
    ensures var d := CarryOut(f, m, mode, step, f.i.Natural(), limit).decision; IsCommand(d.feature, d.power)
  {
  }

  /** No step a mode runs is itself a mode. */
  lemma StepIsACommand(m: Mind)
    requires SoundMind(m)
    ensures !StepOf(m).command.ExportSolarFirst?
  {
  }

  /** Decisions name commands of the inverter, in every mode. */
  lemma DecisionIsACommand(f: Frame, m: Mind, aside: Option<Status>, reserveCharging: bool)
    requires SoundMind(m)
    ensures var d := Decide(f, m, true, aside, reserveCharging).decision; IsCommand(d.feature, d.power)
  {
    SelectedIsSound(f, m);
    var chosen := ModeAfter(f, Selected(f, m, true));
    StepIsACommand(chosen);
    CarryOutIsACommand(f, chosen, ModeOf(chosen.modeFeature), StepOf(chosen), ModePower(f.cfg, f.i));
  }

  /** Once a command is delivered, the inverter does what was predicted of it within 1 W,
      which is the lowest setpoint a hold can have; or, where the power is rounded away,
      just what it likes. */
  lemma EffectIsPredicted(w: World, surplus: real)
    requires Agrees(w) && !w.sender.stale && IsCommand(w.sender.told.feature, w.sender.told.power)
    ensures if RoundsAway(w.sender.told.feature, w.sender.told.power) then DeviceBattery(w.device, surplus) == surplus
            else
              var predicted := BatteryPower(w.sender.told.feature, Some(surplus), w.sender.told.power);
              predicted.Some? && Abs(DeviceBattery(w.device, surplus) - predicted.value) <= 1.0
  {
    var told := w.sender.told;
    RoundIsNear(told.power);
    if CommandsPower(told.feature) {
      assert Round(told.power) * Sign(told.feature) == Round(told.power)
          || Round(told.power) * Sign(told.feature) == -Round(told.power);
    }
  }

  /** A round whose send makes the inverter act, told from what it found and what gets
      through. */
  predicate Effective(w: Live, t: Turn) {
    var l := LapsedIn(w, t);
    var d := DecidedIn(w, t).decision;
    && !Dwells(l.sender, d, t.force, t.now) && Sends(l.sender, d)
    && (GetsThrough(l.sender, d, t.link) || Rewrites(l, d, t.link))
  }

  /** What a decision leads to where the inverter acts on it: its prediction within 1 W, or
      what the inverter likes where the power is rounded away. */
  predicate ActsOn(d: Decision, surplus: real, battery: real) {
    if RoundsAway(d.feature, d.power) || d.feature.Automatic? then battery == surplus
    else
      var predicted := BatteryPower(d.feature, Some(surplus), d.power);
      predicted.Some? && Abs(battery - predicted.value) <= 1.0
  }

  /** A setpoint that was written is acted on by an inverter that follows its method. */
  lemma WrittenIsActedOn(d: Decision, device: Device, surplus: real)
    requires IsCommand(d.feature, d.power) && CommandsPower(d.feature) && device.follows == MethodOf(d.feature)
    requires device.Setpoint(d.feature) == Round(d.power) * Sign(d.feature)
    ensures ActsOn(d, surplus, DeviceBattery(device, surplus))
  {
    EffectIsPredicted(World(Sender(Commanded(d.feature, d.power, None, None), false), device), surplus);
  }

  lemma SendIsActedOn(l: World, d: Decision, force: bool, now: real, link: Link, surplus: real)
    requires MethodAgrees(l) && IsCommand(d.feature, d.power) && !Dwells(l.sender, d, force, now) && Sends(l.sender, d)
    requires GetsThrough(l.sender, d, link) || Rewrites(l, d, link)
    ensures ActsOn(d, surplus, DeviceBattery(ApplyDecision(l.sender, l.device, d, force, now, link).device, surplus))
  {
    var after := ApplyDecision(l.sender, l.device, d, force, now, link).device;
    RoundOfZero();
    if CommandsPower(d.feature) {
      WrittenIsActedOn(d, after, surplus);
    }
  }

  /** An effective round makes the inverter act on its decision, whatever its setpoint was
      before. */
  lemma EffectiveIsActedOn(w: Live, t: Turn, surplus: real)
    requires SoundMind(w.mind) && MethodAgrees(LapsedIn(w, t)) && Effective(w, t)
    ensures ActsOn(DecidedIn(w, t).decision, surplus, DeviceBattery(NextLive(w, t).device, surplus))
  {
    DecisionIsACommand(FrameIn(w, t), MindNow(w, t), t.aside, ReserveChargingNow(w, t));
    SendIsActedOn(LapsedIn(w, t), DecidedIn(w, t).decision, t.force, t.now, t.link, surplus);
  }

  lemma IdleSendChangesNothing(l: World, d: Decision, force: bool, now: real, link: Link, surplus: real)
    requires Dwells(l.sender, d, force, now) || !Sends(l.sender, d)
             || !(GetsThrough(l.sender, d, link) || Rewrites(l, d, link))
    ensures DeviceBattery(ApplyDecision(l.sender, l.device, d, force, now, link).device, surplus)
         == DeviceBattery(l.device, surplus)
  {
    OkIffGetsThrough(l.sender, l.device, d, force, now, link);
  }

  /** Any other round leaves the battery to go on as the round found it. */
  lemma IneffectiveChangesNothing(w: Live, t: Turn, surplus: real)
    requires !Effective(w, t)
    ensures DeviceBattery(NextLive(w, t).device, surplus) == DeviceBattery(LapsedIn(w, t).device, surplus)
  {
    IdleSendChangesNothing(LapsedIn(w, t), DecidedIn(w, t).decision, t.force, t.now, t.link, surplus);
  }

  /** A decision that has been told already needs no send: as long as the controller is in
      step, the inverter is acting on it. */
  lemma ToldIsActedOn(w: Live, t: Turn, surplus: real)
    requires SoundMind(w.mind) && Agrees(LapsedIn(w, t)) && !Sends(LapsedIn(w, t).sender, DecidedIn(w, t).decision)
    ensures ActsOn(DecidedIn(w, t).decision, surplus, DeviceBattery(NextLive(w, t).device, surplus))
  {
    var d := DecidedIn(w, t).decision;
    DecisionIsACommand(FrameIn(w, t), MindNow(w, t), t.aside, ReserveChargingNow(w, t));
    if CommandsPower(d.feature) {
      WrittenIsActedOn(d, NextLive(w, t).device, surplus);
    }
  }

  // ---------------------------------------------------------------------------
  // The guards, end to end
  // ---------------------------------------------------------------------------

  const GOOD_LINK := Link(true, true, true, true)

  /** A frame the controller may act on, on a model that tracks setpoints. */
  predicate Acts(t: Turn) {
    t.cfg.tracks && t.aside.None?
  }

  /** The surplus is the one the frame tells, where it tells one. */
  predicate Tells(i: Inputs, surplus: real) {
    i.Natural().Some? ==> i.Natural().value == surplus
  }

  /** A prediction that does not need the surplus is the same for every surplus. */
  lemma PredictedEither(d: Decision, i: Inputs, surplus: real)
    requires Tells(i, surplus)
    ensures Predicted(d, i).Some? ==> Predicted(d, i) == BatteryPower(d.feature, Some(surplus), d.power)
  {
  }

  /** A decision that leaves the inverter to itself: rounded away, or a full battery. */
  predicate LeftAlone(d: Decision, i: Inputs) {
    RoundsAway(d.feature, d.power) || FullException(d, i)
  }

  /** The battery is stopped at the Charge Limit in this round. */
  predicate ChargeStoppedIn(w: Live, t: Turn) {
    GuardsNow(w, t).charge && GuardsNow(w, t).chargeStopped && !ReserveChargingNow(w, t)
  }

  /** The battery is stopped at the Battery Reserve in this round, which is the controller's
      to keep. */
  predicate ReserveStoppedIn(w: Live, t: Turn) {
    && GuardsNow(w, t).reserveStopped
    && var f := FrameIn(w, t);
       ReserveGuards(f, StepOf(ModeAfter(f, Selected(f, MindNow(w, t), true))))
  }

  /** The frame reads the battery at or past the Charge Limit in force. */
  predicate ReadsChargeLimit(w: Live, t: Turn) {
    var limit := TakenIn(w, t).cfg.chargeLimit;
    !t.suspect && t.i.batterySoc.Some? && limit < 100.0 && limit <= t.i.batterySoc.value
  }

  /** The frame reads the battery at or below the Battery Reserve in force. */
  predicate ReadsReserve(w: Live, t: Turn) {
    var reserve := TakenIn(w, t).cfg.reserve;
    !t.suspect && t.i.batterySoc.Some? && reserve > 0.0 && t.i.batterySoc.value <= reserve
  }

  lemma ReadingStops(w: Live, t: Turn)
    requires w.Setup().Sound()
    ensures TakenIn(w, t).Sound()
    ensures ReadsChargeLimit(w, t) ==> ChargeStoppedIn(w, t)
    ensures ReadsReserve(w, t) ==> GuardsNow(w, t).reserveStopped
  {
    TakenMovesStops(w, t);
  }

  /** Whether a stop at the Charge Limit outlasts a round: a change of the limits that is
      latched anew from the last frame, then one read back from the inverter, then the frame
      itself. It ends with a reading 2 points below the limit, with a limit put above the
      reading it is latched from, and with the limit off. */
  predicate ChargeStopLasts(w: Live, t: Turn) {
    var user, all := ChangedIn(w, t).cfg, TakenIn(w, t).cfg;
    var changed := SameLimits(user, w.cfg)
                   || ChargeStopThrough(true, w.cfg.chargeLimit, user.chargeLimit, w.i.batterySoc);
    var followed := if SameLimits(all, user) then changed
                    else ChargeStopThrough(changed, user.chargeLimit, all.chargeLimit, t.i.batterySoc);
    if t.suspect then followed
    else ChargeStopThrough(followed, all.chargeLimit, all.chargeLimit, t.i.batterySoc)
  }

  /** The same for a stop at the Battery Reserve. */
  predicate ReserveStopLasts(w: Live, t: Turn) {
    var user, all := ChangedIn(w, t).cfg, TakenIn(w, t).cfg;
    var changed := SameLimits(user, w.cfg)
                   || ReserveStopThrough(true, w.cfg.reserve, user.reserve, w.i.batterySoc);
    var followed := if SameLimits(all, user) then changed
                    else ReserveStopThrough(changed, user.reserve, all.reserve, t.i.batterySoc);
    if t.suspect then followed
    else ReserveStopThrough(followed, all.reserve, all.reserve, t.i.batterySoc)
  }

  lemma TakenMovesStops(w: Live, t: Turn)
    requires w.Setup().Sound()
    ensures TakenIn(w, t).Sound()
    ensures w.guards.chargeStopped ==> (GuardsNow(w, t).chargeStopped <==> ChargeStopLasts(w, t))
    ensures w.guards.reserveStopped ==> (GuardsNow(w, t).reserveStopped <==> ReserveStopLasts(w, t))
  {
    ChangeMovesStops(w.Setup(), t.cfg, t.restart, w.i);
    FollowingMovesStops(ChangedIn(w, t), t.i);
    ReadingMovesStops(ChangedIn(w, t).Following(t.i), t.i);
  }

  /** Settings that nobody touches and no inverter answers for. */
  predicate Untouched(w: Live, t: Turn) {
    SameLimits(t.cfg, w.cfg) && !t.cfg.reserveNative
  }

  /** Then a stop lasts exactly until a reading 2 points clear of its limit. */
  lemma UntouchedStopLasts(w: Live, t: Turn)
    requires Untouched(w, t) && w.cfg.chargeLimit < 100.0 && w.cfg.reserve > 0.0
    ensures ChargeStopLasts(w, t) <==>
            t.suspect || t.i.batterySoc.None? || t.i.batterySoc.value > w.cfg.chargeLimit - GUARD_RETURN_SOC
    ensures ReserveStopLasts(w, t) <==>
            t.suspect || t.i.batterySoc.None? || t.i.batterySoc.value < w.cfg.reserve + GUARD_RETURN_SOC
  {
  }

  /** A Charge Limit that is changed keeps the stop exactly where the last frame and this
      one, as far as they tell, reach the new one. */
  lemma MovedLimitStopLasts(w: Live, t: Turn)
    requires !t.cfg.reserveNative && 0.0 <= t.cfg.chargeLimit <= 100.0 && 0.0 <= t.cfg.reserve <= 100.0
    requires t.cfg.chargeLimit != w.cfg.chargeLimit && w.i.batterySoc.Some? && (t.suspect || t.i == w.i)
    ensures ChargeStopLasts(w, t) <==> t.cfg.chargeLimit < 100.0 && w.i.batterySoc.value >= t.cfg.chargeLimit
  {
  }

  /** The battery is stopped at the Charge Limit in every round of a run. */
  predicate ChargeStoppedThroughout(w: Live, turns: seq<Turn>)
    decreases |turns|
  {
    turns == [] || (ChargeStoppedIn(w, turns[0]) && ChargeStoppedThroughout(NextLive(w, turns[0]), turns[1..]))
  }

  /** No round of a run ends the stop. */
  predicate ChargeStopOutlasts(w: Live, turns: seq<Turn>)
    decreases |turns|
  {
    turns == [] || (ChargeStopLasts(w, turns[0]) && ChargeStopOutlasts(NextLive(w, turns[0]), turns[1..]))
  }

  /** Once stopped at the Charge Limit, the battery stays stopped through a run exactly until
      a round that ends the stop: whatever the weather, the modes, the writes that fail and
      the readings that go missing do. */
  lemma {:induction false} ChargeStaysStoppedIff(w: Live, turns: seq<Turn>)
    requires w.Setup().Sound() && w.guards.chargeStopped
    ensures ChargeStoppedThroughout(w, turns) <==> ChargeStopOutlasts(w, turns)
    decreases |turns|
  {
    if turns != [] {
      TakenMovesStops(w, turns[0]);
      if ChargeStopLasts(w, turns[0]) {
        SoundnessGoesOn(w, turns[0]);
        ChargeStaysStoppedIff(NextLive(w, turns[0]), turns[1..]);
      }
    }
  }

  /** The hand-back, which a decision may change, has no part in the soundness of a setup. */
  lemma SoundnessGoesOn(w: Live, t: Turn)
    requires TakenIn(w, t).Sound()
    ensures NextLive(w, t).Setup().Sound()
  {
  }

  /** Limits changed after a round are latched from the state of charge that round read. */
  lemma ChangeLatchesFromLastFrame(w: Live, t: Turn, next: Turn)
    requires w.Setup().Sound()
    ensures var n := NextLive(w, t);
            var changed := ChangedIn(n, next);
            !SameLimits(changed.cfg, n.cfg) ==>
              && changed.guards.chargeStopped
                 == ChargeStopThrough(GuardsNow(w, t).chargeStopped, n.cfg.chargeLimit, changed.cfg.chargeLimit,
                                      t.i.batterySoc)
              && changed.guards.reserveStopped
                 == ReserveStopThrough(GuardsNow(w, t).reserveStopped, n.cfg.reserve, changed.cfg.reserve,
                                       t.i.batterySoc)
  {
    TakenMovesStops(w, t);
    SoundnessGoesOn(w, t);
    ChangeMovesStops(NextLive(w, t).Setup(), next.cfg, next.restart, t.i);
  }

  predicate ReserveStoppedThroughout(w: Live, turns: seq<Turn>)
    decreases |turns|
  {
    turns == [] ||
    (GuardsNow(w, turns[0]).reserveStopped && ReserveStoppedThroughout(NextLive(w, turns[0]), turns[1..]))
  }

  predicate ReserveStopOutlasts(w: Live, turns: seq<Turn>)
    decreases |turns|
  {
    turns == [] || (ReserveStopLasts(w, turns[0]) && ReserveStopOutlasts(NextLive(w, turns[0]), turns[1..]))
  }

  /** The same for the Battery Reserve. */
  lemma {:induction false} ReserveStaysStoppedIff(w: Live, turns: seq<Turn>)
    requires w.Setup().Sound() && w.guards.reserveStopped
    ensures ReserveStoppedThroughout(w, turns) <==> ReserveStopOutlasts(w, turns)
    decreases |turns|
  {
    if turns != [] {
      TakenMovesStops(w, turns[0]);
      if ReserveStopLasts(w, turns[0]) {
        SoundnessGoesOn(w, turns[0]);
        ReserveStaysStoppedIff(NextLive(w, turns[0]), turns[1..]);
      }
    }
  }

  lemma {:induction false} StoppedAtLast(w: Live, turns: seq<Turn>, t: Turn)
    ensures ChargeStoppedThroughout(w, turns + [t]) ==> ChargeStoppedIn(RunLive(w, turns), t)
    ensures ReserveStoppedThroughout(w, turns + [t]) ==> GuardsNow(RunLive(w, turns), t).reserveStopped
    decreases |turns|
  {
    var all := turns + [t];
    if turns == [] {
      assert all[0] == t;
    } else {
      assert all[0] == turns[0] && all[1..] == turns[1..] + [t];
      StoppedAtLast(NextLive(w, turns[0]), turns[1..], t);
    }
  }

  /** With the battery stopped at its Charge Limit, a round leaves the inverter charging it
      by no more than the 1 W of a hold: where it acts, exactly unless the decision leaves
      the inverter alone under a surplus, and otherwise exactly where it was so before. */
  ghost predicate ChargeStopHolds(w: Live, t: Turn, after: Device) {
    forall surplus :: Tells(t.i, surplus) ==>
      (DeviceBattery(after, surplus) <= HOLD_SETPOINT_W <==>
       if Effective(w, t) then !(LeftAlone(DecidedIn(w, t).decision, t.i) && surplus > HOLD_SETPOINT_W)
       else DeviceBattery(LapsedIn(w, t).device, surplus) <= HOLD_SETPOINT_W)
  }

  /** With the battery stopped at its reserve, a round leaves the inverter draining it by no
      more than 1 W: where it acts, exactly unless the decision is rounded away under a
      deficit, and otherwise exactly where it was so before. */
  ghost predicate ReserveStopHolds(w: Live, t: Turn, after: Device) {
    forall surplus :: Tells(t.i, surplus) ==>
      (DeviceBattery(after, surplus) >= -HOLD_SETPOINT_W <==>
       if Effective(w, t) then
         var d := DecidedIn(w, t).decision; !(RoundsAway(d.feature, d.power) && surplus < -HOLD_SETPOINT_W)
       else DeviceBattery(LapsedIn(w, t).device, surplus) >= -HOLD_SETPOINT_W)
  }

  lemma StoppedRoundNeverCharges(w: Live, t: Turn)
    requires SoundMind(w.mind) && Acts(t) && ChargeStoppedIn(w, t)
    ensures var d := DecidedIn(w, t).decision; FullException(d, t.i) || NeverCharges(d, t.i)
  {
    StoppedNeverCharges(FrameIn(w, t), MindNow(w, t));
  }

  lemma StoppedRoundNeverDischarges(w: Live, t: Turn)
    requires SoundMind(w.mind) && Acts(t) && ReserveStoppedIn(w, t)
    ensures NeverDischarges(DecidedIn(w, t).decision, t.i)
  {
    StoppedNeverDischarges(FrameIn(w, t), MindNow(w, t), ReserveChargingNow(w, t));
  }

  /** What a decision that does not charge comes to, once acted on. */
  lemma NeverChargesIsKept(d: Decision, i: Inputs, surplus: real, battery: real)
    requires Tells(i, surplus) && (FullException(d, i) || NeverCharges(d, i)) && ActsOn(d, surplus, battery)
    ensures battery <= HOLD_SETPOINT_W <==> !(LeftAlone(d, i) && surplus > HOLD_SETPOINT_W)
  {
    PredictedEither(d, i, surplus);
  }

  lemma NeverDischargesIsKept(d: Decision, i: Inputs, surplus: real, battery: real)
    requires Tells(i, surplus) && NeverDischarges(d, i) && ActsOn(d, surplus, battery)
    ensures battery >= -HOLD_SETPOINT_W <==> !(RoundsAway(d.feature, d.power) && surplus < -HOLD_SETPOINT_W)
  {
    PredictedEither(d, i, surplus);
  }

  /** A round with the battery stopped at its Charge Limit, whatever the inverter's setpoint
      and whatever gets through. */
  lemma InverterStopsAtChargeLimit(w: Live, t: Turn)
    requires SoundMind(w.mind) && MethodAgrees(LapsedIn(w, t)) && Acts(t) && ChargeStoppedIn(w, t)
    ensures ChargeStopHolds(w, t, NextLive(w, t).device)
  {
    var d := DecidedIn(w, t).decision;
    StoppedRoundNeverCharges(w, t);
    forall surplus | Tells(t.i, surplus)
      ensures DeviceBattery(NextLive(w, t).device, surplus) <= HOLD_SETPOINT_W
         <==> if Effective(w, t) then !(LeftAlone(d, t.i) && surplus > HOLD_SETPOINT_W)
              else DeviceBattery(LapsedIn(w, t).device, surplus) <= HOLD_SETPOINT_W
    {
      if Effective(w, t) {
        EffectiveIsActedOn(w, t, surplus);
        NeverChargesIsKept(d, t.i, surplus, DeviceBattery(NextLive(w, t).device, surplus));
      } else {
        IneffectiveChangesNothing(w, t, surplus);
      }
    }
  }

  /** The same at the Battery Reserve. */
  lemma InverterStopsAtReserve(w: Live, t: Turn)
    requires SoundMind(w.mind) && MethodAgrees(LapsedIn(w, t)) && Acts(t) && ReserveStoppedIn(w, t)
    ensures ReserveStopHolds(w, t, NextLive(w, t).device)
  {
    var d := DecidedIn(w, t).decision;
    StoppedRoundNeverDischarges(w, t);
    forall surplus | Tells(t.i, surplus)
      ensures DeviceBattery(NextLive(w, t).device, surplus) >= -HOLD_SETPOINT_W
         <==> if Effective(w, t) then !(RoundsAway(d.feature, d.power) && surplus < -HOLD_SETPOINT_W)
              else DeviceBattery(LapsedIn(w, t).device, surplus) >= -HOLD_SETPOINT_W
    {
      if Effective(w, t) {
        EffectiveIsActedOn(w, t, surplus);
        NeverDischargesIsKept(d, t.i, surplus, DeviceBattery(NextLive(w, t).device, surplus));
      } else {
        IneffectiveChangesNothing(w, t, surplus);
      }
    }
  }

  /** In step, a round that needs no send stops the battery like one that acts. */
  lemma ToldStops(w: Live, t: Turn, surplus: real)
    requires SoundMind(w.mind) && Agrees(LapsedIn(w, t)) && Acts(t) && Tells(t.i, surplus)
    requires !Sends(LapsedIn(w, t).sender, DecidedIn(w, t).decision)
    ensures var d := DecidedIn(w, t).decision;
            var battery := DeviceBattery(NextLive(w, t).device, surplus);
            && (ChargeStoppedIn(w, t) ==>
                  (battery <= HOLD_SETPOINT_W <==> !(LeftAlone(d, t.i) && surplus > HOLD_SETPOINT_W)))
            && (ReserveStoppedIn(w, t) ==>
                  (battery >= -HOLD_SETPOINT_W <==>
                   !(RoundsAway(d.feature, d.power) && surplus < -HOLD_SETPOINT_W)))
  {
    var d := DecidedIn(w, t).decision;
    ToldIsActedOn(w, t, surplus);
    if ChargeStoppedIn(w, t) {
      StoppedRoundNeverCharges(w, t);
      NeverChargesIsKept(d, t.i, surplus, DeviceBattery(NextLive(w, t).device, surplus));
    }
    if ReserveStoppedIn(w, t) {
      StoppedRoundNeverDischarges(w, t);
      NeverDischargesIsKept(d, t.i, surplus, DeviceBattery(NextLive(w, t).device, surplus));
    }
  }

  /** No command is more than 30 kW. */
  predicate Moderate(power: real) {
    0.0 <= power <= CONTROL_POWER_FALLBACK_MAX
  }

  lemma ClampIsModerate(cfg: Config, i: Inputs, watts: real, feature: Feature)
    ensures Moderate(ClampPower(cfg, i, watts, feature))
  {
  }

  lemma ModePowerIsModerate(cfg: Config, i: Inputs)
    ensures Moderate(ModePower(cfg, i).GetOr(0.0))
  {
    ClampIsModerate(cfg, i, Get(cfg.powers, cfg.feature).GetOr(0.0), cfg.feature);
  }

  lemma OneWayIsModerate(f: Frame, m: Mind, forbidden: Ways, latched: Ways, blocked: Status)
    ensures Moderate(OneWay(f, m, forbidden, latched, blocked).decision.power)
  {
    if f.i.Natural().Some? {
      var natural := Allowed(HandbackPower(f, f.i.Natural().value), forbidden);
      ClampIsModerate(f.cfg, f.i, StickyWatts(f.c, f.i, natural, f.now), TrackedFeature(natural));
    }
  }

  lemma CarryOutIsModerate(f: Frame, m: Mind, mode: Mode, step: Step, limit: Option<real>)
    requires Moderate(limit.GetOr(0.0))
    ensures Moderate(CarryOut(f, m, mode, step, f.i.Natural(), limit).decision.power)
  {
    var latched := ForbiddenWays(f, step);
    var guard := EngagedGuard(f, step);
    if step.command.Automatic? && guard.Some? {
      OneWayIsModerate(f, m.(stopped := None), StoppingNow(f, latched, step).Banned(), latched.Banned(), guard.value);
    }
  }

  lemma DecisionIsModerate(f: Frame, m: Mind, aside: Option<Status>, reserveCharging: bool)
    ensures Moderate(Decide(f, m, true, aside, reserveCharging).decision.power)
  {
    var chosen := ModeAfter(f, Selected(f, m, true));
    ClampIsModerate(f.cfg, f.i, Get(f.cfg.powers, ChargeBattery).GetOr(0.0), ChargeBattery);
    ModePowerIsModerate(f.cfg, f.i);
    CarryOutIsModerate(f, chosen, ModeOf(chosen.modeFeature), StepOf(chosen), ModePower(f.cfg, f.i));
  }

  /** So every setpoint fits its register. */
  lemma DecisionFits(f: Frame, m: Mind, aside: Option<Status>, reserveCharging: bool)
    ensures var d := Decide(f, m, true, aside, reserveCharging).decision;
            FitsInt32(Round(d.power) * Sign(d.feature))
  {
    var d := Decide(f, m, true, aside, reserveCharging).decision;
    DecisionIsModerate(f, m, aside, reserveCharging);
    RoundIsNear(d.power);
    assert Sign(d.feature) == 1 || Sign(d.feature) == -1;
  }

  /** A minute after the last write and on a good link, a round in step stops the battery,
      exactly unless the decision leaves the inverter alone: the dwell costs no more. */
  lemma LateRoundStops(w: Live, t: Turn, surplus: real)
    requires SoundMind(w.mind) && Agrees(LapsedIn(w, t)) && Acts(t) && Tells(t.i, surplus)
    requires t.link == GOOD_LINK && !w.sender.told.WrittenWithin(t.now, MIN_CONTROL_DWELL_S)
    ensures var d := DecidedIn(w, t).decision;
            var battery := DeviceBattery(NextLive(w, t).device, surplus);
            && (ChargeStoppedIn(w, t) ==>
                  (battery <= HOLD_SETPOINT_W <==> !(LeftAlone(d, t.i) && surplus > HOLD_SETPOINT_W)))
            && (ReserveStoppedIn(w, t) ==>
                  (battery >= -HOLD_SETPOINT_W <==>
                   !(RoundsAway(d.feature, d.power) && surplus < -HOLD_SETPOINT_W)))
  {
    if Sends(LapsedIn(w, t).sender, DecidedIn(w, t).decision) {
      DecisionFits(FrameIn(w, t), MindNow(w, t), t.aside, ReserveChargingNow(w, t));
      assert Effective(w, t);
      StopsHold(w, t);
    } else {
      ToldStops(w, t, surplus);
    }
  }

  /** Both at once, as far as they apply. */
  lemma StopsHold(w: Live, t: Turn)
    requires SoundMind(w.mind)
    ensures MethodAgrees(LapsedIn(w, t)) && Acts(t) ==>
              && (ChargeStoppedIn(w, t) ==> ChargeStopHolds(w, t, NextLive(w, t).device))
              && (ReserveStoppedIn(w, t) ==> ReserveStopHolds(w, t, NextLive(w, t).device))
  {
    if MethodAgrees(LapsedIn(w, t)) && Acts(t) {
      if ChargeStoppedIn(w, t) {
        InverterStopsAtChargeLimit(w, t);
      }
      if ReserveStoppedIn(w, t) {
        InverterStopsAtReserve(w, t);
      }
    }
  }

  /** Where no lapse is missed, each round of a run finds an inverter on the method it was
      told, and a mode on a step of its own. */
  lemma {:induction false} RunKeepsMethod(w: Live, turns: seq<Turn>, t: Turn)
    requires SoundMind(w.mind) && MethodAgrees(w.World())
    requires LapsesNoticed(w.World(), AttemptsOf(w, turns + [t]))
    ensures SoundMind(RunLive(w, turns).mind) && MethodAgrees(LapsedIn(RunLive(w, turns), t))
    decreases |turns|
  {
    var all := turns + [t];
    if turns == [] {
      assert all[0] == t && AttemptsOf(w, all)[0] == AttemptIn(w, t);
    } else {
      var next := NextLive(w, turns[0]);
      assert all[0] == turns[0] && all[1..] == turns[1..] + [t];
      assert AttemptsOf(w, all)[0] == AttemptIn(w, turns[0]) && AttemptsOf(w, all)[1..] == AttemptsOf(next, all[1..]);
      assert next.World() == Attempted(w.World(), AttemptIn(w, turns[0]));
      AttemptKeepsMethod(w.World(), AttemptIn(w, turns[0]));
      DecideStaysSound(FrameIn(w, turns[0]), MindNow(w, turns[0]), turns[0].aside,
                       ReserveChargingNow(w, turns[0]));
      RunKeepsMethod(next, turns[1..], t);
    }
  }

  /** Over a whole run: from the round that reads the battery at its Charge Limit on, every
      round keeps the inverter from charging in that sense, until one ends the stop. */
  lemma InverterStaysStopped(w: Live, first: Turn, more: seq<Turn>, t: Turn)
    requires SoundMind(w.mind) && w.Setup().Sound() && MethodAgrees(w.World())
    requires LapsesNoticed(w.World(), AttemptsOf(w, [first] + more + [t]))
    requires ReadsChargeLimit(w, first) && ChargeStopOutlasts(NextLive(w, first), more + [t]) && Acts(t)
    ensures var before := RunLive(w, [first] + more); ChargeStopHolds(before, t, NextLive(before, t).device)
  {
    assert ([first] + more)[1..] == more;
    ReadingStops(w, first);
    SoundnessGoesOn(w, first);
    ChargeStaysStoppedIff(NextLive(w, first), more + [t]);
    StoppedAtLast(NextLive(w, first), more, t);
    RunKeepsMethod(w, [first] + more, t);
    InverterStopsAtChargeLimit(RunLive(w, [first] + more), t);
  }

  /** The same at the Battery Reserve, wherever that is the controller's to keep. */
  lemma InverterStaysStoppedAtReserve(w: Live, first: Turn, more: seq<Turn>, t: Turn)
    requires SoundMind(w.mind) && w.Setup().Sound() && MethodAgrees(w.World())
    requires LapsesNoticed(w.World(), AttemptsOf(w, [first] + more + [t]))
    requires ReadsReserve(w, first) && ReserveStopOutlasts(NextLive(w, first), more + [t]) && Acts(t)
    requires var before := RunLive(w, [first] + more);
             var f := FrameIn(before, t);
             ReserveGuards(f, StepOf(ModeAfter(f, Selected(f, MindNow(before, t), true))))
    ensures var before := RunLive(w, [first] + more); ReserveStopHolds(before, t, NextLive(before, t).device)
  {
    assert ([first] + more)[1..] == more;
    ReadingStops(w, first);
    SoundnessGoesOn(w, first);
    ReserveStaysStoppedIff(NextLive(w, first), more + [t]);
    StoppedAtLast(NextLive(w, first), more, t);
    RunKeepsMethod(w, [first] + more, t);
    InverterStopsAtReserve(RunLive(w, [first] + more), t);
  }

  // ---------------------------------------------------------------------------
  // The hand-back, as the controller runs it
  // ---------------------------------------------------------------------------

  /** What a decision makes of the hand-back wherever it reproduces Automatic one way. */
  predicate HandsBack(f: Frame, m: Mind, d: Decided) {
    d.mind.oneWayRan ==>
      && d.mind.handback == Wanting(StartedFor(m, d.mind.handbackFor).handback, WantOf(f, d.mind.handbackFor))
      && (d.decision.feature.Automatic? ==> d.mind.handback.phase.HandedBack? || FullException(d.decision, f.i))
  }

  lemma CarryOutIsWanting(f: Frame, m: Mind, mode: Mode, step: Step, limit: Option<real>)
    requires f.cfg.tracks && !m.oneWayRan
    ensures HandsBack(f, m, CarryOut(f, m, mode, step, f.i.Natural(), limit))
  {
    var latched := ForbiddenWays(f, step);
    var guard := EngagedGuard(f, step);
    if step.command.Automatic? && guard.Some? {
      var free, forbidden := m.(stopped := None), StoppingNow(f, latched, step).Banned();
      OneWayIsWanting(f, free, forbidden, latched.Banned(), guard.value);
      OneWayHandsBack(f, free, forbidden, latched.Banned(), guard.value);
    }
  }

  lemma ModeKeepsHandback(f: Frame, m: Mind)
    ensures var s := ModeAfter(f, Selected(f, m, true));
            s.handback == m.handback && s.handbackFor == m.handbackFor && s.oneWayRan == m.oneWayRan
  {
  }

  lemma DecideIsWanting(f: Frame, m: Mind, aside: Option<Status>, reserveCharging: bool)
    requires f.cfg.tracks && !m.oneWayRan
    ensures HandsBack(f, m, Decide(f, m, true, aside, reserveCharging))
  {
    ModeKeepsHandback(f, m);
    var chosen := ModeAfter(f, Selected(f, m, true));
    CarryOutIsWanting(f, chosen, ModeOf(chosen.modeFeature), StepOf(chosen), ModePower(f.cfg, f.i));
  }

  /** Whether a round goes on with the hand-back as it is: no mode is selected, charging to
      the reserve is not switched, and no change of a limit turns a guard over. */
  predicate KeepsHandback(w: Live, t: Turn) {
    && ChangeKeepsHandback(w.Setup(), t.cfg, t.restart, w.i)
    && SameGuards(ChangedIn(w, t).Following(t.i).guards, ChangedIn(w, t).guards)
  }

  /** Any other round starts it over. */
  lemma HandbackNow(w: Live, t: Turn)
    ensures MindNow(w, t).handback == if KeepsHandback(w, t) then w.mind.handback else FRESH_HANDBACK
  {
    ChangedHandback(w.Setup(), t.cfg, t.restart, w.i);
    FollowingHandback(ChangedIn(w, t), t.i);
  }

  /** Rounds that all reproduce Automatic with the same ways forbidden and keep the hand-back,
      so within one GuardHandback. */
  predicate OneHandback(w: Live, turns: seq<Turn>, ways: Ways)
    decreases |turns|
  {
    turns == [] ||
    (var t := turns[0];
     var d := DecidedIn(w, t).mind;
     && t.cfg.tracks && KeepsHandback(w, t) && d.oneWayRan && d.handbackFor == ways
     && OneHandback(NextLive(w, t), turns[1..], ways))
  }

  function Wants(w: Live, turns: seq<Turn>, ways: Ways): seq<Want>
    decreases |turns|
  {
    if turns == [] then [] else [WantOf(FrameIn(w, turns[0]), ways)] + Wants(NextLive(w, turns[0]), turns[1..], ways)
  }

  lemma {:induction false} HandbackFromFirst(h: Handback, first: Want, rest: seq<Want>)
    ensures HandbackAfter(h, [first] + rest) == HandbackAfter(Wanting(h, first), rest)
    decreases |rest|
  {
    var all := [first] + rest;
    if rest == [] {
      assert all == [first] && all[..0] == [];
    } else {
      assert all[..|all| - 1] == [first] + rest[..|rest| - 1];
      HandbackFromFirst(h, first, rest[..|rest| - 1]);
    }
  }

  /** The controller's hand-back over such a run is the one HandedBackEarned and
      HandbackWaitDoubles are about. */
  lemma {:induction false} HandbackFollowsRun(w: Live, turns: seq<Turn>, ways: Ways)
    requires OneHandback(w, turns, ways) && (w.mind.handbackFor == ways || w.mind.handback == FRESH_HANDBACK)
    ensures RunLive(w, turns).mind.handback == HandbackAfter(w.mind.handback, Wants(w, turns, ways))
    decreases |turns|
  {
    if turns != [] {
      var t := turns[0];
      HandbackNow(w, t);
      DecideIsWanting(FrameIn(w, t), MindNow(w, t), t.aside, ReserveChargingNow(w, t));
      var next := NextLive(w, t);
      assert next.mind.handback == Wanting(w.mind.handback, WantOf(FrameIn(w, t), ways));
      HandbackFollowsRun(next, turns[1..], ways);
      HandbackFromFirst(w.mind.handback, WantOf(FrameIn(w, t), ways), Wants(next, turns[1..], ways));
    }
  }

  lemma {:induction false} LastRound(w: Live, turns: seq<Turn>, t: Turn, ways: Ways)
    requires OneHandback(w, turns + [t], ways)
    ensures t.cfg.tracks && DecidedIn(RunLive(w, turns), t).mind.oneWayRan
    ensures RunLive(w, turns + [t]) == NextLive(RunLive(w, turns), t)
    decreases |turns|
  {
    if turns == [] {
      assert turns + [t] == [t] && [t][1..] == [];
    } else {
      assert (turns + [t])[0] == turns[0] && (turns + [t])[1..] == turns[1..] + [t];
      LastRound(NextLive(w, turns[0]), turns[1..], t, ways);
    }
  }

  lemma TracksAsSet(w: Live, t: Turn)
    ensures FrameIn(w, t).cfg.tracks == t.cfg.tracks
  {
  }

  lemma RoundHandsBack(w: Live, t: Turn)
    requires t.cfg.tracks && DecidedIn(w, t).mind.oneWayRan
    ensures NextLive(w, t).mind == DecidedIn(w, t).mind
    ensures DecidedIn(w, t).decision.feature.Automatic? && !FullException(DecidedIn(w, t).decision, t.i) ==>
              DecidedIn(w, t).mind.handback.phase.HandedBack?
  {
    TracksAsSet(w, t);
    DecideIsWanting(FrameIn(w, t), MindNow(w, t), t.aside, ReserveChargingNow(w, t));
  }

  /** The last of some rounds leaves the inverter to itself under a guard, but for a full
      battery, only after every round from j to k, for at least the wait, wanted more than
      500 W in the allowed way, and every one since at least 200 W. */
  predicate Earned(w: Live, turns: seq<Turn>, t: Turn, ways: Ways, j: nat, k: nat) {
    var d := DecidedIn(RunLive(w, turns), t).decision;
    var wants := Wants(w, turns + [t], ways);
    d.feature.Automatic? && !FullException(d, t.i) ==>
      && j <= k < |wants|
      && AllAbove(wants, j, k + 1, GUARD_HANDBACK_W)
      && wants[k].now - wants[j].now >= RunLive(w, turns + [t]).mind.handback.waitS
      && forall i :: k < i < |wants| ==> wants[i].AtLeast(GUARD_POWER_DEADBAND_W)
  }

  lemma ControllerHandsBackEarned(w: Live, turns: seq<Turn>, t: Turn, ways: Ways) returns (j: nat, k: nat)
    requires OneHandback(w, turns + [t], ways) && w.mind.handback == FRESH_HANDBACK
    ensures Earned(w, turns, t, ways, j, k)
  {
    LastRound(w, turns, t, ways);
    RoundHandsBack(RunLive(w, turns), t);
    HandbackFollowsRun(w, turns + [t], ways);
    j, k := HandedBackEarned(Wants(w, turns + [t], ways));
  }

  /** A round that does not reproduce Automatic one way ends every hand-back. */
  lemma GapStartsOver(w: Live, gap: Turn)
    requires !DecidedIn(w, gap).mind.oneWayRan
    ensures NextLive(w, gap).mind.handback == FRESH_HANDBACK && NextLive(w, gap).mind.handbackFor == NO_WAYS
  {
  }

  /** So whatever came before it counts for nothing in the wait for the next. */
  lemma EarnedAfterGap(w: Live, gap: Turn, turns: seq<Turn>, t: Turn, ways: Ways) returns (j: nat, k: nat)
    requires !DecidedIn(w, gap).mind.oneWayRan && OneHandback(NextLive(w, gap), turns + [t], ways)
    ensures Earned(NextLive(w, gap), turns, t, ways, j, k)
  {
    GapStartsOver(w, gap);
    j, k := ControllerHandsBackEarned(NextLive(w, gap), turns, t, ways);
  }

  // ---------------------------------------------------------------------------
  // The exceptions come up
  // ---------------------------------------------------------------------------

  function Selecting(feature: Feature, power: real, chargeLimit: real): Config {
    Config(true, false, None, None, None, chargeLimit, 0.0, false, feature, map[feature := power])
  }

  /** A controller with these settings and this last frame, with no guard latched. */
  function Idle(cfg: Config, i: Inputs, sender: Sender, device: Device): Live {
    Live(cfg, i, Guards(false, false, false, false), false,
         Mind(FRESH_HANDBACK, NO_WAYS, false, None, cfg.feature, Fresh(ModeOf(cfg.feature))), sender, device)
  }

  /** A frame with a state of charge, 3000 W of solar above a house of 500 W. */
  function Sunny(soc: real, solar: real): Inputs {
    BARE_FRAME.(batterySoc := Some(soc), solarPower := Some(solar), housePower := Some(500.0))
  }

  /** A round that changes no settings. */
  function PollOf(cfg: Config, i: Inputs, now: real, link: Link): Turn {
    Turn(cfg, false, i, None, false, None, false, false, now, link)
  }

  /** A discharge of 0.4 W is let through at the Charge Limit and sent as 0, so the inverter
      charges from the surplus on its own. */
  lemma TinyDischargeRunsFree()
    ensures var cfg := Selecting(DischargeBattery, 0.4, 80.0);
            var w := Idle(cfg, Sunny(80.0, 3000.0), Sender(Commanded(Automatic, 0.0, None, Some(0.0)), false),
                          Device(DefaultMethod, 0, 0));
            var t := PollOf(cfg, Sunny(80.0, 3000.0), 100.0, GOOD_LINK);
            && Faithful(w) && ReadsChargeLimit(w, t) && Effective(w, t)
            && DeviceBattery(NextLive(w, t).device, 2500.0) == 2500.0
  {
    var cfg := Selecting(DischargeBattery, 0.4, 80.0);
    var w := Idle(cfg, Sunny(80.0, 3000.0), Sender(Commanded(Automatic, 0.0, None, Some(0.0)), false),
                  Device(DefaultMethod, 0, 0));
    var t := PollOf(cfg, Sunny(80.0, 3000.0), 100.0, GOOD_LINK);
    assert t.i.Natural() == Some(2500.0);
    assert ModePower(t.cfg, t.i) == Some(0.4);
    assert DecidedIn(w, t).decision == Decision(DischargeBattery, 0.4, None, false);
    assert 0.4.Floor == 0;
    assert Round(0.4) == 0;
  }

  /** A mode's own command waits out the dwell even at the Charge Limit: where switching from
      charging to exporting failed to be sent, the inverter goes on charging for the rest of
      the minute. */
  lemma DwellKeepsCharging()
    ensures var cfg := Selecting(ExportToGrid, 3000.0, 80.0);
            var w := Idle(cfg, Sunny(80.0, 1500.0), Sender(Commanded(ChargeBattery, 2000.0, None, Some(0.0)), false),
                          Device(BatteryLimits, 2000, 0));
            var t := PollOf(cfg, Sunny(80.0, 1500.0), 30.0, GOOD_LINK);
            && Faithful(w) && ReadsChargeLimit(w, t) && !Effective(w, t)
            && DeviceBattery(NextLive(w, t).device, 1000.0) == 2000.0
  {
    var cfg := Selecting(ExportToGrid, 3000.0, 80.0);
    var w := Idle(cfg, Sunny(80.0, 1500.0), Sender(Commanded(ChargeBattery, 2000.0, None, Some(0.0)), false),
                  Device(BatteryLimits, 2000, 0));
    var t := PollOf(cfg, Sunny(80.0, 1500.0), 30.0, GOOD_LINK);
    assert 2000.0.Floor == 2000;
    assert Round(2000.0) == 2000;
    assert t.i.Natural() == Some(1000.0);
    assert ModePower(t.cfg, t.i) == Some(3000.0);
    assert DecidedIn(w, t).decision == Decision(ExportToGrid, 3000.0, None, false);
  }

  /** Raising the Charge Limit by one point over a battery stopped at it releases the
      battery at once, although no reading is clear of either limit. */
  lemma RaisedLimitReleases()
    ensures var w := Stopped(80.0);
            var t := PollOf(Selecting(ChargeBattery, 2000.0, 81.0), Sunny(80.0, 3500.0), 30.0, GOOD_LINK);
            && w.Setup().Sound() && w.guards.chargeStopped && !ChargeStopLasts(w, t)
            && DecidedIn(w, t).decision == Decision(ChargeBattery, 2000.0, None, false)
  {
    var w := Stopped(80.0);
    var t := PollOf(Selecting(ChargeBattery, 2000.0, 81.0), Sunny(80.0, 3500.0), 30.0, GOOD_LINK);
    assert t.i.Natural() == Some(3000.0);
    assert ModePower(t.cfg, t.i) == Some(2000.0);
  }

  /** A charge command held at a Charge Limit, with a surplus of 3000 W. */
  function Stopped(chargeLimit: real): Live {
    Idle(Selecting(ChargeBattery, 2000.0, chargeLimit), Sunny(chargeLimit, 3500.0),
         Sender(Commanded(HoldBattery, HOLD_SETPOINT_W, None, Some(0.0)), false), Device(BatteryLimits, 1, 0))
    .(guards := Guards(true, false, true, false))
  }

  function HeldAt(soc: real, now: real, link: Link): Turn {
    PollOf(Selecting(ChargeBattery, 2000.0, 99.0), Sunny(soc, 3500.0), now, link)
  }

  const HELD := Stopped(99.0)

  const FAILING_WORD := Link(true, true, true, false)

  lemma RoundOfOne()
    ensures Round(HOLD_SETPOINT_W) == 1 && Round(0.0) == 0
  {
    assert 1.0.Floor == 1;
  }

  /** The full battery is released, its setpoint cleared, and the method word fails. */
  lemma ReleaseHalfClears(t: Turn)
    requires t == HeldAt(99.0, 30.0, FAILING_WORD)
    ensures DecidedIn(HELD, t).decision == Decision(Automatic, 0.0, Some(ChargeLimitReached), true)
    ensures HalfCleared(HELD.World(), AttemptIn(HELD, t))
    ensures var e := NextLive(HELD, t);
            && e.cfg == HELD.cfg && e.i == t.i
            && e.sender == HELD.sender && e.device == Device(BatteryLimits, 0, 0) && e.guards == HELD.guards
            && SoundMind(e.mind) && e.mind.modeFeature == ChargeBattery && !e.reserveCharging
  {
    RoundOfOne();
    assert t.i.Natural() == Some(3000.0);
    assert ModePower(t.cfg, t.i) == Some(2000.0);
  }

  /** Held again half a point below, it has been told to hold already, so nothing is sent. */
  lemma HoldIsNotSentAgain(w: Live, t: Turn)
    requires t == HeldAt(98.5, 40.0, GOOD_LINK) && w.cfg == HELD.cfg && w.guards == HELD.guards && !w.reserveCharging
    requires w.sender == HELD.sender && w.device == Device(BatteryLimits, 0, 0)
    requires SoundMind(w.mind) && w.mind.modeFeature == ChargeBattery
    requires w.i == Sunny(99.0, 3500.0)
    ensures ChargeStopLasts(w, t) && ChargeStoppedIn(w, t)
    ensures DecidedIn(w, t).decision.feature.HoldBattery? && !Effective(w, t)
    ensures DeviceBattery(NextLive(w, t).device, 3000.0) == 3000.0
  {
    RoundOfOne();
    assert t.i.Natural() == Some(3000.0);
    assert ModePower(t.cfg, t.i) == Some(2000.0);
    assert DecidedIn(w, t).decision == Decision(HoldBattery, HOLD_SETPOINT_W, Some(ChargeLimitReached), true);
    IneffectiveChangesNothing(w, t, 3000.0);
  }

  lemma HeldStands()
    ensures Faithful(HELD) && ReadsChargeLimit(HELD, HeldAt(99.0, 30.0, FAILING_WORD))
  {
    RoundOfOne();
  }

  /** A half-cleared release makes the inverter charge past its limit by itself: nothing is
      sent on a good link, nothing dwells and nothing has lapsed, for as long as the decision
      stays (HalfClearedGoesUnnoticed). */
  lemma HalfClearedCharges(release: Turn, again: Turn)
    requires release == HeldAt(99.0, 30.0, FAILING_WORD) && again == HeldAt(98.5, 40.0, GOOD_LINK)
    ensures Faithful(HELD) && ReadsChargeLimit(HELD, release) && ChargeStopLasts(RunLive(HELD, [release]), again)
    ensures DecidedIn(RunLive(HELD, [release]), again).decision.feature.HoldBattery?
    ensures DeviceBattery(RunLive(HELD, [release, again]).device, 3000.0) == 3000.0
  {
    HeldStands();
    ReleaseHalfClears(release);
    HoldIsNotSentAgain(NextLive(HELD, release), again);
    RunOfTwo(HELD, release, again);
  }

  lemma RunOfTwo(w: Live, x: Turn, y: Turn)
    ensures RunLive(w, [x]) == NextLive(w, x) && RunLive(w, [x, y]) == NextLive(NextLive(w, x), y)
  {
    assert [x][1..] == [] && [x, y][1..] == [y] && [y][1..] == [];
    assert RunLive(NextLive(w, x), [y]) == NextLive(NextLive(w, x), y);
  }
}
