/**
 What a change of the settings does to the latches and to the hand-back (control.py): a
 changed limit is latched anew from the last frame, and another mode starts the hand-back
 over. The stops are then shown to evolve as latches of their own.
 */
module Settings {
  import opened Base
  import opened Plans
  import opened ControlRules
  import opened ControlRuns

  function ClampSoc(soc: real): real {
    Max(0.0, Min(100.0, soc))
  }

  predicate SameLimits(a: Config, b: Config) {
    a.chargeLimit == b.chargeLimit && a.reserve == b.reserve
  }

  predicate SameGuards(a: Guards, b: Guards) {
    a.charge == b.charge && a.reserve == b.reserve
  }

  /** The settings in force, with everything that depends on their history. */
  datatype Setup = Setup(cfg: Config, guards: Guards, reserveCharging: bool, handback: Handback) {
    /** A frame latches the guards, if it tells the state of charge. */
    function Reading(i: Inputs): Setup {
      if i.batterySoc.None? then this
      else
        var soc := i.batterySoc.value;
        var latched := GuardsAfter(cfg.chargeLimit, cfg.reserve, guards, soc);
        this.(guards := latched, reserveCharging := ReserveChargingAfter(cfg, i, latched, soc))
    }

    /** The guards without that of a changed limit, where the last frame can latch it anew. */
    function Cleared(to: Config, last: Inputs): Guards {
      if last.batterySoc.None? then guards
      else guards.(charge := guards.charge && to.chargeLimit == cfg.chargeLimit,
                   reserve := guards.reserve && to.reserve == cfg.reserve)
    }

    /** New limits, with the frame they are latched from. */
    function Limited(chargeLimit: real, reserve: real, last: Inputs): Setup {
      var to := cfg.(chargeLimit := ClampSoc(chargeLimit), reserve := ClampSoc(reserve));
      if SameLimits(to, cfg) then this
      else
        var n := this.(cfg := to, guards := Cleared(to, last)).Reading(last);
        if SameGuards(n.guards, guards) then n else n.(handback := FRESH_HANDBACK)
    }

    /** The settings a user wants, and whether the same mode was selected again. */
    function Changed(to: Config, restart: bool, last: Inputs): Setup {
      var l := if SameLimits(to, cfg) then this else Limited(to.chargeLimit, to.reserve, last);
      var n := l.(cfg := to.(chargeLimit := l.cfg.chargeLimit, reserve := l.cfg.reserve));
      if restart || to.feature != cfg.feature || to.reserveCharge != cfg.reserveCharge then
        n.(handback := FRESH_HANDBACK)
      else n
    }

    /** A reserve that the inverter keeps itself is read back from it. */
    function Following(i: Inputs): Setup {
      if cfg.reserveNative && i.minSocLimit.Some? && i.minSocLimit.value != cfg.reserve then
        Limited(cfg.chargeLimit, i.minSocLimit.value, i)
      else this
    }

    /** A whole frame; one whose readings are suspect is not latched from by itself. */
    function Taken(i: Inputs, suspect: bool): Setup {
      if suspect then Following(i) else Following(i).Reading(i)
    }

    /** Every stop has its guard, and no guarded battery charges to the reserve. */
    predicate Sound() {
      StoppedMeansOn(guards) && (guards.charge ==> !reserveCharging)
    }
  }

  /** A command's time running out. */
  function Expired(s: Setup, expired: bool): Setup {
    if expired then s.(cfg := s.cfg.(feature := Automatic), handback := FRESH_HANDBACK) else s
  }

  lemma ExpiredIsChanged(s: Setup, expired: bool, last: Inputs)
    ensures Expired(s, expired)
         == s.Changed(if expired then s.cfg.(feature := Automatic) else s.cfg, expired, last)
  {
  }

  /** Limits as every change leaves them. */
  predicate InRange(cfg: Config) {
    0.0 <= cfg.chargeLimit <= 100.0 && 0.0 <= cfg.reserve <= 100.0
  }

  lemma LimitedIsChanged(s: Setup, chargeLimit: real, reserve: real, last: Inputs)
    requires InRange(s.cfg)
    ensures s.Limited(chargeLimit, reserve, last)
         == s.Changed(s.cfg.(chargeLimit := chargeLimit, reserve := reserve), false, last)
  {
  }

  /** The limit in force once a user has asked for one: that limit, or the nearest percentage. */
  predicate InForce(limit: real, asked: real) {
    if asked < 0.0 then limit == 0.0 else if asked > 100.0 then limit == 100.0 else limit == asked
  }

  /** Settings take effect as asked for, the limits within their range. */
  lemma SettingsTakeEffect(s: Setup, to: Config, restart: bool, last: Inputs)
    requires InRange(s.cfg)
    ensures var cfg := s.Changed(to, restart, last).cfg;
            && InRange(cfg) && InForce(cfg.chargeLimit, to.chargeLimit) && InForce(cfg.reserve, to.reserve)
            && cfg.(chargeLimit := 0.0, reserve := 0.0) == to.(chargeLimit := 0.0, reserve := 0.0)
  {
  }

  /** A reserve that the inverter keeps is the one it reports, and a frame changes no other
      setting. */
  lemma FrameTellsNativeReserve(s: Setup, i: Inputs, suspect: bool)
    requires InRange(s.cfg)
    ensures var cfg := s.Taken(i, suspect).cfg;
            && (if s.cfg.reserveNative && i.minSocLimit.Some? then InForce(cfg.reserve, i.minSocLimit.value)
                else cfg.reserve == s.cfg.reserve)
            && cfg.(reserve := 0.0) == s.cfg.(reserve := 0.0)
  {
  }

  // ---------------------------------------------------------------------------
  // The stops through frames and changes
  // ---------------------------------------------------------------------------

  /** What becomes of a stop at the Charge Limit where it is latched from a state of charge
      with a limit, which may be another than before. */
  predicate ChargeStopThrough(stopped: bool, before: real, limit: real, soc: Option<real>) {
    if soc.None? then stopped
    else
      && limit < 100.0
      && (soc.value >= limit || (stopped && limit == before && soc.value > limit - GUARD_RETURN_SOC))
  }

  predicate ReserveStopThrough(stopped: bool, before: real, reserve: real, soc: Option<real>) {
    if soc.None? then stopped
    else
      && reserve > 0.0
      && (soc.value <= reserve || (stopped && reserve == before && soc.value < reserve + GUARD_RETURN_SOC))
  }

  lemma ReadingMovesStops(s: Setup, i: Inputs)
    requires s.Sound()
    ensures s.Reading(i).Sound()
    ensures s.Reading(i).guards.chargeStopped
         == ChargeStopThrough(s.guards.chargeStopped, s.cfg.chargeLimit, s.cfg.chargeLimit, i.batterySoc)
    ensures s.Reading(i).guards.reserveStopped
         == ReserveStopThrough(s.guards.reserveStopped, s.cfg.reserve, s.cfg.reserve, i.batterySoc)
  {
  }

  /** What one step from a setup to the next does to the stops, told from the limits and the
      state of charge it is latched from. */
  predicate StepOk(s: Setup, n: Setup, soc: Option<real>) {
    && n.Sound()
    && n.guards.chargeStopped
       == (if SameLimits(n.cfg, s.cfg) then s.guards.chargeStopped
           else ChargeStopThrough(s.guards.chargeStopped, s.cfg.chargeLimit, n.cfg.chargeLimit, soc))
    && n.guards.reserveStopped
       == (if SameLimits(n.cfg, s.cfg) then s.guards.reserveStopped
           else ReserveStopThrough(s.guards.reserveStopped, s.cfg.reserve, n.cfg.reserve, soc))
  }

  lemma LimitsMoveStops(s: Setup, chargeLimit: real, reserve: real, last: Inputs)
    requires s.Sound()
    ensures StepOk(s, s.Limited(chargeLimit, reserve, last), last.batterySoc)
  {
  }

  lemma ChangeMovesStops(s: Setup, to: Config, restart: bool, last: Inputs)
    requires s.Sound()
    ensures StepOk(s, s.Changed(to, restart, last), last.batterySoc)
  {
    LimitsMoveStops(s, to.chargeLimit, to.reserve, last);
  }

  lemma FollowingMovesStops(s: Setup, i: Inputs)
    requires s.Sound()
    ensures StepOk(s, s.Following(i), i.batterySoc)
  {
    if i.minSocLimit.Some? {
      LimitsMoveStops(s, s.cfg.chargeLimit, i.minSocLimit.value, i);
    }
  }

  // ---------------------------------------------------------------------------
  // The hand-back through changes
  // ---------------------------------------------------------------------------

  /** Whether a user's change leaves the hand-back alone. */
  predicate ChangeKeepsHandback(s: Setup, to: Config, restart: bool, last: Inputs) {
    && !restart && to.feature == s.cfg.feature && to.reserveCharge == s.cfg.reserveCharge
    && SameGuards(s.Changed(to, restart, last).guards, s.guards)
  }

  lemma ChangedHandback(s: Setup, to: Config, restart: bool, last: Inputs)
    ensures s.Changed(to, restart, last).handback
         == if ChangeKeepsHandback(s, to, restart, last) then s.handback else FRESH_HANDBACK
  {
  }

  lemma FollowingHandback(s: Setup, i: Inputs)
    ensures s.Following(i).handback
         == if SameGuards(s.Following(i).guards, s.guards) then s.handback else FRESH_HANDBACK
  {
  }
}
