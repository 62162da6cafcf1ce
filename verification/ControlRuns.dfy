/**
 What the controller's latches and the hand-back keep over whole runs of polls, and how
 closely a tracked setpoint follows the house.
 */
module ControlRuns {
  import opened Base
  import opened Plans
  import opened ControlRules
  import opened ControlSafety
  import ModeRuns

  // ---------------------------------------------------------------------------
  // Latches with a dead band
  // ---------------------------------------------------------------------------

  /** On from hi up, off from lo down, and as it was in between. */
  predicate Latch(hi: real, lo: real, on: bool, x: real) {
    x >= hi || (x > lo && on)
  }

  function LatchTrace(hi: real, lo: real, on: bool, xs: seq<real>): seq<bool>
    decreases |xs|
  {
    if xs == [] then [] else [Latch(hi, lo, on, xs[0])] + LatchTrace(hi, lo, Latch(hi, lo, on, xs[0]), xs[1..])
  }

  /** How often a trace turns over, starting from a value. */
  function Flips(from: bool, trace: seq<bool>): nat
    decreases |trace|
  {
    if trace == [] then 0 else (if trace[0] == from then 0 else 1) + Flips(trace[0], trace[1..])
  }

  lemma {:induction false} FlipsAfterFlip(hi: real, lo: real, on: bool, at: real, last: real, xs: seq<real>)
    requires lo <= hi && (if on then at >= hi else at <= lo)
    ensures Scaled(hi - lo, Flips(on, LatchTrace(hi, lo, on, xs))) <= Variation(last, xs) + Abs(last - at)
    decreases |xs|
  {
    if xs != [] {
      var next := Latch(hi, lo, on, xs[0]);
      assert LatchTrace(hi, lo, on, xs)[1..] == LatchTrace(hi, lo, next, xs[1..]);
      FlipsAfterFlip(hi, lo, next, if next == on then at else xs[0], xs[0], xs[1..]);
    }
  }

  /** After its first flip, a latch flips at most once per dead band of movement. */
  lemma {:induction false} LatchFlipsBounded(hi: real, lo: real, on: bool, last: real, xs: seq<real>)
    requires lo <= hi
    ensures var flips := Flips(on, LatchTrace(hi, lo, on, xs));
            flips > 0 ==> Scaled(hi - lo, flips - 1) <= Variation(last, xs)
    decreases |xs|
  {
    if xs != [] {
      var next := Latch(hi, lo, on, xs[0]);
      assert LatchTrace(hi, lo, on, xs)[1..] == LatchTrace(hi, lo, next, xs[1..]);
      if next == on {
        LatchFlipsBounded(hi, lo, on, xs[0], xs[1..]);
      } else {
        FlipsAfterFlip(hi, lo, next, xs[0], xs[0], xs[1..]);
      }
    }
  }

  function Negated(xs: seq<real>): (r: seq<real>)
    ensures |r| == |xs|
  {
    if xs == [] then [] else [-xs[0]] + Negated(xs[1..])
  }

  lemma {:induction false} NegatedVariation(from: real, xs: seq<real>)
    ensures Variation(-from, Negated(xs)) == Variation(from, xs)
    decreases |xs|
  {
    if xs != [] {
      NegatedVariation(xs[0], xs[1..]);
      assert Negated(xs)[1..] == Negated(xs[1..]);
    }
  }

  // ---------------------------------------------------------------------------
  // The state-of-charge guards
  // ---------------------------------------------------------------------------

  /** The guards after each state of charge of a run. */
  function GuardTrace(chargeLimit: real, reserve: real, g: Guards, socs: seq<real>): (r: seq<Guards>)
    ensures |r| == |socs|
    decreases |socs|
  {
    if socs == [] then []
    else
      var next := GuardsAfter(chargeLimit, reserve, g, socs[0]);
      [next] + GuardTrace(chargeLimit, reserve, next, socs[1..])
  }

  predicate StoppedMeansOn(g: Guards) {
    (g.chargeStopped ==> g.charge) && (g.reserveStopped ==> g.reserve)
  }

  /** Whatever the guards were before, after one reading a stopped battery has its guard on,
      and a battery at or past a limit is stopped. */
  lemma GuardsConsistent(chargeLimit: real, reserve: real, g: Guards, soc: real)
    ensures var n := GuardsAfter(chargeLimit, reserve, g, soc);
            && StoppedMeansOn(n)
            && (chargeLimit < 100.0 && soc >= chargeLimit ==> n.charge && n.chargeStopped)
            && (reserve > 0.0 && soc <= reserve ==> n.reserve && n.reserveStopped)
            && (chargeLimit >= 100.0 ==> !n.charge) && (reserve <= 0.0 ==> !n.reserve)
  {
  }

  function ChargeOf(trace: seq<Guards>): (r: seq<bool>)
    ensures |r| == |trace|
  {
    if trace == [] then [] else [trace[0].charge] + ChargeOf(trace[1..])
  }

  function ReserveOf(trace: seq<Guards>): (r: seq<bool>)
    ensures |r| == |trace|
  {
    if trace == [] then [] else [trace[0].reserve] + ReserveOf(trace[1..])
  }

  function ChargeStoppedOf(trace: seq<Guards>): (r: seq<bool>)
    ensures |r| == |trace|
  {
    if trace == [] then [] else [trace[0].chargeStopped] + ChargeStoppedOf(trace[1..])
  }

  function ReserveStoppedOf(trace: seq<Guards>): (r: seq<bool>)
    ensures |r| == |trace|
  {
    if trace == [] then [] else [trace[0].reserveStopped] + ReserveStoppedOf(trace[1..])
  }

  /** Each guard is a latch with a dead band of 5 points, and each stop one of 2. */
  lemma {:induction false} GuardsAreLatches(chargeLimit: real, reserve: real, g: Guards, socs: seq<real>)
    requires StoppedMeansOn(g)
    ensures var trace := GuardTrace(chargeLimit, reserve, g, socs);
            && (chargeLimit < 100.0 ==>
                  && ChargeOf(trace) == LatchTrace(chargeLimit, chargeLimit - 5.0, g.charge, socs)
                  && ChargeStoppedOf(trace)
                     == LatchTrace(chargeLimit, chargeLimit - 2.0, g.chargeStopped, socs))
            && (reserve > 0.0 ==>
                  && ReserveOf(trace)
                     == LatchTrace(-reserve, -reserve - 5.0, g.reserve, Negated(socs))
                  && ReserveStoppedOf(trace)
                     == LatchTrace(-reserve, -reserve - 2.0, g.reserveStopped, Negated(socs)))
    decreases |socs|
  {
    if socs != [] {
      var next := GuardsAfter(chargeLimit, reserve, g, socs[0]);
      GuardsConsistent(chargeLimit, reserve, g, socs[0]);
      GuardsAreLatches(chargeLimit, reserve, next, socs[1..]);
      assert GuardTrace(chargeLimit, reserve, g, socs)[1..] == GuardTrace(chargeLimit, reserve, next, socs[1..]);
      assert Negated(socs)[1..] == Negated(socs[1..]);
    }
  }

  /** With its limit off, a guard and its stop go off with the first reading. */
  lemma {:induction false} OffGuardsStayOff(chargeLimit: real, reserve: real, g: Guards, socs: seq<real>)
    ensures var trace := GuardTrace(chargeLimit, reserve, g, socs);
            && (chargeLimit >= 100.0 ==> AllOff(ChargeOf(trace)) && AllOff(ChargeStoppedOf(trace)))
            && (reserve <= 0.0 ==> AllOff(ReserveOf(trace)) && AllOff(ReserveStoppedOf(trace)))
    decreases |socs|
  {
    if socs != [] {
      var next := GuardsAfter(chargeLimit, reserve, g, socs[0]);
      OffGuardsStayOff(chargeLimit, reserve, next, socs[1..]);
      assert GuardTrace(chargeLimit, reserve, g, socs)[1..] == GuardTrace(chargeLimit, reserve, next, socs[1..]);
    }
  }

  predicate AllOff(trace: seq<bool>) {
    trace == [] || (!trace[0] && AllOff(trace[1..]))
  }

  lemma {:induction false} OffFlipsOnce(from: bool, trace: seq<bool>)
    requires AllOff(trace)
    ensures Flips(from, trace) <= if from then 1 else 0
    decreases |trace|
  {
    if trace != [] {
      OffFlipsOnce(false, trace[1..]);
    }
  }

  lemma OffBound(band: real, from: bool, trace: seq<bool>, moved: real)
    requires AllOff(trace) && moved >= 0.0
    ensures AfterFirst(band, Flips(from, trace), moved)
  {
    OffFlipsOnce(from, trace);
  }

  lemma ChargeFlipsBounded(chargeLimit: real, reserve: real, g: Guards, first: real, socs: seq<real>)
    requires StoppedMeansOn(g)
    ensures var trace := GuardTrace(chargeLimit, reserve, g, socs);
            && AfterFirst(GUARD_SOC_HYSTERESIS, Flips(g.charge, ChargeOf(trace)), Variation(first, socs))
            && AfterFirst(GUARD_RETURN_SOC, Flips(g.chargeStopped, ChargeStoppedOf(trace)), Variation(first, socs))
  {
    var trace := GuardTrace(chargeLimit, reserve, g, socs);
    if chargeLimit >= 100.0 {
      OffGuardsStayOff(chargeLimit, reserve, g, socs);
      OffBound(GUARD_SOC_HYSTERESIS, g.charge, ChargeOf(trace), Variation(first, socs));
      OffBound(GUARD_RETURN_SOC, g.chargeStopped, ChargeStoppedOf(trace), Variation(first, socs));
    } else {
      GuardsAreLatches(chargeLimit, reserve, g, socs);
      LatchBound(chargeLimit, GUARD_SOC_HYSTERESIS, g.charge, first, socs);
      LatchBound(chargeLimit, GUARD_RETURN_SOC, g.chargeStopped, first, socs);
    }
  }

  lemma ReserveFlipsBounded(chargeLimit: real, reserve: real, g: Guards, first: real, socs: seq<real>)
    requires StoppedMeansOn(g)
    ensures var trace := GuardTrace(chargeLimit, reserve, g, socs);
            && AfterFirst(GUARD_SOC_HYSTERESIS, Flips(g.reserve, ReserveOf(trace)), Variation(first, socs))
            && AfterFirst(GUARD_RETURN_SOC, Flips(g.reserveStopped, ReserveStoppedOf(trace)), Variation(first, socs))
  {
    var trace := GuardTrace(chargeLimit, reserve, g, socs);
    if reserve <= 0.0 {
      OffGuardsStayOff(chargeLimit, reserve, g, socs);
      OffBound(GUARD_SOC_HYSTERESIS, g.reserve, ReserveOf(trace), Variation(first, socs));
      OffBound(GUARD_RETURN_SOC, g.reserveStopped, ReserveStoppedOf(trace), Variation(first, socs));
    } else {
      GuardsAreLatches(chargeLimit, reserve, g, socs);
      NegatedVariation(first, socs);
      LatchBound(-reserve, GUARD_SOC_HYSTERESIS, g.reserve, -first, Negated(socs));
      LatchBound(-reserve, GUARD_RETURN_SOC, g.reserveStopped, -first, Negated(socs));
    }
  }

  /** A guard turns over at most once per 5 points, and a stop at most once per 2 points,
      that the state of charge moves, whatever it does and whichever limits are on. */
  lemma GuardFlipsBounded(chargeLimit: real, reserve: real, g: Guards, first: real, socs: seq<real>)
    requires StoppedMeansOn(g)
    ensures var trace := GuardTrace(chargeLimit, reserve, g, socs);
            var moved := Variation(first, socs);
            && AfterFirst(GUARD_SOC_HYSTERESIS, Flips(g.charge, ChargeOf(trace)), moved)
            && AfterFirst(GUARD_RETURN_SOC, Flips(g.chargeStopped, ChargeStoppedOf(trace)), moved)
            && AfterFirst(GUARD_SOC_HYSTERESIS, Flips(g.reserve, ReserveOf(trace)), moved)
            && AfterFirst(GUARD_RETURN_SOC, Flips(g.reserveStopped, ReserveStoppedOf(trace)), moved)
  {
    ChargeFlipsBounded(chargeLimit, reserve, g, first, socs);
    ReserveFlipsBounded(chargeLimit, reserve, g, first, socs);
  }

  /** Each flip after the first took a band of movement. */
  predicate AfterFirst(band: real, flips: nat, moved: real) {
    flips > 0 ==> band * (flips - 1) as real <= moved
  }

  lemma LatchBound(hi: real, band: real, on: bool, first: real, xs: seq<real>)
    requires band >= 0.0
    ensures AfterFirst(band, Flips(on, LatchTrace(hi, hi - band, on, xs)), Variation(first, xs))
  {
    LatchFlipsBounded(hi, hi - band, on, first, xs);
    assert hi - (hi - band) == band;
    BandTimesFlips(band, Flips(on, LatchTrace(hi, hi - band, on, xs)), Variation(first, xs));
  }

  lemma BandTimesFlips(band: real, flips: nat, moved: real)
    requires flips > 0 ==> Scaled(band, flips - 1) <= moved
    ensures AfterFirst(band, flips, moved)
  {
    if flips > 0 {
      ScaledIs(band, flips - 1);
    }
  }

  // ---------------------------------------------------------------------------
  // The hand-back
  // ---------------------------------------------------------------------------

  /** The power wanted in the allowed way at a poll; none where the surplus is not known or
      both ways are forbidden, which takes control back. */
  datatype Want = Want(watts: Option<real>, now: real) {
    predicate Above(bound: real) {
      watts.Some? && watts.value > bound
    }

    predicate AtLeast(bound: real) {
      watts.Some? && watts.value >= bound
    }
  }

  /** One poll within one GuardHandback, on a model that tracks setpoints. */
  function Wanting(h: Handback, want: Want): Handback {
    if want.watts.None? then h.TakeBack(want.now) else AdvanceTracking(h, want.watts.value, want.now).handback
  }

  /** The surplus wanted at a poll of the controller. */
  function WantOf(f: Frame, latched: Ways): Want {
    Want(if f.i.Natural().None? || (latched.charge && latched.discharge) then None
         else Some(Wanted(f.i.Natural().value, latched)), f.now)
  }

  /** Reproducing Automatic one way is such a poll, of a fresh GuardHandback where the ways
      have changed. */
  lemma OneWayIsWanting(f: Frame, m: Mind, forbidden: Ways, latched: Ways, blocked: Status)
    requires f.cfg.tracks
    ensures var r := OneWay(f, m, forbidden, latched, blocked).mind;
            && r.handbackFor == latched && r.oneWayRan
            && r.handback == Wanting(StartedFor(m, latched).handback, WantOf(f, latched))
  {
  }

  /** It leaves the inverter to itself only once control is handed back, or while a full
      battery is not held. */
  lemma OneWayHandsBack(f: Frame, m: Mind, forbidden: Ways, latched: Ways, blocked: Status)
    requires f.cfg.tracks
    ensures var r := OneWay(f, m, forbidden, latched, blocked);
            r.decision.feature.Automatic? ==> r.mind.handback.phase.HandedBack? || FullException(r.decision, f.i)
  {
    HoldIdles(f.i, Some(blocked));
    if f.i.Natural().Some? {
      TrackMovesAllowed(f, Allowed(f.i.Natural().value, forbidden), blocked);
    }
  }

  function HandbackAfter(h: Handback, polls: seq<Want>): Handback
    decreases |polls|
  {
    if polls == [] then h
    else
      Wanting(HandbackAfter(h, polls[..|polls| - 1]), polls[|polls| - 1])
  }

  predicate AllAbove(polls: seq<Want>, from: nat, to: nat, watts: real)
    requires from <= to <= |polls|
  {
    forall i :: from <= i < to ==> polls[i].Above(watts)
  }

  /** Control is handed back only after every poll for at least the wait wanted more than
      500 W, and stays handed back only while at least 200 W are wanted. */
  lemma {:induction false} HandedBackEarned(polls: seq<Want>) returns (j: nat, k: nat)
    ensures var h := HandbackAfter(FRESH_HANDBACK, polls);
            && (h.phase.Pending? ==>
                  && j < |polls| && h.since == Some(polls[j].now) && AllAbove(polls, j, |polls|, GUARD_HANDBACK_W))
            && (h.phase.HandedBack? ==>
                  && j <= k < |polls| && h.since == Some(polls[k].now)
                  && AllAbove(polls, j, k + 1, GUARD_HANDBACK_W)
                  && polls[k].now - polls[j].now >= h.waitS
                  && forall i :: k < i < |polls| ==> polls[i].AtLeast(GUARD_POWER_DEADBAND_W))
    decreases |polls|
  {
    j, k := 0, 0;
    if polls != [] {
      var n := |polls| - 1;
      var before := HandbackAfter(FRESH_HANDBACK, polls[..n]);
      var j', k' := HandedBackEarned(polls[..n]);
      j, k := if before.phase.Tracking? then n else j', if before.phase.HandedBack? then k' else n;
    }
  }

  /** While every poll wants more than 500 W, a hand-back under way waits from the first. */
  lemma {:induction false} WaitsFromFirst(h: Handback, polls: seq<Want>)
    requires h.phase.Tracking? && polls != [] && AllAbove(polls, 0, |polls|, GUARD_HANDBACK_W)
    ensures var e := HandbackAfter(h, polls);
            e.waitS == h.waitS && (e.phase.HandedBack? || (e.phase.Pending? && e.since == Some(polls[0].now)))
    decreases |polls|
  {
    var n := |polls| - 1;
    if n > 0 {
      WaitsFromFirst(h, polls[..n]);
    }
  }

  /** Control is handed back as soon as it is earned: by the first poll that comes the whole
      wait after one from which on every poll wanted more than 500 W. */
  lemma HandedBackInTime(h: Handback, polls: seq<Want>)
    requires h.phase.Tracking? && |polls| >= 2 && AllAbove(polls, 0, |polls|, GUARD_HANDBACK_W)
    requires polls[|polls| - 1].now - polls[0].now >= h.waitS
    ensures HandbackAfter(h, polls).phase.HandedBack?
  {
    WaitsFromFirst(h, polls[..|polls| - 1]);
  }

  /** It is taken back by the first poll that wants less than 200 W or cannot tell, and a wait
      for it is given up by the first that wants no more than 500 W. */
  lemma TakenBackAtOnce(h: Handback, want: Want)
    ensures h.phase.HandedBack? ==> (Wanting(h, want).phase.HandedBack? <==> want.AtLeast(200.0))
    ensures h.phase.HandedBack? && !want.AtLeast(200.0) ==> Wanting(h, want).phase.Tracking?
    ensures h.phase.Pending? && !want.Above(500.0) ==> Wanting(h, want).phase.Tracking?
    ensures h.phase.Tracking? ==> (Wanting(h, want).phase.Pending? <==> want.Above(500.0))
  {
  }

  /** A model that can only hold is handed back where more than 20 W flow the allowed way and
      no write is half a minute old, and taken back where 20 W flow the other way, not before
      half a minute. */
  lemma HoldingHandsBackExactly(h: Handback, natural: real, latched: Ways, now: real, recently: bool)
    ensures var a := Advance(false, h, natural, latched, now, recently);
            var wanted := if latched.charge then -natural else natural;
            && a.runsItself == a.handback.phase.HandedBack?
            && (latched.charge && latched.discharge ==> !a.runsItself)
            && (!(latched.charge && latched.discharge) ==>
                  (a.runsItself <==>
                   if h.phase.HandedBack? then
                     h.since.None? || now - h.since.value < 30.0 || wanted > -20.0
                   else !recently && wanted > 20.0))
  {
  }

  /** How many of the latest hand-backs in a row ended sooner than they had been waited for. */
  function EarlyTakeBacks(polls: seq<Want>): nat
    decreases |polls|
  {
    if polls == [] then 0
    else
      var last := polls[|polls| - 1];
      var before := HandbackAfter(FRESH_HANDBACK, polls[..|polls| - 1]);
      var k := EarlyTakeBacks(polls[..|polls| - 1]);
      if !before.phase.HandedBack? || last.AtLeast(GUARD_POWER_DEADBAND_W) then k
      else if before.ElapsedS(last.now) < before.waitS then k + 1
      else 0
  }

  /** Each early take-back in a row doubles the wait, from one minute up to fifteen. */
  lemma {:induction false} HandbackWaitDoubles(polls: seq<Want>)
    ensures HandbackAfter(FRESH_HANDBACK, polls).waitS == ModeRuns.WaitAfter(EarlyTakeBacks(polls) + 1)
    ensures 60.0 <= HandbackAfter(FRESH_HANDBACK, polls).waitS <= 900.0
    decreases |polls|
  {
    if polls != [] {
      HandbackWaitDoubles(polls[..|polls| - 1]);
    }
  }

  // ---------------------------------------------------------------------------
  // Tracking the house on a setpoint
  // ---------------------------------------------------------------------------

  /** With the battery settled, a tracked discharge covers the need and at most 101 W more,
      and a tracked charge leaves at most 101 W of the surplus. */
  lemma TrackingIsClose(f: Frame, natural: real, blocked: Status)
    requires BatterySettled(f.c, f.i, f.now)
    ensures var watts := StickyWatts(f.c, f.i, natural, f.now);
            && (natural < 0.0 ==> -natural <= watts < -natural + 101.0)
            && (natural >= 1.0 ==> natural - 101.0 < watts <= natural)
            && (natural < 0.0 ==>
                  Track(f, natural, blocked)
                  == Decision(DischargeBattery, ClampPower(f.cfg, f.i, watts, DischargeBattery), Some(blocked), true))
  {
    assert natural < 0.0 ==> natural.Floor as real <= natural;
  }

  /** Until the battery has settled, a setpoint is off by less than 500 W. */
  lemma TrackingWhileRamping(c: Commanded, i: Inputs, natural: real, now: real)
    ensures var watts := StickyWatts(c, i, natural, now);
            Abs(watts - Abs(natural)) < POWER_TOLERANCE_W + 1.0
  {
  }

  /** An inverter that follows exactly then imports nothing on the next poll unless the
      surplus has fallen, up to the power that may be commanded. */
  lemma TrackingImportsNothing(f: Frame, natural: real, blocked: Status, later: real)
    requires BatterySettled(f.c, f.i, f.now) && (natural < 0.0 || natural >= 1.0)
    requires f.i.Natural() == Some(natural) && later >= natural
    requires natural < 0.0 ==> StickyWatts(f.c, f.i, natural, f.now) <= Ceiling(f.cfg, f.i, DischargeBattery)
    ensures var battery := Predicted(Track(f, natural, blocked), f.i);
            battery.Some? && battery.value - later <= 0.0
  {
    TrackingIsClose(f, natural, blocked);
  }
}
