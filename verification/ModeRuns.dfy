/**
 What the battery modes keep over whole runs of polls: zones do not flicker, and a step
 is not switched to more than once a minute.
 */
module ModeRuns {
  import opened Base
  import opened Plans

  // ---------------------------------------------------------------------------
  // Zone hysteresis
  // ---------------------------------------------------------------------------

  /** A repeated surplus keeps the zone it led to. */
  lemma ZoneForIdempotent(surplus: real, limit: Option<real>, current: Zone, deadband: real)
    ensures var zone := ZoneFor(surplus, limit, current, deadband);
            ZoneFor(surplus, limit, zone, deadband) == zone
  {
  }

  /** How often the zone changes the other way than at its change before; up is the way
      of the last change so far. */
  function Reversals(zone: Zone, up: Option<bool>, limit: Option<real>, deadband: real, xs: seq<real>): nat
    decreases |xs|
  {
    if xs == [] then 0
    else
      var next := ZoneFor(xs[0], limit, zone, deadband);
      if next == zone then Reversals(zone, up, limit, deadband, xs[1..])
      else
        var rises := next.Rank() > zone.Rank();
        (if up == Some(!rises) then 1 else 0) + Reversals(next, Some(rises), limit, deadband, xs[1..])
  }

  /** Where a surplus clear of every dead band lies, whatever the zone was before. */
  lemma ClearSurplusHasItsZone(x: real, limit: real, current: Zone, deadband: real)
    requires deadband >= 0.0 && limit >= 2.0 * deadband
    ensures var zone := ZoneFor(x, Some(limit), current, deadband);
            && (x >= limit ==> zone == SurplusAboveLimit)
            && (deadband < x < limit - deadband ==> zone == Surplus)
            && (-limit + deadband < x < -deadband ==> zone == Deficit)
            && (x <= -limit && x < limit ==> zone == DeficitAboveLimit)
  {
  }

  /** Inside a dead band it lies in one of the two zones around it: in the one it was in, or
      else in the nearer one. */
  lemma BandKeepsZone(x: real, limit: real, current: Zone, deadband: real)
    requires deadband >= 0.0 && limit >= 2.0 * deadband
    ensures var zone := ZoneFor(x, Some(limit), current, deadband);
            && (-deadband <= x <= deadband && -limit + deadband < x < limit - deadband ==>
                  zone == if current.IsSurplus() then Surplus else Deficit)
            && (limit - deadband <= x < limit && x > deadband ==>
                  zone == if current.SurplusAboveLimit? then SurplusAboveLimit else Surplus)
            && (-limit < x <= -limit + deadband && x < -deadband ==>
                  zone == if current.DeficitAboveLimit? then DeficitAboveLimit else Deficit)
  {
  }

  /** Without a limit there are only a surplus and a deficit. */
  lemma UnlimitedZones(x: real, current: Zone, deadband: real)
    requires deadband >= 0.0
    ensures var zone := ZoneFor(x, None, current, deadband);
            && (x > deadband ==> zone == Surplus) && (x < -deadband ==> zone == Deficit)
            && (-deadband <= x <= deadband ==> zone == if current.IsSurplus() then Surplus else Deficit)
  {
  }

  /** Each zone runs its own step, or that of its neighbour closer to zero. */
  lemma ZonesRunTheirSteps(mode: Mode)
    ensures mode.StepFor(Deficit) == mode.deficit
    ensures mode.StepFor(Surplus) == (match mode.surplus case Some(s) => s case None => mode.deficit)
    ensures mode.StepFor(DeficitAboveLimit)
         == (match mode.deficitAboveLimit case Some(s) => s case None => mode.deficit)
    ensures mode.StepFor(SurplusAboveLimit)
         == (match mode.surplusAboveLimit case Some(s) => s case None => mode.StepFor(Surplus))
    ensures Deficit == Surplus.CloserToZero() == DeficitAboveLimit.CloserToZero()
    ensures SurplusAboveLimit.CloserToZero() == Surplus
  {
  }

  /** No step has to wait. */
  predicate NoneWaits(mode: Mode, s: Standing, now: real) {
    forall zone: Zone :: s.MaySwitchTo(mode.StepFor(zone), now)
  }

  /** So where no step waits, a poll clear of every dead band runs the mode's step for the
      class of its surplus; a surplus that is not known, or that a full battery cannot take,
      counts as a deficit. */
  lemma PollRunsItsStep(mode: Mode, s: Standing, p: Poll, limit: real, deadband: real)
    requires NoneWaits(mode, s, p.now) && p.limit == Some(limit)
    requires deadband >= 0.0 && limit >= 2.0 * deadband && limit > 0.0
    ensures var step := Chosen(mode, s, p, deadband).step;
            match p.surplus
            case None => step == mode.deficit
            case Some(x) =>
              && (x >= limit ==> step == mode.StepFor(if p.batteryFull then Deficit else SurplusAboveLimit))
              && (deadband < x < limit - deadband ==> step == mode.StepFor(if p.batteryFull then Deficit else Surplus))
              && (-limit + deadband < x < -deadband ==> step == mode.deficit)
              && (x <= -limit ==> step == mode.StepFor(DeficitAboveLimit))
  {
    if p.surplus.Some? {
      ClearSurplusHasItsZone(p.surplus.value, limit, s.zone, deadband);
    }
    var target := TargetZone(mode, s, p, deadband);
    assert s.MaySwitchTo(mode.StepFor(target), p.now);
    assert Fallback(mode, s, target, p.now) == target;
  }

  /** The step that is running goes on where the surplus still asks for it, whatever it had to
      wait for once. */
  lemma RunningStepGoesOn(mode: Mode, s: Standing, p: Poll, deadband: real)
    requires mode.StepFor(TargetZone(mode, s, p, deadband)) == s.step
    ensures var next := Chosen(mode, s, p, deadband);
            next.step == s.step && next.since == s.since && next.leftAt == s.leftAt && next.cooldown == s.cooldown
  {
  }

  /** What a surplus that led into a zone from below or from above satisfies. */
  predicate EntryOk(zone: Zone, up: bool, at: real, limit: Option<real>, deadband: real) {
    match zone
    case SurplusAboveLimit => up ==> Reaches(at, limit)
    case Surplus => if up then at > deadband else !Reaches(at + deadband, limit)
    case Deficit => if up then !Reaches(-at + deadband, limit) else at < -deadband
    case DeficitAboveLimit => !up ==> Reaches(-at, limit)
  }

  lemma ReversalNeedsMove(zone: Zone, up: bool, at: real, x: real, limit: Option<real>, deadband: real)
    requires deadband >= 0.0 && (limit.Some? ==> limit.value >= deadband)
    ensures var next := ZoneFor(x, limit, zone, deadband);
            next != zone ==>
              && EntryOk(next, next.Rank() > zone.Rank(), x, limit, deadband)
              && (EntryOk(zone, up, at, limit, deadband) && (next.Rank() > zone.Rank()) != up ==>
                    Abs(x - at) >= deadband)
  {
  }

  lemma {:induction false} ReversalsBounded(zone: Zone, up: Option<bool>, at: real, last: real, limit: Option<real>,
                                            deadband: real, xs: seq<real>)
    requires deadband >= 0.0 && (limit.Some? ==> limit.value >= deadband)
    requires up.Some? ==> EntryOk(zone, up.value, at, limit, deadband)
    ensures Scaled(deadband, Reversals(zone, up, limit, deadband, xs))
         <= Variation(last, xs) + if up.Some? then Abs(last - at) else 0.0
    decreases |xs|
  {
    if xs != [] {
      var next := ZoneFor(xs[0], limit, zone, deadband);
      if next == zone {
        ReversalsBounded(zone, up, at, xs[0], limit, deadband, xs[1..]);
      } else {
        var rises := next.Rank() > zone.Rank();
        ReversalNeedsMove(zone, up.GetOr(rises), at, xs[0], limit, deadband);
        ReversalsBounded(next, Some(rises), xs[0], xs[0], limit, deadband, xs[1..]);
      }
    }
  }

  lemma VariationFromFirst(first: real, xs: seq<real>)
    ensures Variation(first, [first] + xs) == Variation(first, xs)
  {
    assert ([first] + xs)[1..] == xs;
  }

  /** n movements of at least the band each fit a way. */
  predicate FitTimes(band: real, n: nat, way: real) {
    band * n as real <= way
  }

  lemma ScaledFits(band: real, n: nat, way: real)
    requires Scaled(band, n) <= way
    ensures FitTimes(band, n, way)
  {
    ScaledIs(band, n);
  }

  /** The zone of a surplus turns around at most once per deadband of surplus movement,
      whatever the weather does. */
  lemma ZoneReversalsBounded(zone: Zone, limit: Option<real>, deadband: real, first: real, xs: seq<real>)
    requires deadband >= 0.0 && (limit.Some? ==> limit.value >= deadband)
    ensures FitTimes(deadband, Reversals(zone, None, limit, deadband, [first] + xs), Variation(first, xs))
  {
    ReversalsBounded(zone, None, first, first, limit, deadband, [first] + xs);
    VariationFromFirst(first, xs);
    ScaledFits(deadband, Reversals(zone, None, limit, deadband, [first] + xs), Variation(first, xs));
  }

  // ---------------------------------------------------------------------------
  // Falling back
  // ---------------------------------------------------------------------------

  function Towards(zone: Zone, k: nat): Zone
    decreases k
  {
    if k == 0 then zone else Towards(zone.CloserToZero(), k - 1)
  }

  /** A poll runs the first step on the way from the target zone to the deficit that is
      running already or has waited long enough; the deficit ends the way at the latest. */
  lemma {:induction false} FallbackIsFirst(mode: Mode, s: Standing, target: Zone, now: real) returns (k: nat)
    requires Sound(mode, s)
    ensures k <= target.Distance()
    ensures Fallback(mode, s, target, now) == Towards(target, k)
    ensures Runnable(mode, s, Towards(target, k), now)
    ensures forall j: nat :: j < k ==> !Runnable(mode, s, Towards(target, j), now)
    decreases target.Distance()
  {
    if Runnable(mode, s, target, now) {
      k := 0;
    } else {
      var k' := FallbackIsFirst(mode, s, target.CloserToZero(), now);
      k := k' + 1;
      forall j: nat | j < k
        ensures !Runnable(mode, s, Towards(target, j), now)
      {
        if j > 0 {
          assert Towards(target, j) == Towards(target.CloserToZero(), j - 1);
        }
      }
    }
  }

  // ---------------------------------------------------------------------------
  // Switch rate
  // ---------------------------------------------------------------------------

  function After(mode: Mode, s: Standing, polls: seq<Poll>, deadband: real): (r: Standing)
    requires Sound(mode, s)
    ensures Sound(mode, r)
    decreases |polls|
  {
    if polls == [] then s else After(mode, Chosen(mode, s, polls[0], deadband), polls[1..], deadband)
  }

  /** Polls no earlier than a time and each no earlier than the one before. */
  predicate Timed(from: real, polls: seq<Poll>)
    decreases |polls|
  {
    polls == [] || (from <= polls[0].now && Timed(polls[0].now, polls[1..]))
  }

  /** The times at which a run of polls switches to a step. */
  function Entries(mode: Mode, s: Standing, polls: seq<Poll>, deadband: real, step: Step): seq<real>
    requires Sound(mode, s)
    decreases |polls|
  {
    if polls == [] then []
    else
      var next := Chosen(mode, s, polls[0], deadband);
      (if s.step != step && next.step == step then [polls[0].now] else [])
      + Entries(mode, next, polls[1..], deadband, step)
  }

  predicate Spaced(from: real, times: seq<real>)
    decreases |times|
  {
    times == [] || (times[0] - from >= GUARD_HANDBACK_S && Spaced(times[0], times[1..]))
  }

  /** What the state remembers of a step last switched to at a time. */
  predicate EnteredAt(s: Standing, step: Step, at: real) {
    && (s.step == step ==> s.since == Some(at))
    && (s.step != step ==>
          step in s.leftAt && at + GUARD_HANDBACK_S <= s.leftAt[step] + Get(s.cooldown, step).GetOr(0.0))
  }

  lemma {:induction false} EntriesSpaced(mode: Mode, s: Standing, polls: seq<Poll>, deadband: real, step: Step,
                                         at: real)
    requires Sound(mode, s) && step != mode.deficit && EnteredAt(s, step, at) && Timed(at, polls)
    ensures Spaced(at, Entries(mode, s, polls, deadband, step))
    decreases |polls|
  {
    if polls != [] {
      var now := polls[0].now;
      var next := Chosen(mode, s, polls[0], deadband);
      if s.step != step && next.step == step {
        EntriesSpaced(mode, next, polls[1..], deadband, step, now);
        var rest := Entries(mode, next, polls[1..], deadband, step);
        assert ([now] + rest)[1..] == rest;
      } else {
        TimedLater(at, now, polls[1..]);
        EntriesSpaced(mode, next, polls[1..], deadband, step, at);
        assert [] + Entries(mode, next, polls[1..], deadband, step) == Entries(mode, next, polls[1..], deadband, step);
      }
    }
  }

  lemma TimedLater(earlier: real, from: real, polls: seq<Poll>)
    requires earlier <= from && Timed(from, polls)
    ensures Timed(earlier, polls)
  {
  }

  lemma {:induction false} SpacedSpans(from: real, times: seq<real>)
    requires Spaced(from, times)
    ensures times != [] ==> times[|times| - 1] - from >= GUARD_HANDBACK_S * |times| as real
    decreases |times|
  {
    if |times| > 1 {
      SpacedSpans(times[0], times[1..]);
      assert times[1..][|times| - 2] == times[|times| - 1];
    }
  }

  /** Over any run of a mode from its selection on, switches to one step other than the
      deficit's are a minute apart, so T seconds see at most T / 60 + 1 of them. */
  lemma {:induction false} SwitchRateBounded(mode: Mode, s: Standing, polls: seq<Poll>, deadband: real, step: Step,
                                             from: real)
    requires Sound(mode, s) && step != mode.deficit && s.step != step && step !in s.leftAt && Timed(from, polls)
    ensures var times := Entries(mode, s, polls, deadband, step);
            times != [] ==>
              && Spaced(times[0], times[1..])
              && times[|times| - 1] - times[0] >= GUARD_HANDBACK_S * (|times| - 1) as real
    decreases |polls|
  {
    if polls != [] {
      var now := polls[0].now;
      var next := Chosen(mode, s, polls[0], deadband);
      if next.step == step {
        EntriesSpaced(mode, next, polls[1..], deadband, step, now);
        var rest := Entries(mode, next, polls[1..], deadband, step);
        assert ([now] + rest)[1..] == rest;
        SpacedSpans(now, rest);
      } else {
        SwitchRateBounded(mode, next, polls[1..], deadband, step, now);
        assert [] + Entries(mode, next, polls[1..], deadband, step) == Entries(mode, next, polls[1..], deadband, step);
      }
    }
  }

  // ---------------------------------------------------------------------------
  // The growing wait
  // ---------------------------------------------------------------------------

  function Pow2(k: nat): (r: real)
    ensures r >= 1.0
  {
    if k == 0 then 1.0 else 2.0 * Pow2(k - 1)
  }

  /** How long a step waits after k early exits in a row. */
  function WaitAfter(k: nat): real {
    if k == 0 then 0.0 else Min(60.0 * Pow2(k - 1), 900.0)
  }

  /** The length of the row of early exits from a step that a run ends in. */
  function EarlyExits(mode: Mode, s: Standing, polls: seq<Poll>, deadband: real, step: Step, k: nat): nat
    requires Sound(mode, s)
    decreases |polls|
  {
    if polls == [] then k
    else
      var next := Chosen(mode, s, polls[0], deadband);
      var exits := s.step == step && next.step != step;
      var early := exits && s.since.Some? && polls[0].now - s.since.value < GUARD_HANDBACK_S;
      EarlyExits(mode, next, polls[1..], deadband, step, if early then k + 1 else if exits then 0 else k)
  }

  /** After k early exits in a row, a step waits min(60 * 2^(k-1), 900) seconds. */
  lemma {:induction false} WaitDoubles(mode: Mode, s: Standing, polls: seq<Poll>, deadband: real, step: Step, k: nat)
    requires Sound(mode, s) && step != mode.deficit
    requires Get(s.cooldown, step).GetOr(0.0) == WaitAfter(k)
    ensures Get(After(mode, s, polls, deadband).cooldown, step).GetOr(0.0)
         == WaitAfter(EarlyExits(mode, s, polls, deadband, step, k))
    decreases |polls|
  {
    if polls != [] {
      var next := Chosen(mode, s, polls[0], deadband);
      var exits := s.step == step && next.step != step;
      var early := exits && polls[0].now - s.since.value < GUARD_HANDBACK_S;
      WaitDoubles(mode, next, polls[1..], deadband, step, if early then k + 1 else if exits then 0 else k);
    }
  }

  /** A step that a run switches to again was left at least that wait before. */
  lemma WaitServed(mode: Mode, polls: seq<Poll>, p: Poll, deadband: real, step: Step)
    requires step != mode.deficit
    ensures var s := After(mode, Fresh(mode), polls, deadband);
            s.step != step && Chosen(mode, s, p, deadband).step == step && step in s.leftAt ==>
              p.now - s.leftAt[step] >= WaitAfter(EarlyExits(mode, Fresh(mode), polls, deadband, step, 0))
  {
    WaitDoubles(mode, Fresh(mode), polls, deadband, step, 0);
    var s := After(mode, Fresh(mode), polls, deadband);
    var k := FallbackIsFirst(mode, s, TargetZone(mode, s, p, deadband), p.now);
  }
}
