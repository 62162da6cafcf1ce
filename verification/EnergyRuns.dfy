/**
 What the validation of a lifetime total keeps over whole runs of polls: it never falls,
 never rises faster than the configured power allows, lets no glitch through, and holds
 nothing for good.
 */
module EnergyRuns {
  import opened Base
  import opened Energy

  // ---------------------------------------------------------------------------
  // The power budget
  // ---------------------------------------------------------------------------

  /** Delivered is power times time. */
  lemma {:induction false} DeliveredIs(power: real, microseconds: nat)
    ensures Delivered(power, microseconds) == power / 3600000000000.0 * microseconds as real
    decreases microseconds
  {
    if microseconds > 0 {
      DeliveredIs(power, microseconds - 1);
      var m := (microseconds - 1) as real;
      var w := power / 3600000000000.0;
      assert microseconds as real == m + 1.0;
      assert w * (m + 1.0) == w * m + w;
    }
  }

  lemma {:induction false} DeliveredAdds(power: real, m: nat, n: nat)
    ensures Delivered(power, m + n) == Delivered(power, m) + Delivered(power, n)
    decreases n
  {
    if n > 0 {
      DeliveredAdds(power, m, n - 1);
    }
  }

  lemma {:induction false} DeliveredMonotone(p: real, q: real, m: nat, n: nat)
    requires 0.0 <= p <= q && m <= n
    ensures 0.0 <= Delivered(p, m) <= Delivered(q, n)
    decreases n
  {
    if n > 0 {
      DeliveredMonotone(p, q, if m > 0 then m - 1 else 0, n - 1);
    }
  }

  // ---------------------------------------------------------------------------
  // Runs of polls
  // ---------------------------------------------------------------------------

  /** What one poll reads of a total and its daily counter, when, the time the coordinator
      notes once it is through, and the power that bounds the counter. */
  datatype Read = Read(total: Option<real>, daily: Option<real>, now: Time, checkedAt: Time, power: real)

  /** A total as published last, with what the processor remembers of it. */
  datatype Track = Track(tally: Tally, baseline: Option<real>, previousTime: Option<Time>) {
    /** The time the budget of the next rise counts from. */
    function AcceptedAt(): Time {
      if tally.acceptedAt.Some? then tally.acceptedAt.value else previousTime.GetOr(0)
    }
  }

  /** One poll; one that comes within a second of the one before publishes its data again. */
  function Next(t: Track, r: Read): Track {
    if t.previousTime.Some? && r.now - t.previousTime.value < SECOND then t.(previousTime := Some(r.checkedAt))
    else
      var checked := Check(r.power, t.tally, r.total, r.daily, t.baseline, t.previousTime, r.now);
      Track(checked.tally, checked.published, Some(r.checkedAt))
  }

  function Run(t: Track, polls: seq<Read>): Track
    decreases |polls|
  {
    if polls == [] then t else Run(Next(t, polls[0]), polls[1..])
  }

  /** Polls in the order of the clock, each noted no earlier than it was read. */
  predicate Timed(from: Time, polls: seq<Read>)
    decreases |polls|
  {
    polls == [] || (from <= polls[0].now <= polls[0].checkedAt && Timed(polls[0].checkedAt, polls[1..]))
  }

  /** Polls far enough apart to be looked at, with a power that can bound a rise. */
  predicate Apart(from: Time, polls: seq<Read>)
    decreases |polls|
  {
    polls == [] ||
    (&& from + SECOND <= polls[0].now <= polls[0].checkedAt
     && polls[0].power >= 0.0
     && Apart(polls[0].checkedAt, polls[1..]))
  }

  // ---------------------------------------------------------------------------
  // Never lower, never faster
  // ---------------------------------------------------------------------------

  /** Once a poll has been noted, a published total never falls, whatever is read and
      whatever the clock does. */
  lemma {:induction false} NeverFalls(t: Track, polls: seq<Read>)
    requires t.previousTime.Some? && t.baseline.Some?
    ensures var e := Run(t, polls);
            e.previousTime.Some? && e.baseline.Some? && e.baseline.value >= t.baseline.value
    decreases |polls|
  {
    if polls != [] {
      NeverFalls(Next(t, polls[0]), polls[1..]);
    }
  }

  /** A total that was published before acceptance times were kept is checked from the poll
      before; without a time for that either, what is read is believed. */
  lemma UndatedIsCheckedFromLastPoll(t: Track, r: Read)
    requires t.tally.acceptedAt.None? && t.baseline.Some? && t.baseline.value != 0.0 && r.total.Some?
    ensures t.previousTime.None? ==>
              Next(t, r).baseline == r.total && Next(t, r).tally.acceptedAt == Some(r.now)
    ensures t.previousTime.Some? && t.previousTime.value + SECOND <= r.now ==>
              Next(t, r).baseline == (if 0.0 <= r.total.value - t.baseline.value
                                              <= Budget(r.power, t.previousTime.value, r.now)
                                      then r.total else t.baseline)
  {
  }

  /** How many polls of a run published more than the poll before. */
  function Rises(t: Track, polls: seq<Read>): nat
    decreases |polls|
  {
    if polls == [] then 0
    else (if Next(t, polls[0]).baseline == t.baseline then 0 else 1) + Rises(Next(t, polls[0]), polls[1..])
  }

  lemma NextWithinRate(t: Track, r: Read, maxPower: real)
    requires t.previousTime.Some? && t.baseline.Some? && t.baseline.value > 0.0
    requires t.AcceptedAt() <= t.previousTime.value <= r.now <= r.checkedAt && 0.0 <= r.power <= maxPower
    ensures var e := Next(t, r);
            && e.baseline.Some? && e.baseline.value > 0.0
            && t.AcceptedAt() <= e.AcceptedAt() <= e.previousTime.value
            && e.baseline.value - t.baseline.value
               <= Delivered(maxPower, e.AcceptedAt() - t.AcceptedAt())
                  + (if e.baseline == t.baseline then 0.0 else ENERGY_RESOLUTION_KWH)
  {
    DeliveredMonotone(r.power, maxPower, Elapsed(t.AcceptedAt(), r.now), Elapsed(t.AcceptedAt(), r.now));
    DeliveredMonotone(maxPower, maxPower, 0, Next(t, r).AcceptedAt() - t.AcceptedAt());
  }

  /** Over any run, a total above 0 grows by no more than the configured maximum power
      delivers between the acceptances the run starts from and ends at, plus one step of
      the counter's resolution per rise. */
  lemma {:induction false} RateBounded(t: Track, polls: seq<Read>, maxPower: real)
    requires t.previousTime.Some? && t.baseline.Some? && t.baseline.value > 0.0
    requires t.AcceptedAt() <= t.previousTime.value && Timed(t.previousTime.value, polls) && 0.0 <= maxPower
    requires forall r :: r in polls ==> 0.0 <= r.power <= maxPower
    ensures var e := Run(t, polls);
            && e.baseline.Some? && t.AcceptedAt() <= e.AcceptedAt()
            && e.baseline.value - t.baseline.value
               <= Delivered(maxPower, e.AcceptedAt() - t.AcceptedAt()) + Scaled(ENERGY_RESOLUTION_KWH, Rises(t, polls))
    decreases |polls|
  {
    if polls != [] {
      assert polls[0] in polls;
      NextWithinRate(t, polls[0], maxPower);
      var n := Next(t, polls[0]);
      RateBounded(n, polls[1..], maxPower);
      var e := Run(t, polls);
      DeliveredAdds(maxPower, n.AcceptedAt() - t.AcceptedAt(), e.AcceptedAt() - n.AcceptedAt());
    }
  }

  const ACCEPTED_ZERO := Track(Tally(Some(0), None, None, None, Some(0.0)), Some(0.0), Some(0))

  /** What a poll at a time reads of a total and its daily counter. */
  function ReadAt(seconds: int, total: real, daily: real): Read {
    Read(Some(total), Some(daily), seconds * SECOND, seconds * SECOND, DEFAULT_MAX_POWER)
  }

  const FIRST_SEEN := ReadAt(60, 5000.0, 0.0)
  const RISEN := ReadAt(180, 5001.0, 1.0)
  const STILL_THERE := ReadAt(240, 5001.0, 1.0)
  const WITNESSED: seq<Read> := [FIRST_SEEN, RISEN, STILL_THERE]

  /** What is remembered of the 0 once reads from FIRST_SEEN on have been held. */
  function HeldOver(device: Read, count: nat): Track {
    var run := WitnessRun(5000.0, 0.0, device.total.GetOr(0.0), device.daily.GetOr(0.0), device.now, count);
    Track(Tally(Some(0), None, Some(run), Some(HeldTotal(0.0, device.total.GetOr(0.0), Some(0))), Some(0.0)), Some(0.0),
          Some(device.now))
  }

  lemma BudgetIs(since: nat, now: nat)
    requires since <= now
    ensures Budget(DEFAULT_MAX_POWER, since * SECOND, now * SECOND) == (now - since) as real / 120.0 + 0.01
  {
    DeliveredIs(DEFAULT_MAX_POWER, (now - since) * SECOND);
    assert Elapsed(since * SECOND, now * SECOND) == (now - since) * SECOND;
    assert ((now - since) * SECOND) as real == (now - since) as real * 1000000.0;
  }

  lemma FirstIsHeld()
    ensures Next(ACCEPTED_ZERO, FIRST_SEEN) == HeldOver(FIRST_SEEN, 1)
  {
    BudgetIs(0, 60);
  }

  lemma RiseIsHeld()
    ensures Next(HeldOver(FIRST_SEEN, 1), RISEN) == HeldOver(RISEN, 2)
  {
    BudgetIs(0, 180);
    BudgetIs(60, 180);
  }

  lemma ThirdIsTaken()
    ensures Next(HeldOver(RISEN, 2), STILL_THERE)
         == Track(Tally(Some(STILL_THERE.now), None, None, None, None), Some(5001.0), Some(STILL_THERE.now))
  {
    BudgetIs(0, 240);
    BudgetIs(180, 240);
  }

  lemma RunOfThree(t: Track, x: Read, y: Read, z: Read)
    ensures Run(t, [x, y, z]) == Next(Next(Next(t, x), y), z)
    ensures Rises(t, [x, y, z])
         == (if Next(t, x).baseline == t.baseline then 0 else 1)
            + (if Next(Next(t, x), y).baseline == Next(t, x).baseline then 0 else 1)
            + (if Next(Next(Next(t, x), y), z).baseline == Next(Next(t, x), y).baseline then 0 else 1)
  {
    assert [x, y, z][1..] == [y, z] && [y, z][1..] == [z] && [z][1..] == [];
    assert Run(Next(t, x), [y, z]) == Run(Next(Next(t, x), y), [z]);
    assert Rises(Next(t, x), [y, z])
        == (if Next(Next(t, x), y).baseline == Next(t, x).baseline then 0 else 1) + Rises(Next(Next(t, x), y), [z]);
  }

  /** The bound needs a baseline above 0: from an accepted 0, a run of polls ends at 5001 kWh
      after four minutes, which deliver 2 kWh at most. */
  lemma AcceptedZeroJumps()
    ensures Apart(0, WITNESSED) && Run(ACCEPTED_ZERO, WITNESSED).baseline == Some(5001.0)
    ensures Run(ACCEPTED_ZERO, WITNESSED).AcceptedAt() == 240 * SECOND
    ensures Delivered(DEFAULT_MAX_POWER, 240 * SECOND)
            + Scaled(ENERGY_RESOLUTION_KWH, Rises(ACCEPTED_ZERO, WITNESSED)) < 3.0
  {
    FirstIsHeld();
    RiseIsHeld();
    ThirdIsTaken();
    RunOfThree(ACCEPTED_ZERO, FIRST_SEEN, RISEN, STILL_THERE);
    DeliveredIs(DEFAULT_MAX_POWER, 240 * SECOND);
    assert Scaled(ENERGY_RESOLUTION_KWH, 1) == ENERGY_RESOLUTION_KWH + Scaled(ENERGY_RESOLUTION_KWH, 0);
    WitnessedApart();
  }

  lemma WitnessedApart()
    ensures Apart(0, WITNESSED)
  {
    assert WITNESSED[1..] == [RISEN, STILL_THERE] && [RISEN, STILL_THERE][1..] == [STILL_THERE];
    assert [STILL_THERE][1..] == [];
    assert Apart(RISEN.now, [STILL_THERE]);
    assert Apart(FIRST_SEEN.now, [RISEN, STILL_THERE]);
  }

  /** A first value is published as it is read; only one other than 0 counts as accepted. */
  lemma FirstValueIsPublished(t: Track, r: Read)
    requires t.baseline.None? && (t.previousTime.Some? ==> r.now - t.previousTime.value >= SECOND)
    ensures Next(t, r).baseline == r.total
    ensures r.total.Some? ==>
              Next(t, r).tally.acceptedAt == (if r.total.value == 0.0 then t.tally.acceptedAt else Some(r.now))
              && Next(t, r).tally.held.None?
  {
  }

  /** A value that is not taken is remembered next to the one published and when that was
      accepted, for the user to see; one that is taken ends the hold. */
  lemma HoldIsRemembered(t: Track, r: Read, baseline: real, total: real)
    requires t.baseline == Some(baseline) && t.tally.acceptedAt.Some? && r.total == Some(total) && total != baseline
    requires t.previousTime.Some? && r.now - t.previousTime.value >= SECOND
    ensures var n := Next(t, r);
            if n.baseline == Some(total) then n.tally.held.None? && n.tally.acceptedAt == Some(r.now)
            else
              && n.baseline == Some(baseline) && n.tally.acceptedAt == t.tally.acceptedAt
              && n.tally.held == Some(HeldTotal(baseline, total, t.tally.acceptedAt))
  {
  }

  /** The power that bounds each counter: the battery's own, the solar power for what comes
      from the panels and for what is exported, and the grid connection for the rest. */
  lemma CountersAreBounded(limits: map<Limit, real>, c: Counter)
    ensures MaxPower(limits, c) ==
            var limit := if c.BatCharged? then MaxChargedPower
                         else if c.BatDischarged? then MaxDischargedPower
                         else if c.Solar? || c.GridExport? then MaxSolarPower
                         else MaxGridPower;
            if limit in limits then limits[limit] else 30000.0
  {
  }

  // ---------------------------------------------------------------------------
  // Glitches pass unseen, and nothing is held for good
  // ---------------------------------------------------------------------------

  /** A counter that never falls and rises no faster than the power allows. */
  ghost predicate RisesWithin(truth: Time -> real, power: real) {
    forall x: Time, y: Time :: x <= y ==> truth(x) <= truth(y) <= truth(x) + Budget(power, x, y)
  }

  /** Reads of such a counter: each is missing, true, or a value the counter could not have
      reached since it was last read truly. */
  ghost predicate Feed(truth: Time -> real, power: real, lastTrue: Time, polls: seq<Read>)
    decreases |polls|
  {
    polls == [] ||
    (var r := polls[0];
     && r.power == power
     && (|| r.total == None
         || r.total == Some(truth(r.now))
         || r.total.value < truth(lastTrue)
         || r.total.value > truth(lastTrue) + Budget(power, lastTrue, r.now))
     && Feed(truth, power, if r.total == Some(truth(r.now)) then r.now else lastTrue, polls[1..]))
  }

  /** The time of the last true read of a run. */
  function LastTrue(truth: Time -> real, lastTrue: Time, polls: seq<Read>): Time
    decreases |polls|
  {
    if polls == [] then lastTrue
    else LastTrue(truth, if polls[0].total == Some(truth(polls[0].now)) then polls[0].now else lastTrue, polls[1..])
  }

  /** Whatever glitches come in between, and however many, each poll publishes the value
      that was last read truly. */
  lemma {:induction false} GlitchesPassUnseen(t: Track, truth: Time -> real, power: real, lastTrue: Time,
                                              polls: seq<Read>)
    requires RisesWithin(truth, power) && truth(lastTrue) > 0.0
    requires t.baseline == Some(truth(lastTrue)) && t.tally.acceptedAt == Some(lastTrue)
    requires t.previousTime.Some? && lastTrue <= t.previousTime.value && Apart(t.previousTime.value, polls)
    requires Feed(truth, power, lastTrue, polls)
    ensures Run(t, polls).baseline == Some(truth(LastTrue(truth, lastTrue, polls)))
    decreases |polls|
  {
    if polls != [] {
      var r := polls[0];
      var n := Next(t, r);
      var lastTrue' := if r.total == Some(truth(r.now)) then r.now else lastTrue;
      assert truth(lastTrue) <= truth(r.now) <= truth(lastTrue) + Budget(power, lastTrue, r.now);
      assert n.baseline == Some(truth(lastTrue')) && n.tally.acceptedAt == Some(lastTrue');
      GlitchesPassUnseen(n, truth, power, lastTrue', polls[1..]);
    }
  }

  /** A value above the baseline that persists is taken exactly when the budget since the
      last acceptance covers it, not earlier and not later, whatever the daily counter
      reads: over an accepted 0, a run of reads that began with that value cannot confirm
      it. */
  lemma {:induction false} TakenOnceBelievable(t: Track, polls: seq<Read>, value: real, power: real)
    requires t.previousTime.Some? && t.baseline.Some? && t.baseline.value <= value && power >= 0.0
    requires t.tally.acceptedAt.Some? && t.tally.acceptedAt.value <= t.previousTime.value
    requires Apart(t.previousTime.value, polls) && polls != []
    requires forall r :: r in polls ==> r.total == Some(value) && r.power == power
    requires t.baseline == Some(0.0) && t.tally.run.Some? ==> t.tally.run.value.firstTotal == value
    ensures var budget := Budget(power, t.tally.acceptedAt.value, polls[|polls| - 1].now);
            Run(t, polls).baseline == if value - t.baseline.value <= budget then Some(value) else t.baseline
    decreases |polls|
  {
    var r := polls[0];
    assert r in polls;
    var n := Next(t, r);
    var accepted := t.tally.acceptedAt.value;
    if |polls| > 1 {
      ApartLater(r.checkedAt, polls[1..]);
      var last := polls[|polls| - 1];
      assert polls[1..][|polls| - 2] == last;
      DeliveredMonotone(power, power, Elapsed(accepted, r.now), Elapsed(accepted, last.now));
      DeliveredMonotone(power, power, 0, Elapsed(r.now, last.now));
      TakenOnceBelievable(n, polls[1..], value, power);
      assert Run(t, polls) == Run(n, polls[1..]);
    } else {
      assert polls[1..] == [];
      assert Run(t, polls) == n;
    }
  }

  lemma {:induction false} ApartLater(from: Time, polls: seq<Read>)
    requires Apart(from, polls) && polls != []
    ensures from < polls[|polls| - 1].now
    decreases |polls|
  {
    if |polls| > 1 {
      ApartLater(polls[0].checkedAt, polls[1..]);
      assert polls[1..][|polls| - 2] == polls[|polls| - 1];
    }
  }

  // ---------------------------------------------------------------------------
  // A first read of 0
  // ---------------------------------------------------------------------------

  /** The latest non-zero read of a run, on top of one remembered before it. */
  function LatestPositive(before: Option<FirstRead>, polls: seq<Read>): Option<FirstRead>
    decreases |polls|
  {
    if polls == [] then before
    else LatestPositive(if polls[0].total.Some? && polls[0].total.value > 0.0
                        then Some(FirstRead(polls[0].total.value, polls[0].now)) else before, polls[1..])
  }

  /** A 0 that was read first gives way to a read exactly when that read follows the latest
      one above 0 within the budget: a spike alone never takes its place. */
  lemma {:induction false} FirstReadNeedsFollower(t: Track, polls: seq<Read>, r: Read)
    requires t.baseline == Some(0.0) && t.tally.acceptedAt.None? && t.previousTime.Some?
    requires Apart(t.previousTime.value, polls + [r])
    requires Run(t, polls).baseline == Some(0.0) && Run(t, polls).tally.acceptedAt.None?
    ensures var earlier := LatestPositive(t.tally.firstRead, polls);
            (Next(Run(t, polls), r).baseline != Some(0.0)) ==
            (&& r.total.Some? && r.total.value > 0.0 && earlier.Some?
             && 0.0 <= r.total.value - earlier.value.value <= Budget(r.power, earlier.value.at, r.now))
    ensures Next(Run(t, polls), r).baseline in {Some(0.0), r.total}
    decreases |polls|
  {
    if polls == [] {
      assert polls + [r] == [r];
    } else {
      assert (polls + [r])[0] == polls[0] && (polls + [r])[1..] == polls[1..] + [r];
      var n := Next(t, polls[0]);
      if n.baseline != Some(0.0) || n.tally.acceptedAt.Some? {
        TakenStays(n, polls[1..]);
      } else {
        FirstReadNeedsFollower(n, polls[1..], r);
      }
    }
  }

  lemma {:induction false} TakenStays(t: Track, polls: seq<Read>)
    requires t.previousTime.Some? && t.baseline.Some? && t.baseline.value >= 0.0
    requires t.baseline.value > 0.0
    ensures Run(t, polls).baseline.Some? && Run(t, polls).baseline.value > 0.0
  {
    NeverFalls(t, polls);
  }
}
