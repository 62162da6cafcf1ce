/**
 Validation of the lifetime energy counters and derivation of the daily ones
 (energy_processor.py). Energies are in kWh, powers in W, times in microseconds;
 arithmetic is exact.

 Check is what one poll does to one lifetime total. EnergyProcessor is the object the
 coordinator calls; its methods update its dictionaries in place, and each is tied to
 Check and its siblings counter by counter.
 */
module Energy {
  import opened Base

  /** A point in time, in microseconds. */
  type Time = int

  const SECOND := 1000000

  const DEFAULT_MAX_POWER := 30000.0
  const ENERGY_RESOLUTION_KWH := 0.01
  const WITNESS_MIN_RISE_KWH := 1.0
  const WITNESS_MIN_READS := 3
  const WITNESS_TOLERANCE_KWH := 0.02
  const WITNESS_TOLERANCE_SHARE := 0.02

  /** The lifetime totals the device reports; each has a daily counter of its own. */
  datatype Counter = GridImport | GridExport | BatCharged | BatDischarged | Solar | InverterAcIn | InverterAcOut

  const COUNTERS: seq<Counter> :=
    [GridImport, GridExport, BatCharged, BatDischarged, Solar, InverterAcIn, InverterAcOut]

  /** What a poll's data is filed under. A reading that is missing has no entry. */
  datatype Key =
    | Total(counter: Counter)
    | Today(counter: Counter)
    | TotalRaw(counter: Counter)
    | TodayRaw(counter: Counter)
    | HouseTotal
    | HouseToday
    | Other(name: string)

  type Data = map<Key, real>

  datatype Limit = MaxGridPower | MaxSolarPower | MaxChargedPower | MaxDischargedPower

  function LimitOf(c: Counter): Limit {
    match c
    case GridExport => MaxSolarPower
    case Solar => MaxSolarPower
    case BatCharged => MaxChargedPower
    case BatDischarged => MaxDischargedPower
    case _ => MaxGridPower
  }

  function MaxPower(limits: map<Limit, real>, c: Counter): real {
    Get(limits, LimitOf(c)).GetOr(DEFAULT_MAX_POWER)
  }

  /** Energy a power delivers over some microseconds, added up one by one: a watt takes
      3.6e12 of them for a kilowatt-hour. DeliveredIs gives it as a product. */
  function Delivered(power: real, microseconds: nat): real
    decreases microseconds
  {
    if microseconds == 0 then 0.0 else power / 3600000000000.0 + Delivered(power, microseconds - 1)
  }

  function Elapsed(since: Time, now: Time): nat {
    if since <= now then now - since else 0
  }

  /** The largest believable rise since a time. */
  function Budget(power: real, since: Time, now: Time): real {
    Delivered(power, Elapsed(since, now)) + ENERGY_RESOLUTION_KWH
  }

  /** Whether two rises are of one energy, up to two steps of resolution and 2 percent. */
  predicate RisesAgree(totalRise: real, dailyRise: real) {
    && dailyRise >= 0.0
    && Abs(totalRise - dailyRise) <= WITNESS_TOLERANCE_KWH + WITNESS_TOLERANCE_SHARE * dailyRise
  }

  /** The ends and the length of a chain of reads that witness each other. */
  datatype WitnessRun = WitnessRun(
    firstTotal: real, firstDaily: real, lastTotal: real, lastDaily: real, lastSeen: Time, count: nat)

  datatype HeldTotal = HeldTotal(published: real, device: real, since: Option<Time>)

  datatype FirstRead = FirstRead(value: real, at: Time)

  /** What the processor remembers of one lifetime total; the snapshot is the one its
      daily counter is measured from. */
  datatype Tally = Tally(
    acceptedAt: Option<Time>,
    firstRead: Option<FirstRead>,
    run: Option<WitnessRun>,
    held: Option<HeldTotal>,
    snapshot: Option<real>)

  predicate WitnessFollows(power: real, run: WitnessRun, total: real, daily: real, now: Time) {
    && 0.0 <= total - run.lastTotal <= Budget(power, run.lastSeen, now)
    && RisesAgree(total - run.lastTotal, daily - run.lastDaily)
  }

  function WitnessNext(power: real, run: Option<WitnessRun>, total: real, daily: real, now: Time): WitnessRun {
    if run.Some? && WitnessFollows(power, run.value, total, daily, now) then
      run.value.(lastTotal := total, lastDaily := daily, lastSeen := now, count := run.value.count + 1)
    else WitnessRun(total, daily, total, daily, now, 1)
  }

  predicate WitnessConfirms(run: WitnessRun) {
    && run.count >= WITNESS_MIN_READS
    && run.lastDaily - run.firstDaily >= WITNESS_MIN_RISE_KWH
    && RisesAgree(run.lastTotal - run.firstTotal, run.lastDaily - run.firstDaily)
  }

  predicate FirstReadFollows(power: real, earlier: Option<FirstRead>, value: real, now: Time) {
    earlier.Some? && 0.0 <= value - earlier.value.value <= Budget(power, earlier.value.at, now)
  }

  datatype Checked = Checked(tally: Tally, published: Option<real>)

  predicate UnconfirmedZero(t: Tally, baseline: Option<real>) {
    baseline == Some(0.0) && t.acceptedAt.None?
  }

  /** A baseline accepted before acceptance times were kept counts from the poll before. */
  function Dated(t: Tally, baseline: Option<real>, previousTime: Option<Time>): Tally {
    if baseline.Some? && !UnconfirmedZero(t, baseline) && t.acceptedAt.None? then t.(acceptedAt := previousTime) else t
  }

  /** One poll of one lifetime total. */
  function Check(power: real, t: Tally, reading: Option<real>, daily: Option<real>, baseline: Option<real>,
                 previousTime: Option<Time>, now: Time): Checked
  {
    var dated := Dated(t, baseline, previousTime);
    if reading.None? then Checked(dated, baseline)
    else if baseline.None? then
      Checked(dated.(acceptedAt := if reading.value != 0.0 then Some(now) else dated.acceptedAt, held := None),
              reading)
    else if UnconfirmedZero(t, baseline) then
      CheckFirstRead(power, dated, reading.value, now)
    else if dated.acceptedAt.None? then Checked(dated.(acceptedAt := Some(now)), reading)
    else CheckRise(power, dated, reading.value, daily, baseline.value, dated.acceptedAt.value, now)
  }

  /** A read while a 0 that was read first is published but not trusted. */
  function CheckFirstRead(power: real, t: Tally, reading: real, now: Time): Checked {
    if reading > 0.0 then
      if FirstReadFollows(power, t.firstRead, reading, now) then
        Checked(t.(acceptedAt := Some(now), firstRead := None, held := None, snapshot := None), Some(reading))
      else Checked(t.(firstRead := Some(FirstRead(reading, now)), held := None), Some(0.0))
    else Checked(t.(held := None), Some(0.0))
  }

  /** A read against a baseline that was accepted. */
  function CheckRise(power: real, t: Tally, reading: real, daily: Option<real>, baseline: real, acceptedAt: Time,
                     now: Time): Checked
  {
    var rise := reading - baseline;
    if 0.0 <= rise <= Budget(power, acceptedAt, now) then
      Checked(t.(acceptedAt := Some(now), held := None, run := None), Some(reading))
    else
      var hold := t.(held := Some(HeldTotal(baseline, reading, t.acceptedAt)));
      if baseline != 0.0 || rise <= 0.0 then Checked(hold, Some(baseline))
      else if daily.None? then Checked(hold.(run := None), Some(baseline))
      else
        var run := WitnessNext(power, t.run, reading, daily.value, now);
        if WitnessConfirms(run) then
          Checked(t.(acceptedAt := Some(now), held := None, run := None, snapshot := None), Some(reading))
        else Checked(hold.(run := Some(run)), Some(baseline))
  }

  /** A device total with its offset added. A read of 0 is left alone: it is a glitch. */
  function WithOffset(offset: Option<real>, reading: Option<real>): Option<real> {
    if offset.Some? && reading.Some? && reading.value > 0.0 then Some(reading.value + offset.value) else reading
  }

  /** Where a change of offsets moves one total to, if it moves. */
  function MovedTo(before: real, after: real, baseline: Option<real>, device: Option<real>): Option<real> {
    if after == before || baseline.None? then None
    else if device.Some? && device.value > 0.0 then Some(device.value + after)
    else Some(baseline.value + after - before)
  }

  /** What is remembered of a total that a change of offsets moved. */
  function Moved(t: Tally, baseline: real, moved: real, now: Time): Tally {
    Tally(Some(now), None, None, None,
          if t.snapshot.Some? then Some(t.snapshot.value + moved - baseline) else None)
  }

  /** A total and what is remembered of it, once its offset has changed. */
  function OffsetChanged(t: Tally, before: real, after: real, baseline: Option<real>, device: Option<real>, now: Time)
    : Checked
  {
    var moved := MovedTo(before, after, baseline, device);
    if moved.None? then Checked(t, baseline) else Checked(Moved(t, baseline.value, moved.value, now), moved)
  }

  predicate ValidRawDaily(power: real, rawDaily: Option<real>, total: real, sinceMidnight: Time) {
    rawDaily.Some? && 0.0 <= rawDaily.value <= total && rawDaily.value <= Budget(power, 0, sinceMidnight)
  }

  datatype Daily = Daily(snapshot: Option<real>, today: Option<real>)

  /** A daily counter's snapshot and value, once a poll with this total is through. */
  function DailyFor(power: real, total: Option<real>, snapshot: Option<real>, reset: bool, rawDaily: Option<real>,
                    sinceMidnight: Time): Daily
  {
    if total.None? then Daily(if reset then None else snapshot, None)
    else
      var taken :=
        if !reset && snapshot.Some? then snapshot.value
        else if ValidRawDaily(power, rawDaily, total.value, sinceMidnight) then total.value - rawDaily.value
        else total.value;
      var kept := Min(taken, total.value);
      Daily(Some(kept), Some(total.value - kept))
  }

  /** The energy the house used, by the balance of the counters around it. */
  function HouseEnergy(solar: Option<real>, gridImport: Option<real>, discharged: Option<real>,
                       gridExport: Option<real>, charged: Option<real>): Option<real>
  {
    if solar.None? || gridImport.None? || discharged.None? || gridExport.None? || charged.None? then None
    else Some(solar.value + gridImport.value + discharged.value - gridExport.value - charged.value)
  }

  /** What a calculated value is published as. */
  function Clamped(current: Option<real>, last: Option<real>, acceptsDecrease: bool): Option<real> {
    if current.None? then None
    else
      var kept := if last.Some? && current.value < last.value && !acceptsDecrease then last.value else current.value;
      Some(Max(kept, 0.0))
  }

  lemma EveryCounterListed(c: Counter) returns (i: nat)
    ensures i < |COUNTERS| && COUNTERS[i] == c
  {
    match c {
      case GridImport => i := 0; assert COUNTERS[0] == c;
      case GridExport => i := 1; assert COUNTERS[1] == c;
      case BatCharged => i := 2; assert COUNTERS[2] == c;
      case BatDischarged => i := 3; assert COUNTERS[3] == c;
      case Solar => i := 4; assert COUNTERS[4] == c;
      case InverterAcIn => i := 5; assert COUNTERS[5] == c;
      case InverterAcOut => i := 6; assert COUNTERS[6] == c;
    }
  }

  class EnergyProcessor {
    var limits: map<Limit, real>
    var offsets: map<Counter, real>
    var acceptedAt: map<Counter, Time>
    var dailySnapshots: map<Counter, real>
    var lastRollover: Option<int>
    var firstReads: map<Counter, FirstRead>
    var witnessRuns: map<Counter, WitnessRun>
    var held: map<Counter, HeldTotal>

    constructor (limits: map<Limit, real>)
      ensures this.limits == limits && offsets == map[] && dailySnapshots == map[] && lastRollover == None
      ensures forall c :: TallyOf(c) == Tally(None, None, None, None, None)
    {
      this.limits := limits;
      offsets, acceptedAt, dailySnapshots, lastRollover := map[], map[], map[], None;
      firstReads, witnessRuns, held := map[], map[], map[];
    }

    function TallyOf(c: Counter): Tally
      reads this
    {
      Tally(Get(acceptedAt, c), Get(firstReads, c), Get(witnessRuns, c), Get(held, c), Get(dailySnapshots, c))
    }

    /** WithOffset, for each total. */
    method ApplyOffsets(raw: Data) returns (result: Data)
      ensures forall c :: Get(result, Total(c)) == WithOffset(Get(offsets, c), Get(raw, Total(c)))
      ensures forall k: Key :: !k.Total? ==> Get(result, k) == Get(raw, k)
    {
      result := raw;
      for i := 0 to |COUNTERS|
        invariant forall k: Key :: !k.Total? ==> Get(result, k) == Get(raw, k)
        invariant forall j :: 0 <= j < i ==>
                    Get(result, Total(COUNTERS[j]))
                    == WithOffset(Get(offsets, COUNTERS[j]), Get(raw, Total(COUNTERS[j])))
        invariant forall j :: i <= j < |COUNTERS| ==> Get(result, Total(COUNTERS[j])) == Get(raw, Total(COUNTERS[j]))
      {
        var c := COUNTERS[i];
        if c in offsets && Total(c) in result && result[Total(c)] > 0.0 {
          result := result[Total(c) := result[Total(c)] + offsets[c]];
        }
      }
      forall c: Counter
        ensures Get(result, Total(c)) == WithOffset(Get(offsets, c), Get(raw, Total(c)))
      {
        var i := EveryCounterListed(c);
      }
    }

    /** Tracks a total held at 0; tells whether its daily counter confirms it. */
    method DailyConfirms(c: Counter, total: real, daily: Option<real>, now: Time) returns (confirmed: bool)
      modifies this`witnessRuns
      ensures daily.None? ==> !confirmed && witnessRuns == old(witnessRuns) - {c}
      ensures daily.Some? ==>
                var run := WitnessNext(MaxPower(limits, c), Get(old(witnessRuns), c), total, daily.value, now);
                && confirmed == WitnessConfirms(run)
                && witnessRuns == if confirmed then old(witnessRuns) - {c} else old(witnessRuns)[c := run]
    {
      if daily.None? {
        witnessRuns := witnessRuns - {c};
        return false;
      }
      var run: WitnessRun;
      if c in witnessRuns && WitnessFollows(MaxPower(limits, c), witnessRuns[c], total, daily.value, now) {
        run := witnessRuns[c];
        run := run.(lastTotal := total, lastDaily := daily.value, lastSeen := now, count := run.count + 1);
      } else {
        run := WitnessRun(total, daily.value, total, daily.value, now, 1);
      }
      witnessRuns := witnessRuns[c := run];
      var dailyRise := run.lastDaily - run.firstDaily;
      if run.count >= WITNESS_MIN_READS && dailyRise >= WITNESS_MIN_RISE_KWH
         && RisesAgree(run.lastTotal - run.firstTotal, dailyRise) {
        witnessRuns := witnessRuns - {c};
        return true;
      }
      return false;
    }

    /** FirstReadFollows, on the fields: a read either confirms the kept one or replaces it. */
    method ConfirmsFirstRead(c: Counter, value: real, now: Time) returns (confirmed: bool)
      modifies this`firstReads
      ensures confirmed == FirstReadFollows(MaxPower(limits, c), Get(old(firstReads), c), value, now)
      ensures firstReads == if confirmed then old(firstReads) - {c} else old(firstReads)[c := FirstRead(value, now)]
    {
      if c in firstReads {
        var earlier := firstReads[c];
        if 0.0 <= value - earlier.value <= Budget(MaxPower(limits, c), earlier.at, now) {
          firstReads := firstReads - {c};
          return true;
        }
      }
      firstReads := firstReads[c := FirstRead(value, now)];
      return false;
    }

    /** A read against a baseline that was accepted. */
    method CheckAgainst(c: Counter, current: real, daily: Option<real>, baseline: real, accepted: Time, now: Time)
      returns (published: real)
      modifies this`acceptedAt, this`witnessRuns, this`held, this`dailySnapshots
      ensures Checked(TallyOf(c), Some(published))
           == CheckRise(MaxPower(limits, c), old(TallyOf(c)), current, daily, baseline, accepted, now)
      ensures forall d :: d != c ==> TallyOf(d) == old(TallyOf(d))
    {
      var rise := current - baseline;
      if rise < 0.0 || rise > Budget(MaxPower(limits, c), accepted, now) {
        if baseline == 0.0 && rise > 0.0 {
          var confirmed := DailyConfirms(c, current, daily, now);
          if confirmed {
            acceptedAt := acceptedAt[c := now];
            held := held - {c};
            dailySnapshots := dailySnapshots - {c};
            return current;
          }
        }
        held := held[c := HeldTotal(baseline, current, Get(acceptedAt, c))];
        return baseline;
      }
      acceptedAt := acceptedAt[c := now];
      held := held - {c};
      witnessRuns := witnessRuns - {c};
      return current;
    }

    /** A read while the published 0 has not been confirmed. */
    method CheckUnconfirmed(c: Counter, current: real, now: Time) returns (published: real)
      modifies this`acceptedAt, this`firstReads, this`held, this`dailySnapshots
      ensures Checked(TallyOf(c), Some(published))
           == CheckFirstRead(MaxPower(limits, c), old(TallyOf(c)), current, now)
      ensures forall d :: d != c ==> TallyOf(d) == old(TallyOf(d))
    {
      var confirmed := false;
      if current > 0.0 {
        confirmed := ConfirmsFirstRead(c, current, now);
      }
      published := 0.0;
      if confirmed {
        acceptedAt := acceptedAt[c := now];
        dailySnapshots := dailySnapshots - {c};
        published := current;
      }
      held := held - {c};
    }

    /** A counter restored without an acceptance time was accepted by the poll before. */
    method Date(c: Counter, baseline: Option<real>, previousTime: Option<Time>)
      modifies this`acceptedAt
      ensures TallyOf(c) == Dated(old(TallyOf(c)), baseline, previousTime)
      ensures forall d :: d != c ==> TallyOf(d) == old(TallyOf(d))
    {
      var unconfirmedZero := baseline == Some(0.0) && c !in acceptedAt;
      if baseline.Some? && previousTime.Some? && !unconfirmedZero && c !in acceptedAt {
        acceptedAt := acceptedAt[c := previousTime.value];
      }
    }

    /** Publishes the first value ever read; only one other than 0 counts as accepted. */
    method TakeFirst(c: Counter, reading: real, now: Time)
      modifies this`acceptedAt, this`held
      ensures TallyOf(c)
           == old(TallyOf(c)).(acceptedAt := if reading != 0.0 then Some(now) else old(TallyOf(c)).acceptedAt,
                               held := None)
      ensures forall d :: d != c ==> TallyOf(d) == old(TallyOf(d))
    {
      if reading != 0.0 {
        acceptedAt := acceptedAt[c := now];
      }
      held := held - {c};
    }

    /** Validates one lifetime counter, as the loop over them does. */
    method ValidateOne(c: Counter, reading: Option<real>, daily: Option<real>, baseline: Option<real>,
                       previousTime: Option<Time>, now: Time) returns (published: Option<real>)
      modifies this`acceptedAt, this`firstReads, this`witnessRuns, this`held, this`dailySnapshots
      ensures Checked(TallyOf(c), published)
           == Check(MaxPower(limits, c), old(TallyOf(c)), reading, daily, baseline, previousTime, now)
      ensures forall d :: d != c ==> TallyOf(d) == old(TallyOf(d))
    {
      var unconfirmedZero := baseline == Some(0.0) && c !in acceptedAt;
      Date(c, baseline, previousTime);
      if reading.None? {
        return baseline;
      }
      if baseline.None? {
        TakeFirst(c, reading.value, now);
        return reading;
      }
      var value: real;
      if unconfirmedZero {
        value := CheckUnconfirmed(c, reading.value, now);
      } else if c !in acceptedAt {
        acceptedAt := acceptedAt[c := now];
        value := reading.value;
      } else {
        value := CheckAgainst(c, reading.value, daily, baseline.value, acceptedAt[c], now);
      }
      published := Some(value);
    }

    /** Validates all lifetime counters of a poll against the data of the one before. */
    method ValidateTotals(raw: Data, previous: Data, previousTime: Option<Time>, now: Time) returns (result: Data)
      modifies this`acceptedAt, this`firstReads, this`witnessRuns, this`held, this`dailySnapshots
      ensures previousTime.Some? && now - previousTime.value < SECOND ==>
                && result == previous
                && forall c :: TallyOf(c) == old(TallyOf(c))
      ensures !(previousTime.Some? && now - previousTime.value < SECOND) ==>
                && (forall k: Key :: !k.Total? ==> Get(result, k) == Get(raw, k))
                && forall c :: Checked(TallyOf(c), Get(result, Total(c)))
                            == Check(MaxPower(limits, c), old(TallyOf(c)), Get(raw, Total(c)), Get(raw, Today(c)),
                                     Get(previous, Total(c)), previousTime, now)
    {
      if previousTime.Some? && now - previousTime.value < SECOND {
        return previous;
      }
      result := raw;
      ghost var done: set<Counter> := {};
      for i := 0 to |COUNTERS|
        invariant forall j :: 0 <= j < |COUNTERS| ==> (COUNTERS[j] in done <==> j < i)
        invariant forall k: Key :: !k.Total? ==> Get(result, k) == Get(raw, k)
        invariant forall c :: c !in done ==>
                    TallyOf(c) == old(TallyOf(c)) && Get(result, Total(c)) == Get(raw, Total(c))
        invariant forall c :: c in done ==>
                    Checked(TallyOf(c), Get(result, Total(c)))
                    == Check(MaxPower(limits, c), old(TallyOf(c)), Get(raw, Total(c)), Get(raw, Today(c)),
                             Get(previous, Total(c)), previousTime, now)
      {
        var c := COUNTERS[i];
        var published :=
          ValidateOne(c, Get(raw, Total(c)), Get(raw, Today(c)), Get(previous, Total(c)), previousTime, now);
        result := Put(result, Total(c), published);
        done := done + {c};
      }
      forall c: Counter
        ensures c in done
      {
        var i := EveryCounterListed(c);
      }
    }

    /** Switches to new offsets, moving the totals whose offset changed. */
    method ChangeOffsets(changed: map<Counter, real>, last: Data, now: Time) returns (result: Data)
      modifies this`offsets, this`acceptedAt, this`firstReads, this`witnessRuns, this`held, this`dailySnapshots
      ensures offsets == changed
      ensures forall k: Key :: !k.Total? ==> Get(result, k) == Get(last, k)
      ensures forall c :: Checked(TallyOf(c), Get(result, Total(c)))
                       == OffsetChanged(old(TallyOf(c)), Get(old(offsets), c).GetOr(0.0), Get(changed, c).GetOr(0.0),
                                        Get(last, Total(c)), Get(last, TotalRaw(c)), now)
    {
      result := last;
      ghost var done: set<Counter> := {};
      for i := 0 to |COUNTERS|
        invariant offsets == old(offsets)
        invariant forall j :: 0 <= j < |COUNTERS| ==> (COUNTERS[j] in done <==> j < i)
        invariant forall k: Key :: !k.Total? ==> Get(result, k) == Get(last, k)
        invariant forall c :: c !in done ==>
                    TallyOf(c) == old(TallyOf(c)) && Get(result, Total(c)) == Get(last, Total(c))
        invariant forall c :: c in done ==>
                    Checked(TallyOf(c), Get(result, Total(c)))
                    == OffsetChanged(old(TallyOf(c)), Get(old(offsets), c).GetOr(0.0), Get(changed, c).GetOr(0.0),
                                     Get(last, Total(c)), Get(last, TotalRaw(c)), now)
      {
        var c := COUNTERS[i];
        result := ChangeOffset(c, Get(offsets, c).GetOr(0.0), Get(changed, c).GetOr(0.0), result, now);
        done := done + {c};
      }
      forall c: Counter
        ensures c in done
      {
        var i := EveryCounterListed(c);
      }
      offsets := changed;
    }

    method ChangeOffset(c: Counter, before: real, after: real, data: Data, now: Time) returns (result: Data)
      modifies this`acceptedAt, this`firstReads, this`witnessRuns, this`held, this`dailySnapshots
      ensures forall k :: k != Total(c) ==> Get(result, k) == Get(data, k)
      ensures forall d :: d != c ==> TallyOf(d) == old(TallyOf(d))
      ensures Checked(TallyOf(c), Get(result, Total(c)))
           == OffsetChanged(old(TallyOf(c)), before, after, Get(data, Total(c)), Get(data, TotalRaw(c)), now)
    {
      result := data;
      if after == before || Total(c) !in data {
        return;
      }
      var baseline := data[Total(c)];
      var moved := if TotalRaw(c) in data && data[TotalRaw(c)] > 0.0
                   then data[TotalRaw(c)] + after else baseline + after - before;
      assert MovedTo(before, after, Get(data, Total(c)), Get(data, TotalRaw(c))) == Some(moved);
      result := Put(result, Total(c), Some(moved));
      MoveTally(c, baseline, moved, now);
    }

    /** Accepts a total where its offset moved it, and moves its snapshot along. */
    method MoveTally(c: Counter, baseline: real, moved: real, now: Time)
      modifies this`acceptedAt, this`firstReads, this`witnessRuns, this`held, this`dailySnapshots
      ensures TallyOf(c) == Moved(old(TallyOf(c)), baseline, moved, now)
      ensures forall d :: d != c ==> TallyOf(d) == old(TallyOf(d))
    {
      if c in dailySnapshots {
        dailySnapshots := dailySnapshots[c := dailySnapshots[c] + moved - baseline];
      }
      acceptedAt := acceptedAt[c := now];
      held := held - {c};
      firstReads := firstReads - {c};
      witnessRuns := witnessRuns - {c};
    }

    /** Whether the local calendar day advanced since the last rollover. */
    method ShouldRollDailySnapshots(day: int) returns (roll: bool)
      modifies this`lastRollover
      ensures roll == (old(lastRollover).Some? && day > old(lastRollover).value)
      ensures lastRollover == if roll || old(lastRollover).None? then Some(day) else old(lastRollover)
    {
      if lastRollover.None? {
        lastRollover := Some(day);
        return false;
      }
      if day > lastRollover.value {
        lastRollover := Some(day);
        return true;
      }
      return false;
    }

    /** DailyFor, for each counter, with the day turned at most once. */
    method DeriveDaily(data: Data, day: int, sinceMidnight: Time) returns (result: Data, isReset: bool)
      modifies this`dailySnapshots, this`lastRollover
      ensures isReset == (old(lastRollover).Some? && day > old(lastRollover).value)
      ensures lastRollover == if isReset || old(lastRollover).None? then Some(day) else old(lastRollover)
      ensures forall k: Key :: !k.Today? ==> Get(result, k) == Get(data, k)
      ensures forall c :: Daily(Get(dailySnapshots, c), Get(result, Today(c)))
                       == DailyFor(MaxPower(limits, c), Get(data, Total(c)), Get(old(dailySnapshots), c), isReset,
                                   Get(data, TodayRaw(c)), sinceMidnight)
    {
      result := data;
      isReset := ShouldRollDailySnapshots(day);
      ghost var done: set<Counter> := {};
      for i := 0 to |COUNTERS|
        invariant lastRollover == if isReset || old(lastRollover).None? then Some(day) else old(lastRollover)
        invariant forall j :: 0 <= j < |COUNTERS| ==> (COUNTERS[j] in done <==> j < i)
        invariant forall k: Key :: !k.Today? ==> Get(result, k) == Get(data, k)
        invariant forall c :: c !in done ==> Get(dailySnapshots, c) == Get(old(dailySnapshots), c)
        invariant forall c :: c in done ==>
                    Daily(Get(dailySnapshots, c), Get(result, Today(c)))
                    == DailyFor(MaxPower(limits, c), Get(data, Total(c)), Get(old(dailySnapshots), c), isReset,
                                Get(data, TodayRaw(c)), sinceMidnight)
      {
        var c := COUNTERS[i];
        result := DeriveOne(c, result, isReset, sinceMidnight);
        done := done + {c};
      }
      forall c: Counter
        ensures c in done
      {
        var i := EveryCounterListed(c);
      }
    }

    method DeriveOne(c: Counter, data: Data, isReset: bool, sinceMidnight: Time) returns (result: Data)
      modifies this`dailySnapshots
      ensures forall k :: k != Today(c) ==> Get(result, k) == Get(data, k)
      ensures forall d :: d != c ==> Get(dailySnapshots, d) == Get(old(dailySnapshots), d)
      ensures Daily(Get(dailySnapshots, c), Get(result, Today(c)))
           == DailyFor(MaxPower(limits, c), Get(data, Total(c)), Get(old(dailySnapshots), c), isReset,
                       Get(data, TodayRaw(c)), sinceMidnight)
    {
      result := data;
      if Total(c) !in data {
        result := Put(result, Today(c), None);
        if isReset {
          dailySnapshots := dailySnapshots - {c};
        }
        return;
      }
      var total := data[Total(c)];
      var snapshot: real;
      if isReset || c !in dailySnapshots {
        var rawDaily := Get(data, TodayRaw(c));
        if ValidRawDaily(MaxPower(limits, c), rawDaily, total, sinceMidnight) {
          snapshot := total - rawDaily.value;
        } else {
          snapshot := total;
        }
      } else {
        snapshot := dailySnapshots[c];
      }
      snapshot := Min(snapshot, total);
      dailySnapshots := dailySnapshots[c := snapshot];
      result := Put(result, Today(c), Some(total - snapshot));
    }

    /** Keeps the calculated values monotonic between resets, and never negative. */
    static method ClampCalculated(data: Data, previous: Data, isReset: bool) returns (result: Data)
      ensures forall k :: k != HouseTotal && k != HouseToday ==> Get(result, k) == Get(data, k)
      ensures Get(result, HouseToday) == Clamped(Get(data, HouseToday), Get(previous, HouseToday), isReset)
      ensures Get(result, HouseTotal) == Clamped(Get(data, HouseTotal), Get(previous, HouseTotal), false)
    {
      var today := ClampOne(HouseToday, data, previous, isReset);
      result := ClampOne(HouseTotal, today, previous, false);
      assert Get(result, HouseToday) == Get(today, HouseToday);
      assert Get(today, HouseTotal) == Get(data, HouseTotal);
    }

    static method ClampOne(key: Key, data: Data, previous: Data, acceptsDecrease: bool) returns (result: Data)
      ensures forall k :: k != key ==> Get(result, k) == Get(data, k)
      ensures Get(result, key) == Clamped(Get(data, key), Get(previous, key), acceptsDecrease)
    {
      result := data;
      if key in data {
        var guarded: real := data[key];
        if key in previous && guarded < previous[key] && !acceptsDecrease {
          guarded := previous[key];
        }
        result := Put(result, key, Some(Max(guarded, 0.0)));
      }
    }
  }
}
