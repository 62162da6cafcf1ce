/**
 One poll of the coordinator's energy pipeline (coordinator.py, telemetry.py): offsets,
 validation, daily counters, the house balance, the clamp, and what is remembered.
 */
module EnergyPipeline {
  import opened Base
  import opened Energy
  import opened EnergyRuns

  class Coordinator {
    const processor: EnergyProcessor
    var lastCheckedData: Data
    var lastCheckedTime: Option<Time>

    constructor (processor: EnergyProcessor)
      ensures this.processor == processor && lastCheckedData == map[] && lastCheckedTime == None
    {
      this.processor := processor;
      lastCheckedData, lastCheckedTime := map[], None;
    }

    /** A total as published last, with what the processor remembers of it. */
    function TrackOf(c: Counter): Track
      reads this, processor
    {
      Track(processor.TallyOf(c), Get(lastCheckedData, Total(c)), lastCheckedTime)
    }

    /** What a poll's raw data says of a total, offset included. */
    function ReadOf(p: Poll, c: Counter): Read
      reads processor
    {
      TotalRead(processor.offsets, processor.limits, p, c)
    }

    /** All that one poll hands on to the next. */
    function State(): Pipeline
      reads this, processor
    {
      Pipeline(map c: Counter | c in ALL_COUNTERS :: Counting(TrackOf(c), Get(lastCheckedData, Today(c))),
               Get(lastCheckedData, HouseTotal), Get(lastCheckedData, HouseToday),
               processor.lastRollover, processor.offsets, processor.limits)
    }

    /** One poll: the totals are validated, the rest is made from them, and all of it is
        remembered for the next poll. */
    method UpdateData(raw: Data, now: Time, checkedAt: Time, day: int, sinceMidnight: Time, sized: Option<Sizes>)
      modifies this`lastCheckedData, this`lastCheckedTime, processor`acceptedAt, processor`firstReads,
               processor`witnessRuns, processor`held, processor`dailySnapshots, processor`lastRollover,
               processor`limits
      ensures State() == NextPipeline(old(State()), Poll(raw, now, checkedAt, day, sinceMidnight, sized))
      ensures lastCheckedTime == Some(checkedAt)
      ensures forall c :: Get(lastCheckedData, TotalRaw(c)) == Get(raw, Total(c))
    {
      SizeBatteryLimits(sized);
      var poll := Poll(raw, now, checkedAt, day, sinceMidnight, sized);
      ghost var before := State();
      UpdateCounters(poll, before);
      StateIs();
      CountersAgree(before, State(), poll);
    }

    /** The limits are the processor's own, so they are resized for it too. */
    method SizeBatteryLimits(sized: Option<Sizes>)
      modifies processor`limits
      ensures processor.limits == Sized(old(processor.limits), sized)
      ensures State() == old(State()).(limits := processor.limits)
    {
      if sized.Some? {
        processor.limits := processor.limits[MaxChargedPower := sized.value.charged];
        processor.limits := processor.limits[MaxDischargedPower := sized.value.discharged];
      }
    }

    lemma StateIs()
      ensures forall c :: State().At(c) == Counting(TrackOf(c), Get(lastCheckedData, Today(c)))
      ensures BalanceOf(State().counters) == HouseBalance(lastCheckedData)
      ensures UseTodayOf(State().counters) == HouseUseToday(lastCheckedData)
    {
      forall c
        ensures State().At(c) == Counting(TrackOf(c), Get(lastCheckedData, Today(c)))
      {
        AllCounters(c);
      }
    }

    /** What UpdateData does, counter by counter. */
    method UpdateCounters(p: Poll, ghost before: Pipeline)
      requires before == State()
      modifies this`lastCheckedData, this`lastCheckedTime, processor`acceptedAt, processor`firstReads,
               processor`witnessRuns, processor`held, processor`dailySnapshots, processor`lastRollover
      ensures lastCheckedTime == Some(p.checkedAt)
      ensures processor.lastRollover == RolledOver(before.lastRollover, p.day)
      ensures forall c :: Counting(TrackOf(c), Get(lastCheckedData, Today(c))) == PollCounter(before, p, c)
      ensures forall c :: Get(lastCheckedData, TotalRaw(c)) == Get(p.raw, Total(c))
      ensures Get(lastCheckedData, HouseTotal) == Clamped(HouseBalance(lastCheckedData), before.house, false)
      ensures Get(lastCheckedData, HouseToday)
           == Clamped(HouseUseToday(lastCheckedData), before.houseToday, DayTurned(before.lastRollover, p.day))
    {
      StateIs();
      UpdateTracks(p);
      forall c
        ensures Counting(TrackOf(c), Get(lastCheckedData, Today(c))) == PollCounter(before, p, c)
      {
        assert before.At(c).track == old(TrackOf(c));
        assert DayPollOf(before, p, c) == old(DayPollNow(p, c));
      }
    }

    /** What a poll is for one total, by what is set and remembered now. */
    function DayPollNow(p: Poll, c: Counter): DayPoll
      reads processor
    {
      DayPoll(ReadOf(p, c), DayTurned(processor.lastRollover, p.day), p.sinceMidnight)
    }

    method UpdateTracks(p: Poll)
      modifies this`lastCheckedData, this`lastCheckedTime, processor`acceptedAt, processor`firstReads,
               processor`witnessRuns, processor`held, processor`dailySnapshots, processor`lastRollover
      ensures lastCheckedTime == Some(p.checkedAt)
      ensures processor.lastRollover == RolledOver(old(processor.lastRollover), p.day)
      ensures forall c :: Counting(TrackOf(c), Get(lastCheckedData, Today(c)))
                       == Counted(old(TrackOf(c)), old(DayPollNow(p, c)))
      ensures forall c :: Get(lastCheckedData, TotalRaw(c)) == Get(p.raw, Total(c))
      ensures Get(lastCheckedData, HouseTotal)
           == Clamped(HouseBalance(lastCheckedData), Get(old(lastCheckedData), HouseTotal), false)
      ensures Get(lastCheckedData, HouseToday)
           == Clamped(HouseUseToday(lastCheckedData), Get(old(lastCheckedData), HouseToday),
                      DayTurned(old(processor.lastRollover), p.day))
    {
      var validated := ValidatePoll(p);
      lastCheckedData := DeriveRest(validated, p.raw, p.day, p.sinceMidnight);
      lastCheckedTime := Some(p.checkedAt);
    }

    /** What is made from the validated totals. */
    method DeriveRest(validated: Data, raw: Data, day: int, sinceMidnight: Time) returns (result: Data)
      modifies processor`dailySnapshots, processor`lastRollover
      ensures processor.lastRollover == RolledOver(old(processor.lastRollover), day)
      ensures forall c :: processor.TallyOf(c)
                       == old(processor.TallyOf(c)).(snapshot := Get(processor.dailySnapshots, c))
      ensures forall c :: Get(result, Total(c)) == Get(validated, Total(c))
      ensures forall c :: Get(result, TotalRaw(c)) == Get(raw, Total(c))
      ensures forall c :: Daily(Get(processor.dailySnapshots, c), Get(result, Today(c)))
                       == DailyFor(MaxPower(processor.limits, c), Get(validated, Total(c)),
                                   Get(old(processor.dailySnapshots), c),
                                   DayTurned(old(processor.lastRollover), day), Get(raw, Today(c)), sinceMidnight)
      ensures Get(result, HouseTotal) == Clamped(HouseBalance(validated), Get(lastCheckedData, HouseTotal), false)
      ensures Get(result, HouseToday)
           == Clamped(HouseUseToday(result), Get(lastCheckedData, HouseToday),
                      DayTurned(old(processor.lastRollover), day))
    {
      var derived, isReset := DeriveCounters(validated, raw, day, sinceMidnight);
      result := CalculateHouse(derived, isReset);
    }

    /** The daily counters, made from the totals and the device's own registers. */
    method DeriveCounters(validated: Data, raw: Data, day: int, sinceMidnight: Time)
      returns (result: Data, isReset: bool)
      modifies processor`dailySnapshots, processor`lastRollover
      ensures isReset == DayTurned(old(processor.lastRollover), day)
      ensures processor.lastRollover == RolledOver(old(processor.lastRollover), day)
      ensures forall c :: Get(result, Total(c)) == Get(validated, Total(c))
      ensures HouseBalance(result) == HouseBalance(validated)
      ensures forall c :: Get(result, TotalRaw(c)) == Get(raw, Total(c))
      ensures forall c :: Daily(Get(processor.dailySnapshots, c), Get(result, Today(c)))
                       == DailyFor(MaxPower(processor.limits, c), Get(validated, Total(c)),
                                   Get(old(processor.dailySnapshots), c), isReset, Get(raw, Today(c)), sinceMidnight)
    {
      var echoed := EchoRaw(validated, raw);
      result, isReset := processor.DeriveDaily(echoed, day, sinceMidnight);
      TotalsKept(validated, echoed, result);
    }

    method ValidatePoll(p: Poll) returns (validated: Data)
      modifies processor`acceptedAt, processor`firstReads, processor`witnessRuns, processor`held,
               processor`dailySnapshots
      ensures forall c :: (var next := Next(old(TrackOf(c)), old(ReadOf(p, c)));
                           Get(validated, Total(c)) == next.baseline && processor.TallyOf(c) == next.tally)
    {
      var withOffsets := processor.ApplyOffsets(p.raw);
      validated := processor.ValidateTotals(withOffsets, lastCheckedData, lastCheckedTime, p.now);
    }

    /** Works out the house's energy and keeps it from falling. */
    method CalculateHouse(data: Data, isReset: bool) returns (result: Data)
      ensures forall c :: Get(result, Total(c)) == Get(data, Total(c))
      ensures forall c :: Get(result, Today(c)) == Get(data, Today(c))
      ensures forall c :: Get(result, TotalRaw(c)) == Get(data, TotalRaw(c))
      ensures Get(result, HouseTotal) == Clamped(HouseBalance(data), Get(lastCheckedData, HouseTotal), false)
      ensures Get(result, HouseToday) == Clamped(HouseUseToday(data), Get(lastCheckedData, HouseToday), isReset)
    {
      var calculated := AddHouse(data);
      result := EnergyProcessor.ClampCalculated(calculated, lastCheckedData, isReset);
    }

    static method AddHouse(data: Data) returns (result: Data)
      ensures forall k :: k != HouseTotal && k != HouseToday ==> Get(result, k) == Get(data, k)
      ensures Get(result, HouseTotal) == HouseBalance(data) && Get(result, HouseToday) == HouseUseToday(data)
    {
      var withToday := Put(data, HouseToday, HouseUseToday(data));
      result := Put(withToday, HouseTotal, HouseBalance(data));
      assert Get(result, HouseToday) == Get(withToday, HouseToday);
    }

    /** Echoes the device's own registers next to the values made from them. */
    static method EchoRaw(data: Data, raw: Data) returns (result: Data)
      ensures forall k: Key :: !k.TotalRaw? && !k.TodayRaw? ==> Get(result, k) == Get(data, k)
      ensures forall c :: Get(result, TotalRaw(c)) == Get(raw, Total(c))
                       && Get(result, TodayRaw(c)) == Get(raw, Today(c))
    {
      result := data;
      ghost var done: set<Counter> := {};
      for i := 0 to |COUNTERS|
        invariant forall j :: 0 <= j < |COUNTERS| ==> (COUNTERS[j] in done <==> j < i)
        invariant forall k: Key :: !k.TotalRaw? && !k.TodayRaw? ==> Get(result, k) == Get(data, k)
        invariant forall c :: c in done ==>
                    Get(result, TotalRaw(c)) == Get(raw, Total(c)) && Get(result, TodayRaw(c)) == Get(raw, Today(c))
      {
        var c := COUNTERS[i];
        result := Put(result, TotalRaw(c), Get(raw, Total(c)));
        result := Put(result, TodayRaw(c), Get(raw, Today(c)));
        done := done + {c};
      }
      forall c: Counter
        ensures c in done
      {
        var i := EveryCounterListed(c);
      }
    }
  }

  /** Whether the calendar day has advanced since the last rollover. */
  predicate DayTurned(lastRollover: Option<int>, day: int) {
    lastRollover.Some? && day > lastRollover.value
  }

  function RolledOver(lastRollover: Option<int>, day: int): Option<int> {
    if DayTurned(lastRollover, day) || lastRollover.None? then Some(day) else lastRollover
  }

  /** Steps that leave the totals alone leave the house's balance alone. */
  lemma TotalsKept(a: Data, b: Data, c: Data)
    requires forall k: Key :: k.Total? ==> Get(b, k) == Get(a, k)
    requires forall k: Key :: k.Total? ==> Get(c, k) == Get(b, k)
    ensures forall counter :: Get(c, Total(counter)) == Get(a, Total(counter))
    ensures HouseBalance(c) == HouseBalance(a)
  {
  }

  /** The house's lifetime energy by the totals of a poll. */
  function HouseBalance(data: Data): Option<real> {
    HouseEnergy(Get(data, Total(Solar)), Get(data, Total(GridImport)), Get(data, Total(BatDischarged)),
                Get(data, Total(GridExport)), Get(data, Total(BatCharged)))
  }

  /** The house's energy since midnight by the daily counters of a poll. */
  function HouseUseToday(data: Data): Option<real> {
    HouseEnergy(Get(data, Today(Solar)), Get(data, Today(GridImport)), Get(data, Today(BatDischarged)),
                Get(data, Today(GridExport)), Get(data, Today(BatCharged)))
  }

  // ---------------------------------------------------------------------------
  // One poll, as values
  // ---------------------------------------------------------------------------

  const ALL_COUNTERS: set<Counter> :=
    {GridImport, GridExport, BatCharged, BatDischarged, Solar, InverterAcIn, InverterAcOut}

  lemma AllCounters(c: Counter)
    ensures c in ALL_COUNTERS
  {
    match c
    case GridImport =>
    case _ =>
  }

  /** What a poll of the coordinator is given. */
  datatype Poll = Poll(raw: Data, now: Time, checkedAt: Time, day: int, sinceMidnight: Time, sized: Option<Sizes>)

  /** The battery's power limits by the capacity a poll reads, where it reads a plausible
      one. */
  datatype Sizes = Sizes(charged: real, discharged: real)

  function Sized(limits: map<Limit, real>, sized: Option<Sizes>): map<Limit, real> {
    match sized
    case None => limits
    case Some(s) => limits[MaxChargedPower := s.charged][MaxDischargedPower := s.discharged]
  }

  /** What a poll's raw data says of a total, offset included. */
  function TotalRead(offsets: map<Counter, real>, limits: map<Limit, real>, p: Poll, c: Counter): Read {
    Read(WithOffset(Get(offsets, c), Get(p.raw, Total(c))), Get(p.raw, Today(c)), p.now, p.checkedAt,
         MaxPower(limits, c))
  }

  /** A poll of one total: its read, whether the day turned, and the time since midnight. */
  datatype DayPoll = DayPoll(read: Read, reset: bool, sinceMidnight: Time)

  /** A total as published last, with the daily counter made from it. */
  datatype Counting = Counting(track: Track, today: Option<real>)

  /** One poll of a total and its daily counter. */
  function Counted(t: Track, p: DayPoll): Counting {
    var n := Next(t, p.read);
    var d := DailyFor(p.read.power, n.baseline, n.tally.snapshot, p.reset, p.read.daily, p.sinceMidnight);
    Counting(n.(tally := n.tally.(snapshot := d.snapshot)), d.today)
  }

  const NEVER_READ := Counting(Track(Tally(None, None, None, None, None), None, None), None)

  /** All that one poll hands on to the next. */
  datatype Pipeline = Pipeline(
    counters: map<Counter, Counting>,
    house: Option<real>,
    houseToday: Option<real>,
    lastRollover: Option<int>,
    offsets: map<Counter, real>,
    limits: map<Limit, real>)
  {
    function At(c: Counter): Counting {
      CountingOf(counters, c)
    }

    function Balance(): Option<real> {
      BalanceOf(counters)
    }
  }

  function CountingOf(counters: map<Counter, Counting>, c: Counter): Counting {
    if c in counters then counters[c] else NEVER_READ
  }

  function BalanceOf(counters: map<Counter, Counting>): Option<real> {
    HouseEnergy(CountingOf(counters, Solar).track.baseline, CountingOf(counters, GridImport).track.baseline,
                CountingOf(counters, BatDischarged).track.baseline, CountingOf(counters, GridExport).track.baseline,
                CountingOf(counters, BatCharged).track.baseline)
  }

  function UseTodayOf(counters: map<Counter, Counting>): Option<real> {
    HouseEnergy(CountingOf(counters, Solar).today, CountingOf(counters, GridImport).today,
                CountingOf(counters, BatDischarged).today, CountingOf(counters, GridExport).today,
                CountingOf(counters, BatCharged).today)
  }

  /** What one poll of the pipeline is for one total. */
  function DayPollOf(s: Pipeline, p: Poll, c: Counter): DayPoll {
    DayPoll(TotalRead(s.offsets, s.limits, p, c), DayTurned(s.lastRollover, p.day), p.sinceMidnight)
  }

  function PollCounter(s: Pipeline, p: Poll, c: Counter): Counting {
    Counted(s.At(c).track, DayPollOf(s, p, c))
  }

  /** One poll of the pipeline: UpdateData does this. */
  function NextPipeline(s: Pipeline, p: Poll): Pipeline {
    NextSized(s.(limits := Sized(s.limits, p.sized)), p)
  }

  /** The poll once the limits are sized. */
  function NextSized(s: Pipeline, p: Poll): Pipeline {
    var counters := map c: Counter | c in ALL_COUNTERS :: PollCounter(s, p, c);
    Pipeline(counters, Clamped(BalanceOf(counters), s.house, false),
             Clamped(UseTodayOf(counters), s.houseToday, DayTurned(s.lastRollover, p.day)),
             RolledOver(s.lastRollover, p.day), s.offsets, s.limits)
  }

  lemma NextAt(s: Pipeline, p: Poll, c: Counter)
    ensures NextPipeline(s, p).At(c) == PollCounter(s.(limits := Sized(s.limits, p.sized)), p, c)
  {
    AllCounters(c);
  }

  lemma CountersAgree(before: Pipeline, after: Pipeline, p: Poll)
    requires forall c :: after.At(c) == PollCounter(before, p, c)
    requires after.counters.Keys == ALL_COUNTERS
    requires after.lastRollover == RolledOver(before.lastRollover, p.day)
    requires after.offsets == before.offsets && after.limits == before.limits
    requires after.house == Clamped(BalanceOf(after.counters), before.house, false)
    requires after.houseToday
          == Clamped(UseTodayOf(after.counters), before.houseToday, DayTurned(before.lastRollover, p.day))
    ensures after == NextSized(before, p)
  {
    forall c | c in ALL_COUNTERS
      ensures after.counters[c] == NextSized(before, p).counters[c]
    {
      assert after.At(c) == PollCounter(before, p, c);
    }
    assert after.counters == NextSized(before, p).counters;
  }

  // ---------------------------------------------------------------------------
  // The house total over runs
  // ---------------------------------------------------------------------------

  function RunPipeline(s: Pipeline, polls: seq<Poll>): Pipeline
    decreases |polls|
  {
    if polls == [] then s else RunPipeline(NextPipeline(s, polls[0]), polls[1..])
  }

  /** The energy balance after each poll of a run. */
  function Balances(s: Pipeline, polls: seq<Poll>): seq<Option<real>>
    decreases |polls|
  {
    if polls == [] then []
    else var next := NextPipeline(s, polls[0]); [next.Balance()] + Balances(next, polls[1..])
  }

  /** The largest of a value and a run of known ones. */
  function Peak(from: real, balances: seq<Option<real>>): real
    decreases |balances|
  {
    if balances == [] then from else Peak(Max(from, balances[0].GetOr(from)), balances[1..])
  }

  /** A total that has been read stays published. */
  lemma ReadStaysKnown(t: Track, p: DayPoll)
    requires t.baseline.Some?
    ensures Counted(t, p).track.baseline.Some?
  {
  }

  lemma BalanceStaysKnown(s: Pipeline, p: Poll)
    requires s.Balance().Some?
    ensures NextPipeline(s, p).Balance().Some?
  {
    forall c | s.At(c).track.baseline.Some?
      ensures NextPipeline(s, p).At(c).track.baseline.Some?
    {
      NextAt(s, p, c);
      ReadStaysKnown(s.At(c).track, DayPollOf(s.(limits := Sized(s.limits, p.sized)), p, c));
    }
    forall c
      ensures NextPipeline(s, p).At(c) == CountingOf(NextPipeline(s, p).counters, c)
    {
    }
  }

  /** The house total over a run of balances. */
  function HouseOver(house: Option<real>, balances: seq<Option<real>>): Option<real>
    decreases |balances|
  {
    if balances == [] then house else HouseOver(Clamped(balances[0], house, false), balances[1..])
  }

  lemma {:induction false} HouseFollowsBalances(s: Pipeline, polls: seq<Poll>)
    ensures RunPipeline(s, polls).house == HouseOver(s.house, Balances(s, polls))
    decreases |polls|
  {
    if polls != [] {
      var next := NextPipeline(s, polls[0]);
      HouseFollowsBalances(next, polls[1..]);
      assert next.house == Clamped(next.Balance(), s.house, false);
      assert Balances(s, polls)[1..] == Balances(next, polls[1..]);
    }
  }

  predicate AllKnown(balances: seq<Option<real>>) {
    forall b :: b in balances ==> b.Some?
  }

  lemma {:induction false} BalancesStayKnown(s: Pipeline, polls: seq<Poll>)
    requires s.Balance().Some?
    ensures AllKnown(Balances(s, polls)) && |Balances(s, polls)| == |polls|
    decreases |polls|
  {
    if polls != [] {
      var next := NextPipeline(s, polls[0]);
      BalanceStaysKnown(s, polls[0]);
      BalancesStayKnown(next, polls[1..]);
      assert Balances(s, polls) == [next.Balance()] + Balances(next, polls[1..]);
    }
  }

  lemma {:induction false} HouseOverIsPeak(house: Option<real>, balances: seq<Option<real>>)
    requires AllKnown(balances) && balances != []
    ensures HouseOver(house, balances) == Some(Peak(Max(house.GetOr(0.0), 0.0), balances))
    decreases |balances|
  {
    assert balances[0] in balances;
    if |balances| == 1 {
      assert balances[1..] == [];
    } else {
      assert AllKnown(balances[1..]);
      HouseOverIsPeak(Clamped(balances[0], house, false), balances[1..]);
    }
  }

  /** Once the five totals of the balance have been read, the house total is published by
      every poll, whatever goes missing or is held, and is the largest balance so far. */
  lemma HouseTotalIsPeak(s: Pipeline, polls: seq<Poll>)
    requires s.Balance().Some? && polls != []
    ensures AllKnown(Balances(s, polls))
    ensures RunPipeline(s, polls).house == Some(Peak(Max(s.house.GetOr(0.0), 0.0), Balances(s, polls)))
  {
    HouseFollowsBalances(s, polls);
    BalancesStayKnown(s, polls);
    HouseOverIsPeak(s.house, Balances(s, polls));
  }

  /** So it never falls and is never negative. */
  lemma HouseTotalNeverFalls(s: Pipeline, polls: seq<Poll>)
    requires s.Balance().Some? && s.house.Some?
    ensures RunPipeline(s, polls).house.Some? && RunPipeline(s, polls).house.value >= s.house.value
    ensures polls != [] ==> RunPipeline(s, polls).house.value >= 0.0
  {
    if polls != [] {
      HouseTotalIsPeak(s, polls);
      PeakIsAbove(Max(s.house.value, 0.0), Balances(s, polls));
    }
  }

  lemma {:induction false} PeakIsAbove(from: real, balances: seq<Option<real>>)
    ensures Peak(from, balances) >= from
    decreases |balances|
  {
    if balances != [] {
      PeakIsAbove(Max(from, balances[0].GetOr(from)), balances[1..]);
    }
  }

  lemma AcceptedIsChecked(t: Track, p: DayPoll, baseline: real, acceptedAt: Time, value: real)
    requires t.baseline == Some(baseline) && baseline > 0.0 && t.tally.acceptedAt == Some(acceptedAt)
    requires t.previousTime.Some? && t.previousTime.value + SECOND <= p.read.now && p.read.total == Some(value)
    ensures var n := Counted(t, p).track;
            && n.previousTime == Some(p.read.checkedAt)
            && n.baseline == Some(if 0.0 <= value - baseline <= Budget(p.read.power, acceptedAt, p.read.now) then value
                                  else baseline)
  {
  }

  /** What a poll leaves of an accepted total, told from its raw data: the reading with the
      user's offset, as far as the power limits it brings cover the rise. */
  lemma PollPublishesReading(s: Pipeline, p: Poll, c: Counter, baseline: real, acceptedAt: Time, reading: real)
    requires var t := s.At(c).track;
             && t.baseline == Some(baseline) && baseline > 0.0 && t.tally.acceptedAt == Some(acceptedAt)
             && t.previousTime.Some? && t.previousTime.value + SECOND <= p.now
    requires Get(p.raw, Total(c)) == Some(reading) && reading > 0.0
    ensures var n := NextPipeline(s, p);
            var value := if c in s.offsets then reading + s.offsets[c] else reading;
            && n.At(c).track.previousTime == Some(p.checkedAt)
            && n.At(c).track.baseline
               == Some(if 0.0 <= value - baseline <= Budget(MaxPower(n.limits, c), acceptedAt, p.now) then value
                       else baseline)
  {
    NextAt(s, p, c);
    var sized := s.(limits := Sized(s.limits, p.sized));
    AcceptedIsChecked(s.At(c).track, DayPollOf(sized, p, c), baseline, acceptedAt,
                      if c in s.offsets then reading + s.offsets[c] else reading);
  }

  /** The sizes a poll reads set the battery's limits, from this poll on, and no others. */
  lemma SizesSetLimits(s: Pipeline, p: Poll, limit: Limit)
    ensures Get(NextPipeline(s, p).limits, limit)
         == match p.sized
            case None => Get(s.limits, limit)
            case Some(sizes) =>
              if limit.MaxChargedPower? then Some(sizes.charged)
              else if limit.MaxDischargedPower? then Some(sizes.discharged) else Get(s.limits, limit)
  {
  }

  /** The house's total of a poll, by the totals the poll publishes around it. */
  lemma HouseIsTheBalance(s: Pipeline, p: Poll, solar: real, bought: real, discharged: real, sold: real, charged: real)
    requires var n := NextPipeline(s, p);
             && n.At(Solar).track.baseline == Some(solar)
             && n.At(GridImport).track.baseline == Some(bought) && n.At(GridExport).track.baseline == Some(sold)
             && n.At(BatDischarged).track.baseline == Some(discharged)
             && n.At(BatCharged).track.baseline == Some(charged)
    ensures var least := Max(0.0, s.house.GetOr(0.0));
            var balance := solar + bought + discharged - sold - charged;
            NextPipeline(s, p).house == Some(if balance >= least then balance else least)
  {
  }

  /** The house's use of today in one poll, by the daily counters the poll publishes. */
  lemma UseTodayIs(n: Pipeline, solar: real, bought: real, discharged: real, sold: real, charged: real)
    requires n.At(Solar).today == Some(solar)
    requires n.At(GridImport).today == Some(bought) && n.At(GridExport).today == Some(sold)
    requires n.At(BatDischarged).today == Some(discharged) && n.At(BatCharged).today == Some(charged)
    ensures UseTodayOf(n.counters) == Some(solar + bought + discharged - sold - charged)
  {
  }

  /** The house's daily use falls only on a new day, is never negative, and is otherwise what
      the balance says. */
  lemma HouseTodayIsKept(s: Pipeline, p: Poll, used: real)
    requires UseTodayOf(NextPipeline(s, p).counters) == Some(used)
    ensures var turned := s.lastRollover.Some? && p.day > s.lastRollover.value;
            var least := if turned then 0.0 else Max(0.0, s.houseToday.GetOr(0.0));
            NextPipeline(s, p).houseToday == Some(if used >= least then used else least)
  {
  }

  /** A day is turned over once, and no clock that goes back turns it over again. */
  lemma RolloverIsLatestDay(lastRollover: Option<int>, day: int)
    ensures RolledOver(lastRollover, day)
         == Some(if lastRollover.Some? && lastRollover.value >= day then lastRollover.value else day)
    ensures DayTurned(lastRollover, day) ==> !DayTurned(RolledOver(lastRollover, day), day)
  {
  }

  // ---------------------------------------------------------------------------
  // Daily counters over runs
  // ---------------------------------------------------------------------------

  /** A poll leaves every published daily counter with a snapshot at or below its total. */
  lemma DailyLeavesSnapshot(t: Track, p: DayPoll)
    ensures var c := Counted(t, p);
            c.track.baseline.Some? ==>
              && c.track.tally.snapshot.Some? && c.track.tally.snapshot.value <= c.track.baseline.value
              && c.today == Some(c.track.baseline.value - c.track.tally.snapshot.value)
  {
  }

  /** Whether a read takes a total away from a 0 that was never the counter: a first read
      that is confirmed, or an accepted 0 left on the word of the daily counter. */
  predicate Restarts(t: Track, r: Read) {
    && t.baseline == Some(0.0) && t.previousTime.Some? && r.now - t.previousTime.value >= SECOND
    && r.total.Some? && r.total.value > 0.0
    && if t.tally.acceptedAt.None? then FirstReadFollows(r.power, t.tally.firstRead, r.total.value, r.now)
       else
         && r.total.value > Budget(r.power, t.tally.acceptedAt.value, r.now)
         && r.daily.Some?
         && WitnessConfirms(WitnessNext(r.power, t.tally.run, r.total.value, r.daily.value, r.now))
  }

  lemma SnapshotDroppedIff(t: Track, r: Read)
    requires t.previousTime.Some? && t.baseline.Some?
    ensures Next(t, r).tally.snapshot == if Restarts(t, r) then None else t.tally.snapshot
    ensures t.baseline.value > 0.0 ==> !Restarts(t, r)
  {
  }

  /** A run of polls within one day, none of which restarts the daily counter. */
  predicate SameDay(t: Track, polls: seq<DayPoll>)
    decreases |polls|
  {
    polls == [] ||
    (!polls[0].reset && !Restarts(t, polls[0].read) && SameDay(Counted(t, polls[0]).track, polls[1..]))
  }

  function CountedOver(c: Counting, polls: seq<DayPoll>): Counting
    decreases |polls|
  {
    if polls == [] then c else CountedOver(Counted(c.track, polls[0]), polls[1..])
  }

  /** Within a day, a daily counter grows by exactly what its total grows, whatever is read
      of either, as long as no read restarts it; above 0 none does. */
  lemma {:induction false} DailyFollowsTotal(t: Track, first: DayPoll, polls: seq<DayPoll>)
    requires Counted(t, first).track.baseline.Some? && SameDay(Counted(t, first).track, polls)
    ensures var c := Counted(t, first);
            var e := CountedOver(c, polls);
            && c.today.Some? && e.today.Some? && e.track.baseline.Some?
            && e.today.value - c.today.value == e.track.baseline.value - c.track.baseline.value
    decreases |polls|
  {
    DailyLeavesSnapshot(t, first);
    if polls != [] {
      var c := Counted(t, first);
      SnapshotDroppedIff(c.track, polls[0].read);
      DailyLeavesSnapshot(c.track, polls[0]);
      NeverFalls(c.track, [polls[0].read]);
      assert Run(c.track, [polls[0].read]) == Run(Next(c.track, polls[0].read), []);
      DailyFollowsTotal(c.track, polls[0], polls[1..]);
    }
  }

  predicate NoReset(polls: seq<DayPoll>) {
    forall p :: p in polls ==> !p.reset
  }

  lemma {:induction false} AboveZeroIsSameDay(t: Track, polls: seq<DayPoll>)
    requires t.previousTime.Some? && t.baseline.Some? && t.baseline.value > 0.0 && NoReset(polls)
    ensures SameDay(t, polls)
    decreases |polls|
  {
    if polls != [] {
      assert polls[0] in polls;
      SnapshotDroppedIff(t, polls[0].read);
      NeverFalls(t, [polls[0].read]);
      assert Run(t, [polls[0].read]) == Run(Next(t, polls[0].read), []);
      AboveZeroIsSameDay(Counted(t, polls[0]).track, polls[1..]);
    }
  }

  /** What the device counted of a total today: its own daily reading, unless that is
      missing, not between 0 and the total, or more than the power delivers since midnight. */
  function Believed(p: DayPoll, total: real): real {
    if p.read.daily.None? || p.read.daily.value < 0.0 || p.read.daily.value > total
       || p.read.daily.value > Delivered(p.read.power, Elapsed(0, p.sinceMidnight)) + 0.01
    then 0.0 else p.read.daily.value
  }

  /** Whatever was counted before, a poll on a new day leaves a daily counter at what the
      device is believed to have counted of the published total, and a total that is
      missing leaves none to count from. */
  lemma MidnightStartsOver(t: Track, p: DayPoll)
    requires p.reset
    ensures var c := Counted(t, p);
            match c.track.baseline
            case None => c.today.None? && c.track.tally.snapshot.None?
            case Some(total) =>
              c.today == Some(Believed(p, total)) && c.track.tally.snapshot == Some(total - Believed(p, total))
  {
  }

  /** Of a whole poll: the first on a new day publishes of each total what the device itself
      says it counted since midnight, where that is believable, and 0 otherwise. */
  lemma DayStartsInPoll(s: Pipeline, p: Poll, c: Counter, total: real)
    requires s.lastRollover.Some? && p.day > s.lastRollover.value
    requires NextPipeline(s, p).At(c).track.baseline == Some(total)
    ensures var n := NextPipeline(s, p);
            var counted := Get(p.raw, Today(c)).GetOr(0.0);
            n.lastRollover == Some(p.day)
            && n.At(c).today == Some(if 0.0 <= counted <= total
                                        && counted <= Budget(MaxPower(n.limits, c), 0, p.sinceMidnight)
                                     then counted else 0.0)
  {
    NextAt(s, p, c);
    var sized := s.(limits := Sized(s.limits, p.sized));
    MidnightStartsOver(s.At(c).track, DayPollOf(sized, p, c));
  }

  /** So does the first poll there is. */
  lemma FirstPollStartsToday(t: Track, p: DayPoll, total: real)
    requires t.tally.snapshot.None? && Counted(t, p).track.baseline == Some(total)
    ensures Counted(t, p).today == Some(Believed(p, total))
  {
  }

  /** Within a day, a total that is missing hides the daily counter and keeps its snapshot. */
  lemma MissingTotalHidesToday(t: Track, p: DayPoll)
    requires !p.reset && t.baseline.None? && p.read.total.None?
    ensures Counted(t, p).today.None? && Counted(t, p).track.tally.snapshot == t.tally.snapshot
  {
  }

  /** A read that restarts a daily counter leaves it at what the device is believed to have
      counted. */
  lemma RestartCountsFromDevice(t: Track, p: DayPoll)
    requires Restarts(t, p.read) && !p.reset
    ensures Counted(t, p).track.baseline == p.read.total
    ensures Counted(t, p).today == Some(Believed(p, p.read.total.value))
  {
  }

  /** Where a day's counting began: what was counted then, and the total it was counted to. */
  datatype DayStart = DayStart(counted: real, total: real)

  /** The start of the day that a run ends in: its first poll, or the read that restarted the
      counting. */
  function StartAfter(c: Counting, start: DayStart, polls: seq<DayPoll>): DayStart
    decreases |polls|
  {
    if polls == [] then start
    else
      var next := Counted(c.track, polls[0]);
      var total := next.track.baseline.GetOr(0.0);
      StartAfter(next, if polls[0].reset || Restarts(c.track, polls[0].read)
                       then DayStart(Believed(polls[0], total), total) else start, polls[1..])
  }

  lemma {:induction false} DayCounts(t: Track, first: DayPoll, start: DayStart, polls: seq<DayPoll>)
    requires Counted(t, first).track.baseline.Some? && Counted(t, first).today.Some?
    requires Counted(t, first).today.value
          == start.counted + (Counted(t, first).track.baseline.value - start.total)
    ensures var e, s := CountedOver(Counted(t, first), polls), StartAfter(Counted(t, first), start, polls);
            && e.today.Some? && e.track.baseline.Some?
            && e.today.value == s.counted + (e.track.baseline.value - s.total)
    decreases |polls|
  {
    if polls != [] {
      var c, p := Counted(t, first), polls[0];
      DailyLeavesSnapshot(t, first);
      DailyLeavesSnapshot(c.track, p);
      SnapshotDroppedIff(c.track, p.read);
      StaysRead(c.track, p.read);
      var next := Counted(c.track, p);
      var total := next.track.baseline.value;
      if p.reset {
        MidnightStartsOver(c.track, p);
        DayCounts(c.track, p, DayStart(Believed(p, total), total), polls[1..]);
      } else if Restarts(c.track, p.read) {
        RestartCountsFromDevice(c.track, p);
        DayCounts(c.track, p, DayStart(Believed(p, total), total), polls[1..]);
      } else {
        OneIsSameDay(c.track, p);
        DailyFollowsTotal(t, first, [p]);
        assert CountedOver(c, [p]) == next;
        DayCounts(c.track, p, start, polls[1..]);
      }
    }
  }

  lemma OneIsSameDay(t: Track, p: DayPoll)
    requires !p.reset && !Restarts(t, p.read)
    ensures SameDay(t, [p]) && [p][1..] == []
  {
  }

  /** Over any run, across however many days, a daily counter shows what was counted at the
      start of its day and what its total has grown since. */
  lemma DaysAreCounted(t: Track, first: DayPoll, polls: seq<DayPoll>)
    requires first.reset && Counted(t, first).track.baseline.Some?
    ensures var c := Counted(t, first);
            var total := c.track.baseline.value;
            var s := StartAfter(c, DayStart(Believed(first, total), total), polls);
            var e := CountedOver(c, polls);
            && e.today.Some? && e.track.baseline.Some?
            && e.today.value == s.counted + (e.track.baseline.value - s.total)
  {
    var total := Counted(t, first).track.baseline.value;
    MidnightStartsOver(t, first);
    DayCounts(t, first, DayStart(Believed(first, total), total), polls);
  }

  /** No read of a run within a day restarts the daily counter, or the one that does finds
      the device to have counted all that the total has grown since the snapshot. */
  predicate AgreesThroughout(t: Track, polls: seq<DayPoll>)
    decreases |polls|
  {
    polls == [] ||
    (var p := polls[0];
     if Restarts(t, p.read) then
       p.read.total.value - t.tally.snapshot.GetOr(0.0) == Believed(p, p.read.total.value)
     else AgreesThroughout(Counted(t, p).track, polls[1..]))
  }

  /** Over a whole day, a daily counter grows by what its total grows exactly if that holds:
      a total leaves 0 but once. */
  lemma {:induction false} DailyFollowsTotalIff(t: Track, first: DayPoll, polls: seq<DayPoll>)
    requires Counted(t, first).track.baseline.Some? && NoReset(polls)
    ensures var c := Counted(t, first);
            var e := CountedOver(c, polls);
            && c.today.Some? && e.today.Some? && e.track.baseline.Some?
            && (e.today.value - c.today.value == e.track.baseline.value - c.track.baseline.value
                <==> AgreesThroughout(c.track, polls))
    decreases |polls|
  {
    DailyLeavesSnapshot(t, first);
    if polls != [] {
      var c, p := Counted(t, first), polls[0];
      assert p in polls && forall x :: x in polls[1..] ==> x in polls;
      SnapshotDroppedIff(c.track, p.read);
      DailyLeavesSnapshot(c.track, p);
      StaysRead(c.track, p.read);
      if Restarts(c.track, p.read) {
        RestartCountsFromDevice(c.track, p);
        AboveZeroIsSameDay(Counted(c.track, p).track, polls[1..]);
        DailyFollowsTotal(c.track, p, polls[1..]);
      } else {
        DailyFollowsTotalIff(c.track, p, polls[1..]);
      }
    }
  }

  lemma StaysRead(t: Track, r: Read)
    requires t.baseline.Some?
    ensures Next(t, r).baseline.Some? && Next(t, r).previousTime.Some?
  {
  }

  function AsDayPoll(r: Read): DayPoll {
    DayPoll(r, false, r.now)
  }

  /** Out of an accepted 0, the total then leaps to 5001 kWh within a day, of which the daily
      counter shows the one that the device counted today. */
  lemma RestartBreaksGrowth()
    ensures var polls := [AsDayPoll(FIRST_SEEN), AsDayPoll(RISEN), AsDayPoll(STILL_THERE)];
            var e := CountedOver(Counting(ACCEPTED_ZERO, Some(0.0)), polls);
            && NoReset(polls) && !SameDay(ACCEPTED_ZERO, polls)
            && e.track.baseline == Some(5001.0) && e.today == Some(1.0)
  {
    var x, y, z := AsDayPoll(FIRST_SEEN), AsDayPoll(RISEN), AsDayPoll(STILL_THERE);
    var c := Counting(ACCEPTED_ZERO, Some(0.0));
    FirstIsHeld();
    RiseIsHeld();
    ThirdIsTaken();
    BudgetIs(0, 240);
    var one, two := Counted(c.track, x), Counted(HeldOver(FIRST_SEEN, 1), y);
    assert one == Counting(HeldOver(FIRST_SEEN, 1), Some(0.0));
    assert two == Counting(HeldOver(RISEN, 2), Some(0.0));
    var three := Counted(HeldOver(RISEN, 2), z);
    assert three.track.baseline == Some(5001.0) && three.today == Some(1.0);
    assert Restarts(HeldOver(RISEN, 2), STILL_THERE) by {
      SnapshotDroppedIff(HeldOver(RISEN, 2), STILL_THERE);
    }
    assert [x, y, z][1..] == [y, z] && [y, z][1..] == [z] && [z][1..] == [];
    assert CountedOver(one, [y, z]) == CountedOver(two, [z]) == three;
    assert !SameDay(two.track, [z]) && !SameDay(one.track, [y, z]);
  }

  // ---------------------------------------------------------------------------
  // One total in the pipeline
  // ---------------------------------------------------------------------------

  /** What a run of the pipeline polls of one total. */
  function DayPollsOf(s: Pipeline, polls: seq<Poll>, c: Counter): seq<DayPoll>
    decreases |polls|
  {
    if polls == [] then []
    else
      [DayPollOf(s.(limits := Sized(s.limits, polls[0].sized)), polls[0], c)]
      + DayPollsOf(NextPipeline(s, polls[0]), polls[1..], c)
  }

  /** Each total goes through a run of the pipeline on its own, as DailyFollowsTotal has it. */
  lemma {:induction false} PipelineCounts(s: Pipeline, polls: seq<Poll>, c: Counter)
    ensures RunPipeline(s, polls).At(c) == CountedOver(s.At(c), DayPollsOf(s, polls, c))
    decreases |polls|
  {
    if polls != [] {
      var next := NextPipeline(s, polls[0]);
      NextAt(s, polls[0], c);
      PipelineCounts(next, polls[1..], c);
      assert DayPollsOf(s, polls, c)[1..] == DayPollsOf(next, polls[1..], c);
    }
  }

  function ReadsOf(polls: seq<DayPoll>): seq<Read> {
    if polls == [] then [] else [polls[0].read] + ReadsOf(polls[1..])
  }

  predicate SameButSnapshot(a: Track, b: Track) {
    && a.baseline == b.baseline && a.previousTime == b.previousTime
    && a.tally.(snapshot := None) == b.tally.(snapshot := None)
  }

  lemma NextIgnoresSnapshot(a: Track, b: Track, r: Read)
    requires SameButSnapshot(a, b)
    ensures SameButSnapshot(Next(a, r), Next(b, r))
  {
  }

  /** And what it publishes of a total is what Run does, which the lemmas on totals are
      about: the daily counters have no part in it. */
  lemma {:induction false} CountedRuns(c: Counting, t: Track, polls: seq<DayPoll>)
    requires SameButSnapshot(c.track, t)
    ensures SameButSnapshot(CountedOver(c, polls).track, Run(t, ReadsOf(polls)))
    decreases |polls|
  {
    if polls != [] {
      var r := polls[0].read;
      NextIgnoresSnapshot(c.track, t, r);
      CountedRuns(Counted(c.track, polls[0]), Next(t, r), polls[1..]);
      assert ReadsOf(polls)[0] == r && ReadsOf(polls)[1..] == ReadsOf(polls[1..]);
    }
  }

  /** So, for one, no published total ever falls in a run of the whole pipeline. */
  lemma PipelineNeverFalls(s: Pipeline, polls: seq<Poll>, c: Counter)
    requires s.At(c).track.previousTime.Some? && s.At(c).track.baseline.Some?
    ensures var e := RunPipeline(s, polls).At(c).track;
            e.baseline.Some? && e.baseline.value >= s.At(c).track.baseline.value
  {
    PipelineCounts(s, polls, c);
    CountedRuns(s.At(c), s.At(c).track, DayPollsOf(s, polls, c));
    NeverFalls(s.At(c).track, ReadsOf(DayPollsOf(s, polls, c)));
  }
}
