/**
 When a total held at an accepted 0 gives way to what the device reports: only after its
 separate daily counter has risen with it, over a whole run of reads.
 */
module EnergyWitness {
  import opened Base
  import opened Energy
  import opened EnergyRuns

  /** A total held at a 0 that was accepted at some time. */
  predicate HeldAtZero(t: Track) {
    t.baseline == Some(0.0) && t.tally.acceptedAt.Some? && t.previousTime.Some?
  }

  predicate Observes(r: Read) {
    r.total.Some? && r.total.value > 0.0 && r.daily.Some?
  }

  function Seen(r: Read): seq<Read> {
    if Observes(r) then [r] else []
  }

  /** The reads of a run that say something about both counters. */
  function Observed(polls: seq<Read>): seq<Read> {
    if polls == [] then [] else Seen(polls[0]) + Observed(polls[1..])
  }

  /** Whether a read follows another as one energy counted twice would. */
  predicate Follows(x: Read, y: Read) {
    && Observes(x) && Observes(y)
    && 0.0 <= y.total.value - x.total.value <= Budget(y.power, x.now, y.now)
    && RisesAgree(y.total.value - x.total.value, y.daily.value - x.daily.value)
  }

  /** Reads each of which follows the one before. */
  predicate Chain(chain: seq<Read>)
    ensures Chain(chain) && chain != [] ==> Observes(chain[0]) && Observes(chain[|chain| - 1])
    decreases |chain|
  {
    if chain == [] then true
    else if |chain| == 1 then Observes(chain[0])
    else Chain(chain[..|chain| - 1]) && Follows(chain[|chain| - 2], chain[|chain| - 1])
  }

  /** What the processor keeps of a chain. */
  function Summary(chain: seq<Read>): Option<WitnessRun>
    requires Chain(chain)
  {
    if chain == [] then None
    else
      var first, last := chain[0], chain[|chain| - 1];
      Some(WitnessRun(first.total.value, first.daily.value, last.total.value, last.daily.value, last.now, |chain|))
  }

  /** The chain once a read beyond the budget has come in. */
  function Longer(chain: seq<Read>, r: Read): (longer: seq<Read>)
    requires Chain(chain) && Observes(r)
    ensures Chain(longer) && longer != [] && longer[|longer| - 1] == r
  {
    if chain != [] && Follows(chain[|chain| - 1], r) then
      assert (chain + [r])[..|chain|] == chain;
      chain + [r]
    else [r]
  }

  lemma LongerSummary(chain: seq<Read>, r: Read)
    requires Chain(chain) && Observes(r)
    ensures Summary(Longer(chain, r))
         == Some(WitnessNext(r.power, Summary(chain), r.total.value, r.daily.value, r.now))
  {
    if chain != [] {
      var last := chain[|chain| - 1];
      assert Follows(last, r) == WitnessFollows(r.power, Summary(chain).value, r.total.value, r.daily.value, r.now);
    }
  }

  /** The chain once any read has come in. */
  function ChainAfter(t: Track, chain: seq<Read>, r: Read): (after: seq<Read>)
    requires Chain(chain)
    ensures Chain(after)
  {
    if r.total.None? || r.total.value < 0.0 then chain
    else if r.total.value == 0.0 || r.total.value <= Budget(r.power, t.AcceptedAt(), r.now) || r.daily.None?
    then []
    else Longer(chain, r)
  }

  /** One read of a total held at 0 keeps the run in step with the chain, or takes the read
      for a reason. */
  lemma ReadKeepsChain(t: Track, r: Read, chain: seq<Read>)
    requires HeldAtZero(t) && t.previousTime.value + SECOND <= r.now && r.power >= 0.0
    requires Chain(chain) && t.tally.run == Summary(chain)
    ensures var n, after := Next(t, r), ChainAfter(t, chain, r);
            if n.baseline == Some(0.0) then HeldAtZero(n) && n.tally.run == Summary(after)
            else
              && n.baseline == r.total && r.total.Some? && r.total.value > 0.0
              && (|| r.total.value <= Budget(r.power, t.tally.acceptedAt.value, r.now)
                  || (after != [] && after[|after| - 1] == r && WitnessConfirms(Summary(after).value)))
  {
    DeliveredMonotone(r.power, r.power, 0, Elapsed(t.tally.acceptedAt.value, r.now));
    if Observes(r) {
      LongerSummary(chain, r);
    }
  }

  predicate IsSuffix(s: seq<Read>, of: seq<Read>) {
    |s| <= |of| && of[|of| - |s|..] == s
  }

  lemma NothingIsSuffix(of: seq<Read>)
    ensures IsSuffix([], of)
  {
    assert of[|of|..] == [];
  }

  lemma SuffixExtends(s: seq<Read>, of: seq<Read>, r: Read)
    requires IsSuffix(s, of)
    ensures IsSuffix(s + [r], of + [r])
  {
    var k := |of| - |s|;
    assert (of + [r])[k..] == of[k..] + [r];
  }

  lemma LastIsSuffix(of: seq<Read>, r: Read)
    ensures IsSuffix([r], of + [r])
  {
    assert (of + [r])[|of|..] == [r];
  }

  lemma SuffixGrows(t: Track, chain: seq<Read>, r: Read, observed: seq<Read>)
    requires Chain(chain) && IsSuffix(chain, observed)
    ensures IsSuffix(ChainAfter(t, chain, r), observed + Seen(r))
  {
    if r.total.None? || r.total.value < 0.0 {
      assert observed + [] == observed;
    } else if r.total.value == 0.0 || r.total.value <= Budget(r.power, t.AcceptedAt(), r.now) || r.daily.None? {
      NothingIsSuffix(observed + Seen(r));
    } else if chain != [] && Follows(chain[|chain| - 1], r) {
      SuffixExtends(chain, observed, r);
    } else {
      LastIsSuffix(observed, r);
    }
  }

  /** A run that ends at 0 has not left it at its first read. */
  lemma ZeroKeepsChain(t: Track, polls: seq<Read>, chain: seq<Read>)
    requires HeldAtZero(t) && polls != [] && t.previousTime.value + SECOND <= polls[0].now && polls[0].power >= 0.0
    requires Chain(chain) && t.tally.run == Summary(chain)
    requires Run(t, polls).baseline == Some(0.0)
    ensures HeldAtZero(Next(t, polls[0]))
    ensures Next(t, polls[0]).tally.run == Summary(ChainAfter(t, chain, polls[0]))
    ensures Next(t, polls[0]).previousTime == Some(polls[0].checkedAt)
  {
    ReadKeepsChain(t, polls[0], chain);
    NeverFalls(Next(t, polls[0]), polls[1..]);
  }

  /** The chain once a run of reads has come in. */
  function ChainOver(t: Track, chain: seq<Read>, polls: seq<Read>): (after: seq<Read>)
    requires Chain(chain)
    ensures Chain(after)
    decreases |polls|
  {
    if polls == [] then chain else ChainOver(Next(t, polls[0]), ChainAfter(t, chain, polls[0]), polls[1..])
  }

  lemma {:induction false} ChainIsLatest(t: Track, chain: seq<Read>, polls: seq<Read>, observed: seq<Read>)
    requires Chain(chain) && IsSuffix(chain, observed)
    ensures IsSuffix(ChainOver(t, chain, polls), observed + Observed(polls))
    decreases |polls|
  {
    if polls == [] {
      assert observed + Observed(polls) == observed;
    } else {
      var r := polls[0];
      SuffixGrows(t, chain, r, observed);
      ChainIsLatest(Next(t, r), ChainAfter(t, chain, r), polls[1..], observed + Seen(r));
      assert (observed + Seen(r)) + Observed(polls[1..]) == observed + (Seen(r) + Observed(polls[1..]));
    }
  }

  /** While a total stays held at 0, the run the processor keeps stands for the chain. */
  lemma {:induction false} RunStandsForChain(t: Track, polls: seq<Read>, chain: seq<Read>)
    requires HeldAtZero(t) && Apart(t.previousTime.value, polls)
    requires Chain(chain) && t.tally.run == Summary(chain)
    requires Run(t, polls).baseline == Some(0.0)
    ensures HeldAtZero(Run(t, polls)) && Run(t, polls).tally.run == Summary(ChainOver(t, chain, polls))
    decreases |polls|
  {
    if polls != [] {
      ZeroKeepsChain(t, polls, chain);
      RunStandsForChain(Next(t, polls[0]), polls[1..], ChainAfter(t, chain, polls[0]));
    }
  }

  lemma {:induction false} ApartParts(t: Track, polls: seq<Read>, r: Read)
    requires t.previousTime.Some? && Apart(t.previousTime.value, polls + [r])
    ensures Apart(t.previousTime.value, polls)
    ensures Run(t, polls).previousTime.Some? && Run(t, polls).previousTime.value + SECOND <= r.now && r.power >= 0.0
    decreases |polls|
  {
    if polls == [] {
      assert polls + [r] == [r];
    } else {
      assert (polls + [r])[1..] == polls[1..] + [r];
      ApartParts(Next(t, polls[0]), polls[1..], r);
    }
  }

  lemma {:induction false} ObservedAppend(polls: seq<Read>, r: Read)
    ensures Observed(polls + [r]) == Observed(polls) + Seen(r)
  {
    if polls == [] {
      assert polls + [r] == [r];
    } else {
      var rest := Observed(polls[1..]);
      assert (polls + [r])[0] == polls[0] && (polls + [r])[1..] == polls[1..] + [r];
      ObservedAppend(polls[1..], r);
      assert Seen(polls[0]) + (rest + Seen(r)) == (Seen(polls[0]) + rest) + Seen(r);
    }
  }

  /** A chain of the latest reads that confirms a total: over three or more of them the
      daily counter rose by a kilowatt-hour or more, and the total by the same within 4
      percent. */
  ghost predicate Witnessing(chain: seq<Read>, polls: seq<Read>) {
    && |chain| >= WITNESS_MIN_READS
    && Chain(chain)
    && IsSuffix(chain, Observed(polls))
    && var rise := chain[|chain| - 1].total.value - chain[0].total.value;
       var dailyRise := chain[|chain| - 1].daily.value - chain[0].daily.value;
       dailyRise >= WITNESS_MIN_RISE_KWH && Abs(rise - dailyRise) <= 0.04 * dailyRise
  }

  lemma ConfirmedIsWitnessing(chain: seq<Read>, polls: seq<Read>)
    requires Chain(chain) && chain != [] && WitnessConfirms(Summary(chain).value)
    requires IsSuffix(chain, Observed(polls))
    ensures Witnessing(chain, polls)
  {
  }

  /** A read that ends a stay at 0 is within the budget, or ends a chain that confirms it. */
  lemma LeavingIsWitnessed(e: Track, r: Read, latest: seq<Read>, polls: seq<Read>)
    requires HeldAtZero(e) && e.previousTime.value + SECOND <= r.now && r.power >= 0.0
    requires Chain(latest) && e.tally.run == Summary(latest) && IsSuffix(latest, Observed(polls))
    requires Next(e, r).baseline != Some(0.0)
    ensures r.total.Some?
    ensures || 0.0 < r.total.value <= Budget(r.power, e.tally.acceptedAt.value, r.now)
            || (var chain := ChainAfter(e, latest, r);
                chain != [] && Witnessing(chain, polls + [r]) && chain[|chain| - 1] == r)
  {
    ReadKeepsChain(e, r, latest);
    SuffixGrows(e, latest, r, Observed(polls));
    ObservedAppend(polls, r);
    if r.total.value > Budget(r.power, e.tally.acceptedAt.value, r.now) {
      ConfirmedIsWitnessing(ChainAfter(e, latest, r), polls + [r]);
    }
  }

  lemma ChainIsKept(t: Track, polls: seq<Read>, r: Read)
    requires HeldAtZero(t) && t.tally.run.None? && Apart(t.previousTime.value, polls + [r])
    requires Run(t, polls).baseline == Some(0.0)
    ensures var e, latest := Run(t, polls), ChainOver(t, [], polls);
            && HeldAtZero(e) && e.previousTime.value + SECOND <= r.now && r.power >= 0.0
            && e.tally.run == Summary(latest) && IsSuffix(latest, Observed(polls))
  {
    ApartParts(t, polls, r);
    RunStandsForChain(t, polls, []);
    NothingIsSuffix([]);
    ChainIsLatest(t, [], polls, []);
    assert [] + Observed(polls) == Observed(polls);
  }

  /** The only ways out of an accepted 0: a value its budget covers, or a witnessing chain
      that ends at the read taken. */
  lemma TakenMeansWitnessed(t: Track, polls: seq<Read>, r: Read) returns (chain: seq<Read>)
    requires HeldAtZero(t) && t.tally.run.None? && Apart(t.previousTime.value, polls + [r])
    requires Run(t, polls).baseline == Some(0.0) && Next(Run(t, polls), r).baseline != Some(0.0)
    ensures && HeldAtZero(Run(t, polls)) && r.total.Some?
            && (|| 0.0 < r.total.value <= Budget(r.power, Run(t, polls).tally.acceptedAt.value, r.now)
                || (chain != [] && Witnessing(chain, polls + [r]) && chain[|chain| - 1] == r))
  {
    ChainIsKept(t, polls, r);
    LeavingIsWitnessed(Run(t, polls), r, ChainOver(t, [], polls), polls);
    chain := ChainAfter(Run(t, polls), ChainOver(t, [], polls), r);
  }

  // ---------------------------------------------------------------------------
  // What is witnessed in time
  // ---------------------------------------------------------------------------

  /** Whether a chain is long enough, rose far enough, and rose alike in both counters. */
  predicate Confirming(chain: seq<Read>)
    requires Chain(chain)
  {
    chain != [] && WitnessConfirms(Summary(chain).value)
  }

  lemma {:induction false} ChainPrefix(a: seq<Read>, b: seq<Read>)
    requires Chain(a + b)
    ensures Chain(a)
    decreases |b|
  {
    if b == [] {
      assert a + b == a;
    } else {
      var front := b[..|b| - 1];
      assert (a + b)[..|a + b| - 1] == a + front;
      assert Chain(a + front);
      ChainPrefix(a, front);
    }
  }

  /** One more read that follows the chain is taken precisely if it confirms it. */
  lemma ChainStep(t: Track, chain: seq<Read>, r: Read)
    requires HeldAtZero(t) && t.previousTime.value + SECOND <= r.now && r.power >= 0.0
    requires Chain(chain) && Chain(chain + [r]) && t.tally.run == Summary(chain)
    requires r.total.Some? && r.total.value > Budget(r.power, t.tally.acceptedAt.value, r.now)
    ensures if Confirming(chain + [r]) then Next(t, r).baseline.Some? && Next(t, r).baseline.value > 0.0
            else HeldAtZero(Next(t, r)) && Next(t, r).tally.run == Summary(chain + [r])
                 && Next(t, r).tally.acceptedAt == t.tally.acceptedAt
  {
    DeliveredMonotone(r.power, r.power, 0, Elapsed(t.tally.acceptedAt.value, r.now));
    assert (chain + [r])[|chain|] == r;
    if chain != [] {
      assert (chain + [r])[..|chain|] == chain;
      assert Follows(chain[|chain| - 1], r);
    }
    LongerSummary(chain, r);
    assert Longer(chain, r) == chain + [r];
  }

  /** Reads beyond the budget since a time. */
  predicate AllBeyond(accepted: Time, polls: seq<Read>) {
    forall r :: r in polls ==> r.total.Some? && r.total.value > Budget(r.power, accepted, r.now)
  }

  lemma FirstIsApart(accepted: Time, chain: seq<Read>, polls: seq<Read>)
    requires polls != [] && Chain(chain + polls) && AllBeyond(accepted, polls)
    ensures var r, rest, longer := polls[0], polls[1..], chain + [polls[0]];
            && longer + rest == chain + polls && Chain(longer)
            && (rest == [] ==> longer == chain + polls)
            && r.total.Some? && r.total.value > Budget(r.power, accepted, r.now) && AllBeyond(accepted, rest)
  {
    var r, rest, longer := polls[0], polls[1..], chain + [polls[0]];
    assert r in polls && forall x :: x in rest ==> x in polls;
    assert longer + rest == chain + polls;
    ChainPrefix(longer, rest);
  }

  /** A chain that confirms a total replaces the 0 by its last read, or before. */
  lemma {:induction false} ConfirmingIsTaken(t: Track, chain: seq<Read>, polls: seq<Read>)
    requires HeldAtZero(t) && Apart(t.previousTime.value, polls) && polls != []
    requires Chain(chain) && Chain(chain + polls) && t.tally.run == Summary(chain)
    requires AllBeyond(t.tally.acceptedAt.value, polls) && Confirming(chain + polls)
    ensures Run(t, polls).baseline.Some? && Run(t, polls).baseline.value > 0.0
    decreases |polls|
  {
    var r, rest, longer := polls[0], polls[1..], chain + [polls[0]];
    FirstIsApart(t.tally.acceptedAt.value, chain, polls);
    ChainStep(t, chain, r);
    if Confirming(longer) {
      NeverFalls(Next(t, r), rest);
    } else if rest != [] {
      ConfirmingIsTaken(Next(t, r), longer, rest);
    }
  }

  lemma ConfirmingRunIsTaken(t: Track, polls: seq<Read>)
    requires HeldAtZero(t) && t.tally.run.None? && Apart(t.previousTime.value, polls)
    requires Chain(polls) && Confirming(polls) && AllBeyond(t.tally.acceptedAt.value, polls)
    ensures Run(t, polls).baseline.Some? && Run(t, polls).baseline.value > 0.0
  {
    assert [] + polls == polls;
    ConfirmingIsTaken(t, [], polls);
  }

  /** Two reads that show one energy in both registers, to a few hundredths of a
      kilowatt-hour and 2 percent. */
  predicate Alike(x: Read, y: Read) {
    && Observes(x) && Observes(y)
    && var rise, dailyRise := y.total.value - x.total.value, y.daily.value - x.daily.value;
       0.0 <= rise && 0.0 <= dailyRise && -0.02 - 0.02 * dailyRise <= rise - dailyRise <= 0.02 + 0.02 * dailyRise
  }

  /** A read that comes as soon after another as the power allows. */
  predicate InPower(x: Read, y: Read) {
    Observes(x) && Observes(y) && y.total.value - x.total.value <= Delivered(y.power, Elapsed(x.now, y.now)) + 0.01
  }

  /** Reads of the true counters. */
  ghost predicate Genuine(polls: seq<Read>) {
    && (forall i, j :: 0 <= i < j < |polls| ==> Alike(polls[i], polls[j]))
    && (forall i, j :: 0 <= i < j < |polls| && j == i + 1 ==> InPower(polls[i], polls[j]))
    && (|polls| == 1 ==> Observes(polls[0]))
  }

  lemma GenuineFollows(x: Read, y: Read)
    requires Alike(x, y) && InPower(x, y)
    ensures Follows(x, y)
  {
  }

  lemma {:induction false} GenuineIsChain(polls: seq<Read>)
    requires Genuine(polls)
    ensures Chain(polls)
    decreases |polls|
  {
    if |polls| > 1 {
      assert Alike(polls[0], polls[1]);
      GenuineIsChain(polls[..|polls| - 1]);
      GenuineFollows(polls[|polls| - 2], polls[|polls| - 1]);
    }
  }

  lemma GenuineConfirms(polls: seq<Read>)
    requires |polls| >= 3 && Genuine(polls)
    requires polls[|polls| - 1].daily.Some? && polls[0].daily.Some?
    requires polls[|polls| - 1].daily.value - polls[0].daily.value >= 1.0
    ensures Chain(polls) && Confirming(polls)
  {
    GenuineIsChain(polls);
    assert Alike(polls[0], polls[|polls| - 1]);
  }

  /** The true counter replaces an accepted 0 in time: by the third of its reads, once its
      daily counter has risen by a kilowatt-hour since the first, however far beyond the
      budget it is. */
  lemma GenuineCounterIsTaken(t: Track, polls: seq<Read>)
    requires HeldAtZero(t) && t.tally.run.None? && Apart(t.previousTime.value, polls)
    requires |polls| >= 3 && Genuine(polls) && AllBeyond(t.tally.acceptedAt.value, polls)
    requires polls[|polls| - 1].daily.Some? && polls[0].daily.Some?
    requires polls[|polls| - 1].daily.value - polls[0].daily.value >= 1.0
    ensures Run(t, polls).baseline.Some? && Run(t, polls).baseline.value > 0.0
  {
    GenuineConfirms(polls);
    ConfirmingRunIsTaken(t, polls);
  }

  // ---------------------------------------------------------------------------
  // What is never witnessed
  // ---------------------------------------------------------------------------

  /** Whether two reads together could confirm a total. */
  predicate Witnesses(x: Read, y: Read) {
    && Observes(x) && Observes(y)
    && y.daily.value - x.daily.value >= WITNESS_MIN_RISE_KWH
    && RisesAgree(y.total.value - x.total.value, y.daily.value - x.daily.value)
  }

  /** The run kept of a held total starts and ends at reads that were seen. */
  ghost predicate RunFrom(run: Option<WitnessRun>, all: seq<Read>) {
    run.Some? ==>
      && (exists x :: x in all && Observes(x)
                      && x.total.value == run.value.firstTotal && x.daily.value == run.value.firstDaily)
      && (exists y :: y in all && Observes(y)
                      && y.total.value == run.value.lastTotal && y.daily.value == run.value.lastDaily)
  }

  /** Reads each of which is missing, a 0 or less, or beyond the budget at the time. A read
      of 0 is an acceptance, from which the budget counts again. */
  predicate Beyond(t: Track, polls: seq<Read>)
    decreases |polls|
  {
    polls == [] || (OutOfReach(t, polls[0]) && Beyond(Next(t, polls[0]), polls[1..]))
  }

  predicate OutOfReach(t: Track, r: Read) {
    r.total.None? || r.total.value <= 0.0 || r.total.value > Budget(r.power, t.AcceptedAt(), r.now)
  }

  /** As long as no two reads of a total witness each other, an accepted 0 stays exactly as
      long as no read is within the budget, however long it lasts and whatever bogus reads
      of 0 come in between. */
  lemma {:induction false} UnwitnessedStaysIff(t: Track, polls: seq<Read>, all: seq<Read>)
    requires HeldAtZero(t) && Apart(t.previousTime.value, polls) && RunFrom(t.tally.run, all)
    requires forall r :: r in polls ==> r in all
    requires forall x, y :: x in all && y in all ==> !Witnesses(x, y)
    ensures Run(t, polls).baseline == Some(0.0) <==> Beyond(t, polls)
    decreases |polls|
  {
    if polls != [] {
      var r := polls[0];
      assert r in polls;
      var n := Next(t, r);
      DeliveredMonotone(r.power, r.power, 0, Elapsed(t.tally.acceptedAt.value, r.now));
      if OutOfReach(t, r) {
        UnwitnessedStays(t, r, all);
        UnwitnessedStaysIff(n, polls[1..], all);
      } else {
        assert n.baseline == r.total;
        NeverFalls(n, polls[1..]);
      }
    }
  }

  lemma UnwitnessedStays(t: Track, r: Read, all: seq<Read>)
    requires HeldAtZero(t) && t.previousTime.value + SECOND <= r.now && RunFrom(t.tally.run, all)
    requires r in all && r.power >= 0.0
    requires OutOfReach(t, r)
    requires forall x, y :: x in all && y in all ==> !Witnesses(x, y)
    ensures HeldAtZero(Next(t, r)) && RunFrom(Next(t, r).tally.run, all)
  {
    DeliveredMonotone(r.power, r.power, 0, Elapsed(t.tally.acceptedAt.value, r.now));
    if Observes(r) && r.total.value > Budget(r.power, t.tally.acceptedAt.value, r.now) {
      var run := WitnessNext(r.power, t.tally.run, r.total.value, r.daily.value, r.now);
      assert run.lastTotal == r.total.value && run.lastDaily == r.daily.value;
      assert exists x :: x in all && Observes(x)
                         && x.total.value == run.firstTotal && x.daily.value == run.firstDaily;
      assert RunFrom(Some(run), all);
      var x :| x in all && Observes(x) && x.total.value == run.firstTotal && x.daily.value == run.firstDaily;
      assert !Witnesses(x, r);
      assert !WitnessConfirms(run);
    }
  }

  lemma MisscaledUnwitnessed(x: Read, y: Read, scale: real, offset: real)
    requires Abs(scale - 1.0) > 0.04
    requires Observes(x) ==> x.total.value == offset + scale * x.daily.value
    requires Observes(y) ==> y.total.value == offset + scale * y.daily.value
    ensures !Witnesses(x, y)
  {
    if Witnesses(x, y) {
      var d := y.daily.value - x.daily.value;
      assert scale * y.daily.value - scale * x.daily.value == scale * d;
      OffScaleDisagrees(scale, d, y.total.value - x.total.value);
    }
  }

  lemma OffScaleDisagrees(scale: real, d: real, rise: real)
    requires Abs(scale - 1.0) > 0.04 && d >= WITNESS_MIN_RISE_KWH && rise == scale * d
    ensures !RisesAgree(rise, d)
  {
    var k := scale - 1.0;
    assert rise - d == k * d;
    if k > 0.0 {
      assert (k - 0.04) * d > 0.0;
      assert (k - 0.04) * d == k * d - 0.04 * d;
    } else {
      assert (-k - 0.04) * d > 0.0;
      assert (-k - 0.04) * d == -(k * d) - 0.04 * d;
    }
    assert Abs(rise - d) > 0.04 * d >= WITNESS_TOLERANCE_KWH + WITNESS_TOLERANCE_SHARE * d;
  }

  /** A total that rises scale times as much as its daily counter, off by more than 4
      percent (0 for a value that only repeats), replaces an accepted 0 exactly when the
      budget covers it, and never as witnessed. */
  lemma MisscaledNeverWitnessed(t: Track, polls: seq<Read>, scale: real, offset: real)
    requires HeldAtZero(t) && t.tally.run.None? && Apart(t.previousTime.value, polls)
    requires Abs(scale - 1.0) > 0.04
    requires forall r :: r in polls && Observes(r) ==> r.total.value == offset + scale * r.daily.value
    ensures Run(t, polls).baseline == Some(0.0) <==> Beyond(t, polls)
  {
    forall x, y | x in polls && y in polls
      ensures !Witnesses(x, y)
    {
      MisscaledUnwitnessed(x, y, scale, offset);
    }
    UnwitnessedStaysIff(t, polls, polls);
  }

  /** The same for a total whose daily counter is stuck. */
  lemma StuckDailyNeverWitnessed(t: Track, polls: seq<Read>, daily: real)
    requires HeldAtZero(t) && t.tally.run.None? && Apart(t.previousTime.value, polls)
    requires forall r :: r in polls ==> r.daily.None? || r.daily.value == daily
    ensures Run(t, polls).baseline == Some(0.0) <==> Beyond(t, polls)
  {
    UnwitnessedStaysIff(t, polls, polls);
  }

  /** The budget keeps growing while a total is held, so a value that repeats is taken in
      the end: by the first poll late enough, and not before, whatever its daily counter
      reads. */
  lemma GarbageTakenInTheEnd(t: Track, polls: seq<Read>, value: real, power: real)
    requires HeldAtZero(t) && t.tally.acceptedAt.value <= t.previousTime.value && power >= 0.0 && value > 0.0
    requires Apart(t.previousTime.value, polls) && polls != []
    requires forall r :: r in polls ==> r.total == Some(value) && r.power == power
    requires t.tally.run.Some? ==> t.tally.run.value.firstTotal == value
    ensures Run(t, polls).baseline == Some(value)
        <==> value <= Budget(power, t.tally.acceptedAt.value, polls[|polls| - 1].now)
  {
    TakenOnceBelievable(t, polls, value, power);
  }
}
