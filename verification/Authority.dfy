/**
 What the heartbeat and the commands owe each other: the inverter forgets a command only
 where the heartbeat has let its window pass, so a heartbeat that never lapses leaves the
 half-cleared command as the only way out of step.
 */
module Authority {
  import opened Base
  import opened ControlRules
  import opened Delivery
  import Heartbeat

  /** A run of the heartbeat's loop, from a success at s on. */
  datatype Beats = Beats(b: Heartbeat.Beat, scanIntervalS: real, now: real, turns: seq<Heartbeat.Turn>, s: real) {
    ghost predicate Fair(instant: real, wire: real) {
      Heartbeat.FairRun(b, scanIntervalS, now, turns, s, instant, wire)
    }

    ghost predicate ControlledAt(instant: real) {
      Heartbeat.ControlledAt(b, scanIntervalS, now, turns, s, instant)
    }
  }

  /** Whether the window has run out at some instant of a span. */
  ghost predicate RunsOut(beats: Beats, from: real, to: real) {
    exists instant :: from <= instant <= to && !beats.ControlledAt(instant)
  }

  /** Rounds of the controller in the order of the clock, at each of which the inverter may
      have lapsed only if its window has run out since the round before. */
  ghost predicate LapsesRunOut(beats: Beats, from: real, rounds: seq<Attempt>)
    decreases |rounds|
  {
    rounds == [] ||
    (&& from <= rounds[0].now
     && (rounds[0].lapsed.Some? ==> RunsOut(beats, from, rounds[0].now))
     && LapsesRunOut(beats, rounds[0].now, rounds[1..]))
  }

  predicate NoLapse(rounds: seq<Attempt>) {
    forall r :: r in rounds ==> r.lapsed.None?
  }

  lemma FairNeverRunsOut(beats: Beats, from: real, to: real, wire: real)
    requires 0.0 <= wire <= 0.5 && beats.s <= from && beats.Fair(to, wire)
    ensures !RunsOut(beats, from, to)
  {
    Heartbeat.NeverLapsesIff(wire);
    forall instant | from <= instant <= to
      ensures beats.ControlledAt(instant)
    {
      assert beats.Fair(instant, wire);
    }
  }

  /** Under a fair heartbeat no round has a lapse. */
  lemma {:induction false} FairMeansNoLapse(beats: Beats, from: real, rounds: seq<Attempt>, wire: real)
    requires 0.0 <= wire <= 0.5 && beats.s <= from && LapsesRunOut(beats, from, rounds)
    requires forall r :: r in rounds ==> beats.Fair(r.now, wire)
    ensures NoLapse(rounds)
    decreases |rounds|
  {
    if rounds != [] {
      var r := rounds[0];
      assert r in rounds && forall x :: x in rounds[1..] ==> x in rounds;
      FairNeverRunsOut(beats, from, r.now, wire);
      FairMeansNoLapse(beats, r.now, rounds[1..], wire);
      assert rounds == [r] + rounds[1..];
    }
  }

  lemma {:induction false} NoLapseKeepsStep(w: World, rounds: seq<Attempt>)
    requires NoLapse(rounds)
    ensures LapsesNoticed(w, rounds)
    ensures KeepsStep(w, rounds) <==> NeverHalfClears(w, rounds)
    decreases |rounds|
  {
    if rounds != [] {
      assert rounds[0] in rounds;
      NoLapseKeepsStep(Attempted(w, rounds[0]), rounds[1..]);
    }
  }

  /** Under a fair heartbeat, whose rounds spend at most half a second writing and of which
      one of every two lands, the inverter follows the method it was told at every instant,
      and does all it was told exactly if no round half clears a command. */
  lemma FairHeartbeatKeepsStep(beats: Beats, from: real, w: World, rounds: seq<Attempt>, wire: real)
    requires 0.0 <= wire <= 0.5 && beats.s <= from && LapsesRunOut(beats, from, rounds)
    requires forall r :: r in rounds ==> beats.Fair(r.now, wire)
    requires Agrees(w)
    ensures LapsesNoticed(w, rounds) && AlwaysFollows(w, rounds)
    ensures AlwaysInStep(w, rounds) <==> NeverHalfClears(w, rounds)
  {
    FairMeansNoLapse(beats, from, rounds, wire);
    NoLapseKeepsStep(w, rounds);
    MethodAlwaysAgreesIff(w, rounds);
    InStepIff(w, rounds);
  }

  // ---------------------------------------------------------------------------
  // A lapse that goes unseen
  // ---------------------------------------------------------------------------

  /** A controller that learns of a lapse from the heartbeat alone, when a round comes. */
  ghost predicate LearnsFrom(beats: Beats, rounds: seq<Attempt>) {
    forall r :: r in rounds ==> (r.noticed <==> !beats.ControlledAt(r.now))
  }

  /** The heartbeat that Heartbeat.SlowRun lets lapse. */
  function SlowBeats(slow: real): Beats {
    Beats(Heartbeat.Beat(Some(0.0), Some(true)), 15.0, 22.0,
          [Heartbeat.Turn(Heartbeat.Failing(slow), 2.0), Heartbeat.Turn(Heartbeat.Late(slow), 0.0)], 0.0)
  }

  /** Its window runs out between two instants at which it is in control. */
  lemma WindowRunsOutBetween(slow: real)
    requires 0.5 < slow <= 1.0
    ensures SlowBeats(slow).Fair(59.0 + 2.0 * slow, slow)
    ensures SlowBeats(slow).ControlledAt(40.0) && SlowBeats(slow).ControlledAt(59.0 + 2.0 * slow)
    ensures RunsOut(SlowBeats(slow), 40.0, 59.0 + 2.0 * slow)
  {
    var beats, landed := SlowBeats(slow), 59.0 + 2.0 * slow;
    Heartbeat.SlowRun(slow, slow);
    Heartbeat.BoundIsTight(slow);
    assert !beats.ControlledAt(59.5 + slow);
    var all := [0.0] + Heartbeat.Successes(beats.b, Heartbeat.RetryDelays(15.0), 22.0, beats.turns);
    assert all[0] == 0.0 && all[1] == landed;
    assert 0.0 in all && landed in all;
    assert Heartbeat.Beat(Some(0.0), Some(true)).InControl(40.0);
    assert Heartbeat.Beat(Some(landed), Some(true)).InControl(landed);
  }

  /** So an inverter that lapses in between is not seen to, and a controller whose decision
      stays sends it nothing (MissedLapseStays for as long as it does). */
  lemma LapseGoesUnseen(slow: real, w: World, lapsed: Device, link: Link)
    requires 0.5 < slow <= 1.0 && !w.sender.stale && lapsed.follows != MethodOf(w.sender.told.feature)
    ensures var told := w.sender.told;
            var r := Attempt(Some(lapsed), false, Decision(told.feature, told.power, None, true), false,
                             59.0 + 2.0 * slow, link);
            && LapsesRunOut(SlowBeats(slow), 40.0, [r]) && LearnsFrom(SlowBeats(slow), [r])
            && RunRounds(w, [r]).device == lapsed && !MethodAgrees(RunRounds(w, [r]))
  {
    var told := w.sender.told;
    var r := Attempt(Some(lapsed), false, Decision(told.feature, told.power, None, true), false, 59.0 + 2.0 * slow,
                     link);
    WindowRunsOutBetween(slow);
    assert [r][1..] == [] && [r][0] == r;
    assert RunRounds(w, [r]) == Attempted(w, r);
  }
}
