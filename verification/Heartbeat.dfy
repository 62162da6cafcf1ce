/**
 The heartbeat (heartbeat.py): a write retried within its own budget, timed so that the
 inverter's deadline survives one write cycle that fails altogether.
 Times are in seconds.
 */
module Heartbeat {
  import opened Base

  const HEARTBEAT_WINDOW_S := 60.0
  const HEARTBEAT_INTERVAL_S := 20.0
  const HEARTBEAT_JITTER_S := 2.0
  const HEARTBEAT_REUSE_S := 10.0
  const HEARTBEAT_RETRY_TOTAL_S := 15.0
  const HEARTBEAT_MIN_GAP_S := 5.0
  const HEARTBEAT_UNSUPPORTED_RETRY_S := 900.0

  /** The waits of one write, attempt by attempt: none, then one scan interval each, as many
      as fit the 15 s. */
  function RetryDelays(scanIntervalS: real): (r: seq<real>)
    ensures |r| >= 2 && r[0] == 0.0
  {
    var delay := Max(1.0, Min(scanIntervalS, HEARTBEAT_RETRY_TOTAL_S));
    var retries := (HEARTBEAT_RETRY_TOTAL_S / delay).Floor;
    assert HEARTBEAT_RETRY_TOTAL_S / delay >= 1.0;
    [0.0] + Repeat(delay, retries)
  }

  function Repeat(delay: real, n: nat): (r: seq<real>)
    ensures |r| == n
  {
    if n == 0 then [] else [delay] + Repeat(delay, n - 1)
  }

  predicate NonNegative(xs: seq<real>) {
    forall i :: 0 <= i < |xs| ==> xs[i] >= 0.0
  }

  function Sum(xs: seq<real>): real {
    if xs == [] then 0.0 else xs[0] + Sum(xs[1..])
  }

  /** What becomes of one attempt to write. Disconnected also stands for a client that may
      not write; Refused is the inverter calling the request invalid. */
  datatype Outcome = Accepted | FailedForNow | Refused | Disconnected

  datatype Attempt = Attempt(outcome: Outcome, latency: real)

  /** What the heartbeat remembers. */
  datatype Beat = Beat(lastSuccess: Option<real>, supported: Option<bool>) {
    /** Whether the last success is at most so old. */
    predicate Within(now: real, seconds: real) {
      lastSuccess.Some? && now - lastSuccess.value <= seconds
    }

    predicate InControl(now: real) {
      Within(now, HEARTBEAT_WINDOW_S)
    }

    function DelayBeforeNextWrite(now: real): real {
      if supported == Some(false) then HEARTBEAT_UNSUPPORTED_RETRY_S
      else if lastSuccess.None? then HEARTBEAT_MIN_GAP_S
      else Max(HEARTBEAT_MIN_GAP_S, HEARTBEAT_INTERVAL_S - (now - lastSuccess.value))
    }
  }

  datatype Written = Written(beat: Beat, ok: bool, end: real)

  /** The attempts of one write from attempt i on, which starts to wait at now. */
  function Tries(b: Beat, delays: seq<real>, i: nat, now: real, attempts: nat -> Attempt): Written
    requires i <= |delays|
    decreases |delays| - i
  {
    if i == |delays| then Written(b, false, now)
    else
      var at := now + delays[i];
      var end := at + attempts(i).latency;
      match attempts(i).outcome
      case Disconnected => Written(b, false, at)
      case Accepted => Written(Beat(Some(at), Some(true)), true, end)
      case Refused => Written(b.(supported := Some(false)), false, end)
      case FailedForNow => Tries(b, delays, i + 1, end, attempts)
  }

  function WriteBeat(b: Beat, delays: seq<real>, now: real, attempts: nat -> Attempt): Written {
    if b.Within(now, HEARTBEAT_REUSE_S) then Written(b, true, now) else Tries(b, delays, 0, now, attempts)
  }

  class Heartbeat {
    const retryDelays: seq<real>
    var lastSuccess: Option<real>
    var supported: Option<bool>

    function State(): Beat
      reads this
    {
      Beat(lastSuccess, supported)
    }

    constructor (scanIntervalS: real)
      ensures retryDelays == RetryDelays(scanIntervalS) && State() == Beat(None, None)
    {
      retryDelays := RetryDelays(scanIntervalS);
      lastSuccess, supported := None, None;
    }

    /** One write with its retries. The clock reads now at its start and end at its end. */
    method WriteHeartbeat(now: real, attempts: nat -> Attempt) returns (ok: bool, end: real)
      modifies this
      ensures Written(State(), ok, end) == WriteBeat(old(State()), retryDelays, now, attempts)
    {
      end := now;
      if State().Within(now, HEARTBEAT_REUSE_S) {
        return true, end;
      }
      for i := 0 to |retryDelays|
        invariant State() == old(State())
        invariant Tries(State(), retryDelays, i, end, attempts) == Tries(State(), retryDelays, 0, now, attempts)
      {
        end := end + retryDelays[i];
        if attempts(i).outcome.Disconnected? {
          return false, end;
        }
        var sentAt := end;
        end := end + attempts(i).latency;
        match attempts(i).outcome {
          case Refused =>
            supported := Some(false);
            return false, end;
          case Accepted =>
            supported := Some(true);
            lastSuccess := Some(sentAt);
            return true, end;
          case FailedForNow =>
        }
      }
      ok := false;
    }

    /** One round of the timer loop: a write, and the time at which the next one starts. */
    method RunOnce(now: real, turn: Turn) returns (next: real)
      modifies this
      ensures Turned(State(), next) == TakeTurn(old(State()), retryDelays, now, turn)
    {
      var ok, end := WriteHeartbeat(now, turn.attempts);
      next := end + State().DelayBeforeNextWrite(end) + turn.jitter;
    }
  }

  /** What the world does to one round of the loop. */
  datatype Turn = Turn(attempts: nat -> Attempt, jitter: real)

  datatype Turned = Turned(beat: Beat, next: real)

  function TakeTurn(b: Beat, delays: seq<real>, now: real, turn: Turn): Turned {
    var w := WriteBeat(b, delays, now, turn.attempts);
    Turned(w.beat, w.end + w.beat.DelayBeforeNextWrite(w.end) + turn.jitter)
  }

  // ---------------------------------------------------------------------------
  // The deadline survives
  // ---------------------------------------------------------------------------

  lemma {:induction false} RepeatSum(delay: real, n: nat)
    ensures Sum(Repeat(delay, n)) == Scaled(delay, n)
    ensures forall i :: 0 <= i < n ==> Repeat(delay, n)[i] == delay
    decreases n
  {
    if n > 0 {
      RepeatSum(delay, n - 1);
    }
  }

  lemma TimesAtMost(delay: real, n: real, q: real, budget: real)
    requires delay > 0.0 && n <= q && delay * q <= budget
    ensures delay * n <= budget
  {
    assert delay * (q - n) >= 0.0;
  }

  lemma TimesBelow(delay: real, q: real, n: real, budget: real)
    requires delay > 0.0 && q < n + 1.0 && budget <= delay * q
    ensures budget < delay * n + delay
  {
    var gap := n + 1.0 - q;
    assert delay * gap > 0.0;
    assert delay * gap == delay * n + delay - delay * q;
  }

  lemma WaitsThatFit(budget: real, delay: real, q: real, n: int)
    requires delay > 0.0 && delay * q == budget && n == q.Floor
    ensures delay * n as real <= budget < delay * n as real + delay
  {
    TimesAtMost(delay, n as real, q, budget);
    TimesBelow(delay, q, n as real, budget);
  }

  lemma RetriesAre(scanIntervalS: real)
    ensures var delay := Max(1.0, Min(scanIntervalS, 15.0));
            var delays := RetryDelays(scanIntervalS);
            && NonNegative(delays) && (forall i :: 1 <= i < |delays| ==> delays[i] == delay)
            && Sum(delays) <= 15.0 < Sum(delays) + delay
  {
    var delay := Max(1.0, Min(scanIntervalS, HEARTBEAT_RETRY_TOTAL_S));
    var q := HEARTBEAT_RETRY_TOTAL_S / delay;
    assert q >= 1.0;
    RepeatSum(delay, q.Floor);
    ScaledIs(delay, q.Floor);
    assert delay * q == HEARTBEAT_RETRY_TOTAL_S;
    WaitsThatFit(HEARTBEAT_RETRY_TOTAL_S, delay, q, q.Floor);
    assert ([0.0] + Repeat(delay, q.Floor))[1..] == Repeat(delay, q.Floor);
  }

  /** The retries of one write fit its budget whatever the scan interval. */
  lemma RetriesFitBudget(scanIntervalS: real)
    ensures Sum(RetryDelays(scanIntervalS)) <= HEARTBEAT_RETRY_TOTAL_S
    ensures NonNegative(RetryDelays(scanIntervalS))
  {
    RetriesAre(scanIntervalS);
  }

  /** They fill it, too: each waits a scan interval, of at least one second and at most the
      whole budget, and one more would not fit. */
  lemma RetriesFillBudget(scanIntervalS: real)
    ensures var delay := if scanIntervalS < 1.0 then 1.0 else if scanIntervalS > 15.0 then 15.0 else scanIntervalS;
            var delays := RetryDelays(scanIntervalS);
            && (forall i :: 1 <= i < |delays| ==> delays[i] == delay)
            && Sum(delays) + delay > 15.0
  {
    RetriesAre(scanIntervalS);
  }

  /** A success is dated by the start of the attempt that was accepted, however long its
      answer took; without one the last success stays. */
  lemma {:induction false} SuccessIsDatedByItsStart(b: Beat, delays: seq<real>, i: nat, now: real,
                                                    attempts: nat -> Attempt) returns (k: nat)
    requires i <= |delays|
    ensures var w := Tries(b, delays, i, now, attempts);
            if w.ok then
              && i <= k < |delays| && attempts(k).outcome.Accepted?
              && w.beat == Beat(Some(w.end - attempts(k).latency), Some(true))
            else w.beat.lastSuccess == b.lastSuccess
    decreases |delays| - i
  {
    k := i;
    if i < |delays| && attempts(i).outcome.FailedForNow? {
      k := SuccessIsDatedByItsStart(b, delays, i + 1, now + delays[i] + attempts(i).latency, attempts);
    }
  }

  /** Time the attempts from i on spend on the wire, if all of them are made. */
  function Latency(attempts: nat -> Attempt, i: nat, n: nat): real
    requires i <= n
    decreases n - i
  {
    if i == n then 0.0 else attempts(i).latency + Latency(attempts, i + 1, n)
  }

  /** A round of the loop that is refused by nobody, spends at most wire seconds writing
      and jitters as the loop does. */
  ghost predicate Fair(t: Turn, n: nat, wire: real) {
    && 0.0 <= t.jitter <= HEARTBEAT_JITTER_S
    && (forall i: nat :: i < n ==> !t.attempts(i).outcome.Refused? && t.attempts(i).latency >= 0.0)
    && Latency(t.attempts, 0, n) <= wire
  }

  /** Whether a write from attempt i on gets through. */
  predicate Lands(attempts: nat -> Attempt, i: nat, n: nat)
    requires i <= n
    decreases n - i
  {
    i < n && (attempts(i).outcome.Accepted? || (attempts(i).outcome.FailedForNow? && Lands(attempts, i + 1, n)))
  }

  /** At least one of every two rounds in a row lands. */
  predicate OneOfTwoLands(failed: bool, turns: seq<Turn>, n: nat)
    decreases |turns|
  {
    turns == [] ||
    ((Lands(turns[0].attempts, 0, n) || !failed) && OneOfTwoLands(!Lands(turns[0].attempts, 0, n), turns[1..], n))
  }

  lemma {:induction false} LatencyNonNegative(attempts: nat -> Attempt, i: nat, n: nat)
    requires i <= n && forall k: nat :: k < n ==> attempts(k).latency >= 0.0
    ensures Latency(attempts, i, n) >= 0.0
    decreases n - i
  {
    if i < n {
      LatencyNonNegative(attempts, i + 1, n);
    }
  }

  lemma {:induction false} TriesTake(b: Beat, delays: seq<real>, i: nat, now: real, attempts: nat -> Attempt)
    requires i <= |delays| && NonNegative(delays)
    requires forall k: nat :: k < |delays| ==> !attempts(k).outcome.Refused? && attempts(k).latency >= 0.0
    ensures var w := Tries(b, delays, i, now, attempts);
            && w.ok == Lands(attempts, i, |delays|)
            && now <= w.end <= now + Sum(delays[i..]) + Latency(attempts, i, |delays|)
            && (w.ok ==> w.beat.supported == Some(true) && w.beat.lastSuccess.Some?
                         && now <= w.beat.lastSuccess.value <= w.end
                         && w.end - w.beat.lastSuccess.value <= Latency(attempts, i, |delays|))
            && (!w.ok ==> w.beat == b)
    decreases |delays| - i
  {
    LatencyNonNegative(attempts, i, |delays|);
    SumNonNegative(delays[i..]);
    if i < |delays| {
      LatencyNonNegative(attempts, i + 1, |delays|);
      assert delays[i..][0] == delays[i] && delays[i..][1..] == delays[i + 1..];
      SumNonNegative(delays[i + 1..]);
      if attempts(i).outcome.FailedForNow? {
        TriesTake(b, delays, i + 1, now + delays[i] + attempts(i).latency, attempts);
      }
    }
  }

  lemma {:induction false} SumNonNegative(xs: seq<real>)
    requires NonNegative(xs)
    ensures Sum(xs) >= 0.0
  {
    if xs != [] {
      SumNonNegative(xs[1..]);
    }
  }

  /** The times at which writes that landed were sent, over a run of the loop. */
  function Successes(b: Beat, delays: seq<real>, now: real, turns: seq<Turn>): seq<real>
    decreases |turns|
  {
    if turns == [] then []
    else
      var t := TakeTurn(b, delays, now, turns[0]);
      (if t.beat.lastSuccess.Some? && t.beat.lastSuccess != b.lastSuccess then [t.beat.lastSuccess.value] else [])
      + Successes(t.beat, delays, t.next, turns[1..])
  }

  /** When the round after a run starts. */
  function Horizon(b: Beat, delays: seq<real>, now: real, turns: seq<Turn>): real
    decreases |turns|
  {
    if turns == [] then now
    else var t := TakeTurn(b, delays, now, turns[0]); Horizon(t.beat, delays, t.next, turns[1..])
  }

  /** Where the loop stands once a write sent at s has landed, and whether the round after
      it failed. */
  predicate OnTime(b: Beat, now: real, s: real, failed: bool, wire: real) {
    && b.lastSuccess == Some(s)
    && b.supported != Some(false)
    && s <= now
    && (now <= s + 22.0 || (failed && now <= s + 44.0 + wire))
  }

  lemma TurnStaysOnTime(b: Beat, delays: seq<real>, now: real, s: real, failed: bool, t: Turn, wire: real)
    requires NonNegative(delays) && Sum(delays) <= HEARTBEAT_RETRY_TOTAL_S
    requires 0.0 <= wire <= 15.0 && Fair(t, |delays|, wire) && OnTime(b, now, s, failed, wire)
    requires failed ==> Lands(t.attempts, 0, |delays|)
    ensures var r := TakeTurn(b, delays, now, t);
            && r.beat.lastSuccess.Some? && r.next >= now
            && OnTime(r.beat, r.next, r.beat.lastSuccess.value, !Lands(t.attempts, 0, |delays|), wire)
            && (r.beat.lastSuccess != b.lastSuccess ==> s < r.beat.lastSuccess.value <= s + 59.0 + 2.0 * wire)
            && (r.beat.lastSuccess == b.lastSuccess ==> r.next <= s + 59.0 + 2.0 * wire)
  {
    TriesTake(b, delays, 0, now, t.attempts);
    assert delays[0..] == delays;
  }

  /** The deadline is kept at every instant of a run: with writes that take at most wire
      seconds per round, the last success is never older than 59 + 2 * wire seconds, as
      long as one of every two rounds lands. */
  lemma {:induction false} AgeBounded(b: Beat, scanIntervalS: real, now: real, turns: seq<Turn>, failed: bool,
                                      s: real, wire: real, instant: real) returns (u: real)
    requires 0.0 <= wire <= 15.0 && OnTime(b, now, s, failed, wire)
    requires forall t :: t in turns ==> Fair(t, |RetryDelays(scanIntervalS)|, wire)
    requires OneOfTwoLands(failed, turns, |RetryDelays(scanIntervalS)|)
    requires s <= instant <= Horizon(b, RetryDelays(scanIntervalS), now, turns)
    ensures u in [s] + Successes(b, RetryDelays(scanIntervalS), now, turns)
    ensures u <= instant <= u + 59.0 + 2.0 * wire
    decreases |turns|
  {
    var delays := RetryDelays(scanIntervalS);
    RetriesFitBudget(scanIntervalS);
    if turns == [] {
      u := s;
    } else {
      var t := turns[0];
      TurnStaysOnTime(b, delays, now, s, failed, t, wire);
      var r := TakeTurn(b, delays, now, t);
      var s' := r.beat.lastSuccess.value;
      if instant <= s' && s' != s {
        u := s;
      } else {
        u := AgeBounded(r.beat, scanIntervalS, r.next, turns[1..], !Lands(t.attempts, 0, |delays|), s', wire, instant);
      }
    }
  }

  /** A run from a success at s on, in which one of every two rounds lands and a round
      spends at most wire seconds writing, and an instant of it. */
  ghost predicate FairRun(b: Beat, scanIntervalS: real, now: real, turns: seq<Turn>, s: real, instant: real,
                          wire: real) {
    && OnTime(b, now, s, false, wire)
    && (forall t :: t in turns ==> Fair(t, |RetryDelays(scanIntervalS)|, wire))
    && OneOfTwoLands(false, turns, |RetryDelays(scanIntervalS)|)
    && s <= instant <= Horizon(b, RetryDelays(scanIntervalS), now, turns)
  }

  /** Whether some success is recent enough at an instant of a run. */
  ghost predicate ControlledAt(b: Beat, scanIntervalS: real, now: real, turns: seq<Turn>, s: real, instant: real) {
    exists u :: u in [s] + Successes(b, RetryDelays(scanIntervalS), now, turns)
                && u <= instant && Beat(Some(u), Some(true)).InControl(instant)
  }

  /** Whether the inverter stays under control at every instant of every fair run. */
  ghost predicate NeverLapses(wire: real) {
    forall b, scanIntervalS, now, turns, s, instant ::
      FairRun(b, scanIntervalS, now, turns, s, instant, wire) ==>
        ControlledAt(b, scanIntervalS, now, turns, s, instant)
  }

  /** Once a write has landed, the inverter stays under control at every instant, for
      every scan interval, every jitter and every round that fails, as long as no two
      rounds in a row fail, exactly where a round spends at most half a second on the
      wire. */
  lemma NeverLapsesIff(wire: real)
    requires 0.0 <= wire
    ensures NeverLapses(wire) <==> wire <= 0.5
  {
    if wire <= 0.5 {
      forall b, scanIntervalS, now, turns, s, instant | FairRun(b, scanIntervalS, now, turns, s, instant, wire)
        ensures ControlledAt(b, scanIntervalS, now, turns, s, instant)
      {
        var u := AgeBounded(b, scanIntervalS, now, turns, false, s, wire, instant);
      }
    } else {
      var slow := if wire <= 1.0 then wire else 1.0;
      var turns := [Turn(Failing(slow), 2.0), Turn(Late(slow), 0.0)];
      SlowRun(slow, wire);
      assert FairRun(Beat(Some(0.0), Some(true)), 15.0, 22.0, turns, 0.0, 59.5 + slow, wire);
      assert !ControlledAt(Beat(Some(0.0), Some(true)), 15.0, 22.0, turns, 0.0, 59.5 + slow);
    }
  }

  /** A round that lands leaves the loop on time, whatever came before it, except exactly
      where it is spared because a write landed within ten seconds and the inverter has
      refused one since. */
  lemma LandingIsOnTimeIff(b: Beat, scanIntervalS: real, now: real, t: Turn, wire: real)
    requires 0.0 <= wire <= 15.0 && Fair(t, |RetryDelays(scanIntervalS)|, wire)
    requires Lands(t.attempts, 0, |RetryDelays(scanIntervalS)|)
    requires b.lastSuccess.Some? ==> b.lastSuccess.value <= now
    ensures var r := TakeTurn(b, RetryDelays(scanIntervalS), now, t);
            r.beat.lastSuccess.Some?
            && (OnTime(r.beat, r.next, r.beat.lastSuccess.value, false, wire)
                <==> !(b.Within(now, HEARTBEAT_REUSE_S) && b.supported == Some(false)))
  {
    RetriesFitBudget(scanIntervalS);
    TriesTake(b, RetryDelays(scanIntervalS), 0, now, t.attempts);
  }

  /** Every attempt fails, the first only after some time on the wire. */
  function Failing(slow: real): nat -> Attempt {
    (i: nat) => Attempt(FailedForNow, if i == 0 then slow else 0.0)
  }

  /** The second attempt lands, after a first as slow. */
  function Late(slow: real): nat -> Attempt {
    (i: nat) => Attempt(if i == 1 then Accepted else FailedForNow, if i == 0 then slow else 0.0)
  }

  function Refusal(i: nat): Attempt {
    Attempt(Refused, 0.0)
  }

  lemma OneRetry()
    ensures RetryDelays(15.0) == [0.0, 15.0]
  {
    assert (HEARTBEAT_RETRY_TOTAL_S / 15.0).Floor == 1;
    assert Repeat(15.0, 1) == [15.0] + Repeat(15.0, 0);
  }

  /** The bound of AgeBounded is tight: a success at 0, one round lost and the next landing
      on its last attempt come 59 seconds apart, and twice the time on the wire. */
  lemma BoundIsTight(slow: real)
    requires 0.0 <= slow <= 1.0
    ensures var turns := [Turn(Failing(slow), 2.0), Turn(Late(slow), 0.0)];
            && Successes(Beat(Some(0.0), Some(true)), RetryDelays(15.0), 22.0, turns) == [59.0 + 2.0 * slow]
            && Horizon(Beat(Some(0.0), Some(true)), RetryDelays(15.0), 22.0, turns) >= 59.0 + 2.0 * slow
  {
    OneRetry();
    var b := Beat(Some(0.0), Some(true));
    var d := [0.0, 15.0];
    var fail := Turn(Failing(slow), 2.0);
    var late := Turn(Late(slow), 0.0);
    var landed := 59.0 + 2.0 * slow;
    var b' := Beat(Some(landed), Some(true));
    assert Tries(b, d, 2, 37.0 + slow, fail.attempts) == Written(b, false, 37.0 + slow);
    assert Tries(b, d, 1, 22.0 + slow, fail.attempts) == Written(b, false, 37.0 + slow);
    assert WriteBeat(b, d, 22.0, fail.attempts) == Written(b, false, 37.0 + slow);
    assert Tries(b, d, 1, 44.0 + slow + slow, late.attempts) == Written(b', true, landed);
    assert WriteBeat(b, d, 44.0 + slow, late.attempts) == Written(b', true, landed);
    assert TakeTurn(b, d, 22.0, fail) == Turned(b, 44.0 + slow);
    assert TakeTurn(b, d, 44.0 + slow, late).beat == b';
    assert TakeTurn(b, d, 44.0 + slow, late).next >= landed;
    var last := [late];
    assert last[1..] == [];
    assert Successes(b, d, 44.0 + slow, last)
        == [landed] + Successes(b', d, TakeTurn(b, d, 44.0 + slow, late).next, []);
    var turns := [fail] + last;
    assert turns[1..] == last;
    assert Successes(b, d, 22.0, turns) == [] + Successes(b, d, 44.0 + slow, last);
    assert Horizon(b, d, 22.0, turns) == Horizon(b, d, 44.0 + slow, last);
  }

  /** So rounds that spend longer than half a second writing can let the deadline pass. */
  lemma SlowRun(slow: real, wire: real)
    requires 0.5 < slow <= 1.0 && slow <= wire
    ensures var turns := [Turn(Failing(slow), 2.0), Turn(Late(slow), 0.0)];
            && FairRun(Beat(Some(0.0), Some(true)), 15.0, 22.0, turns, 0.0, 59.5 + slow, wire)
            && !ControlledAt(Beat(Some(0.0), Some(true)), 15.0, 22.0, turns, 0.0, 59.5 + slow)
  {
    var fail := Turn(Failing(slow), 2.0);
    var late := Turn(Late(slow), 0.0);
    var turns := [fail, late];
    OneRetry();
    BoundIsTight(slow);
    assert Latency(fail.attempts, 1, 2) == 0.0 && Latency(late.attempts, 1, 2) == 0.0;
    assert Lands(late.attempts, 1, 2) && Lands(late.attempts, 0, 2);
    assert turns[1..] == [late] && [late][1..] == [];
    forall u | u in [0.0] + Successes(Beat(Some(0.0), Some(true)), RetryDelays(15.0), 22.0, turns) && u <= 59.5 + slow
      ensures !Beat(Some(u), Some(true)).InControl(59.5 + slow)
    {
      assert u == 0.0 || u == 59.0 + 2.0 * slow;
    }
  }

  /** The loop never hurries: it pauses for five seconds at least, and does not write again
      within 20 s of a write that landed, nor within ten by a round of its own. */
  lemma WritesAreSpaced(b: Beat, scanIntervalS: real, now: real, t: Turn)
    requires t.jitter >= 0.0
    ensures var delays := RetryDelays(scanIntervalS);
            var w := WriteBeat(b, delays, now, t.attempts);
            var r := TakeTurn(b, delays, now, t);
            && r.next >= w.end + 5.0
            && (r.beat.lastSuccess.Some? && r.beat.supported != Some(false) ==>
                  r.next >= r.beat.lastSuccess.value + 20.0)
            && (b.lastSuccess.Some? && now - b.lastSuccess.value <= 10.0 ==> w == Written(b, true, now))
  {
  }

  /** One answer that calls the request invalid puts the next write beyond the deadline:
      the loop then keeps control only until the deadline of the last success. */
  lemma RefusalLapses(b: Beat, scanIntervalS: real, now: real, jitter: real)
    requires !b.Within(now, HEARTBEAT_REUSE_S) && jitter >= 0.0
    requires b.lastSuccess.Some? ==> b.lastSuccess.value <= now
    ensures var r := TakeTurn(b, RetryDelays(scanIntervalS), now, Turn(Refusal, jitter));
            && r.beat.lastSuccess == b.lastSuccess
            && r.next >= now + HEARTBEAT_UNSUPPORTED_RETRY_S
            && !r.beat.InControl(r.next)
  {
    var attempts: nat -> Attempt := Refusal;
    assert Tries(b, RetryDelays(scanIntervalS), 0, now, attempts)
        == Written(b.(supported := Some(false)), false, now);
  }
}
