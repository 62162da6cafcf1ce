/**
 Sending a command to the inverter (control.py): the setpoint before the method word, and
 what was commanded recorded only once both have been taken. Any write may fail.
 */
module Delivery {
  import opened Base
  import opened Plans
  import opened ControlRules

  const MIN_CONTROL_DWELL_S := 60.0

  datatype Method = DefaultMethod | SystemFeed | BatteryLimits

  function MethodOf(feature: Feature): Method {
    match feature
    case Automatic => DefaultMethod
    case ExportToGrid => SystemFeed
    case ImportFromGrid => SystemFeed
    case _ => BatteryLimits
  }

  predicate CommandsPower(feature: Feature) {
    !feature.Automatic?
  }

  /** Python's round: the nearest whole number, halves to the even one. */
  function Round(x: real): int {
    var whole := x.Floor;
    var rest := x - whole as real;
    if rest < 0.5 || (rest == 0.5 && whole % 2 == 0) then whole else whole + 1
  }

  predicate FitsInt32(value: int) {
    -0x8000_0000 <= value <= 0x7fff_ffff
  }

  /** The inverter's control registers, which keep what was last acknowledged. */
  datatype Device = Device(follows: Method, batterySetpoint: int, systemSetpoint: int) {
    /** The setpoint a feature's method acts on. */
    function Setpoint(feature: Feature): int {
      if MethodOf(feature).SystemFeed? then systemSetpoint else batterySetpoint
    }

    function WithSetpoint(feature: Feature, value: int): Device {
      if MethodOf(feature).SystemFeed? then this.(systemSetpoint := value) else this.(batterySetpoint := value)
    }
  }

  /** Which steps of a send get through. */
  datatype Link = Link(connected: bool, beats: bool, setpointLands: bool, wordLands: bool)

  /** What the controller believes the inverter was told, and whether that has to be sent
      again because the inverter may have forgotten it. */
  datatype Sender = Sender(told: Commanded, stale: bool)

  datatype Sent = Sent(ok: bool, device: Device)

  /** The setpoint write: of the new command, or of 0 to the register of the old one. */
  function WriteSetpoint(d: Device, feature: Feature, watts: real, link: Link): Sent {
    var value := Round(watts) * Sign(feature);
    if link.beats && FitsInt32(value) && link.setpointLands then Sent(true, d.WithSetpoint(feature, value))
    else Sent(false, d)
  }

  /** The setpoint part of a send: the new command's, or the old one's cleared. */
  function SendSetpoint(s: Sender, d: Device, feature: Feature, power: real, link: Link): Sent {
    if !link.connected then Sent(false, d)
    else if CommandsPower(feature) then WriteSetpoint(d, feature, power, link)
    else if CommandsPower(s.told.feature) then WriteSetpoint(d, s.told.feature, 0.0, link)
    else Sent(true, d)
  }

  /** Both writes of a send, in order; the second is spared where the method stays and
      nothing is stale. */
  function SendControl(s: Sender, d: Device, feature: Feature, power: real, link: Link): Sent {
    if !link.connected then Sent(false, d)
    else
      var written := SendSetpoint(s, d, feature, power, link);
      if !written.ok then written
      else if MethodOf(feature) == MethodOf(s.told.feature) && !s.stale then written
      else if link.wordLands then Sent(true, written.device.(follows := MethodOf(feature)))
      else Sent(false, written.device)
  }

  predicate Changed(s: Sender, feature: Feature, power: real) {
    feature != s.told.feature || Round(power) != Round(s.told.power)
  }

  /** Whether a change has to wait: less than a minute since the last write, and nothing urgent. */
  predicate Dwells(s: Sender, decision: Decision, force: bool, now: real) {
    && Changed(s, decision.feature, decision.power)
    && !force && !decision.bypassDwell && !s.stale
    && s.told.WrittenWithin(now, MIN_CONTROL_DWELL_S)
  }

  predicate Sends(s: Sender, decision: Decision) {
    Changed(s, decision.feature, decision.power) || s.stale
  }

  /** What a send that went through leaves on record. */
  function Committed(s: Sender, decision: Decision, now: real): Sender {
    var retuned :=
      if !Changed(s, decision.feature, decision.power) then s.told.retunedFrom
      else if decision.feature != s.told.feature then None
      else Some(s.told.power);
    var lastWrite := if Sends(s, decision) then Some(now) else s.told.lastWrite;
    Sender(Commanded(decision.feature, decision.power, retuned, lastWrite), false)
  }

  datatype Applied = Applied(sender: Sender, device: Device, ok: bool)

  /** A decision's way out: it may dwell, need no send, fail, or be sent and recorded. */
  function ApplyDecision(s: Sender, d: Device, decision: Decision, force: bool, now: real, link: Link): Applied {
    if Dwells(s, decision, force, now) then Applied(s, d, true)
    else if !Sends(s, decision) then Applied(Committed(s, decision, now), d, true)
    else
      var sent := SendControl(s, d, decision.feature, decision.power, link);
      Applied(if sent.ok then Committed(s, decision, now) else s, sent.device, sent.ok)
  }

  /** Whole numbers stay, halves go to the even side, and the rest to the nearest. */
  lemma RoundIsPythons(n: int, x: real)
    ensures n as real - 0.5 < x < n as real + 0.5 ==> Round(x) == n
    ensures x == n as real + 0.5 ==> Round(x) == if n % 2 == 0 then n else n + 1
  {
    assert x == n as real + 0.5 ==> x.Floor == n;
    assert n as real - 0.5 < x < n as real + 0.5 ==> x.Floor == n || x.Floor == n - 1;
  }

  /** A user's change, one with something to explain, one after a possible lapse and one a
      minute after the last write never wait: sent on a good link, they are told. */
  lemma UrgentChangeIsTold(s: Sender, d: Device, decision: Decision, force: bool, now: real, link: Link)
    requires force || decision.bypassDwell || s.stale || s.told.lastWrite.None? || now - s.told.lastWrite.value >= 60.0
    requires link == Link(true, true, true, true) && FitsInt32(Round(decision.power) * Sign(decision.feature))
    ensures var a := ApplyDecision(s, d, decision, force, now, link);
            && a.ok && !a.sender.stale
            && a.sender.told.feature == decision.feature && a.sender.told.power == decision.power
  {
    RoundIsPythons(0, 0.0);
  }

  /** Any other change waits, and leaves everything as it is. */
  lemma OrdinaryChangeWaits(s: Sender, d: Device, decision: Decision, now: real, link: Link)
    requires decision.feature != s.told.feature || Round(decision.power) != Round(s.told.power)
    requires !decision.bypassDwell && !s.stale && s.told.lastWrite.Some? && now - s.told.lastWrite.value < 60.0
    ensures ApplyDecision(s, d, decision, false, now, link) == Applied(s, d, true)
  {
  }

  /** What a decision that is through leaves on record: when something was last written, and
      the setpoint that a correction of the same command replaced. */
  lemma RecordIsKept(s: Sender, d: Device, decision: Decision, force: bool, now: real, link: Link)
    requires ApplyDecision(s, d, decision, force, now, link).ok && !Dwells(s, decision, force, now)
    ensures var told := ApplyDecision(s, d, decision, force, now, link).sender.told;
            var same := decision.feature == s.told.feature && Round(decision.power) == Round(s.told.power);
            && told.lastWrite == (if same && !s.stale then s.told.lastWrite else Some(now))
            && told.retunedFrom == (if same then s.told.retunedFrom
                                    else if decision.feature == s.told.feature then Some(s.told.power) else None)
  {
  }

  // ---------------------------------------------------------------------------
  // Runs
  // ---------------------------------------------------------------------------

  /** One round: the inverter may have lapsed and forgotten what it was told, which the
      controller may have noticed, and then a decision is applied. The controller also takes
      a command for forgotten where it is not: after an outage, say. */
  datatype Attempt = Attempt(lapsed: Option<Device>, noticed: bool, decision: Decision, force: bool, now: real,
                             link: Link)

  datatype World = World(sender: Sender, device: Device)

  /** What a round starts from. */
  function Lapsed(w: World, lapsed: Option<Device>, noticed: bool): World {
    World(if noticed then w.sender.(stale := true) else w.sender, lapsed.GetOr(w.device))
  }

  function Attempted(w: World, r: Attempt): World {
    var l := Lapsed(w, r.lapsed, r.noticed);
    var a := ApplyDecision(l.sender, l.device, r.decision, r.force, r.now, r.link);
    World(a.sender, a.device)
  }

  function RunRounds(w: World, rounds: seq<Attempt>): World
    decreases |rounds|
  {
    if rounds == [] then w else RunRounds(Attempted(w, rounds[0]), rounds[1..])
  }

  /** Unless the command is stale, the inverter follows the method it was told. */
  predicate MethodAgrees(w: World) {
    !w.sender.stale ==> w.device.follows == MethodOf(w.sender.told.feature)
  }

  /** Unless the command is stale, the method's setpoint is the power it was told. */
  predicate SetpointAgrees(w: World) {
    !w.sender.stale && CommandsPower(w.sender.told.feature) ==>
      w.device.Setpoint(w.sender.told.feature) == Round(w.sender.told.power) * Sign(w.sender.told.feature)
  }

  /** The controller knows what the inverter does. */
  predicate Agrees(w: World) {
    MethodAgrees(w) && SetpointAgrees(w)
  }

  /** A lapse that does not matter: it was noticed, or a new send was due anyway, or the
      inverter lost nothing of what it was told. */
  predicate LapseHarmless(w: World, r: Attempt) {
    || r.lapsed.None? || r.noticed || w.sender.stale
    || (&& r.lapsed.value.follows == MethodOf(w.sender.told.feature)
        && (CommandsPower(w.sender.told.feature) ==>
              r.lapsed.value.Setpoint(w.sender.told.feature)
              == Round(w.sender.told.power) * Sign(w.sender.told.feature)))
  }

  lemma LapseHarmlessIff(w: World, r: Attempt)
    requires Agrees(w)
    ensures Agrees(Lapsed(w, r.lapsed, r.noticed)) <==> LapseHarmless(w, r)
  {
  }

  lemma AttemptKeepsMethod(w: World, r: Attempt)
    requires MethodAgrees(Lapsed(w, r.lapsed, r.noticed))
    ensures MethodAgrees(Attempted(w, r))
  {
  }

  /** The device follows the commanded method all along. */
  predicate AlwaysFollows(w: World, rounds: seq<Attempt>)
    decreases |rounds|
  {
    && MethodAgrees(w)
    && (rounds == [] ||
        (&& MethodAgrees(Lapsed(w, rounds[0].lapsed, rounds[0].noticed))
         && AlwaysFollows(Attempted(w, rounds[0]), rounds[1..])))
  }

  /** No round misses that the inverter went over to another method. */
  predicate LapsesNoticed(w: World, rounds: seq<Attempt>)
    decreases |rounds|
  {
    rounds == [] ||
    (var r := rounds[0];
     && (|| r.lapsed.None? || r.noticed || w.sender.stale
         || r.lapsed.value.follows == MethodOf(w.sender.told.feature))
     && LapsesNoticed(Attempted(w, r), rounds[1..]))
  }

  /** The device follows the commanded method at every instant of a run, whichever writes
      fail, exactly when every lapse that changed its method is noticed. */
  lemma {:induction false} MethodAlwaysAgreesIff(w: World, rounds: seq<Attempt>)
    requires MethodAgrees(w)
    ensures AlwaysFollows(w, rounds) <==> LapsesNoticed(w, rounds)
    decreases |rounds|
  {
    if rounds != [] {
      if MethodAgrees(Lapsed(w, rounds[0].lapsed, rounds[0].noticed)) {
        AttemptKeepsMethod(w, rounds[0]);
        MethodAlwaysAgreesIff(Attempted(w, rounds[0]), rounds[1..]);
      }
    }
  }

  /** Rounds that decide on what was told last, with nothing noticed in between. */
  predicate Unmoved(told: Commanded, rounds: seq<Attempt>) {
    forall r :: r in rounds ==>
      && r.lapsed.None? && !r.noticed
      && r.decision.feature == told.feature && Round(r.decision.power) == Round(told.power)
  }

  /** Such rounds send nothing, however many they are and whatever the device does. */
  lemma {:induction false} UnmovedSendsNothing(w: World, rounds: seq<Attempt>)
    requires !w.sender.stale && Unmoved(w.sender.told, rounds)
    ensures var e := RunRounds(w, rounds);
            && e.device == w.device && !e.sender.stale
            && e.sender.told.feature == w.sender.told.feature
            && Round(e.sender.told.power) == Round(w.sender.told.power)
    decreases |rounds|
  {
    if rounds != [] {
      assert rounds[0] in rounds;
      UnmovedSendsNothing(Attempted(w, rounds[0]), rounds[1..]);
    }
  }

  /** A lapse that is missed stays: as long as the decision does not change and nothing else
      tells of it, the inverter goes on as it likes. */
  lemma MissedLapseStays(w: World, lapsed: Device, rounds: seq<Attempt>)
    requires !w.sender.stale && Unmoved(w.sender.told, rounds)
    requires lapsed.follows != MethodOf(w.sender.told.feature)
    ensures var e := RunRounds(Lapsed(w, Some(lapsed), false), rounds);
            e.device == lapsed && !MethodAgrees(e)
  {
    UnmovedSendsNothing(Lapsed(w, Some(lapsed), false), rounds);
  }

  /** A send that gets through leaves the method set, its setpoint at the signed power, and
      the register of an old command cleared where the new one has none. */
  lemma DeliveredExactly(w: World, decision: Decision, force: bool, now: real, link: Link)
    requires MethodAgrees(w) && !Dwells(w.sender, decision, force, now) && Sends(w.sender, decision)
    ensures var a := ApplyDecision(w.sender, w.device, decision, force, now, link);
            a.ok ==>
              && a.device.follows == MethodOf(decision.feature)
              && (CommandsPower(decision.feature) ==>
                    a.device.Setpoint(decision.feature) == Round(decision.power) * Sign(decision.feature))
              && (!CommandsPower(decision.feature) && CommandsPower(w.sender.told.feature) ==>
                    a.device.Setpoint(w.sender.told.feature) == 0)
              && !a.sender.stale && a.sender.told.feature == decision.feature && a.sender.told.power == decision.power
  {
  }

  /** A send that fails leaves what was commanded as it was, so that the same decision is
      sent again, and then delivered once the link lets it through. */
  lemma FailedIsSentAgain(w: World, decision: Decision, force: bool, now: real, link: Link, later: real, good: Link)
    requires !ApplyDecision(w.sender, w.device, decision, force, now, link).ok && now <= later
    requires good.connected && good.beats && good.setpointLands && good.wordLands
    requires FitsInt32(Round(decision.power) * Sign(decision.feature))
    ensures var failed := ApplyDecision(w.sender, w.device, decision, force, now, link);
            && failed.sender == w.sender
            && Sends(failed.sender, decision) && !Dwells(failed.sender, decision, force, later)
            && ApplyDecision(failed.sender, failed.device, decision, force, later, good).ok
  {
  }

  /** Whether a send gets through, told from what it has to write: a setpoint wherever the
      new command or the old one has one, and the method word wherever the method changes or
      the command may have been forgotten. */
  predicate GetsThrough(s: Sender, decision: Decision, link: Link) {
    && link.connected
    && (CommandsPower(decision.feature) ==> FitsInt32(Round(decision.power) * Sign(decision.feature)))
    && (CommandsPower(decision.feature) || CommandsPower(s.told.feature) ==> link.beats && link.setpointLands)
    && (MethodOf(decision.feature) != MethodOf(s.told.feature) || s.stale ==> link.wordLands)
  }

  lemma OkIffGetsThrough(s: Sender, d: Device, decision: Decision, force: bool, now: real, link: Link)
    ensures ApplyDecision(s, d, decision, force, now, link).ok
       <==> Dwells(s, decision, force, now) || !Sends(s, decision) || GetsThrough(s, decision, link)
  {
    RoundOfZero();
  }

  /** Whether a send reaches the register that the inverter follows as it is found, so that
      it acts even where the method word then fails. */
  predicate Rewrites(w: World, decision: Decision, link: Link) {
    var target := if CommandsPower(decision.feature) then decision.feature else w.sender.told.feature;
    && link.connected && link.beats && link.setpointLands
    && CommandsPower(target) && w.device.follows == MethodOf(target)
    && (CommandsPower(decision.feature) ==> FitsInt32(Round(decision.power) * Sign(decision.feature)))
  }

  /** The step that can leave a setpoint behind: going back to Automatic clears the old
      command's setpoint and then fails to change the method. */
  predicate HalfCleared(w: World, r: Attempt) {
    var s := Lapsed(w, r.lapsed, r.noticed).sender;
    && !s.stale && CommandsPower(s.told.feature) && Round(s.told.power) != 0
    && r.decision.feature.Automatic? && !Dwells(s, r.decision, r.force, r.now)
    && r.link.connected && r.link.beats && r.link.setpointLands && !r.link.wordLands
  }

  /** A round keeps the setpoint in step with the command exactly unless it half clears it. */
  lemma SetpointKeptUnlessHalfCleared(w: World, r: Attempt)
    requires Agrees(Lapsed(w, r.lapsed, r.noticed))
    ensures SetpointAgrees(Attempted(w, r)) <==> !HalfCleared(w, r)
  {
    var l := Lapsed(w, r.lapsed, r.noticed);
    RoundOfZero();
    if CommandsPower(l.sender.told.feature) {
      assert Sign(l.sender.told.feature) == 1 || Sign(l.sender.told.feature) == -1;
    }
  }

  lemma RoundOfZero()
    ensures Round(0.0) == 0
  {
  }

  /** What the controller believes is true at every instant of a run. */
  predicate AlwaysInStep(w: World, rounds: seq<Attempt>)
    decreases |rounds|
  {
    && Agrees(w)
    && (rounds == [] ||
        (&& Agrees(Lapsed(w, rounds[0].lapsed, rounds[0].noticed))
         && AlwaysInStep(Attempted(w, rounds[0]), rounds[1..])))
  }

  predicate NeverHalfClears(w: World, rounds: seq<Attempt>)
    decreases |rounds|
  {
    rounds == [] || (!HalfCleared(w, rounds[0]) && NeverHalfClears(Attempted(w, rounds[0]), rounds[1..]))
  }

  /** No round misses a lapse or half clears a command. */
  predicate KeepsStep(w: World, rounds: seq<Attempt>)
    decreases |rounds|
  {
    rounds == [] ||
    (&& LapseHarmless(w, rounds[0]) && !HalfCleared(w, rounds[0])
     && KeepsStep(Attempted(w, rounds[0]), rounds[1..]))
  }

  /** The inverter does what it was told last, at every instant of a run, exactly when each
      lapse is noticed and no round half clears a command. */
  lemma {:induction false} InStepIff(w: World, rounds: seq<Attempt>)
    requires Agrees(w)
    ensures AlwaysInStep(w, rounds) <==> KeepsStep(w, rounds)
    decreases |rounds|
  {
    if rounds != [] {
      var r := rounds[0];
      LapseHarmlessIff(w, r);
      if LapseHarmless(w, r) {
        SetpointKeptUnlessHalfCleared(w, r);
        AttemptKeepsMethod(w, r);
        if !HalfCleared(w, r) {
          InStepIff(Attempted(w, r), rounds[1..]);
        }
      }
    }
  }

  /** After a half-cleared command, deciding on the old command again sends nothing, however
      often: the inverter stays on the old method with its limit gone, while the controller
      takes it for told. */
  lemma HalfClearedGoesUnnoticed(w: World, r: Attempt, rounds: seq<Attempt>)
    requires Agrees(Lapsed(w, r.lapsed, r.noticed)) && HalfCleared(w, r) && Unmoved(w.sender.told, rounds)
    ensures var e := RunRounds(w, [r] + rounds);
            && !e.sender.stale && e.sender.told.feature == w.sender.told.feature
            && Round(e.sender.told.power) == Round(w.sender.told.power)
            && e.device.follows == MethodOf(w.sender.told.feature)
            && e.device.Setpoint(w.sender.told.feature) == 0
  {
    RoundOfZero();
    UnmovedSendsNothing(Attempted(w, r), rounds);
    assert ([r] + rounds)[1..] == rounds;
  }
}
