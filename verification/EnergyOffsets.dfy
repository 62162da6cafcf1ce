/**
 Changing a user's offset on a lifetime total: today's value stays, the next read is not
 held, and it does not matter in how many steps an offset was reached.
 */
module EnergyOffsets {
  import opened Base
  import opened Energy
  import opened EnergyRuns

  /** Today's value and the total's distance from its snapshot survive a changed offset. */
  lemma OffsetKeepsToday(t: Tally, before: real, after: real, baseline: real, device: Option<real>, now: Time,
                         power: real, rawDaily: Option<real>, sinceMidnight: Time)
    requires t.snapshot.Some?
    ensures var c := OffsetChanged(t, before, after, Some(baseline), device, now);
            && c.published.Some? && c.tally.snapshot.Some?
            && c.published.value - c.tally.snapshot.value == baseline - t.snapshot.value
            && DailyFor(power, c.published, c.tally.snapshot, false, rawDaily, sinceMidnight).today
               == DailyFor(power, Some(baseline), t.snapshot, false, rawDaily, sinceMidnight).today
  {
  }

  /** An offset is added to every reading of a total but a 0, which is a glitch. */
  lemma OffsetIsAdded(offset: real, reading: real)
    ensures WithOffset(Some(offset), Some(reading)) == Some(if reading > 0.0 then reading + offset else reading)
    ensures WithOffset(None, Some(reading)) == Some(reading) && WithOffset(Some(offset), None) == None
  {
  }

  /** A changed offset moves a total to what the device last reported with the new offset, or
      by as much as the offset where it reported nothing; it accepts the total and forgets
      what was held, read first or witnessed before. One that is not changed does nothing. */
  lemma OffsetMovesTotal(t: Tally, before: real, after: real, baseline: real, device: Option<real>, now: Time)
    ensures after == before ==>
              OffsetChanged(t, before, after, Some(baseline), device, now) == Checked(t, Some(baseline))
    ensures after != before ==>
              var c := OffsetChanged(t, before, after, Some(baseline), device, now);
              && c.published == Some(if device.Some? && device.value > 0.0 then device.value + after
                                     else baseline + (after - before))
              && c.tally.acceptedAt == Some(now)
              && c.tally.held.None? && c.tally.firstRead.None? && c.tally.run.None?
    ensures OffsetChanged(t, before, after, None, device, now) == Checked(t, None)
  {
  }

  /** The next read within the budget is published with the new offset, not held, whatever
      was remembered of the total before. */
  lemma NextReadIsTaken(t: Tally, before: real, offset: Option<real>, baseline: real, device: Option<real>, now: Time,
                        power: real, reading: real, daily: Option<real>, previousTime: Time, later: Time)
    requires var c := OffsetChanged(t, before, offset.GetOr(0.0), Some(baseline), device, now);
             offset.GetOr(0.0) != before && reading > 0.0
             && 0.0 <= reading + offset.GetOr(0.0) - c.published.value <= Budget(power, now, later)
    ensures var c := OffsetChanged(t, before, offset.GetOr(0.0), Some(baseline), device, now);
            var next := Check(power, c.tally, WithOffset(offset, Some(reading)), daily, c.published,
                              Some(previousTime), later);
            && next.published == Some(reading + offset.GetOr(0.0))
            && next.tally.held.None? && next.tally.acceptedAt == Some(later)
  {
  }

  /** Where the device had a reading, that budget is the device's own rise since: the
      counter goes on as if the offset had always been there. */
  lemma DeviceRiseIsTaken(t: Tally, before: real, offset: Option<real>, baseline: real, device: real, now: Time,
                          power: real, reading: real, daily: Option<real>, previousTime: Time, later: Time)
    requires offset.GetOr(0.0) != before && device > 0.0
    requires device <= reading <= device + Budget(power, now, later)
    ensures var c := OffsetChanged(t, before, offset.GetOr(0.0), Some(baseline), Some(device), now);
            var next := Check(power, c.tally, WithOffset(offset, Some(reading)), daily, c.published,
                              Some(previousTime), later);
            && c.published.Some? && next.published.Some?
            && next.published.value - c.published.value == reading - device
            && next.tally.held.None?
  {
    NextReadIsTaken(t, before, offset, baseline, Some(device), now, power, reading, daily, previousTime, later);
  }

  /** An offset worked out from a held total keeps it at its published value. */
  lemma OffsetFromHeldTotalStays(t: Tally, before: real, baseline: real, device: real, now: Time)
    requires device > 0.0
    ensures OffsetChanged(t, before, baseline - device, Some(baseline), Some(device), now).published == Some(baseline)
  {
  }

  /** Two changes of an offset come to one direct change of the data and the snapshot,
      except exactly when they lead back to the offset they started from while the device
      reports something other than what is published. */
  lemma TwoChangesAreOne(t: Tally, first: real, second: real, third: real, baseline: Option<real>,
                         device: Option<real>, now: Time, later: Time)
    ensures var once := OffsetChanged(t, first, second, baseline, device, now);
            var twice := OffsetChanged(once.tally, second, third, once.published, device, later);
            var direct := OffsetChanged(t, first, third, baseline, device, later);
            (twice.published == direct.published && twice.tally.snapshot == direct.tally.snapshot)
            <==> !(&& third == first && second != first
                   && baseline.Some? && device.Some? && device.value > 0.0
                   && device.value + first != baseline.value)
  {
  }
}
