/** When a usage limit resets: from a wall-clock time and a time zone to an instant. */
module ResetTime {
  import opened Wrappers

  const DAY := 86400

  /** The instants, in UTC seconds, that a local date and time can mean. */
  datatype LocalResult = NoSuchTime | Single(at: int) | Ambiguous(earlier: int, later: int)

  /** A zone as the time library presents it: the local seconds at an instant, and back. */
  datatype Zone = Zone(local: int -> int, fromLocal: int -> LocalResult)

  /** The way back finds exactly the instants that show the given local time. */
  ghost predicate Faithful(z: Zone) {
    forall l :: match z.fromLocal(l)
                case NoSuchTime => forall u :: z.local(u) != l
                case Single(a) => forall u :: z.local(u) == l <==> u == a
                case Ambiguous(a, b) => a < b && forall u :: z.local(u) == l <==> u == a || u == b
  }

  function Date(local: int): int {
    local / DAY
  }

  function TimeOfDay(local: int): int {
    local % DAY
  }

  /** The local calendar date never steps backwards. Clock changes within a day and skipped dates
      are allowed. */
  ghost predicate DatesAdvance(z: Zone) {
    forall u, v :: u <= v ==> Date(z.local(u)) <= Date(z.local(v))
  }

  /** The earlier instant at which the clock shows `time` on `date`. */
  function At(z: Zone, date: int, time: int): Option<int> {
    match z.fromLocal(date * DAY + time)
    case NoSuchTime => None
    case Single(a) => Some(a)
    case Ambiguous(a, _) => Some(a)
  }

  function NextReset(z: Zone, now: int, time: int): Option<int> {
    var today := Date(z.local(now));
    var date := if At(z, today, time).Some? then today else today + 1;
    match At(z, date, time)
    case None => None
    case Some(a) => if a <= now then At(z, date + 1, time) else Some(a)
  }

  /** The clock shows `time` at r, and did not since now. */
  ghost predicate IsNextOccurrence(z: Zone, now: int, time: int, r: int) {
    now < r && TimeOfDay(z.local(r)) == time && forall u :: now < u < r ==> TimeOfDay(z.local(u)) != time
  }

  /** Now lies between the two occurrences of a time that today's clock change repeats. */
  predicate BetweenRepeats(z: Zone, now: int, time: int) {
    var t := z.fromLocal(Date(z.local(now)) * DAY + time);
    t.Ambiguous? && t.earlier <= now < t.later
  }

  lemma AtShows(z: Zone, date: int, time: int)
    requires Faithful(z) && 0 <= time < DAY
    ensures var a := At(z, date, time);
            && (a.Some? ==> Date(z.local(a.value)) == date && TimeOfDay(z.local(a.value)) == time)
            && (forall u :: Date(z.local(u)) == date && TimeOfDay(z.local(u)) == time ==> a.Some? && a.value <= u)
  {
  }

  lemma LaterDate(z: Zone, u: int, v: int)
    requires DatesAdvance(z)
    ensures Date(z.local(u)) < Date(z.local(v)) ==> u < v
  {
  }

  /** Through gaps, repeats and times already past: the reset is strictly in the future, today or
      tomorrow, at the stated wall-clock time, and it is missing exactly when that time is over
      for today (or skipped today) and skipped tomorrow. */
  lemma ResetIsAhead(z: Zone, now: int, time: int)
    requires Faithful(z) && DatesAdvance(z) && 0 <= time < DAY
    ensures var today, r := Date(z.local(now)), NextReset(z, now, time);
            && (r.Some? ==> r.value > now && TimeOfDay(z.local(r.value)) == time
                            && (Date(z.local(r.value)) == today || Date(z.local(r.value)) == today + 1))
            && (r.None? <==>
                  At(z, today + 1, time).None? && (At(z, today, time).None? || At(z, today, time).value <= now))
  {
    var today := Date(z.local(now));
    AtShows(z, today, time);
    AtShows(z, today + 1, time);
    var a := At(z, today + 1, time);
    if a.Some? { LaterDate(z, now, a.value); }
  }

  /** Between the two occurrences of a repeated time, today's second one comes first. */
  lemma SecondIsPassedOver(z: Zone, now: int, time: int)
    requires Faithful(z) && DatesAdvance(z) && 0 <= time < DAY
    requires NextReset(z, now, time).Some? && BetweenRepeats(z, now, time)
    ensures !IsNextOccurrence(z, now, time, NextReset(z, now, time).value)
  {
    var today, r := Date(z.local(now)), NextReset(z, now, time).value;
    var t := z.fromLocal(today * DAY + time);
    AtShows(z, today + 1, time);
    assert z.local(t.later) == today * DAY + time;
    LaterDate(z, t.later, r);
    assert TimeOfDay(z.local(t.later)) == time;
  }

  /** A second instant that shows a time of a date is its later occurrence. */
  lemma SecondOfDate(z: Zone, date: int, time: int, u: int)
    requires Faithful(z) && 0 <= time < DAY
    requires z.local(u) == date * DAY + time && At(z, date, time).Some? && At(z, date, time).value < u
    ensures z.fromLocal(date * DAY + time) == Ambiguous(At(z, date, time).value, u)
  {
  }

  /** Otherwise the clock does not show the time before the reset. */
  lemma NothingBefore(z: Zone, now: int, time: int, u: int)
    requires Faithful(z) && DatesAdvance(z) && 0 <= time < DAY
    requires NextReset(z, now, time).Some? && !BetweenRepeats(z, now, time)
    requires now < u < NextReset(z, now, time).value
    ensures TimeOfDay(z.local(u)) != time
  {
    var today, r := Date(z.local(now)), NextReset(z, now, time).value;
    ResetIsAhead(z, now, time);
    AtShows(z, today, time);
    AtShows(z, today + 1, time);
    assert today <= Date(z.local(u)) <= Date(z.local(r));
    hide Faithful, DatesAdvance;
    if TimeOfDay(z.local(u)) == time && Date(z.local(u)) == today {
      assert z.local(u) == today * DAY + time;
      SecondOfDate(z, today, time, u);
    }
  }

  /** "The next occurrence of the time" is what it is meant to be, and it is that exactly unless
      now lies between the two occurrences of a repeated time: then today's second one is passed
      over for tomorrow's. */
  lemma ResetIsNextOccurrence(z: Zone, now: int, time: int)
    requires Faithful(z) && DatesAdvance(z) && 0 <= time < DAY
    requires NextReset(z, now, time).Some?
    ensures IsNextOccurrence(z, now, time, NextReset(z, now, time).value) <==> !BetweenRepeats(z, now, time)
  {
    hide Faithful, DatesAdvance, NextReset, BetweenRepeats;
    ResetIsAhead(z, now, time);
    var r := NextReset(z, now, time).value;
    if BetweenRepeats(z, now, time) {
      SecondIsPassedOver(z, now, time);
    } else {
      forall u | now < u < r ensures TimeOfDay(z.local(u)) != time {
        NothingBefore(z, now, time, u);
      }
    }
  }

  // ---------------------------------------------------------------- an autumn night

  /** Two in the morning of day 10. */
  const AUTUMN := 10 * DAY + 7200

  /** A zone that goes back one hour at AUTUMN. */
  function FallingBack(): Zone {
    Zone(u => if u < AUTUMN then u else u - 3600,
         l => if l < AUTUMN - 3600 then Single(l)
              else if l < AUTUMN then Ambiguous(l, l + 3600)
              else Single(l + 3600))
  }

  /** An ordinary change of the clocks has such a moment: at the first half past one of that night, the
      reset of half past one is taken to be tomorrow's, not the second one an hour later. */
  lemma RepeatIsPassedOver()
    ensures Faithful(FallingBack()) && DatesAdvance(FallingBack())
    ensures BetweenRepeats(FallingBack(), AUTUMN - 1800, 5400)
    ensures NextReset(FallingBack(), AUTUMN - 1800, 5400) == Some(11 * DAY + 9000)
    ensures TimeOfDay(FallingBack().local(AUTUMN + 1800)) == 5400 && AUTUMN + 1800 < 11 * DAY + 9000
  {
    var z := FallingBack();
    FallingBackFaithful();
    assert Date(z.local(AUTUMN - 1800)) == 10 && At(z, 10, 5400) == Some(AUTUMN - 1800);
    assert At(z, 11, 5400) == Some(11 * DAY + 9000);
  }

  lemma FallingBackFaithful()
    ensures Faithful(FallingBack()) && DatesAdvance(FallingBack())
  {
  }

  // ---------------------------------------------------------------- a date that steps back

  const STEP := 2 * DAY + 1000

  /** A zone that goes back a whole day at STEP. */
  function SteppingBack(): Zone {
    Zone(u => if u < STEP then u else u - DAY,
         l => if l < STEP && l + DAY >= STEP then Ambiguous(l, l + DAY)
              else if l < STEP then Single(l)
              else Single(l + DAY))
  }

  /** Where the calendar date steps back, the computed reset can lie in the past. */
  lemma PastResetWhereDatesStepBack()
    ensures Faithful(SteppingBack()) && !DatesAdvance(SteppingBack())
    ensures NextReset(SteppingBack(), STEP + 5000, 500) == Some(2 * DAY + 500)
    ensures 2 * DAY + 500 < STEP + 5000
  {
    var z := SteppingBack();
    SteppingBackFaithful();
    assert Date(z.local(STEP - 1)) == 2 && Date(z.local(STEP)) == 1;
    assert Date(z.local(STEP + 5000)) == 1;
    assert At(z, 1, 500) == Some(DAY + 500) && At(z, 2, 500) == Some(2 * DAY + 500);
  }

  lemma SteppingBackFaithful()
    ensures Faithful(SteppingBack())
  {
  }
}
