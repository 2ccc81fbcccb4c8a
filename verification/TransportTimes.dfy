/** The polling thread's cache: a time is printed only when it differs from the last one seen. */
module TransportTimes {
  import opened Wrappers
  import opened TransportSteps
  import opened TransportInvariants
  import opened UpnpTime

  // ---------------------------------------------------------------- duration

  /** The duration the last successful poll reported. */
  function LatestDuration(evs: seq<Event>): Option<int> {
    if evs == [] then None
    else
      var last := evs[|evs| - 1];
      if last.Poll? && last.ok then Some(last.duration) else LatestDuration(evs[..|evs| - 1])
  }

  predicate ShowsDuration(t: Transport) {
    t.vars[TrackDuration] == Print(t.lastDuration)
  }

  lemma StepShowsDuration(t: Transport, ev: Event)
    requires ShowsDuration(t)
    ensures ShowsDuration(Step(t, ev))
  {
    hide Store, Writes, Print, CDiv;
    StepLeaves(t, ev, TrackDuration);
  }

  lemma {:induction false} RunBack(t: Transport, evs: seq<Event>, ev: Event)
    ensures Run(t, evs + [ev]) == Step(Run(t, evs), ev)
    decreases |evs|
  {
    hide Step;
    if evs == [] {
      assert [] + [ev] == [ev] && [ev][1..] == [];
    } else {
      assert (evs + [ev])[1..] == evs[1..] + [ev];
      RunBack(Step(t, evs[0]), evs[1..], ev);
    }
  }

  lemma NoTimePrintsAsZero()
    ensures Print(-1) == ZeroTime() == Print(0)
  {
    ClockZero();
    hide Clock;
  }

  lemma ClockZero()
    ensures Clock(0, 0, 0) == ZeroTime()
  {
    assert Digits(0) == "0";
  }

  lemma BootShowsDuration()
    ensures ShowsDuration(Boot())
  {
    hide Print;
    NoTimePrintsAsZero();
  }

  /** After any run the track duration is the print of the latest one polled. */
  lemma {:induction false} DurationIsLatest(evs: seq<Event>)
    ensures var t := Run(Boot(), evs);
      && ShowsDuration(t)
      && t.lastDuration == (if LatestDuration(evs).Some? then LatestDuration(evs).value else -1)
  {
    hide Step, ShowsDuration, InitialValue;
    if evs == [] {
      BootShowsDuration();
    } else {
      var front, last := evs[..|evs| - 1], evs[|evs| - 1];
      assert evs == front + [last];
      DurationIsLatest(front);
      RunBack(Boot(), front, last);
      StepShowsDuration(Run(Boot(), front), last);
      StepDuration(Run(Boot(), front), last);
    }
  }

  lemma StepDuration(t: Transport, ev: Event)
    ensures Step(t, ev).lastDuration == if ev.Poll? && ev.ok then ev.duration else t.lastDuration
    ensures Step(t, ev).lastPosition == if ev.Poll? && ev.ok then CDiv(ev.position, SECOND) else t.lastPosition
  {
    hide Store, Writes, CDiv;
  }

  // ---------------------------------------------------------------- position

  /** The relative time shown is that of the second last polled. */
  predicate ShowsPosition(t: Transport) {
    t.vars[RelTime] == Print(t.lastPosition * SECOND)
  }

  lemma PrintOfSecond(position: int)
    requires position >= 0
    ensures Print(position) == Print(CDiv(position, SECOND) * SECOND)
  {
  }

  /** When the shown time is right after a step: a poll repairs it exactly if it brings another
      second, a play from STOPPED keeps it exactly at second zero, a seek exactly if its target is
      spelled like the second last polled. */
  lemma StepShowsPosition(t: Transport, ev: Event)
    requires ev.Poll? ==> ev.position >= 0
    ensures ShowsPosition(Step(t, ev)) <==>
      match ev
      case Poll(_, position, ok) => ShowsPosition(t) || (ok && CDiv(position, SECOND) != t.lastPosition)
      case Play(_) => if t.state == Stopped then Print(t.lastPosition * SECOND) == ZeroTime() else ShowsPosition(t)
      case Seek(unit, target, ok) =>
        if IsRelTime(unit) && ok then Print(t.lastPosition * SECOND) == target else ShowsPosition(t)
      case _ => ShowsPosition(t)
  {
    hide Store, Writes, Print, CDiv, ZeroTime, IsRelTime;
    StepLeaves(t, ev, RelTime);
    if ev.Poll? {
      PrintOfSecond(ev.position);
    }
  }

  /** A step that writes the relative time without a poll. */
  predicate WritesTime(t: Transport, ev: Event) {
    (ev.Play? && t.state == Stopped) || (ev.Seek? && IsRelTime(ev.unit) && ev.ok)
  }

  /** Only polls write the time, and they report real positions. */
  predicate OnlyPolled(t: Transport, evs: seq<Event>)
    decreases |evs|
  {
    evs == []
    || (!WritesTime(t, evs[0]) && (evs[0].Poll? ==> evs[0].position >= 0) && OnlyPolled(Step(t, evs[0]), evs[1..]))
  }

  /** The position the last successful poll of the run reported, or the one before the run. */
  function LatestPosition(before: int, evs: seq<Event>): int
    decreases |evs|
  {
    if evs == [] then before
    else LatestPosition(if evs[0].Poll? && evs[0].ok then evs[0].position else before, evs[1..])
  }

  /** Once right, the shown time follows every poll, though most polls write nothing. */
  lemma {:induction false} PositionFollows(t: Transport, latest: int, evs: seq<Event>)
    requires latest >= 0 && t.lastPosition == CDiv(latest, SECOND) && ShowsPosition(t) && OnlyPolled(t, evs)
    ensures Run(t, evs).vars[RelTime] == Print(LatestPosition(latest, evs))
    decreases |evs|
  {
    hide Step, Print, CDiv;
    if evs == [] {
      PrintOfSecond(latest);
    } else {
      StepShowsPosition(t, evs[0]);
      StepDuration(t, evs[0]);
      var next := if evs[0].Poll? && evs[0].ok then evs[0].position else latest;
      PositionFollows(Step(t, evs[0]), next, evs[1..]);
    }
  }

  /** In any state, after a poll that brings a new second and as long as only polls write the time,
      the shown time is the print of the latest position polled. */
  lemma PositionIsLatest(t: Transport, duration: int, position: int, evs: seq<Event>)
    requires position >= 0 && CDiv(position, SECOND) != t.lastPosition
    requires OnlyPolled(Step(t, Poll(duration, position, true)), evs)
    ensures Run(Step(t, Poll(duration, position, true)), evs).vars[RelTime] == Print(LatestPosition(position, evs))
  {
    hide Step, Print, CDiv, ShowsPosition;
    StepShowsPosition(t, Poll(duration, position, true));
    StepDuration(t, Poll(duration, position, true));
    PositionFollows(Step(t, Poll(duration, position, true)), position, evs);
  }

  /** Nothing else writes the time, and every successful poll reports the second last seen. */
  predicate SameSecond(t: Transport, evs: seq<Event>)
    decreases |evs|
  {
    evs == []
    || (!WritesTime(t, evs[0])
        && (evs[0].Poll? && evs[0].ok ==> CDiv(evs[0].position, SECOND) == t.lastPosition)
        && SameSecond(Step(t, evs[0]), evs[1..]))
  }

  lemma {:induction false} TimeStays(t: Transport, evs: seq<Event>)
    requires SameSecond(t, evs)
    ensures Run(t, evs).vars[RelTime] == t.vars[RelTime]
    decreases |evs|
  {
    hide Step, Print, CDiv, IsRelTime, ZeroTime, Entered, Replaced;
    if evs != [] {
      StepLeaves(t, evs[0], RelTime);
      OthersKeepTime(t, evs[0]);
      TimeStays(Step(t, evs[0]), evs[1..]);
    }
  }

  lemma OthersKeepTime(t: Transport, ev: Event)
    requires !WritesTime(t, ev) && (ev.Poll? && ev.ok ==> CDiv(ev.position, SECOND) == t.lastPosition)
    ensures After(t, ev, RelTime) == t.vars[RelTime]
  {
    hide Print, CDiv, IsRelTime, ZeroTime;
  }

  /** A seek the output does not follow sticks: however many polls report the second last seen, the
      target stays on display. */
  lemma SeekSticks(t: Transport, target: string, evs: seq<Event>)
    requires SameSecond(Step(t, Seek("REL_TIME", target, true)), evs)
    ensures Run(Step(t, Seek("REL_TIME", target, true)), evs).vars[RelTime] == target
  {
    hide Step;
    StepLeaves(t, Seek("REL_TIME", target, true), RelTime);
    TimeStays(Step(t, Seek("REL_TIME", target, true)), evs);
  }
}
