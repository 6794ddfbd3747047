/** The meter of a soak run: lane time, peak and utilization from the live counts that the pool publishes
    (go/cmd/evolve/cmd_fleet_soak_pool.go). Times are whole nanoseconds. */
module SoakMeter {
  /** An event as the meter takes it under its lock: the clock's reading, and the live count (0 when it is no number). */
  datatype Event = Event(at: int, live: int)

  predicate InOrder(start: int, events: seq<Event>) {
    events == [] ||
    (InOrder(start, events[..|events| - 1]) && LastAt(start, events[..|events| - 1]) <= events[|events| - 1].at)
  }

  predicate LiveWithin(events: seq<Event>, width: int) {
    forall i :: 0 <= i < |events| ==> 0 <= events[i].live <= width
  }

  /** The step function of the live count: the count of the latest event that is not after `t`. */
  function LiveAt(events: seq<Event>, t: int): int {
    if events == [] then 0
    else
      var e := events[|events| - 1];
      if e.at <= t then e.live else LiveAt(events[..|events| - 1], t)
  }

  /** Its integral, one nanosecond at a time. */
  function Integral(events: seq<Event>, begin: int, end: int): int
    decreases end - begin
  {
    if end <= begin then 0 else Integral(events, begin, end - 1) + LiveAt(events, end - 1)
  }

  function LastAt(start: int, events: seq<Event>): int { if events == [] then start else events[|events| - 1].at }

  function LastLive(events: seq<Event>): int { if events == [] then 0 else events[|events| - 1].live }

  /** The greatest count so far, and at least 0. */
  predicate IsPeak(events: seq<Event>, peak: int) {
    && 0 <= peak
    && (forall i :: 0 <= i < |events| ==> events[i].live <= peak)
    && (peak == 0 || exists i :: 0 <= i < |events| && events[i].live == peak)
  }

  /** What is added as the lanes change: each change of the count, times the moment of it. */
  function Changes(events: seq<Event>): int {
    if events == [] then 0
    else
      var front, e := events[..|events| - 1], events[|events| - 1];
      Changes(front) + (e.live - LastLive(front)) * e.at
  }

  class Meter {
    var last: int
    var live: int
    var busy: int
    var peak: int
    ghost const start: int
    ghost var events: seq<Event>

    ghost predicate Valid()
      reads this
    {
      && InOrder(start, events)
      && last == LastAt(start, events) && live == LastLive(events)
      && busy == Integral(events, start, last)
      && IsPeak(events, peak)
    }

    constructor (start: int)
      ensures Valid() && this.start == start && events == []
    {
      this.start := start;
      last := start;
      live := 0;
      busy := 0;
      peak := 0;
      events := [];
    }

    method Observe(e: Event)
      requires Valid() && last <= e.at
      modifies this
      ensures Valid() && events == old(events) + [e]
    {
      OneEventMore(start, events, e);
      IntegralSame(events, e, start, last);
      busy := busy + live * (e.at - last);
      last, live, peak := e.at, e.live, if peak < e.live then e.live else peak;
      ghost var now := events + [e];
      assert IsPeak(now, peak) by {
        assert now[|events|] == e;
        assert forall i :: 0 <= i < |events| ==> now[i] == events[i];
      }
      events := now;
    }
  }

  /** Before an event the step function is as it was. */
  lemma {:induction false} IntegralSame(events: seq<Event>, e: Event, begin: int, end: int)
    requires end <= e.at
    ensures Integral(events + [e], begin, end) == Integral(events, begin, end)
    decreases end - begin
  {
    if begin < end {
      IntegralSame(events, e, begin, end - 1);
      assert (events + [e])[..|events|] == events;
    }
  }

  lemma {:induction false} IntegralFlat(events: seq<Event>, start: int, begin: int, end: int)
    requires LastAt(start, events) <= begin && start <= begin <= end
    ensures Integral(events, start, end) == Integral(events, start, begin) + LastLive(events) * (end - begin)
    decreases end - begin
  {
    if begin < end {
      IntegralFlat(events, start, begin, end - 1);
      var n := end - 1 - begin;
      assert LastLive(events) * (n + 1) == LastLive(events) * n + LastLive(events);
    }
  }

  /** Up to an event, the last count goes on. */
  lemma OneEventMore(start: int, events: seq<Event>, e: Event)
    requires InOrder(start, events) && LastAt(start, events) <= e.at
    ensures InOrder(start, events + [e])
    ensures Integral(events + [e], start, e.at)
         == Integral(events, start, LastAt(start, events)) + LastLive(events) * (e.at - LastAt(start, events))
  {
    StartsBefore(start, events);
    IntegralSame(events, e, start, e.at);
    IntegralFlat(events, start, LastAt(start, events), e.at);
    assert (events + [e])[..|events|] == events;
  }

  lemma {:induction false} StartsBefore(start: int, events: seq<Event>)
    requires InOrder(start, events)
    ensures start <= LastAt(start, events)
  {
    if events != [] {
      StartsBefore(start, events[..|events| - 1]);
    }
  }

  // ---------------------------------------------------------------- bounds

  lemma {:induction false} LiveAtBounds(events: seq<Event>, peak: int, t: int)
    requires LiveWithin(events, peak) && 0 <= peak
    ensures 0 <= LiveAt(events, t) <= peak
  {
    if events != [] {
      LiveAtBounds(events[..|events| - 1], peak, t);
    }
  }

  lemma {:induction false} IntegralBounds(events: seq<Event>, peak: int, begin: int, end: int)
    requires LiveWithin(events, peak) && 0 <= peak && begin <= end
    ensures 0 <= Integral(events, begin, end) <= peak * (end - begin)
    decreases end - begin
  {
    if begin < end {
      IntegralBounds(events, peak, begin, end - 1);
      LiveAtBounds(events, peak, end - 1);
      var n := end - 1 - begin;
      assert peak * (n + 1) == peak * n + peak;
    }
  }

  /** Lane time lies between nothing and the peak for the whole run. */
  lemma BusyBounds(m: Meter, width: int)
    requires m.Valid() && LiveWithin(m.events, width) && 0 <= width
    ensures m.start <= m.last && m.peak <= width && 0 <= m.busy <= m.peak * (m.last - m.start)
  {
    StartsBefore(m.start, m.events);
    IntegralBounds(m.events, m.peak, m.start, m.last);
  }

  /** Summed the other way round: lane time is what the live lanes would have by now, less the start of each lane and
      more the end of each. Once no lane is live it is the ends less the starts, that is, the lanes' own times. */
  lemma {:induction false} BusyIsLaneTime(start: int, events: seq<Event>)
    requires InOrder(start, events)
    ensures Integral(events, start, LastAt(start, events)) == LastLive(events) * LastAt(start, events) - Changes(events)
  {
    if events != [] {
      var front, e := events[..|events| - 1], events[|events| - 1];
      assert events == front + [e];
      BusyIsLaneTime(start, front);
      OneEventMore(start, front, e);
      Rearrange(LastLive(front), LastAt(start, front), e.live, e.at, Changes(front));
    }
  }

  lemma Rearrange(live: int, last: int, next: int, at: int, changes: int)
    ensures live * last - changes + live * (at - last) == next * at - (changes + (next - live) * at)
  {
  }

  // ---------------------------------------------------------------- the report

  function Ratio(a: real, b: real): real
    requires b != 0.0
  {
    a / b
  }

  datatype Report = Report(lanes: int, ok: int, peak: int, wall: int, busy: int, width: int) {
    function Utilization(): real {
      if wall <= 0 || width <= 0 then 0.0 else Ratio(busy as real, width as real * wall as real)
    }

    predicate Passed(wanted: int) { lanes > 0 && ok == lanes && peak == wanted }
  }

  /** The utilization of a run is the share that lane time has of the whole width for the whole run, whatever the clock
      reads at the end; and it is 1 exactly when the run took some time and lane time fills the whole width for all of it. */
  lemma UtilizationIsAShare(m: Meter, lanes: int, ok: int, end: int, width: int)
    requires m.Valid() && LiveWithin(m.events, width) && m.last <= end
    ensures var r := Report(lanes, ok, m.peak, end - m.start, m.busy, width);
      && 0.0 <= r.Utilization() <= 1.0
      && (r.Utilization() == 1.0 <==> r.wall > 0 && width > 0 && m.busy == width * r.wall)
      && (r.wall > 0 && width > 0 ==> r.Utilization() * (width * r.wall) as real == m.busy as real)
  {
    var r := Report(lanes, ok, m.peak, end - m.start, m.busy, width);
    if r.wall > 0 && width > 0 {
      BusyBounds(m, width);
      Product(m.peak, m.last - m.start, width, r.wall);
      FullReport(r, width * r.wall);
      ReportTimesBack(r, (width * r.wall) as real);
    }
  }

  lemma FullReport(r: Report, whole: int)
    requires r.wall > 0 && r.width > 0 && whole == r.width * r.wall && 0 <= r.busy <= whole && whole > 0
    ensures 0.0 <= r.Utilization() <= 1.0
    ensures r.Utilization() == 1.0 <==> r.busy == whole
  {
    hide Ratio;
    RealProduct(r.width, r.wall);
    Share(r.busy, whole, r.width as real * r.wall as real);
  }

  lemma ReportTimesBack(r: Report, whole: real)
    requires r.wall > 0 && r.width > 0 && whole == (r.width * r.wall) as real && whole != 0.0
    ensures r.Utilization() * whole == r.busy as real
  {
    hide Ratio;
    RealProduct(r.width, r.wall);
    TimesBack(r.busy as real, r.width as real * r.wall as real, whole, r.Utilization());
  }

  lemma TimesBack(a: real, b: real, c: real, u: real)
    requires b != 0.0 && b == c && u == Ratio(a, b)
    ensures u * c == a
  {
  }

  lemma RealProduct(a: int, b: int)
    ensures a as real * b as real == (a * b) as real
  {
  }

  lemma Product(a: int, b: int, c: int, d: int)
    requires 0 <= a <= c && 0 <= b <= d
    ensures a * b <= c * d && (c > 0 && d > 0 ==> c * d > 0)
  {
    assert a * b <= a * d;
    assert a * d <= c * d;
  }

  lemma Share(part: int, whole: int, divisor: real)
    requires 0 <= part <= whole && whole > 0 && divisor == whole as real
    ensures 0.0 <= Ratio(part as real, divisor) <= 1.0
    ensures Ratio(part as real, divisor) == 1.0 <==> part == whole
  {
  }

  /** A run passes exactly when it had lanes, none of them failed, and it was as wide as wanted at some moment and
      never wider. */
  lemma PassedReachedWidth(m: Meter, lanes: int, ok: int, end: int, width: int)
    requires m.Valid() && width > 0
    ensures Report(lanes, ok, m.peak, end - m.start, m.busy, width).Passed(width) <==>
      && lanes > 0 && lanes - ok == 0
      && (exists i :: 0 <= i < |m.events| && m.events[i].live == width)
      && forall i :: 0 <= i < |m.events| ==> m.events[i].live <= width
  {
    if forall i :: 0 <= i < |m.events| ==> m.events[i].live <= width {
      if i :| 0 <= i < |m.events| && m.events[i].live == width {
        assert m.events[i].live <= m.peak;
      }
    }
  }
}
