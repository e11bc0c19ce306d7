/** The throttled progress callback of a model file download. */
module ProgressThrottle {
  import opened Text

  const MIN_INTERVAL_SECONDS := 0.1
  const MIN_PERCENT_STEP := 1.0
  const MAX_FILE_PROGRESS := 99

  /** What one file's callback is made with. */
  datatype Settings = Settings(start: int, span: int, fileSize: int)

  datatype Meter = Meter(downloaded: int, lastEmitAt: real, lastEmitPercent: real)

  const FRESH := Meter(0, 0.0, 0.0)

  /** A call of `update`: the bytes it reports and the clock when it is made. */
  datatype Tick = Tick(size: int, now: real)

  /** A progress event, with the clock and the percentage it was computed from. */
  datatype Emission = Emission(progress: int, at: real, percent: real)

  datatype Reading = Reading(progress: int, percent: real)

  /** What a byte count reads as. */
  type Gauge = int -> Reading

  function MinInt(a: int, b: int): int {
    if a <= b then a else b
  }

  /** Python's `int()` on a real number: towards zero. */
  function Truncate(x: real): int {
    if x >= 0.0 then x.Floor else -(-x).Floor
  }

  function Share(span: int, fraction: real): int {
    Truncate(span as real * fraction)
  }

  function Fraction(downloaded: int, fileSize: int): real
    requires fileSize > 0
  {
    var fraction := downloaded as real / fileSize as real;
    if fraction <= 1.0 then fraction else 1.0
  }

  function Read(s: Settings, downloaded: int): Reading {
    if s.fileSize > 0 then
      var fraction := Fraction(downloaded, s.fileSize);
      Reading(MinInt(MAX_FILE_PROGRESS, s.start + Share(s.span, fraction)), 100.0 * fraction)
    else Reading(MinInt(MAX_FILE_PROGRESS, s.start), 0.0)
  }

  function GaugeOf(s: Settings): Gauge {
    (downloaded: int) => Read(s, downloaded)
  }

  /** The meter after one call, and the event it emits unless it comes too soon after the last. */
  function Update(g: Gauge, m: Meter, tick: Tick): (Meter, Option<Emission>) {
    var downloaded := m.downloaded + tick.size;
    var reading := g(downloaded);
    if tick.now - m.lastEmitAt < MIN_INTERVAL_SECONDS && reading.percent - m.lastEmitPercent < MIN_PERCENT_STEP then
      (m.(downloaded := downloaded), None)
    else
      (Meter(downloaded, tick.now, reading.percent), Some(Emission(reading.progress, tick.now, reading.percent)))
  }

  function Listed(e: Option<Emission>): seq<Emission> {
    if e.Some? then [e.value] else []
  }

  function Emissions(g: Gauge, m: Meter, ticks: seq<Tick>): seq<Emission>
    decreases ticks
  {
    if ticks == [] then []
    else
      var (after, emission) := Update(g, m, ticks[0]);
      Listed(emission) + Emissions(g, after, ticks[1..])
  }

  /** The callback object: its counters, and the events it has passed on. */
  class ProgressCallback {
    const settings: Settings
    var downloaded: int
    var lastEmitAt: real
    var lastEmitPercent: real
    var events: seq<Emission>

    constructor (settings: Settings)
      ensures this.settings == settings && State() == FRESH && events == []
    {
      this.settings := settings;
      downloaded, lastEmitAt, lastEmitPercent, events := 0, 0.0, 0.0, [];
    }

    function State(): Meter
      reads this
    {
      Meter(downloaded, lastEmitAt, lastEmitPercent)
    }

    method OnUpdate(tick: Tick)
      modifies this
      ensures State() == Update(GaugeOf(settings), old(State()), tick).0
      ensures events == old(events) + Listed(Update(GaugeOf(settings), old(State()), tick).1)
    {
      downloaded := downloaded + tick.size;
      var progress, percent := settings.start, 0.0;
      if settings.fileSize > 0 {
        var fraction := Fraction(downloaded, settings.fileSize);
        progress := settings.start + Share(settings.span, fraction);
        percent := 100.0 * fraction;
      }
      assert GaugeOf(settings)(downloaded) == Reading(MinInt(MAX_FILE_PROGRESS, progress), percent);
      if tick.now - lastEmitAt < MIN_INTERVAL_SECONDS && percent - lastEmitPercent < MIN_PERCENT_STEP {
        assert events + [] == events;
        return;
      }
      lastEmitAt := tick.now;
      lastEmitPercent := percent;
      events := events + [Emission(MinInt(MAX_FILE_PROGRESS, progress), tick.now, percent)];
    }
  }

  // ----- the gauge -----

  lemma FractionIsMonotone(a: int, b: int, fileSize: int)
    requires 0 <= a <= b && fileSize > 0
    ensures 0.0 <= Fraction(a, fileSize) <= Fraction(b, fileSize) <= 1.0
  {
    assert a as real / fileSize as real <= b as real / fileSize as real;
  }

  lemma TruncateIsMonotone(x: real, y: real, bound: int)
    requires 0.0 <= x <= y <= bound as real
    ensures 0 <= Truncate(x) <= Truncate(y) <= bound
  {
  }

  lemma ProductIsMonotone(k: real, x: real, y: real) returns (a: real, b: real)
    requires 0.0 <= k && 0.0 <= x <= y <= 1.0
    ensures a == k * x && b == k * y && 0.0 <= a <= b <= k
  {
    a, b := k * x, k * y;
    ProductIsNotNegative(k, x);
    ProductIsNotNegative(k, y - x);
    ProductIsNotNegative(k, 1.0 - y);
    assert k * (y - x) == b - a;
    assert k * (1.0 - y) == k - b;
  }

  lemma ProductIsNotNegative(x: real, y: real)
    requires 0.0 <= x && 0.0 <= y
    ensures 0.0 <= x * y
  {
  }

  lemma ShareIsMonotone(span: int, x: real, y: real)
    requires 0 <= span && 0.0 <= x <= y <= 1.0
    ensures 0 <= Share(span, x) <= Share(span, y) <= span
  {
    var a, b := ProductIsMonotone(span as real, x, y);
    TruncateIsMonotone(a, b, span);
    assert Share(span, x) == Truncate(a) && Share(span, y) == Truncate(b);
  }

  /** Readings never fall as bytes are added; progress stays between the bounds, and percentages are percentages. */
  ghost predicate Rising(g: Gauge, low: int, high: int) {
    forall a, b :: 0 <= a <= b ==>
      low <= g(a).progress <= g(b).progress <= high && 0.0 <= g(a).percent <= g(b).percent <= 100.0
  }

  function Cap(progress: int): int {
    MinInt(MAX_FILE_PROGRESS, progress)
  }

  /** A file's gauge rises from its start to the end of its share, both capped at 99. */
  lemma GaugeRises(s: Settings)
    requires s.span >= 0
    ensures Rising(GaugeOf(s), Cap(s.start), Cap(s.start + s.span))
  {
    forall a, b | 0 <= a <= b
      ensures Cap(s.start) <= GaugeOf(s)(a).progress <= GaugeOf(s)(b).progress <= Cap(s.start + s.span)
      ensures 0.0 <= GaugeOf(s)(a).percent <= GaugeOf(s)(b).percent <= 100.0
    {
      if s.fileSize > 0 {
        FractionIsMonotone(a, b, s.fileSize);
        ShareIsMonotone(s.span, Fraction(a, s.fileSize), Fraction(b, s.fileSize));
      }
    }
  }

  // ----- any run of one callback -----

  /** Sizes are not negative and the clock does not run backwards from `since`. */
  predicate Steady(ticks: seq<Tick>, since: real) {
    ticks == [] || (ticks[0].size >= 0 && since <= ticks[0].now && Steady(ticks[1..], ticks[0].now))
  }

  /** The meter's last event lies in the past and at no more than the percentage reached. */
  predicate Consistent(g: Gauge, m: Meter, now: real) {
    m.downloaded >= 0 && m.lastEmitAt <= now && m.lastEmitPercent <= g(m.downloaded).percent
  }

  /** An event is no earlier and no lower than what was reached before it. */
  predicate NotBefore(e: Emission, reached: Reading, since: real) {
    reached.progress <= e.progress && reached.percent <= e.percent && since <= e.at
  }

  predicate InOrder(es: seq<Emission>) {
    forall i, j :: 0 <= i < j < |es| ==> NotBefore(es[j], Reading(es[i].progress, es[i].percent), es[i].at)
  }

  lemma UpdateRises(g: Gauge, m: Meter, tick: Tick, since: real, low: int, high: int)
    requires Rising(g, low, high) && Consistent(g, m, since) && tick.size >= 0 && since <= tick.now
    ensures var (after, emission) := Update(g, m, tick);
      && after.downloaded == m.downloaded + tick.size
      && Consistent(g, after, tick.now)
      && g(m.downloaded).progress <= g(after.downloaded).progress <= high
      && g(m.downloaded).percent <= g(after.downloaded).percent <= 100.0
      && (emission.Some? ==>
            emission.value == Emission(g(after.downloaded).progress, tick.now, g(after.downloaded).percent))
  {
    assert g(m.downloaded).percent <= g(m.downloaded + tick.size).percent;
  }

  lemma {:induction false} RunIsOrdered(g: Gauge, m: Meter, ticks: seq<Tick>, since: real, low: int, high: int)
    requires Rising(g, low, high) && Consistent(g, m, since) && Steady(ticks, since)
    ensures InOrder(Emissions(g, m, ticks))
    ensures forall e :: e in Emissions(g, m, ticks) ==>
      NotBefore(e, g(m.downloaded), since) && e.progress <= high && e.percent <= 100.0
    decreases ticks
  {
    if ticks != [] {
      var (after, emission) := Update(g, m, ticks[0]);
      UpdateRises(g, m, ticks[0], since, low, high);
      RunIsOrdered(g, after, ticks[1..], ticks[0].now, low, high);
      var rest := Emissions(g, after, ticks[1..]);
      assert forall i :: 0 <= i < |rest| ==> rest[i] in rest;
      assert emission.None? ==> Emissions(g, m, ticks) == rest;
    }
  }

  /** What the events since the meter's last one may number: one per tenth of a second and one per cent. */
  function Allowance(m: Meter, last: Emission): real {
    10.0 * (last.at - m.lastEmitAt) + (last.percent - m.lastEmitPercent)
  }

  lemma {:induction false} EventsArePaidFor(g: Gauge, m: Meter, ticks: seq<Tick>, since: real, low: int, high: int)
    requires Rising(g, low, high) && Consistent(g, m, since) && Steady(ticks, since)
    ensures var es := Emissions(g, m, ticks);
      es != [] ==> |es| as real <= Allowance(m, es[|es| - 1])
    decreases ticks
  {
    if ticks != [] {
      var (after, emission) := Update(g, m, ticks[0]);
      UpdateRises(g, m, ticks[0], since, low, high);
      EventsArePaidFor(g, after, ticks[1..], ticks[0].now, low, high);
      var es, rest := Emissions(g, m, ticks), Emissions(g, after, ticks[1..]);
      if emission.None? {
        assert es == rest;
      } else {
        assert 1.0 <= Allowance(m, emission.value);
        if rest != [] {
          assert es[|es| - 1] == rest[|rest| - 1];
          assert Allowance(m, rest[|rest| - 1]) == Allowance(m, emission.value) + Allowance(after, rest[|rest| - 1]);
        }
      }
    }
  }

  lemma {:induction false} RunIsBounded(g: Gauge, m: Meter, ticks: seq<Tick>, since: real, low: int, high: int)
    requires Rising(g, low, high) && Consistent(g, m, since) && Steady(ticks, since)
    ensures var es := Emissions(g, m, ticks);
      es != [] ==> |es| as real <= 1.0 + 100.0 + 10.0 * (es[|es| - 1].at - es[0].at)
    decreases ticks
  {
    if ticks != [] {
      var (after, emission) := Update(g, m, ticks[0]);
      UpdateRises(g, m, ticks[0], since, low, high);
      var es, rest := Emissions(g, m, ticks), Emissions(g, after, ticks[1..]);
      if emission.None? {
        assert es == rest;
        RunIsBounded(g, after, ticks[1..], ticks[0].now, low, high);
      } else if rest != [] {
        EventsArePaidFor(g, after, ticks[1..], ticks[0].now, low, high);
        RunIsOrdered(g, after, ticks[1..], ticks[0].now, low, high);
        var last := rest[|rest| - 1];
        assert es[|es| - 1] == last && last in rest && |es| == 1 + |rest|;
        assert g(0).percent <= g(after.downloaded).percent;
        assert Allowance(after, last) <= 10.0 * (last.at - es[0].at) + 100.0;
      }
    }
  }

  /** For any sequence of updates of one file with non-negative sizes and a clock that does not run backwards: emitted
      progress never falls and stays between the file's start and the end of its share, capped at 99. */
  lemma EmittedProgressIsMonotone(s: Settings, ticks: seq<Tick>)
    requires s.span >= 0 && Steady(ticks, 0.0)
    ensures var es := Emissions(GaugeOf(s), FRESH, ticks);
      && (forall i, j :: 0 <= i < j < |es| ==> es[i].progress <= es[j].progress)
      && (forall i :: 0 <= i < |es| ==> Cap(s.start) <= es[i].progress <= Cap(s.start + s.span))
  {
    GaugeRises(s);
    var es := Emissions(GaugeOf(s), FRESH, ticks);
    assert GaugeOf(s)(0).percent >= 0.0 && Cap(s.start) <= GaugeOf(s)(0).progress;
    RunIsOrdered(GaugeOf(s), FRESH, ticks, 0.0, Cap(s.start), Cap(s.start + s.span));
    forall i | 0 <= i < |es|
      ensures Cap(s.start) <= es[i].progress <= Cap(s.start + s.span)
    {
      assert es[i] in es;
    }
    assert forall i, j :: 0 <= i < j < |es| ==> NotBefore(es[j], Reading(es[i].progress, es[i].percent), es[i].at);
  }

  /** However often `update` is called, the events number at most one, plus one for every per cent, plus ten for every
      second since the first. */
  lemma EmittedEventsAreBounded(s: Settings, ticks: seq<Tick>)
    requires s.span >= 0 && Steady(ticks, 0.0)
    ensures var es := Emissions(GaugeOf(s), FRESH, ticks);
      es != [] ==> |es| as real <= 1.0 + 100.0 + (es[|es| - 1].at - es[0].at) / MIN_INTERVAL_SECONDS
  {
    GaugeRises(s);
    assert GaugeOf(s)(0).percent >= 0.0;
    RunIsBounded(GaugeOf(s), FRESH, ticks, 0.0, Cap(s.start), Cap(s.start + s.span));
  }

  // ----- what a reading is, and when it is passed on -----

  /** `int()` cuts towards zero. */
  lemma TruncateCuts(x: real)
    ensures x >= 0.0 ==> Truncate(x) as real <= x < Truncate(x) as real + 1.0
    ensures x <= 0.0 ==> Truncate(x) as real - 1.0 < x <= Truncate(x) as real
  {
  }

  lemma FractionIs(downloaded: int, fileSize: int)
    requires downloaded >= 0 && fileSize > 0
    ensures downloaded >= fileSize ==> Fraction(downloaded, fileSize) == 1.0
    ensures downloaded <= fileSize ==>
      0.0 <= Fraction(downloaded, fileSize) <= 1.0
      && Fraction(downloaded, fileSize) * fileSize as real == downloaded as real
  {
  }

  /** A share cut to a whole number and capped. */
  lemma CappedShareIs(start: int, share: real, progress: int)
    requires share >= 0.0 && progress == MinInt(MAX_FILE_PROGRESS, start + Truncate(share))
    ensures progress <= 99
    ensures progress < 99 ==> (progress - start) as real <= share < (progress - start + 1) as real
    ensures progress == 99 ==> 99.0 <= start as real + share || start >= 99
  {
    TruncateCuts(share);
  }

  lemma HundredthsAre(fraction: real, span: int)
    ensures (100.0 * fraction) / 100.0 == fraction
    ensures span >= 0 && fraction >= 0.0 ==> span as real * fraction >= 0.0
    ensures span as real * 1.0 == span as real
  {
  }

  /** The percentage is the downloaded part of the file in hundredths, all of it once the file is complete, and none
      for a file of unknown size. The progress is its share of the span, cut to a whole number, after the start, and
      at most 99. */
  lemma ReadingIs(s: Settings, downloaded: int)
    requires downloaded >= 0 && s.span >= 0
    ensures var r := Read(s, downloaded);
      && r.progress <= 99
      && (s.fileSize <= 0 ==> r.percent == 0.0 && r.progress == (if s.start < 99 then s.start else 99))
      && (s.fileSize > 0 && downloaded >= s.fileSize ==>
            r.percent == 100.0 && r.progress == (if s.start + s.span < 99 then s.start + s.span else 99))
      && (s.fileSize > 0 && downloaded <= s.fileSize ==>
            && r.percent * s.fileSize as real == 100.0 * downloaded as real
            && (r.progress < 99 ==>
                  (r.progress - s.start) as real <= s.span as real * (r.percent / 100.0)
                    < (r.progress - s.start + 1) as real)
            && (r.progress == 99 ==> 99.0 <= s.start as real + s.span as real * (r.percent / 100.0) || s.start >= 99))
  {
    if s.fileSize > 0 {
      var fraction := Fraction(downloaded, s.fileSize);
      FractionIs(downloaded, s.fileSize);
      HundredthsAre(fraction, s.span);
      CappedShareIs(s.start, s.span as real * fraction, Read(s, downloaded).progress);
    }
  }

  function Total(ticks: seq<Tick>): int {
    if ticks == [] then 0 else Total(ticks[..|ticks| - 1]) + ticks[|ticks| - 1].size
  }

  function MeterAfter(g: Gauge, m: Meter, ticks: seq<Tick>): Meter {
    if ticks == [] then m
    else Update(g, MeterAfter(g, m, ticks[..|ticks| - 1]), ticks[|ticks| - 1]).0
  }

  lemma {:induction false} EmissionsAppended(g: Gauge, m: Meter, ticks: seq<Tick>, tick: Tick)
    ensures Emissions(g, m, ticks + [tick])
         == Emissions(g, m, ticks) + Listed(Update(g, MeterAfter(g, m, ticks), tick).1)
    decreases |ticks|
  {
    if ticks == [] {
      assert ([] + [tick])[1..] == [] && [] + [tick] == [tick];
      var listed := Listed(Update(g, m, tick).1);
      assert listed + [] == [] + listed;
    } else {
      var (after, emission) := Update(g, m, ticks[0]);
      assert (ticks + [tick])[1..] == ticks[1..] + [tick];
      EmissionsAppended(g, after, ticks[1..], tick);
      MeterAfterFirst(g, m, ticks);
      var rest, listed := Emissions(g, after, ticks[1..]), Listed(Update(g, MeterAfter(g, m, ticks), tick).1);
      assert Listed(emission) + (rest + listed) == (Listed(emission) + rest) + listed;
    }
  }

  lemma {:induction false} MeterAfterFirst(g: Gauge, m: Meter, ticks: seq<Tick>)
    requires ticks != []
    ensures MeterAfter(g, m, ticks) == MeterAfter(g, Update(g, m, ticks[0]).0, ticks[1..])
    decreases |ticks|
  {
    if |ticks| == 1 {
      assert ticks[..0] == [] && ticks[1..] == [];
    } else {
      var front := ticks[..|ticks| - 1];
      MeterAfterFirst(g, m, front);
      assert front[1..] == ticks[1..][..|ticks| - 2];
    }
  }

  /** The clock and the percentage of the last event, or of none. */
  function LastAt(events: seq<Emission>): real {
    if events == [] then 0.0 else events[|events| - 1].at
  }

  function LastPercent(events: seq<Emission>): real {
    if events == [] then 0.0 else events[|events| - 1].percent
  }

  /** The meter remembers the bytes so far and the last event. */
  predicate Remembers(m: Meter, downloaded: int, events: seq<Emission>) {
    m.downloaded == downloaded && m.lastEmitAt == LastAt(events) && m.lastEmitPercent == LastPercent(events)
  }

  lemma UpdateRemembers(g: Gauge, m: Meter, tick: Tick, downloaded: int, events: seq<Emission>)
    requires Remembers(m, downloaded, events)
    ensures var (after, emission) := Update(g, m, tick);
      Remembers(after, downloaded + tick.size, events + Listed(emission))
  {
    var emission := Update(g, m, tick).1;
    if emission.Some? {
      assert (events + [emission.value])[|events|] == emission.value;
    } else {
      assert events + [] == events;
    }
  }

  lemma {:induction false} MeterTellsTheLast(g: Gauge, ticks: seq<Tick>)
    ensures Remembers(MeterAfter(g, FRESH, ticks), Total(ticks), Emissions(g, FRESH, ticks))
  {
    if ticks != [] {
      var front, last := ticks[..|ticks| - 1], ticks[|ticks| - 1];
      MeterTellsTheLast(g, front);
      EmissionsAppended(g, FRESH, front, last);
      assert ticks == front + [last];
      UpdateRemembers(g, MeterAfter(g, FRESH, front), last, Total(front), Emissions(g, FRESH, front));
    }
  }

  /** Over any calls of `update`, the next one passes on an event, with the reading of all the bytes so far, exactly
      when a tenth of a second has passed or the percentage has risen by one since the last event. */
  lemma EmitsIff(g: Gauge, ticks: seq<Tick>, tick: Tick)
    ensures var events, r := Emissions(g, FRESH, ticks), g(Total(ticks) + tick.size);
      Emissions(g, FRESH, ticks + [tick]) == events +
        if tick.now - LastAt(events) >= 0.1 || r.percent - LastPercent(events) >= 1.0
        then [Emission(r.progress, tick.now, r.percent)] else []
  {
    EmissionsAppended(g, FRESH, ticks, tick);
    MeterTellsTheLast(g, ticks);
  }
}
