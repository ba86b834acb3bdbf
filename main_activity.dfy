/** The stress screen of MainActivity.kt: the battery-temperature chart, which halves
    itself whenever it holds more than 240 points; the time labels of its x axis; the
    never-empty choice of stress modes; and the temperature limits that stop a stress run.
    Kotlin `Float`/`Double` values are modelled as reals, so rounding is not modelled. */
module StressScreen {
  import opened Common

  const MAX_POINTS: nat := 240
  const HIGH_TEMPERATURE: real := 45.0
  const LOW_TEMPERATURE: real := 17.0
  const LONG_MAX: int := 0x7FFF_FFFF_FFFF_FFFF

  // ---------------------------------------------------------------------------
  // Chart compression (MainActivity.kt:221-245)

  /** One pass of `compressIfNeeded`: adjacent pairs become their mean, and an odd
      trailing element is carried over unchanged. */
  function Halve(s: seq<real>): seq<real>
    decreases |s|
  {
    if |s| < 2 then s else [(s[0] + s[1]) / 2.0] + Halve(s[2..])
  }

  /** A pass maps `n` points to `ceil(n / 2)`. */
  lemma {:induction false} HalveLength(s: seq<real>)
    decreases |s|
    ensures |Halve(s)| == (|s| + 1) / 2
  {
    if |s| >= 2 {
      HalveLength(s[2..]);
    }
  }

  /** Point `k` of a pass is the mean of points `2k` and `2k + 1`. */
  lemma {:induction false} HalveAt(s: seq<real>, k: nat)
    requires 2 * k + 1 < |s|
    decreases k
    ensures |Halve(s)| > k && Halve(s)[k] == (s[2 * k] + s[2 * k + 1]) / 2.0
  {
    if k > 0 {
      HalveAt(s[2..], k - 1);
      assert s[2..][2 * (k - 1)] == s[2 * k] && s[2..][2 * (k - 1) + 1] == s[2 * k + 1];
    }
  }

  /** The last point of an odd list is carried over unchanged. */
  lemma {:induction false} HalveLast(s: seq<real>)
    requires |s| % 2 == 1
    decreases |s|
    ensures |Halve(s)| == |s| / 2 + 1 && Halve(s)[|s| / 2] == s[|s| - 1]
  {
    HalveLength(s);
    if |s| >= 2 {
      HalveLast(s[2..]);
    }
  }

  /** Every reading lies in `[lo, hi]`. */
  predicate Within(s: seq<real>, lo: real, hi: real)
  {
    forall k :: 0 <= k < |s| ==> lo <= s[k] <= hi
  }

  /** A mean of two readings lies between the smallest and the largest reading, so a pass
      never leaves the range of the readings. */
  lemma {:induction false} HalveWithin(s: seq<real>, lo: real, hi: real)
    requires Within(s, lo, hi)
    decreases |s|
    ensures Within(Halve(s), lo, hi)
  {
    if |s| >= 2 {
      assert Within(s[2..], lo, hi) by {
        forall k | 0 <= k < |s[2..]|
          ensures lo <= s[2..][k] <= hi
        {
          assert s[2..][k] == s[k + 2];
        }
      }
      HalveWithin(s[2..], lo, hi);
      assert lo <= s[0] <= hi && lo <= s[1] <= hi;
      var h := Halve(s);
      forall k | 0 <= k < |h|
        ensures lo <= h[k] <= hi
      {
        if k > 0 {
          assert h[k] == Halve(s[2..])[k - 1];
        }
      }
    }
  }

  /** What `compressIfNeeded` leaves in the list: passes until at most 240 points remain. */
  function Compress(s: seq<real>): (r: seq<real>)
    decreases |s|
    ensures |r| <= MAX_POINTS
    ensures |s| <= MAX_POINTS ==> r == s
    ensures |s| > MAX_POINTS ==> |r| > MAX_POINTS / 2
  {
    if |s| <= MAX_POINTS then s
    else
      HalveLength(s);
      Compress(Halve(s))
  }

  /** The number of passes, each of which doubles `sampleIntervalSec`. */
  function Passes(s: seq<real>): nat
    decreases |s|
  {
    if |s| <= MAX_POINTS then 0
    else
      HalveLength(s);
      1 + Passes(Halve(s))
  }

  /** `x` after `n` doublings. */
  function Doubled(x: real, n: nat): real
  {
    if n == 0 then x else 2.0 * Doubled(x, n - 1)
  }

  /** Compression keeps every point within the range of the readings it came from. */
  lemma {:induction false} CompressWithin(s: seq<real>, lo: real, hi: real)
    requires Within(s, lo, hi)
    decreases |s|
    ensures Within(Compress(s), lo, hi)
  {
    if |s| > MAX_POINTS {
      HalveLength(s);
      HalveWithin(s, lo, hi);
      CompressWithin(Halve(s), lo, hi);
    }
  }

  /** A list one point over the limit (the only case the sampling loop produces) is
      halved exactly once, to 121 points. */
  lemma OnePointOver(s: seq<real>)
    requires |s| == MAX_POINTS + 1
    ensures |Compress(s)| == MAX_POINTS / 2 + 1 && Passes(s) == 1
  {
    HalveLength(s);
  }

  /** The inner loop of a pass, which builds `newList`. */
  method PairMeans(list: seq<real>) returns (newList: seq<real>)
    ensures newList == Halve(list)
  {
    newList := [];
    var i := 0;
    while i < |list|
      invariant i <= |list|
      invariant newList + Halve(list[i..]) == Halve(list)
      decreases |list| - i
    {
      if i + 1 < |list| {
        assert Halve(list[i..]) == [(list[i] + list[i + 1]) / 2.0] + Halve(list[i + 2..]) by {
          assert list[i..][2..] == list[i + 2..];
        }
        newList := newList + [(list[i] + list[i + 1]) / 2.0];
        i := i + 2;
      } else {
        assert Halve(list[i..]) == [list[i]];
        newList := newList + [list[i]];
        i := i + 1;
      }
    }
    assert list[i..] == [];
  }

  // ---------------------------------------------------------------------------
  // Axis labels (MainActivity.kt:247-265)

  /** `secondsDouble.toLong().coerceAtLeast(0L)`: `toLong` truncates toward zero and
      saturates at `Long.MAX_VALUE`; negative values become 0. */
  function TotalSeconds(x: real): (r: nat)
    ensures r <= LONG_MAX
    ensures x < 0.0 ==> r == 0
    ensures 0.0 <= x < LONG_MAX as real + 1.0 ==> r as real <= x < r as real + 1.0
    ensures x >= LONG_MAX as real + 1.0 ==> r == LONG_MAX
  {
    if x < 0.0 then 0
    else if x >= LONG_MAX as real then LONG_MAX
    else x.Floor
  }

  /** The parts a label shows. */
  datatype Label =
    | HoursMinutes(h: nat, m: nat)
    | Minutes(m: nat)
    | MinutesSeconds(m: nat, s: nat)
    | Seconds(s: nat)

  /** The `when` of the formatter: hours and minutes from one hour up; minutes, with the
      seconds only when there are some, from one minute up; seconds below that. */
  function LabelOf(total: nat): (l: Label)
    ensures l.HoursMinutes? <==> total >= 3600
    ensures l.HoursMinutes? ==> l.m < 60 && l.h * 3600 + l.m * 60 <= total < l.h * 3600 + l.m * 60 + 60
    ensures l.Minutes? ==> 60 <= total < 3600 && total == 60 * l.m
    ensures l.MinutesSeconds? ==> 60 <= total < 3600 && 0 < l.s < 60 && total == 60 * l.m + l.s
    ensures l.Seconds? ==> total < 60 && l.s == total
  {
    if total >= 3600 then HoursMinutes(total / 3600, (total % 3600) / 60)
    else if total >= 60 then
      if total % 60 == 0 then Minutes(total / 60) else MinutesSeconds(total / 60, total % 60)
    else Seconds(total)
  }

  /** Kotlin's decimal rendering of a nonnegative `Long`. */
  function Decimal(n: nat): string
  {
    if n < 10 then [DigitChar(n)] else Decimal(n / 10) + [DigitChar(n % 10)]
  }

  function DigitChar(d: nat): (c: char)
    requires d < 10
    ensures IsDigit(c) && DigitValue(c) == d
  {
    "0123456789"[d]
  }

  predicate IsDigit(c: char) { '0' <= c <= '9' }

  function DigitValue(c: char): nat
    requires IsDigit(c)
  {
    c as nat - '0' as nat
  }

  /** The value of a string of decimal digits. */
  function ValueOf(s: string): nat
    requires forall k :: 0 <= k < |s| ==> IsDigit(s[k])
  {
    if |s| == 0 then 0 else 10 * ValueOf(s[..|s| - 1]) + DigitValue(s[|s| - 1])
  }

  /** The rendering is a nonempty digit string that reads back as `n`. */
  lemma {:induction false} DecimalRoundTrip(n: nat)
    ensures |Decimal(n)| > 0 && forall k :: 0 <= k < |Decimal(n)| ==> IsDigit(Decimal(n)[k])
    ensures ValueOf(Decimal(n)) == n
  {
    if n >= 10 {
      DecimalRoundTrip(n / 10);
      var d := Decimal(n);
      assert d[..|d| - 1] == Decimal(n / 10);
    }
  }

  /** The text of a label. */
  function Render(l: Label): string
  {
    match l
    case HoursMinutes(h, m) => Decimal(h) + (['h', ' '] + (Decimal(m) + ['m']))
    case Minutes(m) => Decimal(m) + ['m']
    case MinutesSeconds(m, s) => Decimal(m) + (['m', ' '] + (Decimal(s) + ['s']))
    case Seconds(s) => Decimal(s) + ['s']
  }

  /** The x-axis label for point `axisValue` when each point spans `sampleIntervalSec`. */
  function AxisLabel(axisValue: real, sampleIntervalSec: real): string
  {
    Render(LabelOf(TotalSeconds((axisValue + 1.0) * sampleIntervalSec)))
  }

  /** The number of leading decimal digits of `s`. */
  function DigitRun(s: string): (n: nat)
    ensures n <= |s| && forall k :: 0 <= k < n ==> IsDigit(s[k])
    ensures n < |s| ==> !IsDigit(s[n])
  {
    if |s| == 0 || !IsDigit(s[0]) then 0 else 1 + DigitRun(s[1..])
  }

  /** A number followed by a unit letter splits back into the two. */
  lemma {:induction false} DigitRunAfterDecimal(n: nat, rest: string)
    requires |rest| > 0 && !IsDigit(rest[0])
    ensures DigitRun(Decimal(n) + rest) == |Decimal(n)|
  {
    DecimalRoundTrip(n);
    var s := Decimal(n) + rest;
    assert forall k :: 0 <= k < |Decimal(n)| ==> s[k] == Decimal(n)[k];
    assert s[|Decimal(n)|] == rest[0];
  }

  /** Reads a label back: the parts, or None for text the formatter never produces. */
  function ParseLabel(t: string): Option<Label>
  {
    var a := DigitRun(t);
    if a == 0 || a == |t| then None else ParseUnits(ValueOf(t[..a]), t[a..])
  }

  /** The text after the first number: a unit letter, or a unit letter, a space and a
      second number with its own unit. */
  function ParseUnits(x: nat, u: string): Option<Label>
    requires |u| > 0
  {
    if u == ['s'] then Some(Seconds(x))
    else if u == ['m'] then Some(Minutes(x))
    else if |u| >= 3 && u[0] == 'h' && u[1] == ' ' then
      match ParseNumber(u[2..], 'm')
      case Some(y) => Some(HoursMinutes(x, y))
      case None => None
    else if |u| >= 3 && u[0] == 'm' && u[1] == ' ' then
      match ParseNumber(u[2..], 's')
      case Some(y) => Some(MinutesSeconds(x, y))
      case None => None
    else None
  }

  /** A number followed by exactly the letter `unit`. */
  function ParseNumber(v: string, unit: char): Option<nat>
  {
    var b := DigitRun(v);
    if b > 0 && v[b..] == [unit] then Some(ValueOf(v[..b])) else None
  }

  /** A number rendered in front of a unit text splits back into the number and the unit. */
  lemma NumberThenUnit(n: nat, rest: string)
    requires |rest| > 0 && !IsDigit(rest[0])
    ensures var t := Decimal(n) + rest;
      var a := DigitRun(t);
      a == |Decimal(n)| && 0 < a < |t| && t[..a] == Decimal(n) && t[a..] == rest && ValueOf(t[..a]) == n
  {
    DigitRunAfterDecimal(n, rest);
    DecimalRoundTrip(n);
    var t := Decimal(n) + rest;
    assert t[..|Decimal(n)|] == Decimal(n);
    assert t[|Decimal(n)|..] == rest;
  }

  /** Every label reads back as the parts it was rendered from, so no two different
      parts share a text. */
  lemma RenderParse(l: Label)
    ensures ParseLabel(Render(l)) == Some(l)
  {
    match l
    case HoursMinutes(h, m) => ParseHoursMinutes(h, m);
    case Minutes(m) => NumberThenUnit(m, ['m']);
    case MinutesSeconds(m, s) => ParseMinutesSeconds(m, s);
    case Seconds(s) => NumberThenUnit(s, ['s']);
  }

  /** A rendered number and its unit read back as the number. */
  lemma ParseNumberOf(y: nat, unit: char)
    requires !IsDigit(unit)
    ensures ParseNumber(Decimal(y) + [unit], unit) == Some(y)
  {
    NumberThenUnit(y, [unit]);
  }

  lemma DropUnit(unit: char, rest: string)
    ensures ([unit, ' '] + rest)[2..] == rest
  {
  }

  /** A rendered number followed by a unit text parses as that number and that text. */
  lemma ParseAfterNumber(x: nat, u: string)
    requires |u| > 0 && !IsDigit(u[0])
    ensures ParseLabel(Decimal(x) + u) == ParseUnits(x, u)
  {
    NumberThenUnit(x, u);
  }

  lemma ParseHoursMinutes(h: nat, m: nat)
    ensures ParseLabel(Render(HoursMinutes(h, m))) == Some(HoursMinutes(h, m))
  {
    var u := ['h', ' '] + (Decimal(m) + ['m']);
    ParseAfterNumber(h, u);
    DropUnit('h', Decimal(m) + ['m']);
    assert |u| >= 3 && u[0] == 'h' && u[1] == ' ';
    ParseNumberOf(m, 'm');
  }

  lemma ParseMinutesSeconds(m: nat, s: nat)
    ensures ParseLabel(Render(MinutesSeconds(m, s))) == Some(MinutesSeconds(m, s))
  {
    var u := ['m', ' '] + (Decimal(s) + ['s']);
    ParseAfterNumber(m, u);
    DropUnit('m', Decimal(s) + ['s']);
    assert |u| >= 3 && u[0] == 'm' && u[1] == ' ';
    ParseNumberOf(s, 's');
  }

  // ---------------------------------------------------------------------------
  // The screen's state (MainActivity.kt:206-245, 269-304, 322-333)

  /** A temperature reading triggers a stop: at or above 45 with the high-temperature
      dialog not shown, or at or below 17 with the low-temperature dialog not shown. */
  predicate Triggers(t: real, highShown: bool, lowShown: bool)
  {
    (t >= HIGH_TEMPERATURE && !highShown) || (t <= LOW_TEMPERATURE && !lowShown)
  }

  /** `getBatteryTemp(context) ?: 0f`. */
  function Reading(r: Option<real>): real
  {
    if r.Some? then r.value else 0.0
  }

  function Readings(rs: seq<Option<real>>): (ts: seq<real>)
    ensures |ts| == |rs| && forall k :: 0 <= k < |rs| ==> ts[k] == Reading(rs[k])
  {
    seq(|rs|, k requires 0 <= k < |rs| => Reading(rs[k]))
  }

  /** The first triggering reading, or `|ts|` when none triggers. */
  function FirstTrigger(ts: seq<real>, highShown: bool, lowShown: bool): (i: nat)
    ensures i <= |ts| && (i < |ts| ==> Triggers(ts[i], highShown, lowShown))
    ensures forall j :: 0 <= j < i ==> !Triggers(ts[j], highShown, lowShown)
  {
    if |ts| == 0 then 0
    else if Triggers(ts[0], highShown, lowShown) then 0
    else 1 + FirstTrigger(ts[1..], highShown, lowShown)
  }

  lemma FirstTriggerIs(ts: seq<real>, highShown: bool, lowShown: bool, i: nat)
    requires i <= |ts| && (i < |ts| ==> Triggers(ts[i], highShown, lowShown))
    requires forall j :: 0 <= j < i ==> !Triggers(ts[j], highShown, lowShown)
    ensures FirstTrigger(ts, highShown, lowShown) == i
  {
  }

  /** The chart after the readings `ts`, one appended and compressed per second. */
  function Chart(ts: seq<real>): (c: seq<real>)
    ensures |c| <= MAX_POINTS
  {
    if |ts| == 0 then [] else Compress(Chart(ts[..|ts| - 1]) + [ts[|ts| - 1]])
  }

  /** The doublings of the interval over those seconds. */
  function ChartPasses(ts: seq<real>): nat
  {
    if |ts| == 0 then 0 else ChartPasses(ts[..|ts| - 1]) + Passes(Chart(ts[..|ts| - 1]) + [ts[|ts| - 1]])
  }

  /** Sampling one more second extends the chart and its doublings. */
  lemma ChartSnoc(ts: seq<real>, c: nat)
    requires c < |ts|
    ensures Chart(ts[..c + 1]) == Compress(Chart(ts[..c]) + [ts[c]])
    ensures Doubled(1.0, ChartPasses(ts[..c + 1])) ==
            Doubled(Doubled(1.0, ChartPasses(ts[..c])), Passes(Chart(ts[..c]) + [ts[c]]))
  {
    assert ts[..c + 1][..c] == ts[..c];
    DoubledAdd(1.0, ChartPasses(ts[..c]), Passes(Chart(ts[..c]) + [ts[c]]));
  }

  /** `a` doublings and then `b` more are `a + b` doublings. */
  lemma {:induction false} DoubledAdd(x: real, a: nat, b: nat)
    ensures Doubled(Doubled(x, a), b) == Doubled(x, a + b)
  {
    if b > 0 {
      DoubledAdd(x, a, b - 1);
    }
  }

  /** Every point of the chart lies within the range of the readings taken. */
  lemma {:induction false} ChartWithin(ts: seq<real>, lo: real, hi: real)
    requires Within(ts, lo, hi)
    ensures Within(Chart(ts), lo, hi)
  {
    if |ts| > 0 {
      var init := ts[..|ts| - 1];
      assert Within(init, lo, hi) by {
        forall k | 0 <= k < |init|
          ensures lo <= init[k] <= hi
        {
          assert init[k] == ts[k];
        }
      }
      ChartWithin(init, lo, hi);
      var c := Chart(init) + [ts[|ts| - 1]];
      assert Within(c, lo, hi);
      CompressWithin(c, lo, hi);
    }
  }

  /** A sampled chart holds at most 240 points, and once a 241st second has been
      sampled it never falls below 121. */
  lemma {:induction false} ChartSize(ts: seq<real>)
    ensures |ts| <= MAX_POINTS ==> Chart(ts) == ts
    ensures |ts| > MAX_POINTS ==> MAX_POINTS / 2 < |Chart(ts)|
  {
    if |ts| > 0 {
      var init := ts[..|ts| - 1];
      ChartSize(init);
      if |ts| <= MAX_POINTS {
        assert init + [ts[|ts| - 1]] == ts;
      }
    }
  }

  /** A set holding `x` is `{x}` or keeps an element once `x` is removed. */
  lemma OneOrMore(s: set<nat>, x: nat)
    requires x in s
    ensures |s| > 1 ==> s - {x} != {}
    ensures |s| <= 1 ==> s == {x}
  {
    assert |s - {x}| == |s| - 1;
    if |s| <= 1 {
      assert s - {x} == {};
    }
  }

  class StressState {
    /** `selectedIndices`: 0 is the CPU stress, 1 the GPU compute stress. */
    var selected: set<nat>
    var temperatures: seq<real>
    var sampleIntervalSec: real
    var running: bool
    var showHighTempDialog: bool
    var showLowTempDialog: bool
    var triggeredTemp: real

    /** The chart never holds more than 240 points and some stress mode is selected. */
    predicate Valid()
      reads this
    {
      |temperatures| <= MAX_POINTS && selected != {}
    }

    /** The screen's initial state: CPU selected, no readings, one second per point. */
    constructor()
      ensures Valid() && selected == {0} && temperatures == [] && sampleIntervalSec == 1.0
      ensures !running && !showHighTempDialog && !showLowTempDialog && triggeredTemp == 0.0
    {
      selected := {0};
      temperatures := [];
      sampleIntervalSec := 1.0;
      running := false;
      showHighTempDialog := false;
      showLowTempDialog := false;
      triggeredTemp := 0.0;
    }

    /** `compressIfNeeded`: halve while more than 240 points remain, doubling the
        interval each time. */
    method CompressIfNeeded()
      modifies this
      ensures temperatures == Compress(old(temperatures))
      ensures sampleIntervalSec == Doubled(old(sampleIntervalSec), Passes(old(temperatures)))
      ensures selected == old(selected) && running == old(running) && triggeredTemp == old(triggeredTemp)
      ensures showHighTempDialog == old(showHighTempDialog) && showLowTempDialog == old(showLowTempDialog)
    {
      ghost var k: nat := 0;
      while |temperatures| > MAX_POINTS
        invariant Compress(temperatures) == Compress(old(temperatures))
        invariant Passes(old(temperatures)) == k + Passes(temperatures)
        invariant sampleIntervalSec == Doubled(old(sampleIntervalSec), k)
        invariant selected == old(selected) && running == old(running) && triggeredTemp == old(triggeredTemp)
        invariant showHighTempDialog == old(showHighTempDialog) && showLowTempDialog == old(showLowTempDialog)
        decreases |temperatures|
      {
        HalveLength(temperatures);
        var newList := PairMeans(temperatures);
        temperatures := newList;
        sampleIntervalSec := sampleIntervalSec * 2.0;
        k := k + 1;
      }
    }

    /** One second of the sampling loop: the reading (0 when the battery reports none)
        is appended and the chart compressed; a triggering reading is recorded, raises
        its dialog and stops the stress run. */
    method Sample(reading: Option<real>) returns (stop: bool)
      requires Valid()
      modifies this
      ensures Valid()
      ensures var t := Reading(reading);
        var stopHigh := t >= HIGH_TEMPERATURE && !old(showHighTempDialog);
        var stopLow := !stopHigh && t <= LOW_TEMPERATURE && !old(showLowTempDialog);
        temperatures == Compress(old(temperatures) + [t]) &&
        sampleIntervalSec == Doubled(old(sampleIntervalSec), Passes(old(temperatures) + [t])) &&
        stop == Triggers(t, old(showHighTempDialog), old(showLowTempDialog)) &&
        stop == (stopHigh || stopLow) &&
        showHighTempDialog == (old(showHighTempDialog) || stopHigh) &&
        showLowTempDialog == (old(showLowTempDialog) || stopLow) &&
        (stop ==> triggeredTemp == t && !running) &&
        (!stop ==> triggeredTemp == old(triggeredTemp) && running == old(running))
      ensures selected == old(selected)
    {
      var t := Reading(reading);
      temperatures := temperatures + [t];
      CompressIfNeeded();
      stop := false;
      if t >= HIGH_TEMPERATURE && !showHighTempDialog {
        triggeredTemp := t;
        showHighTempDialog := true;
        running := false;
        stop := true;
      } else if t <= LOW_TEMPERATURE && !showLowTempDialog {
        triggeredTemp := t;
        showLowTempDialog := true;
        running := false;
        stop := true;
      }
    }

    /** The `LaunchedEffect(isStressRunning)` loop over the battery readings of
        successive seconds: a start clears the chart and resets the interval to one
        second; samples are taken while the run lasts, and a triggering reading ends it.
        `consumed` is the number of readings taken. */
    method RunSampling(readings: seq<Option<real>>) returns (consumed: nat)
      requires Valid()
      modifies this
      ensures Valid() && selected == old(selected)
      ensures !old(running) ==>
        (consumed == 0 && temperatures == old(temperatures) &&
         sampleIntervalSec == old(sampleIntervalSec) && !running)
      ensures old(running) ==>
        var ts := Readings(readings);
        var first := FirstTrigger(ts, old(showHighTempDialog), old(showLowTempDialog));
        (running <==> first == |ts|) &&
        consumed == (if first < |ts| then first + 1 else |ts|) &&
        temperatures == Chart(ts[..consumed]) &&
        sampleIntervalSec == Doubled(1.0, ChartPasses(ts[..consumed])) &&
        (first < |ts| ==> triggeredTemp == ts[first])
    {
      ghost var ts := Readings(readings);
      ghost var high, low := showHighTempDialog, showLowTempDialog;
      consumed := 0;
      if !running {
        return;
      }
      temperatures, sampleIntervalSec := [], 1.0;
      while running && consumed < |readings|
        invariant consumed <= |readings| && selected == old(selected)
        invariant Sampled(ts, consumed, high, low)
        decreases |readings| - consumed
      {
        SampleStep(readings, ts, consumed, high, low);
        consumed := consumed + 1;
      }
      if running {
        FirstTriggerIs(ts, high, low, |ts|);
      }
    }

    /** The state after sampling the first `c` readings `ts` of a run that started with
        the dialog flags `high` and `low`. */
    ghost predicate Sampled(ts: seq<real>, c: nat, high: bool, low: bool)
      reads this
    {
      c <= |ts| && Valid() &&
      temperatures == Chart(ts[..c]) && sampleIntervalSec == Doubled(1.0, ChartPasses(ts[..c])) &&
      (running ==> (forall j :: 0 <= j < c ==> !Triggers(ts[j], high, low)) &&
                   showHighTempDialog == high && showLowTempDialog == low) &&
      (!running ==> c > 0 && FirstTrigger(ts, high, low) == c - 1 && triggeredTemp == ts[c - 1])
    }

    /** One pass of the sampling loop, as seen by the run. */
    method SampleStep(readings: seq<Option<real>>, ghost ts: seq<real>, c: nat, ghost high: bool, ghost low: bool)
      requires ts == Readings(readings) && c < |readings| && running
      requires Sampled(ts, c, high, low)
      modifies this
      ensures Sampled(ts, c + 1, high, low) && selected == old(selected)
    {
      ChartSnoc(ts, c);
      assert ts[c] == Reading(readings[c]);
      var stop := Sample(readings[c]);
      if stop {
        FirstTriggerIs(ts, high, low, c);
      }
    }

    /** A click on stress mode `index`: a selected mode is deselected only when another
        one stays selected; an unselected one is added. The GPU button is disabled, and
        ignores clicks, without Vulkan compute. */
    method Toggle(index: nat, hasVulkanCompute: bool)
      requires Valid()
      modifies this
      ensures Valid()
      ensures index == 1 && !hasVulkanCompute ==> selected == old(selected)
      ensures !(index == 1 && !hasVulkanCompute) ==>
        (index !in old(selected) ==> selected == old(selected) + {index}) &&
        (index in old(selected) && old(selected) != {index} ==> selected == old(selected) - {index}) &&
        (old(selected) == {index} ==> selected == {index})
      ensures temperatures == old(temperatures) && running == old(running)
    {
      if index == 1 && !hasVulkanCompute {
        return;
      }
      if index in selected {
        OneOrMore(selected, index);
        if |selected| > 1 {
          selected := selected - {index};
        }
      } else {
        selected := selected + {index};
      }
    }

    /** The start/stop button: starting clears nothing yet but starts the selected
        stresses; stopping stops both. */
    method PressStressButton() returns (startCpu: bool, startGpu: bool, stopBoth: bool)
      modifies this
      ensures running == !old(running)
      ensures !old(running) ==> startCpu == (0 in selected) && startGpu == (1 in selected) && !stopBoth
      ensures old(running) ==> !startCpu && !startGpu && stopBoth
      ensures selected == old(selected) && temperatures == old(temperatures)
      ensures sampleIntervalSec == old(sampleIntervalSec) && triggeredTemp == old(triggeredTemp)
      ensures showHighTempDialog == old(showHighTempDialog) && showLowTempDialog == old(showLowTempDialog)
    {
      if !running {
        running := true;
        return 0 in selected, 1 in selected, false;
      }
      running := false;
      return false, false, true;
    }
  }
}
