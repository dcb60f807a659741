/**
 * The performance donut chart: the cumulative start and end of each segment's arc, the
 * theme-colour aliases, and the `conic-gradient(...)` text they are joined into.
 */
module DonutChart {
  import opened Strings

  /** One segment of the chart (`PerformanceDonutChartData.segments`). */
  datatype Segment = Segment(caption: string, value: real, color: string)

  /** `PerformanceDonutChartData`. */
  datatype DonutChartData = DonutChartData(title: string, segments: seq<Segment>)

  /** One colour stop of the gradient: a colour from `start`% to `end`%. */
  datatype Stop = Stop(color: string, start: real, end: real)

  const DarkAlias := "perf-bar-dark"
  const LightAlias := "perf-bar-light"
  const DarkHex := "#374151"
  const LightHex := "#d1d5db"
  const DarkVariable := "var(--color-perf-bar-dark)"
  const LightVariable := "var(--color-perf-bar-light)"

  /** The sum of the segments' values. */
  function Total(segments: seq<Segment>): real
  {
    if segments == [] then 0.0 else Total(segments[..|segments| - 1]) + segments[|segments| - 1].value
  }

  /** The sum of a prefix grows by exactly the next segment's value. */
  lemma TotalStep(segments: seq<Segment>, i: nat)
    requires i < |segments|
    ensures Total(segments[..i + 1]) == Total(segments[..i]) + segments[i].value
  {
    assert segments[..i + 1][..i] == segments[..i];
  }

  /** The gradient's colour: the two theme aliases become hex values, anything else is kept. */
  function GradientColor(color: string): string
  {
    if color == DarkAlias then DarkHex
    else if color == LightAlias then LightHex
    else color
  }

  /** The legend swatch's colour: the same aliases become CSS variables instead. */
  function LegendColor(color: string): string
  {
    if color == DarkAlias then DarkVariable
    else if color == LightAlias then LightVariable
    else color
  }

  /**
   * The dark alias becomes `#374151` in the gradient and its CSS variable in the legend, the
   * light alias likewise; every other colour is kept, so both translate exactly the same colours.
   */
  lemma AliasesAgree(color: string)
    ensures color == DarkAlias ==> GradientColor(color) == DarkHex && LegendColor(color) == DarkVariable
    ensures color == LightAlias ==> GradientColor(color) == LightHex && LegendColor(color) == LightVariable
    ensures color != DarkAlias && color != LightAlias ==> GradientColor(color) == color && LegendColor(color) == color
    ensures GradientColor(color) != color <==> LegendColor(color) != color
  {
    assert DarkAlias[0] == 'p' && LightAlias[0] == 'p';
    assert DarkHex[0] == '#' && LightHex[0] == '#';
    assert DarkVariable[0] == 'v' && LightVariable[0] == 'v';
  }

  /**
   * The first `|stops|` stops of `segments`: each has its segment's colour, starts at the total
   * of the segments before it and extends by the segment's own value.
   */
  predicate StopsAgree(segments: seq<Segment>, stops: seq<Stop>)
    requires |stops| <= |segments|
  {
    forall i :: 0 <= i < |stops| ==>
      stops[i].color == GradientColor(segments[i].color) &&
      stops[i].start == Total(segments[..i]) && stops[i].end == stops[i].start + segments[i].value
  }

  /** The stops of `segments`, one per segment in segment order. */
  predicate CumulativeStops(segments: seq<Segment>, stops: seq<Stop>)
  {
    |stops| == |segments| && StopsAgree(segments, stops)
  }

  /** Cumulative stops make a closed ring: from 0, each arc meeting the next, up to the total. */
  lemma CumulativeStopsMeet(segments: seq<Segment>, stops: seq<Stop>)
    requires CumulativeStops(segments, stops)
    ensures |stops| > 0 ==> stops[0].start == 0.0 && stops[|stops| - 1].end == Total(segments)
    ensures forall i :: 0 <= i < |stops| - 1 ==> stops[i + 1].start == stops[i].end
  {
    if |stops| > 0 {
      TotalStep(segments, |stops| - 1);
      assert segments[..|segments|] == segments;
    }
    forall i | 0 <= i < |stops| - 1
      ensures stops[i + 1].start == stops[i].end
    {
      TotalStep(segments, i);
    }
  }

  /** The `map` over the segments with its running `cumulativePercent`. */
  method GradientStops(segments: seq<Segment>) returns (stops: seq<Stop>)
    ensures CumulativeStops(segments, stops)
  {
    var cumulativePercent := 0.0;
    stops := [];
    for k := 0 to |segments|
      invariant |stops| == k && StopsAgree(segments, stops)
      invariant cumulativePercent == Total(segments[..k])
    {
      var start := cumulativePercent;
      TotalStep(segments, k);
      cumulativePercent := cumulativePercent + segments[k].value;
      var end := cumulativePercent;
      var stop := Stop(GradientColor(segments[k].color), start, end);
      ExtendStops(segments, stops, stop);
      stops := stops + [stop];
    }
  }

  /** The stop of the next segment extends the agreeing stops by one. */
  lemma ExtendStops(segments: seq<Segment>, stops: seq<Stop>, next: Stop)
    requires |stops| < |segments| && StopsAgree(segments, stops)
    requires next.color == GradientColor(segments[|stops|].color)
    requires next.start == Total(segments[..|stops|]) && next.end == next.start + segments[|stops|].value
    ensures StopsAgree(segments, stops + [next])
  {
    var longer := stops + [next];
    forall i | 0 <= i < |longer|
      ensures longer[i].color == GradientColor(segments[i].color)
      ensures longer[i].start == Total(segments[..i]) && longer[i].end == longer[i].start + segments[i].value
    {
      if i < |stops| {
        assert longer[i] == stops[i];
      }
    }
  }

  /** The text of one stop, `<colour> <start>% <end>%`, for a given rendering of numbers. */
  function StopText(stop: Stop, number: real -> string): string
  {
    stop.color + " " + number(stop.start) + "% " + number(stop.end) + "%"
  }

  /** The stop texts joined with `, `. */
  function StopsText(stops: seq<Stop>, number: real -> string): string
  {
    Join(seq(|stops|, i requires 0 <= i < |stops| => StopText(stops[i], number)), ", ")
  }

  /** The background value: the joined stops inside `conic-gradient(...)`. */
  function ConicGradient(stops: seq<Stop>, number: real -> string): (css: string)
    ensures |css| == |StopsText(stops, number)| + 16
    ensures css[..15] == "conic-gradient(" && css[|css| - 1] == ')'
    ensures css[15..|css| - 1] == StopsText(stops, number)
  {
    "conic-gradient(" + StopsText(stops, number) + ")"
  }

  /** Joining the stops puts `, ` between consecutive ones and nothing after the last. */
  lemma StopsTextCons(first: Stop, rest: seq<Stop>, number: real -> string)
    requires rest != []
    ensures StopsText([first] + rest, number) == StopText(first, number) + ", " + StopsText(rest, number)
  {
    var all := [first] + rest;
    var texts := seq(|all|, i requires 0 <= i < |all| => StopText(all[i], number));
    assert texts[1..] == seq(|rest|, i requires 0 <= i < |rest| => StopText(rest[i], number));
  }
}
