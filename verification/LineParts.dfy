/** The parts of the progress line, from the payload, the tool under way and the clock, and the whole line of them. */
module LineParts {
  import opened LineText
  import opened Numerals
  import opened Options
  import opened Terminal

  /** The tool call under way: its label and when it started. */
  datatype Tool = Tool(name: string, started: real)

  const BAR_CELLS := 10
  const RUNNING_CAP := 95

  function Clamp(n: int, lo: int, hi: int): int {
    if n < lo then lo else if n > hi then hi else n
  }

  /** The percent before the end: rounded down, from 0 to 95. */
  function BarPercent(fraction: real): nat {
    Clamp((fraction * 100.0 + 0.000000001).Floor, 0, RUNNING_CAP)
  }

  /** A tenth of a percentage, rounded to the nearest whole, halves to the even one. */
  function Tenth(percent: nat): nat {
    var q, r := percent / 10, percent % 10;
    if r < 5 || (r == 5 && q % 2 == 0) then q else q + 1
  }

  function BarOf(fraction: real, complete: bool): (cells: nat)
    ensures cells <= BAR_CELLS
  {
    if complete then BAR_CELLS else if Tenth(BarPercent(fraction)) < BAR_CELLS then Tenth(BarPercent(fraction))
    else BAR_CELLS - 1
  }

  function Bar(fraction: real, complete: bool): string {
    var cells := BarOf(fraction, complete);
    seq(cells, _ => '▓') + seq(BAR_CELLS - cells, _ => '░')
  }

  function StepLimit(payload: map<string, Json>): Option<int> {
    match Get(payload, "limits")
    case Map(limits) =>
      var value := AsInt(Get(limits, "max_steps"));
      if value.Some? && value.value > 0 then value else None
    case _ => None
  }

  function ToolElapsed(seconds: real): string {
    var t := Truncated(seconds);
    var total: nat := if t > 0 then t else 0;
    var minutes := total / 60;
    if minutes < 60 then Digits(minutes) + ":" + TwoDigits(total % 60)
    else Digits(minutes / 60) + ":" + TwoDigits(minutes % 60) + ":" + TwoDigits(total % 60)
  }

  /** Why the run is off its template. */
  function Reason(host: Host, payload: map<string, Json>, reason: Json): string {
    if reason == Str("longer") then
      var past := Get(payload, "past");
      var m := if past.Map? then past.entries else map[];
      var lo, hi := AsInt(Get(m, "steps_lo")), AsInt(Get(m, "steps_hi"));
      "longer than usual"
      + (if lo.Some? && hi.Some? then " (past " + StepRange(lo.value, hi.value) + ")" else "")
    else if reason == Str("retrying") || reason == Str("stuck") then reason.s
    else Printable(host, Spelled(host, reason))
  }

  function StepText(step: int): string {
    if step <= 0 then "starting" else "step " + Decimal(step)
  }

  function PercentText(fraction: real, complete: bool): string {
    if complete then "100%" else Digits(BarPercent(fraction)) + "%"
  }

  /** `_head`. */
  function Head(host: Host, payload: map<string, Json>, level: int, step: int): seq<string> {
    var fraction := AsNumber(Get(payload, "fraction"));
    if level < 2 || fraction.None? then
      var limit := StepLimit(payload);
      [StepText(step) + (if step > 0 && limit.Some? then " of " + Decimal(limit.value) else "")]
    else
      var ended := Get(payload, "state") == Str("ended");
      var complete := ended && fraction.value >= 1.0;
      var bar, percent := Bar(fraction.value, complete), PercentText(fraction.value, complete);
      var reason, expected := Get(payload, "off_reason"), AsInt(Get(payload, "expected_steps"));
      if Truthy(reason) && !ended then
        [bar + " paused at " + percent, StepText(step) + ", " + Reason(host, payload, reason)]
      else if ended && !complete then [bar + " stopped at " + percent, StepText(step)]
      else
        [bar + " " + percent,
         StepText(step) + (if !ended && expected.Some? && step > 0 then " of ~" + Decimal(expected.value) else "")]
  }

  /** The phase and the tool call under way. */
  function Facts(host: Host, payload: map<string, Json>, tool: Option<Tool>, now: real): seq<string> {
    var phase, cycle := Get(payload, "phase"), IntOr0(Get(payload, "cycle"));
    (if phase.Str? && phase.s != ""
     then [Printable(host, phase.s) + (if cycle >= 1 then " (cycle " + Decimal(cycle) + ")" else "")] else [])
    + (if tool.Some? then [Printable(host, tool.value.name) + " " + ToolElapsed(now - tool.value.started)] else [])
  }

  function TestsText(payload: map<string, Json>): Option<string> {
    match Get(payload, "tests")
    case Map(tests) =>
      var passed, total := AsInt(Get(tests, "passed")), AsInt(Get(tests, "total"));
      if passed.Some? && total.Some? then Some("tests " + Decimal(passed.value) + "/" + Decimal(total.value)) else None
    case _ => None
  }

  /** `_parts`; a payload that is no mapping is taken as an empty one. */
  function PartsOf(host: Host, payload: Json, tool: Option<Tool>, now: real, started: real): Parts {
    var m := if payload.Map? then payload.entries else map[];
    var level, step, attempt := IntOr0(Get(m, "level")), IntOr0(Get(m, "step")), IntOr0(Get(m, "attempt"));
    Parts(Head(host, m, level, step),
          if attempt >= 2 then Some("attempt " + Decimal(attempt)) else None,
          Facts(host, m, tool, now), TestsText(m), RunElapsed(now - started), PastPartsOf(host, m, level))
  }

  /** `format_line`: the line of a payload. */
  method FormatPayload(host: Host, payload: Json, tool: Option<Tool>, now: real, started: real, width: int,
                       color: bool)
    returns (line: string)
    ensures var p := PartsOf(host, payload, tool, now, started);
            var k := Drops(host.cells, p, Budget(width));
            line == Dressed(color, Cut(host.cells, Compose(p, DROP_ORDER[..k]), Budget(width)))
  {
    hide Compose, Cut, Drops;
    line := FormatLine(host, PartsOf(host, payload, tool, now, started), width);
    if color { line := DIM + line + RESET; }
  }

  // ----- What the parts are good for -----

  /** Before the end the bar is never full and never says more than 95 percent; it is full exactly when complete. */
  lemma BarIsFullIff(fraction: real, complete: bool)
    ensures BarPercent(fraction) <= RUNNING_CAP
    ensures |Bar(fraction, complete)| == BAR_CELLS
    ensures '░' !in Bar(fraction, complete) <==> complete || BarOf(fraction, complete) == BAR_CELLS
    ensures BarOf(fraction, complete) == BAR_CELLS <==> complete
  {
    var bar, cells := Bar(fraction, complete), BarOf(fraction, complete);
    if cells < BAR_CELLS { assert bar[cells] == '░'; }
  }

  /** More of the run done never shows less on the bar. */
  lemma BarNeverFalls(a: real, b: real)
    requires a <= b
    ensures BarPercent(a) <= BarPercent(b) && BarOf(a, false) <= BarOf(b, false) <= BarOf(b, true)
  {
    assert a * 100.0 + 0.000000001 <= b * 100.0 + 0.000000001;
    TenthNeverFalls(BarPercent(a), BarPercent(b));
  }

  lemma TenthNeverFalls(a: nat, b: nat)
    requires a <= b
    ensures Tenth(a) <= Tenth(b)
  {
  }

  /** The line of any payload: it fits; the fewest drops that fit are made; it is cut only when all four are too
      wide. */
  lemma PayloadLineFits(host: Host, payload: Json, tool: Option<Tool>, now: real, started: real, width: int)
    ensures var p, budget := PartsOf(host, payload, tool, now, started), Budget(width);
            var k := Drops(host.cells, p, budget);
            var text := Compose(p, DROP_ORDER[..k]);
            var line := Cut(host.cells, text, budget);
            && Width(host.cells, line) <= budget
            && (forall j | 0 <= j < k :: Width(host.cells, Compose(p, DROP_ORDER[..j])) > budget)
            && (line == text || Width(host.cells, Compose(p, DROP_ORDER)) > budget)
  {
    hide Compose, Cut, Drops, Width, PastPartsOf, Head, Facts, TestsText, RunElapsed;
    var m := if payload.Map? then payload.entries else map[];
    LineFits(host, PartsOf(host, payload, tool, now, started), m, IntOr0(Get(m, "level")), width);
  }
}
