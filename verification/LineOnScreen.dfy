/** The screen of a run whose passes draw lines of payloads. */
module LineOnScreen {
  import opened LineParts
  import opened LinePlain
  import opened LineText
  import opened Options
  import opened ProgressLine
  import opened ProgressScreen
  import opened Terminal

  /** What a pass reads: the latest payload, the tool under way, the clock, the start of the run and the width. */
  datatype Moment = Moment(payload: Json, tool: Option<Tool>, now: real, started: real, width: int)

  /** The line `format_line` gives for it. */
  function LineAt(host: Host, m: Moment): string {
    var p, budget := PartsOf(host, m.payload, m.tool, m.now, m.started), Budget(m.width);
    LineText.Cut(host.cells, Compose(p, DROP_ORDER[..Drops(host.cells, p, budget)]), budget)
  }

  predicate CalmRun(s: State, events: seq<Event>)
    decreases |events|
  {
    events == [] || (Calm(s, events[0]) && CalmRun(Apply(s, events[0]), events[1..]))
  }

  /** Every pass draws the line of its moment. */
  predicate Draws(host: Host, events: seq<Event>, moments: seq<Moment>) {
    && |events| == |moments|
    && forall i | 0 <= i < |events| :: events[i].Carry? ==> events[i].line == LineAt(host, moments[i])
  }

  lemma {:induction false} DrawnRunsAreQuiet(host: Host, s: State, events: seq<Event>, moments: seq<Moment>)
    requires ControlsAreOther(host) && CalmRun(s, events) && Draws(host, events, moments)
    ensures QuietRun(s, events)
    decreases |events|
  {
    hide Apply, Calm, LineAt, ControlsAreOther, Plain;
    if events != [] {
      if events[0].Carry? { LineIsPlain(host, moments[0]); }
      DrawnRunsAreQuiet(host, Apply(s, events[0]), events[1..], moments[1..]);
    }
  }

  lemma LineIsPlain(host: Host, m: Moment)
    requires ControlsAreOther(host)
    ensures Plain(LineAt(host, m))
  {
    var p := PartsOf(host, m.payload, m.tool, m.now, m.started);
    EveryLineIsPlain(host, m.payload, m.tool, m.now, m.started, DROP_ORDER[..Drops(host.cells, p, Budget(m.width))],
                     Budget(m.width));
    hide LineText.Cut, Compose, Drops, PartsOf, ControlsAreOther, Plain;
  }

  /** Whatever the payloads hold: the rows are the texts written above the line, in order, and the current row is
      the line of the last payload drawn, if it is up. */
  lemma ScreenOfPayloads(host: Host, color: bool, events: seq<Event>, moments: seq<Moment>)
    requires ControlsAreOther(host) && CalmRun(Initial(color), events) && Draws(host, events, moments)
    ensures var p := Run(Initial(color), events).paper;
            && Shows(p)
            && p.screen.row == (if p.drawn then p.last else "")
            && (AllPlain(p.above) ==> p.screen.rows == p.above)
  {
    DrawnRunsAreQuiet(host, Initial(color), events, moments);
    ScreenIsRecordsAndLine(color, events);
    hide *;
  }
}
