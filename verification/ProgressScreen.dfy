/** What the terminal shows during a run of the progress line: the records as if nothing else had been written,
    and under them the line if it is up. */
module ProgressScreen {
  import opened Options
  import opened ProgressLine
  import opened ProgressRuns
  import opened Terminal

  predicate AllSettled(records: seq<string>) {
    forall i | 0 <= i < |records| :: Settled(records[i])
  }

  lemma {:induction false} LinesAppend(a: seq<string>, b: seq<string>)
    ensures Lines(a + b) == Lines(a) + Lines(b)
    decreases |a|
  {
    if a == [] {
      assert a + b == b;
    } else {
      assert (a + b)[1..] == a[1..] + b;
      LinesAppend(a[1..], b);
    }
  }

  lemma {:induction false} LinesLeaveAFreshRow(s: Screen, records: seq<string>)
    requires AtRowStart(s) && AllSettled(records)
    ensures AtRowStart(Feed(s, Lines(records)))
    decreases |records|
  {
    if records != [] {
      FeedRecord(s, records[0]);
      FeedAppend(s, records[0] + "\n", Lines(records[1..]));
      LinesLeaveAFreshRow(Feed(s, records[0] + "\n"), records[1..]);
    }
  }

  /** A record of printable characters is one row, as it is. */
  lemma {:induction false} PlainRecordsAreRows(s: Screen, records: seq<string>)
    requires AtRowStart(s) && AllPlain(records)
    ensures Feed(s, Lines(records)) == s.(rows := s.rows + records)
    decreases |records|
  {
    if records == [] {
      assert s.rows + records == s.rows;
    } else {
      var r := records[0];
      FeedPlain(s, r);
      FeedAppend(s, r, "\n");
      var t := Feed(s, r);
      assert "" + r == r;
      assert Feed(t, "\n") == FeedChar(t, '\n') == s.(rows := s.rows + [r]);
      FeedAppend(s, r + "\n", Lines(records[1..]));
      PlainRecordsAreRows(s.(rows := s.rows + [r]), records[1..]);
      assert s.rows + [r] + records[1..] == s.rows + records;
    }
  }

  lemma DressedShowsTheLine(s: Screen, color: bool, line: string)
    requires AtRowStart(s) && Plain(line)
    ensures Feed(s, Dressed(color, line)) == Overlay(s, line)
  {
    FeedPlain(s, line);
    assert "" + line == line;
    if color {
      FeedAppend(s, DIM + line, RESET);
      FeedAppend(s, DIM, line);
      assert DIM == [ESC, '[', '2', 'm'] && RESET == [ESC, '[', '0', 'm'];
      FeedCsi(s, '2', 'm');
      FeedCsi(Overlay(s, line), '0', 'm');
    }
  }

  lemma EraseThenLine(s: Screen, shown: string, color: bool, line: string)
    requires AtRowStart(s) && Plain(line)
    ensures Feed(Overlay(s, shown), ERASE) == s
    ensures Feed(Overlay(s, shown), ERASE + Dressed(color, line)) == Overlay(s, line)
  {
    FeedErase(Overlay(s, shown));
    FeedAppend(Overlay(s, shown), ERASE, Dressed(color, line));
    DressedShowsTheLine(s, color, line);
  }

  /** One pass in the foreground: the records land on rows of their own above the line, which is up after it with
      the new text unless the pass closes. */
  lemma PassShows(s: Screen, color: bool, drawn: bool, last: string, records: seq<string>, closing: bool, line: string)
    requires AtRowStart(s) && Plain(last) && Plain(line) && AllSettled(records)
    ensures var d := Draw(color, drawn, last, records, closing, true, line);
            var base := Feed(s, Lines(records));
            && AtRowStart(base)
            && Feed(Overlay(s, if drawn then last else ""), d.text) == Overlay(base, if closing then "" else line)
            && d.drawn == d.redrawn == !closing
  {
    var shown := if drawn then last else "";
    var base := Feed(s, Lines(records));
    LinesLeaveAFreshRow(s, records);
    EraseThenLine(s, shown, color, line);
    EraseThenLine(base, "", color, line);
    assert Overlay(s, "") == s && Overlay(base, "") == base;
    var body := (if drawn then ERASE else "") + Lines(records);
    FeedAppend(Overlay(s, shown), if drawn then ERASE else "", Lines(records));
    assert Feed(Overlay(s, shown), body) == base;
    FeedAppend(Overlay(s, shown), body, ERASE + Dressed(color, line));
    assert body + "" == body && "" + ERASE == ERASE;
    assert "" + (ERASE + Dressed(color, line)) == ERASE + Dressed(color, line);
    hide Feed, Dressed;
  }

  /** Leaving out the redraw of an unchanged line shows what redrawing it would. */
  lemma SkippedRedrawIsUnseen(s: Screen, color: bool, line: string)
    requires AtRowStart(s) && Plain(line)
    ensures Draw(color, true, line, [], false, true, line).text == ""
    ensures Feed(Overlay(s, line), Draw(color, true, line, [], false, true, line).text)
         == Feed(Overlay(s, line), ERASE + Dressed(color, line))
  {
    EraseThenLine(s, line, color, line);
  }

  // ----- Whole runs -----

  predicate AllRecordsSettled(requests: seq<Request>) {
    forall i | 0 <= i < |requests| :: requests[i].record.Some? ==> Settled(requests[i].record.value)
  }

  /** The finished rows are those of the texts above the line, and the row under them is the line if it is up. */
  predicate Shows(p: Paper) {
    var base := Feed(BLANK, Lines(p.above));
    AtRowStart(base) && Plain(p.last) && p.screen == Overlay(base, if p.drawn then p.last else "")
  }

  predicate TextsSettled(s: State) {
    AllRecordsSettled(s.book.queue) && AllRecordsSettled(InHand(s.phase)) && AllSettled(s.refused)
  }

  predicate Faithful(s: State) {
    Shows(s.paper) && TextsSettled(s)
  }

  /** In the foreground, no write failing, no escape sequence left open by a record, and no caller writing its own
      text while the line is up. */
  predicate Calm(s: State, e: Event) {
    match e
    case Ask(record, _) => record.Some? ==> Settled(record.value)
    case WriteDirect(_) => !s.paper.drawn
    case Carry(foreground, _, outcome) => foreground && !outcome.Failed?
    case _ => true
  }

  /** A calm event that draws no control character. */
  predicate Quiet(s: State, e: Event) {
    Calm(s, e) && (e.Carry? ==> Plain(e.line))
  }

  predicate QuietRun(s: State, events: seq<Event>)
    decreases |events|
  {
    events == [] || (Quiet(s, events[0]) && QuietRun(Apply(s, events[0]), events[1..]))
  }

  lemma {:induction false} RecordsSettled(requests: seq<Request>)
    requires AllRecordsSettled(requests)
    ensures AllSettled(Records(requests))
    decreases |requests|
  {
    if requests != [] {
      RecordsSettled(requests[1..]);
    }
  }

  lemma WrittenShows(p: Paper, color: bool, records: seq<string>, closing: bool, line: string)
    requires Shows(p) && Plain(line) && AllSettled(records)
    ensures Shows(WrittenPaper(p, Draw(color, p.drawn, p.last, records, closing, true, line), records, line))
  {
    hide Settled;
    var base := Feed(BLANK, Lines(p.above));
    PassShows(base, color, p.drawn, p.last, records, closing, line);
    LinesAppend(p.above, records);
    FeedAppend(BLANK, Lines(p.above), Lines(records));
    hide Draw, Feed, Lines;
  }

  lemma CarryShows(s: State, foreground: bool, line: string, outcome: Outcome)
    requires Faithful(s) && s.phase.Carrying? && foreground && Plain(line) && !outcome.Failed?
    ensures Faithful(CarryStep(s, foreground, line, outcome))
  {
    RecordsSettled(s.phase.batch);
    WrittenShows(s.paper, s.color, Records(s.phase.batch), s.phase.closing, line);
    hide Settled, Shows, WrittenPaper, Draw, Records;
  }

  lemma DirectShows(p: Paper, text: string)
    requires Shows(p) && Settled(text)
    ensures var q := p.(screen := Feed(p.screen, text + "\n"), above := p.above + [text]);
            Shows(q) <==> !p.drawn || p.last == ""
  {
    var base := Feed(BLANK, Lines(p.above));
    var up := p.drawn && p.last != "";
    FeedRecord(base, text);
    FeedRecord(p.screen, text);
    LinesAppend(p.above, [text]);
    assert Lines([text]) == text + "\n" + Lines([][..]) == text + "\n" by { assert [text][1..] == []; }
    FeedAppend(BLANK, Lines(p.above), text + "\n");
    assert !up ==> p.screen == base;
    hide Feed, Lines;
  }

  /** A caller that writes its own text keeps the screen faithful exactly when no line is up, or an empty one. */
  lemma DirectWriteIsFaithfulIff(s: State, i: nat)
    requires Faithful(s) && i < |s.refused|
    ensures Faithful(Apply(s, WriteDirect(i))) <==> !s.paper.drawn || s.paper.last == ""
  {
    DirectShows(s.paper, s.refused[i]);
    hide Shows, Settled;
  }

  lemma StartShows(color: bool)
    ensures Faithful(Initial(color))
  {
  }

  lemma FirstTurn() returns (s: State)
    ensures s == Run(Initial(false), [Start, GetNothing, Get, Decide])
    ensures Faithful(s) && s.phase == Carrying([], false) && s.refused == [] && s.book.queue == []
    ensures s.started && !s.closed && !s.paper.drawn
  {
    hide Feed;
    var s0 := Initial(false);
    var s1 := Apply(s0, Start);
    var s2 := Apply(s1, GetNothing);
    var s3 := Apply(s2, Get);
    s := Apply(s3, Decide);
    StartShows(false);
    assert s == s0.(started := true, phase := Carrying([], false));
    assert Faithful(s) by { hide Shows; }
    hide Apply, Faithful;
    RunIs(s0, [Start, GetNothing, Get, Decide], [s0, s1, s2, s3, s]);
  }

  lemma LineGoesUp(s: State, line: string)
    requires Faithful(s) && s.phase == Carrying([], false) && Plain(line)
    ensures var t := Apply(s, Carry(true, line, Wrote));
      && Faithful(t) && t.paper.drawn && t.paper.last == line && t.phase == Reporting([], true)
      && t.refused == s.refused && t.book.queue == s.book.queue && t.started == s.started && t.closed == s.closed
  {
    CarryShows(s, true, line, Wrote);
    hide Feed, Shows;
    assert Records([]) == [];
  }

  lemma LateTextIsRefused(s: State, text: string)
    requires Faithful(s) && s.phase == Reporting([], true) && s.refused == [] && s.book.queue == []
    requires s.started && !s.closed && Settled(text)
    ensures var t := Apply(Apply(Apply(s, Report), Close), Ask(Some(text), false));
      t.refused == [text] && t.paper == s.paper && Faithful(t)
  {
    hide Feed, Shows, Settled;
  }

  /** Such a text can come: `close` is called and the writer has not erased the line yet when a log record is refused
      and written by its own caller, onto the line's row. */
  lemma LateTextMeetsTheLine()
    ensures var events := [Start, GetNothing, Get, Decide, Carry(true, "x", Wrote), Report, Close,
                           Ask(Some("late"), false)];
            var s := Run(Initial(false), events);
            && s.refused == ["late"] && s.paper.drawn && s.paper.last == "x" && Faithful(s)
            && !Faithful(Apply(s, WriteDirect(0)))
  {
    hide Feed, Run, Apply, Faithful;
    LateIsSettled();
    var early, late := [Start, GetNothing, Get, Decide],
                       [Carry(true, "x", Wrote), Report, Close, Ask(Some("late"), false)];
    var s := FirstTurn();
    LineGoesUp(s, "x");
    var up := Apply(s, Carry(true, "x", Wrote));
    LateTextIsRefused(up, "late");
    var t := Apply(Apply(Apply(up, Report), Close), Ask(Some("late"), false));
    RunIs(s, late, [s, up, Apply(up, Report), Apply(Apply(up, Report), Close), t]);
    RunAppend(Initial(false), early, late);
    assert early + late == [Start, GetNothing, Get, Decide, Carry(true, "x", Wrote), Report, Close,
                            Ask(Some("late"), false)];
    DirectWriteIsFaithfulIff(t, 0);
  }

  lemma LateIsSettled()
    ensures Settled("late") && Plain("x")
  {
    assert "late"[1..] == "ate" && "ate"[1..] == "te" && "te"[1..] == "e" && "e"[1..] == "";
  }

  lemma StepShows(s: State, e: Event)
    requires Faithful(s) && Quiet(s, e)
    ensures Faithful(Apply(s, e))
  {
    hide Shows, CarryStep, Settled;
    if Enabled(s, e) {
      match e {
        case Carry(foreground, line, outcome) => CarryShows(s, foreground, line, outcome);
        case WriteDirect(i) => DirectWriteIsFaithfulIff(s, i);
        case _ =>
      }
    }
  }

  lemma {:induction false} RunShows(s: State, events: seq<Event>)
    requires Faithful(s) && QuietRun(s, events)
    ensures Faithful(Run(s, events))
    decreases |events|
  {
    hide Apply, Faithful, Quiet;
    if events != [] {
      StepShows(s, events[0]);
      RunShows(Apply(s, events[0]), events[1..]);
    }
  }

  /** In every quiet run: with printable records, the finished rows are exactly the texts written above the line so
      far, in order, and the current row is the line last drawn if it is up, else empty. */
  lemma ScreenIsRecordsAndLine(color: bool, events: seq<Event>)
    requires QuietRun(Initial(color), events)
    ensures var p := Run(Initial(color), events).paper;
            && Shows(p)
            && p.screen.row == (if p.drawn then p.last else "")
            && (AllPlain(p.above) ==> p.screen.rows == p.above)
  {
    assert Faithful(Initial(color));
    RunShows(Initial(color), events);
    hide Run, QuietRun;
    var p := Run(Initial(color), events).paper;
    if AllPlain(p.above) {
      PlainRecordsAreRows(BLANK, p.above);
      assert [] + p.above == p.above;
    }
  }

  /** A closing pass that is written leaves the row empty. */
  lemma ClosingLeavesTheRowEmpty(s: State, line: string)
    requires Faithful(s) && s.phase.Carrying? && s.phase.closing && Plain(line)
    ensures var t := CarryStep(s, true, line, Wrote); t.paper.screen.row == "" && !t.paper.drawn
  {
    CarryShows(s, true, line, Wrote);
  }
}
