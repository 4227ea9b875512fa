/** The progress line: callers hand numbered requests to one writer thread, which draws the line and writes the
    records above it. Every section that runs under the lock, every take from the queue and every write is one
    event; threads interleave between events in any way. */
module ProgressLine {
  import opened Options
  import opened Terminal

  /** `record` is None for a plain redraw; `stop` asks the writer to erase the line and end. */
  datatype Request = Request(number: nat, record: Option<string>, stop: bool)

  /** Where the writer is in its loop. */
  datatype Phase =
    | NotRunning
    | Waiting
    | Draining(batch: seq<Request>)
    | Deciding(batch: seq<Request>)
    | Carrying(batch: seq<Request>, closing: bool)
    | Broken(batch: seq<Request>)
    | Reporting(batch: seq<Request>, goingOn: bool)
    | Stopped

  /** How carrying out a batch ends: the write is made, it fails after `sent` characters, or something raises
      before it. */
  datatype Outcome = Wrote | Failed(sent: nat) | Raised

  datatype Event =
    | Start
    | Ask(record: Option<string>, fromWriter: bool)
    | WakeUp(number: nat)
    | GiveUp(number: nat)
    | Close
    | CloseTimeout
    | WriteDirect(index: nat)
    | Get
    | GetNothing
    | Decide
    | Carry(foreground: bool, line: string, outcome: Outcome)
    | Shut
    | Report

  /** The requests: the next number, those `asked` for, those `carried` to `_carry_out`, how many are `done`, and
      the `queue` of those the writer has not taken. */
  datatype Book = Book(next: nat, asked: seq<Request>, carried: seq<Request>, done: nat, queue: seq<Request>)

  /** The writer's own `drawn` and `last`, what the terminal shows, the records `written` by the writer, and every
      text put `above` the line. */
  datatype Paper = Paper(drawn: bool, last: string, screen: Screen, written: seq<string>, above: seq<string>)

  datatype State = State(
    color: bool, started: bool, closed: bool, stalled: bool, failed: bool, phase: Phase,
    waiting: set<nat>, refused: seq<string>, book: Book, paper: Paper)

  /** What is not in a field of the object: the past, and the terminal. */
  datatype History = History(failed: bool, screen: Screen, asked: seq<Request>, carried: seq<Request>,
                             written: seq<string>, above: seq<string>)

  function Initial(color: bool): State {
    State(color, false, false, false, false, NotRunning, {}, [], Book(1, [], [], 0, []),
        Paper(false, "", BLANK, [], []))
  }

  function Records(requests: seq<Request>): seq<string> {
    if requests == [] then []
    else (match requests[0].record case None => [] case Some(r) => [r]) + Records(requests[1..])
  }

  /** Each record on a line of its own. */
  function Lines(records: seq<string>): string {
    if records == [] then "" else records[0] + "\n" + Lines(records[1..])
  }

  datatype Drawing = Drawing(text: string, drawn: bool, redrawn: bool)

  /** The one text a pass writes, whether the line is up after it, and whether the pass made a new line. */
  function Draw(color: bool, drawn: bool, last: string, records: seq<string>, closing: bool, foreground: bool,
                line: string): Drawing
  {
    var up := drawn && foreground;
    var body := if records == [] then "" else (if up then ERASE else "") + Lines(records);
    var stillUp := up && records == [];
    if closing then Drawing(body + (if stillUp then ERASE else ""), false, false)
    else if foreground then
      Drawing(body + (if !stillUp || line != last then ERASE + Dressed(color, line) else ""), true, true)
    else Drawing(body, stillUp, false)
  }

  /** The records wholly inside the first `room` characters of their lines. */
  function Whole(records: seq<string>, room: int): seq<string> {
    if records == [] || |records[0]| + 1 > room then []
    else [records[0]] + Whole(records[1..], room - |records[0]| - 1)
  }

  predicate HasStop(batch: seq<Request>) {
    exists i :: 0 <= i < |batch| && batch[i].stop
  }

  function TopNumber(done: nat, batch: seq<Request>): nat
    decreases |batch|
  {
    if batch == [] then done
    else TopNumber(if batch[0].number > done then batch[0].number else done, batch[1..])
  }

  predicate Enabled(s: State, e: Event) {
    match e
    case Start => !s.started && !s.closed
    case Ask(_, _) => true
    case WakeUp(n) => n in s.waiting && (s.book.done >= n || s.stalled)
    case GiveUp(n) => n in s.waiting && s.book.done < n && !s.stalled
    case Close => true
    case CloseTimeout => s.closed && s.started && !s.phase.Stopped?
    case WriteDirect(i) => i < |s.refused|
    case Get => (s.phase.Waiting? && s.book.queue != []) || s.phase.Draining?
    case GetNothing => s.phase.Waiting? && s.book.queue == []
    case Decide => s.phase.Deciding?
    case Carry(foreground, line, outcome) => s.phase.Carrying? && CanEnd(s, foreground, line, outcome)
    case Shut => s.phase.Broken?
    case Report => s.phase.Reporting?
  }

  /** Only a write can fail: not an empty one, and not after more than its text. */
  predicate CanEnd(s: State, foreground: bool, line: string, outcome: Outcome)
    requires s.phase.Carrying?
  {
    outcome.Failed? ==>
      var text := Pass(s, foreground, line).text;
      text != "" && outcome.sent <= |text|
  }

  /** One event; nothing happens when it cannot. */
  function Apply(s: State, e: Event): State {
    if !Enabled(s, e) then s
    else match e
      case Start => s.(started := true, phase := Waiting)
      case Ask(record, fromWriter) => AskStep(s, record, fromWriter)
      case WakeUp(n) => s.(waiting := s.waiting - {n})
      case GiveUp(n) => s.(waiting := s.waiting - {n}, stalled := true)
      case Close => CloseStep(s)
      case CloseTimeout => s.(stalled := true)
      case WriteDirect(i) => DirectStep(s, i)
      case Get => GetStep(s)
      case GetNothing => s.(phase := Draining([]))
      case Decide => s.(phase := Carrying(s.phase.batch, s.closed || HasStop(s.phase.batch)))
      case Carry(foreground, line, outcome) => CarryStep(s, foreground, line, outcome)
      case Shut => s.(closed := true, phase := Reporting(s.phase.batch, false))
      case Report => s.(stalled := false, phase := if s.phase.goingOn then Waiting else Stopped,
                        book := s.book.(done := TopNumber(s.book.done, s.phase.batch)))
  }

  function Enqueue(b: Book, record: Option<string>, stop: bool): Book {
    var request := Request(b.next, record, stop);
    b.(next := b.next + 1, queue := b.queue + [request], asked := b.asked + [request])
  }

  function AskStep(s: State, record: Option<string>, fromWriter: bool): State {
    if !s.started || s.closed then
      match record case None => s case Some(r) => s.(refused := s.refused + [r])
    else
      s.(book := Enqueue(s.book, record, false),
         waiting := if s.stalled || fromWriter then s.waiting else s.waiting + {s.book.next})
  }

  function CloseStep(s: State): State {
    if s.closed then s else s.(closed := true, book := Enqueue(s.book, None, true))
  }

  /** A text no writer was there to take is written by its own caller. */
  function DirectStep(s: State, i: nat): State
    requires i < |s.refused|
  {
    var p := s.paper;
    s.(paper := p.(screen := Feed(p.screen, s.refused[i] + "\n"), above := p.above + [s.refused[i]]),
       refused := s.refused[..i] + s.refused[i + 1..])
  }

  function GetStep(s: State): State
    requires Enabled(s, Get)
  {
    var q := s.book.queue;
    if q == [] then s.(phase := Deciding(s.phase.batch))
    else s.(book := s.book.(queue := q[1..]),
            phase := Draining((if s.phase.Waiting? then [] else s.phase.batch) + [q[0]]))
  }

  function Pass(s: State, foreground: bool, line: string): Drawing
    requires s.phase.Carrying?
  {
    Draw(s.color, s.paper.drawn, s.paper.last, Records(s.phase.batch), s.phase.closing, foreground, line)
  }

  function CarryStep(s: State, foreground: bool, line: string, outcome: Outcome): State
    requires s.phase.Carrying?
  {
    var batch := s.phase.batch;
    var d := Pass(s, foreground, line);
    var t := s.(book := s.book.(carried := s.book.carried + batch));
    match outcome
    case Wrote =>
      t.(paper := WrittenPaper(s.paper, d, Records(batch), line), phase := Reporting(batch, !s.phase.closing))
    case Failed(sent) =>
      t.(paper := FailedPaper(s.paper, Cut(d.text, sent), Arrived(s.paper.drawn && foreground, Records(batch), sent)),
         failed := true, phase := Broken(batch))
    case Raised => t.(failed := true, phase := Broken(batch))
  }

  function Cut(text: string, n: nat): string {
    if n < |text| then text[..n] else text
  }

  /** The records wholly in the first `sent` characters of a pass that starts with an erase when `up`. */
  function Arrived(up: bool, records: seq<string>, sent: nat): seq<string> {
    Whole(records, if up then sent - |ERASE| else sent)
  }

  function WrittenPaper(p: Paper, d: Drawing, records: seq<string>, line: string): Paper {
    Paper(d.drawn, if d.redrawn then line else p.last, Feed(p.screen, d.text), p.written + records, p.above + records)
  }

  /** Only `sent` arrived, and `whole` are the records wholly in it. */
  function FailedPaper(p: Paper, sent: string, whole: seq<string>): Paper {
    Paper(false, p.last, Feed(p.screen, sent), p.written + whole, p.above + whole)
  }

  function Run(s: State, events: seq<Event>): State
    decreases |events|
  {
    if events == [] then s else Run(Apply(s, events[0]), events[1..])
  }

  /** The object, one method for each section that runs whole. `phase` stands for the writer's place in its loop
      and the local variables it holds there. */
  class Display {
    const color: bool
    var started: bool
    var closed: bool
    var stalled: bool
    var done: nat
    var next: nat
    var requests: seq<Request>
    var phase: Phase
    var drawn: bool
    var last: string
    var waiting: set<nat>
    var refused: seq<string>
    ghost var history: History

    ghost function View(): State
      reads this
    {
      var h := history;
      State(color, started, closed, stalled, h.failed, phase, waiting, refused,
            Book(next, h.asked, h.carried, done, requests), Paper(drawn, last, h.screen, h.written, h.above))
    }

    constructor (color: bool)
      ensures View() == Initial(color)
    {
      this.color := color;
      started, closed, stalled, done, next := false, false, false, 0, 1;
      requests, phase, drawn, last := [], NotRunning, false, "";
      waiting, refused := {}, [];
      history := History(false, BLANK, [], [], [], []);
    }

    method StartSection() returns (launched: bool)
      modifies this
      ensures View() == Apply(old(View()), Start)
      ensures launched <==> !old(started) && !old(closed)
    {
      if started || closed { return false; }
      started, phase := true, Waiting;
      launched := true;
    }

    /** The locked section of `_ask`: whether a writer took the request, and whether the caller waits for it. A
        refused record is left for its caller to write. */
    method AskSection(record: Option<string>, fromWriter: bool) returns (taken: bool, waits: bool)
      modifies this
      ensures View() == Apply(old(View()), Ask(record, fromWriter))
      ensures taken <==> old(started) && !old(closed)
      ensures waits <==> taken && !old(stalled) && !fromWriter
    {
      if !started || closed {
        if record.Some? { refused := refused + [record.value]; }
        return false, false;
      }
      var number := next;
      next := next + 1;
      requests := requests + [Request(number, record, false)];
      history := history.(asked := history.asked + [Request(number, record, false)]);
      if stalled || fromWriter { return true, false; }
      waiting := waiting + {number};
      return true, true;
    }

    /** One turn of a waiting caller, who holds the lock again: it leaves when its request is done or writes are
        stalled, and when its time is up it marks them stalled. */
    method WaitSection(number: nat, timeUp: bool) returns (leaves: bool)
      requires number in waiting
      modifies this
      ensures View() == if timeUp && old(done) < number && !old(stalled)
                        then Apply(old(View()), GiveUp(number)) else Apply(old(View()), WakeUp(number))
      ensures leaves <==> number !in waiting
      ensures leaves <==> timeUp || old(done) >= number || old(stalled)
    {
      if done < number && !stalled {
        if !timeUp { return false; }
        stalled := true;
      }
      waiting := waiting - {number};
      return true;
    }

    method CloseSection()
      modifies this
      ensures View() == Apply(old(View()), Close)
    {
      if !closed {
        closed := true;
        requests := requests + [Request(next, None, true)];
        history := history.(asked := history.asked + [Request(next, None, true)]);
        next := next + 1;
      }
    }

    method WriteDirectly(i: nat)
      requires i < |refused|
      modifies this
      ensures View() == Apply(old(View()), WriteDirect(i))
    {
      history := history.(screen := Feed(history.screen, refused[i] + "\n"), above := history.above + [refused[i]]);
      refused := refused[..i] + refused[i + 1..];
    }

    /** One take from the queue: the first request of a batch, a further one, or the end of the batch. */
    method GetSection()
      requires phase.Waiting? || phase.Draining?
      modifies this
      ensures View() == Apply(old(View()), if old(phase.Waiting? && requests == []) then GetNothing else Get)
    {
      var batch := if phase.Waiting? then [] else phase.batch;
      if requests != [] {
        batch := batch + [requests[0]];
        requests := requests[1..];
        phase := Draining(batch);
      } else if phase.Waiting? {
        phase := Draining([]);
      } else {
        phase := Deciding(batch);
      }
    }

    method DecideSection() returns (closing: bool)
      requires phase.Deciding?
      modifies this
      ensures View() == Apply(old(View()), Decide)
      ensures closing <==> old(closed) || HasStop(old(phase.batch))
    {
      closing := closed;
      for i := 0 to |phase.batch|
        invariant unchanged(this)
        invariant closing <==> closed || HasStop(phase.batch[..i])
      {
        assert phase.batch[..i + 1] == phase.batch[..i] + [phase.batch[i]];
        assert HasStop(phase.batch[..i]) ==> HasStop(phase.batch[..i + 1]) by {
          assert forall k | 0 <= k < i :: phase.batch[..i + 1][k] == phase.batch[..i][k];
        }
        assert phase.batch[i].stop ==> HasStop(phase.batch[..i + 1]) by {
          assert phase.batch[..i + 1][i] == phase.batch[i];
        }
        if phase.batch[i].stop { closing := true; }
      }
      assert phase.batch[..|phase.batch|] == phase.batch;
      phase := Carrying(phase.batch, closing);
    }

    /** The text of one pass, put together in the order the writer does. */
    method ComposeText(records: seq<string>, closing: bool, foreground: bool, line: string)
      returns (text: string, up: bool, redrawn: bool)
      ensures Drawing(text, up, redrawn) == Draw(color, drawn, last, records, closing, foreground, line)
    {
      hide Lines, Dressed;
      text, up, redrawn := "", drawn && foreground, false;
      if records != [] {
        if up {
          text := text + ERASE;
          up := false;
        }
        text := text + Lines(records);
      }
      if closing {
        if up {
          text := text + ERASE;
          up := false;
        }
      } else if foreground {
        redrawn := true;
        if !up || line != last {
          text := text + (ERASE + Dressed(color, line));
        }
        up := true;
      }
    }

    /** `_carry_out`: `line` is what `format_line` gives, `outcome` what the stream does with the write. */
    method CarryOut(foreground: bool, line: string, outcome: Outcome)
      requires phase.Carrying?
      modifies this
      ensures View() == CarryStep(old(View()), foreground, line, outcome)
    {
      hide Feed, Draw, Records, Whole, WrittenPaper, FailedPaper, Arrived, Cut;
      var batch := phase.batch;
      var records := Records(batch);
      history := history.(carried := history.carried + batch, failed := history.failed || !outcome.Wrote?);
      if outcome.Raised? {
        phase := Broken(batch);
        return;
      }
      var text, up, redrawn := ComposeText(records, phase.closing, foreground, line);
      if outcome.Failed? {
        Fail(Cut(text, outcome.sent), Arrived(drawn && foreground, records, outcome.sent));
        phase := Broken(batch);
      } else {
        Finish(Drawing(text, up, redrawn), records, line);
        phase := Reporting(batch, !phase.closing);
      }
    }

    method Fail(sent: string, ghost whole: seq<string>)
      modifies this`history, this`drawn
      ensures View() == old(View()).(paper := FailedPaper(old(View()).paper, sent, whole))
    {
      history := history.(screen := Feed(history.screen, sent), written := history.written + whole,
                          above := history.above + whole);
      drawn := false;
    }

    method Finish(d: Drawing, records: seq<string>, line: string)
      modifies this`history, this`drawn, this`last
      ensures View() == old(View()).(paper := WrittenPaper(old(View()).paper, d, records, line))
    {
      history := history.(screen := Feed(history.screen, d.text), written := history.written + records,
                          above := history.above + records);
      drawn := d.drawn;
      if d.redrawn { last := line; }
    }

    /** The locked section after a failure. */
    method ShutSection()
      requires phase.Broken?
      modifies this
      ensures View() == Apply(old(View()), Shut)
    {
      closed := true;
      phase := Reporting(phase.batch, false);
    }

    /** The locked section that wakes the callers. */
    method ReportSection()
      requires phase.Reporting?
      modifies this
      ensures View() == Apply(old(View()), Report)
    {
      var top, i := done, 0;
      while i < |phase.batch|
        invariant i <= |phase.batch|
        invariant unchanged(this)
        invariant TopNumber(done, phase.batch) == TopNumber(top, phase.batch[i..])
      {
        if phase.batch[i].number > top { top := phase.batch[i].number; }
        i := i + 1;
      }
      done, stalled := top, false;
      phase := if phase.goingOn then Waiting else Stopped;
    }
  }
}
