/** What every run of the progress line keeps, whatever the interleaving of callers, `close` and the writer. */
module ProgressRuns {
  import opened Options
  import opened ProgressLine
  import opened Terminal

  // ----- The order of requests and records -----

  /** The batch the writer holds and has not yet handed to `_carry_out`. */
  function InHand(phase: Phase): seq<Request> {
    match phase
    case Draining(b) => b
    case Deciding(b) => b
    case Carrying(b, _) => b
    case _ => []
  }

  /** The batch handed to `_carry_out` and not yet reported as done. */
  function Unreported(phase: Phase): seq<Request> {
    match phase
    case Broken(b) => b
    case Reporting(b, _) => b
    case _ => []
  }

  predicate Ending(phase: Phase) {
    phase.Stopped? || phase.Broken? || (phase.Reporting? && !phase.goingOn)
  }

  predicate Numbered(requests: seq<Request>, first: nat) {
    forall i | 0 <= i < |requests| :: requests[i].number == first + i
  }

  predicate Counted(b: Book, phase: Phase) {
    && Numbered(b.asked, 1)
    && b.next == |b.asked| + 1
    && b.asked == b.carried + (InHand(phase) + b.queue)
    && b.done <= |b.carried| && |Unreported(phase)| == |b.carried| - b.done
    && forall i | 0 <= i < |Unreported(phase)| :: Unreported(phase)[i] == b.carried[b.done + i]
  }

  /** A stop is asked for once, by the `close` that closes, after which nothing is taken. */
  predicate StopIsLast(b: Book, closed: bool, failed: bool) {
    && (forall i | 0 <= i < |b.asked| :: b.asked[i].stop ==> i == |b.asked| - 1 && closed)
    && (closed && !failed ==> b.asked != [] && b.asked[|b.asked| - 1].stop)
  }

  predicate Placed(s: State) {
    && (s.phase.NotRunning? <==> !s.started)
    && (s.phase.NotRunning? ==> s.book.carried == [])
    && (s.phase.Carrying? && s.phase.closing ==> s.closed)
    && (Ending(s.phase) && !s.phase.Broken? ==> s.closed)
    && (s.phase.Broken? ==> s.failed)
    && (s.failed ==> Ending(s.phase))
  }

  predicate Delivered(carried: seq<Request>, written: seq<string>, failed: bool) {
    if failed then written <= Records(carried) else written == Records(carried)
  }

  predicate WaitersKnown(s: State) {
    forall n <- s.waiting :: 1 <= n <= |s.book.asked|
  }

  predicate Ordered(s: State) {
    && Counted(s.book, s.phase)
    && Placed(s)
    && StopIsLast(s.book, s.closed, s.failed)
    && Delivered(s.book.carried, s.paper.written, s.failed)
    && WaitersKnown(s)
  }

  lemma {:induction false} RecordsAppend(a: seq<Request>, b: seq<Request>)
    ensures Records(a + b) == Records(a) + Records(b)
    decreases |a|
  {
    if a == [] {
      assert a + b == b;
    } else {
      assert (a + b)[1..] == a[1..] + b;
      RecordsAppend(a[1..], b);
    }
  }

  lemma {:induction false} WholeIsPrefix(records: seq<string>, room: int)
    ensures Whole(records, room) <= records
    decreases |records|
  {
    if records != [] && |records[0]| + 1 <= room {
      WholeIsPrefix(records[1..], room - |records[0]| - 1);
      assert records == [records[0]] + records[1..];
    }
  }

  lemma {:induction false} TopOfBatch(done: nat, batch: seq<Request>)
    requires Numbered(batch, done + 1)
    ensures TopNumber(done, batch) == done + |batch|
    decreases |batch|
  {
    if batch != [] {
      assert Numbered(batch[1..], done + 2) by {
        forall i | 0 <= i < |batch[1..]| ensures batch[1..][i].number == done + 2 + i {
          assert batch[1..][i] == batch[i + 1];
        }
      }
      TopOfBatch(done + 1, batch[1..]);
    }
  }

  lemma EnqueueKeepsCount(b: Book, phase: Phase, record: Option<string>, stop: bool)
    requires Counted(b, phase)
    ensures Counted(Enqueue(b, record, stop), phase)
  {
    var c := Enqueue(b, record, stop);
    assert b.carried + (InHand(phase) + c.queue) == b.carried + (InHand(phase) + b.queue) + [c.asked[|b.asked|]];
  }

  lemma AskKeepsOrder(s: State, record: Option<string>, fromWriter: bool)
    requires Ordered(s)
    ensures Ordered(AskStep(s, record, fromWriter))
  {
    EnqueueKeepsCount(s.book, s.phase, record, false);
    hide Counted, Records;
  }

  lemma CloseKeepsOrder(s: State)
    requires Ordered(s)
    ensures Ordered(CloseStep(s))
  {
    hide Counted, Records;
    if !s.closed {
      EnqueueKeepsCount(s.book, s.phase, None, true);
      var b, c := s.book, Enqueue(s.book, None, true);
      assert forall i | 0 <= i < |c.asked| - 1 :: c.asked[i] == b.asked[i];
      assert StopIsLast(c, true, s.failed);
      hide StopIsLast;
    }
  }

  /** Moving requests from the queue to the writer's hand. */
  lemma MoveKeepsOrder(s: State, queue: seq<Request>, phase: Phase)
    requires Ordered(s) && (s.phase.Waiting? || s.phase.Draining?) && (phase.Draining? || phase.Deciding?)
    requires phase.batch + queue == InHand(s.phase) + s.book.queue
    ensures Ordered(s.(book := s.book.(queue := queue), phase := phase))
  {
    hide Records;
  }

  lemma GetKeepsOrder(s: State)
    requires Ordered(s) && Enabled(s, Get)
    ensures Ordered(GetStep(s))
  {
    hide Ordered;
    var q := s.book.queue;
    if q == [] {
      MoveKeepsOrder(s, q, Deciding(s.phase.batch));
    } else {
      assert q == [q[0]] + q[1..];
      var batch := InHand(s.phase) + [q[0]];
      assert batch + q[1..] == InHand(s.phase) + q;
      MoveKeepsOrder(s, q[1..], Draining(batch));
      assert s.phase.Waiting? ==> [] + [q[0]] == batch;
    }
  }

  lemma PaperDelivers(carried: seq<Request>, batch: seq<Request>, p: Paper, up: bool, sent: nat)
    requires p.written == Records(carried)
    ensures Delivered(carried + batch, p.written + Records(batch), false)
    ensures Delivered(carried + batch, p.written + Arrived(up, Records(batch), sent), true)
    ensures Delivered(carried + batch, p.written, true)
  {
    RecordsAppend(carried, batch);
    WholeIsPrefix(Records(batch), if up then sent - |ERASE| else sent);
  }

  lemma CarryDelivers(s: State, foreground: bool, line: string, outcome: Outcome)
    requires s.phase.Carrying? && s.paper.written == Records(s.book.carried)
    ensures var t := CarryStep(s, foreground, line, outcome);
            Delivered(t.book.carried, t.paper.written, !outcome.Wrote?)
  {
    hide Pass, Arrived, Delivered, Cut, Feed, Records;
    match outcome
    case Failed(sent) => PaperDelivers(s.book.carried, s.phase.batch, s.paper, s.paper.drawn && foreground, sent);
    case _ => PaperDelivers(s.book.carried, s.phase.batch, s.paper, false, 0);
  }

  lemma CarryKeepsCount(b: Book, batch: seq<Request>, closing: bool, phase: Phase)
    requires Counted(b, Carrying(batch, closing))
    requires phase == Broken(batch) || exists goingOn :: phase == Reporting(batch, goingOn)
    ensures Counted(b.(carried := b.carried + batch), phase)
  {
    assert b.carried + (batch + b.queue) == (b.carried + batch) + ([] + b.queue);
    assert b.done == |b.carried|;
    forall i | 0 <= i < |batch| ensures (b.carried + batch)[b.done + i] == batch[i] {}
    hide Numbered;
  }

  lemma CarryKeepsOrder(s: State, foreground: bool, line: string, outcome: Outcome)
    requires Ordered(s) && s.phase.Carrying?
    ensures Ordered(CarryStep(s, foreground, line, outcome))
  {
    hide Pass, WrittenPaper, FailedPaper, Records, Counted;
    CarryDelivers(s, foreground, line, outcome);
    var t := CarryStep(s, foreground, line, outcome);
    CarryKeepsCount(s.book, s.phase.batch, s.phase.closing, t.phase);
  }

  lemma ReportKeepsOrder(s: State)
    requires Ordered(s) && s.phase.Reporting?
    ensures Ordered(Apply(s, Report))
    ensures Apply(s, Report).book.done == |s.book.carried|
  {
    var batch, b := s.phase.batch, s.book;
    assert Numbered(batch, b.done + 1) by {
      forall i | 0 <= i < |batch| ensures batch[i].number == b.done + 1 + i {
        assert batch[i] == b.carried[b.done + i] == b.asked[b.done + i];
      }
    }
    TopOfBatch(b.done, batch);
    hide Records, TopNumber;
  }

  lemma DecideKeepsOrder(s: State)
    requires Ordered(s) && s.phase.Deciding?
    ensures Ordered(Apply(s, Decide))
  {
    hide Records;
    var batch := s.phase.batch;
    if HasStop(batch) {
      var i :| 0 <= i < |batch| && batch[i].stop;
      assert s.book.asked[|s.book.carried| + i] == batch[i];
    }
  }

  lemma SameHandsCount(b: Book, before: Phase, after: Phase)
    requires Counted(b, before)
    requires InHand(before) == InHand(after) && Unreported(before) == Unreported(after)
    ensures Counted(b, after)
  {
  }

  lemma PhasesKeepOrder(s: State, e: Event)
    requires Ordered(s) && Enabled(s, e) && (e.Start? || e.GetNothing?)
    ensures Ordered(Apply(s, e))
  {
    hide Records, Counted, Delivered, StopIsLast, WaitersKnown;
    SameHandsCount(s.book, s.phase, Apply(s, e).phase);
    WaitersDepend(s, Apply(s, e));
  }

  lemma WaitersDepend(s: State, t: State)
    requires WaitersKnown(s) && s.waiting == t.waiting && s.book == t.book
    ensures WaitersKnown(t)
  {
  }

  lemma ShutKeepsStops(b: Book, closed: bool)
    requires StopIsLast(b, closed, true)
    ensures StopIsLast(b, true, true)
  {
  }

  lemma ShutKeepsOrder(s: State)
    requires Ordered(s) && s.phase.Broken?
    ensures Ordered(Apply(s, Shut))
  {
    hide Records, Counted, Delivered, StopIsLast, WaitersKnown;
    SameHandsCount(s.book, s.phase, Apply(s, Shut).phase);
    WaitersDepend(s, Apply(s, Shut));
    ShutKeepsStops(s.book, s.closed);
  }

  lemma WaitsKeepOrder(s: State, e: Event)
    requires Ordered(s) && Enabled(s, e) && (e.WakeUp? || e.GiveUp? || e.CloseTimeout? || e.WriteDirect?)
    ensures Ordered(Apply(s, e))
  {
    hide Records, Feed, Counted, StopIsLast, Delivered;
  }

  lemma StepKeepsOrder(s: State, e: Event)
    requires Ordered(s)
    ensures Ordered(Apply(s, e))
  {
    hide Ordered, AskStep, CloseStep, GetStep, CarryStep, DirectStep;
    if Enabled(s, e) {
      match e {
        case Ask(record, fromWriter) => AskKeepsOrder(s, record, fromWriter);
        case Close => CloseKeepsOrder(s);
        case Get => GetKeepsOrder(s);
        case Decide => DecideKeepsOrder(s);
        case Carry(foreground, line, outcome) => CarryKeepsOrder(s, foreground, line, outcome);
        case Report => ReportKeepsOrder(s);
        case Start => PhasesKeepOrder(s, e);
        case GetNothing => PhasesKeepOrder(s, e);
        case Shut => ShutKeepsOrder(s);
        case _ => WaitsKeepOrder(s, e);
      }
    }
  }

  lemma {:induction false} RunKeepsOrder(s: State, events: seq<Event>)
    requires Ordered(s)
    ensures Ordered(Run(s, events))
    decreases |events|
  {
    hide Apply, Ordered;
    if events != [] {
      StepKeepsOrder(s, events[0]);
      RunKeepsOrder(Apply(s, events[0]), events[1..]);
    }
  }

  lemma EveryRunIsOrdered(color: bool, events: seq<Event>)
    ensures Ordered(Run(Initial(color), events))
  {
    RunKeepsOrder(Initial(color), events);
  }

  /** In every run: what the writer has written is a prefix of the records its callers handed over, in the order
      of their numbers; what is reported done was handed to `_carry_out` before. */
  lemma RecordsComeInOrder(color: bool, events: seq<Event>)
    ensures var s := Run(Initial(color), events);
            && s.paper.written <= Records(s.book.asked)
            && Numbered(s.book.asked, 1)
            && s.book.carried <= s.book.asked
            && s.book.done <= |s.book.carried|
  {
    EveryRunIsOrdered(color, events);
    var s := Run(Initial(color), events);
    RecordsAppend(s.book.carried, InHand(s.phase) + s.book.queue);
    hide Run, Records;
  }

  /** No step takes anything back. */
  predicate Grows(s: State, t: State) {
    && s.book.done <= t.book.done
    && s.book.asked <= t.book.asked
    && s.book.carried <= t.book.carried
    && s.paper.written <= t.paper.written
    && s.paper.above <= t.paper.above
  }

  lemma CarryGrows(s: State, foreground: bool, line: string, outcome: Outcome)
    requires s.phase.Carrying?
    ensures Grows(s, CarryStep(s, foreground, line, outcome))
  {
    hide Pass, Feed, Records, Arrived, Cut;
  }

  lemma StepGrows(s: State, e: Event)
    requires Ordered(s)
    ensures Grows(s, Apply(s, e))
  {
    hide Ordered, CarryStep, Feed, Records, TopNumber;
    if Enabled(s, e) && e.Report? {
      ReportKeepsOrder(s);
      DoneIsCounted(s);
    } else if Enabled(s, e) && e.Carry? {
      CarryGrows(s, e.foreground, e.line, e.outcome);
    } else {
      var t := Apply(s, e);
      assert t.book.done == s.book.done && t.book.carried == s.book.carried && t.paper.written == s.paper.written;
    }
  }

  lemma DoneIsCounted(s: State)
    requires Ordered(s)
    ensures s.book.done <= |s.book.carried|
  {
    hide Records;
  }

  lemma {:induction false} RunGrows(s: State, events: seq<Event>)
    requires Ordered(s)
    ensures Grows(s, Run(s, events))
    decreases |events|
  {
    hide Apply, Ordered;
    if events != [] {
      StepGrows(s, events[0]);
      StepKeepsOrder(s, events[0]);
      RunGrows(Apply(s, events[0]), events[1..]);
    }
  }

  // ----- What a caller that waited may rely on -----

  /** A caller woken while no write is known to wait: the writer handed its request, and every earlier one, to
      `_carry_out`, and unless a pass failed every record up to its own is written. */
  lemma WokenCallerIsServed(color: bool, events: seq<Event>, number: nat)
    requires var s := Run(Initial(color), events); Enabled(s, WakeUp(number)) && !s.stalled
    ensures var s := Run(Initial(color), events);
            && 1 <= number <= |s.book.carried| <= |s.book.asked|
            && s.book.carried[number - 1] == s.book.asked[number - 1]
            && s.book.carried[number - 1].number == number
            && (!s.failed ==> Records(s.book.asked[..number]) <= s.paper.written)
  {
    EveryRunIsOrdered(color, events);
    var s := Run(Initial(color), events);
    hide Run, Records;
    var b := s.book;
    assert b.asked[..number] == b.carried[..number];
    RecordsAppend(b.carried[..number], b.carried[number..]);
    assert b.carried == b.carried[..number] + b.carried[number..];
  }

  // ----- Delivery at the end -----

  /** When the writer ends without a failure, the records not written are exactly those still queued. */
  lemma LostAreQueued(color: bool, events: seq<Event>)
    requires var s := Run(Initial(color), events); s.phase.Stopped? && !s.failed
    ensures var s := Run(Initial(color), events);
            && Records(s.book.asked) == s.paper.written + Records(s.book.queue)
            && (s.paper.written == Records(s.book.asked) <==> Records(s.book.queue) == [])
  {
    EveryRunIsOrdered(color, events);
    var s := Run(Initial(color), events);
    hide Run;
    assert s.book.asked == s.book.carried + s.book.queue;
    RecordsAppend(s.book.carried, s.book.queue);
  }

  /** Once the closing test has said to close, no request enters or leaves the queue. */
  predicate Closing(s: State) {
    s.closed && (Ending(s.phase) || (s.phase.Carrying? && s.phase.closing))
  }

  /** A pass leaves the queue and what was asked for, and hands the writer on. */
  lemma PassMovesOn(s: State, foreground: bool, line: string, outcome: Outcome)
    requires s.phase.Carrying?
    ensures var t := CarryStep(s, foreground, line, outcome);
      && t.book.queue == s.book.queue && t.book.asked == s.book.asked
      && t.closed == s.closed && t.started == s.started
      && (t.phase.Broken? || t.phase == Reporting(s.phase.batch, !s.phase.closing))
  {
    hide Pass, WrittenPaper, FailedPaper, Records;
  }

  lemma StepIsFrozen(s: State, e: Event)
    requires Closing(s)
    ensures Apply(s, e).book.queue == s.book.queue && Apply(s, e).book.asked == s.book.asked && Closing(Apply(s, e))
  {
    if e.Carry? && s.phase.Carrying? { PassMovesOn(s, e.foreground, e.line, e.outcome); }
    hide Feed, CarryStep, TopNumber, CanEnd, HasStop;
  }

  lemma {:induction false} QueueIsFrozen(s: State, events: seq<Event>)
    requires Closing(s)
    ensures var t := Run(s, events); t.book.queue == s.book.queue && t.book.asked == s.book.asked && Closing(t)
    decreases |events|
  {
    hide Apply;
    if events != [] {
      StepIsFrozen(s, events[0]);
      QueueIsFrozen(Apply(s, events[0]), events[1..]);
    }
  }

  lemma {:induction false} RunAppend(s: State, a: seq<Event>, b: seq<Event>)
    ensures Run(s, a + b) == Run(Run(s, a), b)
    decreases |a|
  {
    hide Apply;
    if a == [] {
      assert a + b == b;
    } else {
      assert (a + b)[1..] == a[1..] + b;
      RunAppend(Apply(s, a[0]), a[1..], b);
    }
  }

  /** Along every run, from any point of it, nothing that was asked, carried, written or reported done is taken back. */
  lemma EveryRunGrows(color: bool, events: seq<Event>, later: seq<Event>)
    ensures Grows(Run(Initial(color), events), Run(Initial(color), events + later))
  {
    hide Run, Grows, Ordered;
    RunAppend(Initial(color), events, later);
    EveryRunIsOrdered(color, events);
    RunGrows(Run(Initial(color), events), later);
  }

  /** Full delivery, read off the closing test: a run that ends without a failure writes every record it accepted
      if and only if the test, when it said to close, left no record in the queue. */
  lemma DeliveryIsDecidedByTheTest(color: bool, events: seq<Event>, later: seq<Event>)
    requires var s := Run(Initial(color), events); s.phase.Carrying? && s.phase.closing
    requires var t := Run(Initial(color), events + later); t.phase.Stopped? && !t.failed
    ensures var t := Run(Initial(color), events + later);
            t.paper.written == Records(t.book.asked) <==> Records(Run(Initial(color), events).book.queue) == []
  {
    hide Run;
    RunAppend(Initial(color), events, later);
    EveryRunIsOrdered(color, events);
    QueueIsFrozen(Run(Initial(color), events), later);
    LostAreQueued(color, events + later);
  }

  /** When the batch itself holds the stop, the queue behind it is empty and nothing is lost. */
  lemma StopInTheBatchLosesNothing(color: bool, events: seq<Event>, later: seq<Event>)
    requires var s := Run(Initial(color), events); s.phase.Carrying? && HasStop(s.phase.batch)
    requires var t := Run(Initial(color), events + later); t.phase.Stopped? && !t.failed
    ensures var t := Run(Initial(color), events + later); t.paper.written == Records(t.book.asked)
  {
    hide Run;
    EveryRunIsOrdered(color, events);
    var s := Run(Initial(color), events);
    var i :| 0 <= i < |s.phase.batch| && s.phase.batch[i].stop;
    assert s.book.asked[|s.book.carried| + i] == s.phase.batch[i];
    assert s.book.queue == [];
    StopIsSeen(Initial(color), events);
    DeliveryIsDecidedByTheTest(color, events, later);
  }

  lemma StepSees(s: State, e: Event)
    requires s.phase.Carrying? && HasStop(s.phase.batch) ==> s.phase.closing
    ensures var t := Apply(s, e); t.phase.Carrying? && HasStop(t.phase.batch) ==> t.phase.closing
  {
    if e.Carry? && s.phase.Carrying? { PassMovesOn(s, e.foreground, e.line, e.outcome); }
    hide Feed, CarryStep, TopNumber, CanEnd, HasStop;
  }

  /** The closing test never misses a stop in its batch. */
  lemma {:induction false} StopIsSeen(s: State, events: seq<Event>)
    requires s.phase.Carrying? && HasStop(s.phase.batch) ==> s.phase.closing
    ensures var t := Run(s, events); t.phase.Carrying? && HasStop(t.phase.batch) ==> t.phase.closing
    decreases |events|
  {
    hide Apply;
    if events != [] {
      StepSees(s, events[0]);
      StopIsSeen(Apply(s, events[0]), events[1..]);
    }
  }

  lemma FirstBatchEnds() returns (s: State)
    ensures s == Run(Initial(false), [Start, GetNothing, Get])
    ensures s == Initial(false).(started := true, phase := Deciding([]))
  {
    hide Feed, Draw;
    var s0 := Initial(false);
    var s1 := Apply(s0, Start);
    var s2 := Apply(s1, GetNothing);
    assert s2 == s0.(started := true, phase := Draining([]));
    s := Apply(s2, Get);
    assert s == s0.(started := true, phase := Deciding([]));
    hide Apply;
    RunIs(s0, [Start, GetNothing, Get], [s0, s1, s2, s]);
  }

  lemma GapTakesARecord(s: State, record: string) returns (t: State)
    requires s.started && !s.closed && s.book == Book(1, [], [], 0, [])
    ensures t == Run(s, [Ask(Some(record), false), Close])
    ensures t.closed && t.phase == s.phase && t.failed == s.failed && t.paper == s.paper
    ensures Records(t.book.asked) == [record]
  {
    hide Feed, Draw;
    var s1 := Apply(s, Ask(Some(record), false));
    t := Apply(s1, Close);
    assert t.book.asked == [Request(1, Some(record), false), Request(2, None, true)];
    assert t.book.asked[1..] == [Request(2, None, true)] && t.book.asked[1..][1..] == [];
    assert Records(t.book.asked[1..]) == [];
    assert Records(t.book.asked) == [record];
    hide Apply, Records;
    RunIs(s, [Ask(Some(record), false), Close], [s, s1, t]);
  }

  lemma EmptyPassEnds(s: State) returns (t: State)
    requires s.closed && s.phase == Deciding([])
    ensures t == Run(s, [Decide, Carry(true, "", Wrote), Report])
    ensures t.phase.Stopped? && t.failed == s.failed
    ensures t.paper.written == s.paper.written && t.book.asked == s.book.asked
  {
    hide Feed, Draw, TopNumber;
    var s1 := Apply(s, Decide);
    assert s1.phase == Carrying([], true) && Records([]) == [];
    hide Records;
    var s2 := Apply(s1, Carry(true, "", Wrote));
    t := Apply(s2, Report);
    hide Apply;
    RunIs(s, [Decide, Carry(true, "", Wrote), Report], [s, s1, s2, t]);
  }

  /** Without that condition a record can be lost: asked for and `close` called between the end of the drain and
      the closing test. Its caller was told the writer had taken it. */
  lemma RecordLostInTheGap()
    ensures var events := [Start, GetNothing, Get, Ask(Some("lost"), false), Close, Decide,
                           Carry(true, "", Wrote), Report];
            var s := Run(Initial(false), events);
            s.phase.Stopped? && !s.failed && s.paper.written == [] && Records(s.book.asked) == ["lost"]
  {
    hide Run, Apply, Records;
    var early, gap, late := [Start, GetNothing, Get], [Ask(Some("lost"), false), Close],
                            [Decide, Carry(true, "", Wrote), Report];
    var s := FirstBatchEnds();
    var t := GapTakesARecord(s, "lost");
    var u := EmptyPassEnds(t);
    RunAppend(Initial(false), early, gap);
    RunAppend(Initial(false), early + gap, late);
    assert early + gap + late == [Start, GetNothing, Get, Ask(Some("lost"), false), Close, Decide,
                                  Carry(true, "", Wrote), Report];
  }

  lemma {:induction false} RunIs(s: State, events: seq<Event>, states: seq<State>)
    requires |states| == |events| + 1 && states[0] == s
    requires forall i | 0 <= i < |events| :: Apply(states[i], events[i]) == states[i + 1]
    ensures Run(s, events) == states[|events|]
    decreases |events|
  {
    hide Apply;
    if events != [] {
      RunIs(states[1], events[1..], states[1..]);
    }
  }
}
