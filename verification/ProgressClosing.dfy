/** How the writer ends: which records a run that ends has written, read off its events, and that it ends at all. */
module ProgressClosing {
  import opened ProgressLine
  import opened ProgressRuns
  import opened Terminal

  // ----- Which records are written -----

  /** The records a started object takes during some events: those asked for before it is closed. */
  function Accepted(closed: bool, events: seq<Event>): seq<string>
    decreases |events|
  {
    if events == [] then []
    else
      match events[0]
      case Ask(Some(record), _) => (if closed then [] else [record]) + Accepted(closed, events[1..])
      case Close => Accepted(true, events[1..])
      case _ => Accepted(closed, events[1..])
  }

  predicate NoDecide(events: seq<Event>) {
    forall i | 0 <= i < |events| :: !events[i].Decide?
  }

  lemma GapStep(s: State, e: Event)
    requires s.phase.Deciding? && s.started && !e.Decide?
    ensures var t := Apply(s, e);
            && t.phase == s.phase && t.started
            && t.closed == (s.closed || e.Close?)
            && Records(t.book.queue)
               == Records(s.book.queue) + (if e.Ask? && e.record.Some? && !s.closed then [e.record.value] else [])
  {
    var t := Apply(s, e);
    if t.book.queue != s.book.queue {
      var last := t.book.queue[|s.book.queue|];
      assert t.book.queue == s.book.queue + [last];
      RecordsAppend(s.book.queue, [last]);
      assert Records([last]) == (match last.record case None => [] case Some(r) => [r]) + Records([]);
    }
    hide Feed;
  }

  /** Between the end of a batch and the closing test the queue takes exactly the accepted records. */
  lemma {:induction false} GapTakes(s: State, mid: seq<Event>)
    requires s.phase.Deciding? && s.started && NoDecide(mid)
    ensures var t := Run(s, mid);
            t.phase == s.phase && Records(t.book.queue) == Records(s.book.queue) + Accepted(s.closed, mid)
    decreases |mid|
  {
    hide Apply, Records;
    if mid != [] {
      GapStep(s, mid[0]);
      GapTakes(Apply(s, mid[0]), mid[1..]);
    }
  }

  lemma FailedStays(s: State, e: Event)
    requires s.failed
    ensures Apply(s, e).failed
  {
    hide Feed, Pass, WrittenPaper, FailedPaper, Records;
  }

  lemma {:induction false} FailedStaysInRuns(s: State, events: seq<Event>)
    requires s.failed
    ensures Run(s, events).failed
    decreases |events|
  {
    hide Apply;
    if events != [] {
      FailedStays(s, events[0]);
      FailedStaysInRuns(Apply(s, events[0]), events[1..]);
    }
  }

  /** The run up to its last event, and that event. */
  lemma RunLast(s: State, events: seq<Event>)
    requires events != []
    ensures Run(s, events) == Apply(Run(s, events[..|events| - 1]), events[|events| - 1])
  {
    hide Apply;
    var front, last := events[..|events| - 1], events[|events| - 1];
    assert events == front + [last];
    RunAppend(s, front, [last]);
    assert [last][1..] == [];
    assert Run(Run(s, front), [last]) == Run(Apply(Run(s, front), last), []);
  }

  lemma OnlyCloseCloses(s: State, e: Event)
    requires !Apply(s, e).failed && (s.phase.Broken? ==> s.failed)
    ensures Apply(s, e).closed <==> s.closed || e.Close?
  {
    if s.failed { FailedStays(s, e); }
    hide Feed, Pass, WrittenPaper, FailedPaper, Records;
  }

  /** Without a failed pass only `close` closes. */
  lemma {:induction false} ClosedByClose(color: bool, events: seq<Event>)
    requires !Run(Initial(color), events).failed
    ensures Run(Initial(color), events).closed <==> Close in events
    decreases |events|
  {
    if events != [] {
      var front, last := events[..|events| - 1], events[|events| - 1];
      RunLast(Initial(color), events);
      var s := Run(Initial(color), front);
      if s.failed { FailedStays(s, last); }
      EveryRunIsOrdered(color, front);
      assert s.phase.Broken? ==> s.failed;
      hide Apply, Run, Ordered;
      OnlyCloseCloses(s, last);
      ClosedByClose(color, front);
      assert events == front + [last];
    }
  }

  /** The `Get` that ends a batch: the queue it finds is empty. */
  predicate EndsBatch(s: State) {
    s.phase.Draining? && s.book.queue == []
  }

  /** A run that ends without a failure has written every record it accepted if and only if no record was accepted
      between the `Get` that ended its last batch and the closing test after it. */
  lemma DeliveryIsDecidedInTheGap(color: bool, before: seq<Event>, mid: seq<Event>, after: seq<Event>)
    requires EndsBatch(Run(Initial(color), before)) && NoDecide(mid)
    requires Closing(Run(Initial(color), before + [Get] + mid + [Decide]))
    requires var t := Run(Initial(color), before + [Get] + mid + [Decide] + after); t.phase.Stopped? && !t.failed
    ensures var t := Run(Initial(color), before + [Get] + mid + [Decide] + after);
            t.paper.written == Records(t.book.asked) <==> Accepted(Close in before, mid) == []
  {
    var init := Initial(color);
    var s := Run(init, before);
    var gap := Apply(s, Get);
    var end := Run(gap, mid);
    var test := Apply(end, Decide);
    EveryRunIsOrdered(color, before);
    assert s.started;
    assert gap.phase.Deciding? && gap.started && gap.closed == s.closed && Records(gap.book.queue) == [];
    GapTakes(gap, mid);
    assert test.book.queue == end.book.queue;
    StagesOfRun(init, before, mid, after);
    LostAreQueued(color, before + [Get] + mid + [Decide] + after);
    hide Run, Apply, Ordered, Records;
    QueueIsFrozen(test, after);
    if s.failed { FailedToTheEnd(s, mid, after); }
    ClosedByClose(color, before);
  }

  lemma FailedToTheEnd(s: State, mid: seq<Event>, after: seq<Event>)
    requires s.failed
    ensures Run(Apply(Run(Apply(s, Get), mid), Decide), after).failed
  {
    hide Run, Apply;
    FailedStays(s, Get);
    FailedStaysInRuns(Apply(s, Get), mid);
    FailedStays(Run(Apply(s, Get), mid), Decide);
    FailedStaysInRuns(Apply(Run(Apply(s, Get), mid), Decide), after);
  }

  lemma StagesOfRun(s: State, before: seq<Event>, mid: seq<Event>, after: seq<Event>)
    ensures var end := Run(Apply(Run(s, before), Get), mid);
            && Run(s, before + [Get] + mid + [Decide]) == Apply(end, Decide)
            && Run(s, before + [Get] + mid + [Decide] + after) == Run(Apply(end, Decide), after)
  {
    var a := before + [Get];
    assert a[..|a| - 1] == before;
    RunLast(s, a);
    RunAppend(s, a, mid);
    var b := a + mid + [Decide];
    assert b[..|b| - 1] == a + mid;
    RunLast(s, b);
    RunAppend(s, b, after);
  }

  lemma StepIntoDeciding(s: State, e: Event)
    requires Apply(s, e).phase.Deciding?
    ensures if s.phase.Deciding? then !e.Decide? else e.Get? && EndsBatch(s)
  {
    hide Feed, Pass, WrittenPaper, FailedPaper, Records, HasStop;
  }

  /** Where the writer stands before its closing test, a batch has ended and the test has not come since. */
  lemma {:induction false} BatchHasEnded(color: bool, events: seq<Event>) returns (before: seq<Event>, mid: seq<Event>)
    requires Run(Initial(color), events).phase.Deciding?
    ensures events == before + [Get] + mid && EndsBatch(Run(Initial(color), before)) && NoDecide(mid)
    decreases |events|
  {
    assert events != [];
    var front, last := events[..|events| - 1], events[|events| - 1];
    RunLast(Initial(color), events);
    assert events == front + [last];
    var s := Run(Initial(color), front);
    hide Run, Apply, EndsBatch;
    StepIntoDeciding(s, last);
    if s.phase.Deciding? {
      before, mid := BatchHasEnded(color, front);
      mid := mid + [last];
    } else {
      before, mid := front, [];
    }
  }

  lemma ClosingComesFromDecide(s: State, e: Event)
    requires Ordered(s) && !Closing(s) && Closing(Apply(s, e)) && !Apply(s, e).failed
    ensures e.Decide? && s.phase.Deciding?
  {
    hide Feed, Pass, WrittenPaper, FailedPaper, Records, Counted, Delivered, StopIsLast, WaitersKnown;
    if s.failed { FailedStays(s, e); }
  }

  /** A run that is closing has made its closing test. */
  lemma {:induction false} TestHasCome(color: bool, events: seq<Event>) returns (before: seq<Event>, after: seq<Event>)
    requires Closing(Run(Initial(color), events)) && !Run(Initial(color), events).failed
    ensures events == before + [Decide] + after
    ensures Run(Initial(color), before).phase.Deciding? && Closing(Run(Initial(color), before + [Decide]))
    decreases |events|
  {
    assert events != [];
    var front, last := events[..|events| - 1], events[|events| - 1];
    RunLast(Initial(color), events);
    assert events == front + [last];
    var s := Run(Initial(color), front);
    hide Run, Apply, Closing;
    if Closing(s) {
      if s.failed { FailedStays(s, last); }
      before, after := TestHasCome(color, front);
      after := after + [last];
    } else {
      EveryRunIsOrdered(color, front);
      ClosingComesFromDecide(s, last);
      before, after := front, [];
      assert events == before + [Decide];
    }
  }

  /** Every run that ends without a failure has such a gap, so the condition decides every one of them. */
  lemma EveryEndHasAGap(color: bool, events: seq<Event>)
      returns (before: seq<Event>, mid: seq<Event>, after: seq<Event>)
    requires var t := Run(Initial(color), events); t.phase.Stopped? && !t.failed
    ensures events == before + [Get] + mid + [Decide] + after
    ensures EndsBatch(Run(Initial(color), before)) && NoDecide(mid)
    ensures Closing(Run(Initial(color), before + [Get] + mid + [Decide]))
    ensures var t := Run(Initial(color), events);
            t.paper.written == Records(t.book.asked) <==> Accepted(Close in before, mid) == []
  {
    EveryRunIsOrdered(color, events);
    assert Closing(Run(Initial(color), events));
    hide Run, Closing, Ordered;
    var upToTest: seq<Event>;
    upToTest, after := TestHasCome(color, events);
    before, mid := BatchHasEnded(color, upToTest);
    DeliveryIsDecidedInTheGap(color, before, mid, after);
  }

  // ----- The writer ends -----

  predicate WriterEvent(e: Event) {
    e.Get? || e.GetNothing? || e.Decide? || e.Carry? || e.Shut? || e.Report?
  }

  /** The writer's own events in a run that are not skipped. */
  function Turns(s: State, events: seq<Event>): nat
    decreases |events|
  {
    if events == [] then 0
    else (if WriterEvent(events[0]) && Enabled(s, events[0]) then 1 else 0) + Turns(Apply(s, events[0]), events[1..])
  }

  /** A closed object whose writer is going on has the stop still in its queue. */
  predicate StopIsAhead(s: State) {
    && s.closed && !s.phase.NotRunning?
    && (s.phase.Waiting? || (s.phase.Carrying? && !s.phase.closing) || (s.phase.Reporting? && s.phase.goingOn) ==>
          s.book.queue != [])
  }

  /** The most turns the writer of a closed object can still take. */
  function Left(s: State): nat {
    var waiting := |s.book.queue|;
    match s.phase
    case Carrying(_, closing) => if closing then 3 else waiting + 7
    case Reporting(_, goingOn) => if goingOn then waiting + 6 else 1
    case Waiting => waiting + 5
    case Draining(_) => waiting + 5
    case Deciding(_) => 4
    case Broken(_) => 2
    case _ => 0
  }

  lemma StopComesAhead(s: State, e: Event)
    requires s.closed && !s.phase.NotRunning? ==> StopIsAhead(s)
    requires s.phase.NotRunning? <==> !s.started
    ensures var t := Apply(s, e); t.closed && !t.phase.NotRunning? ==> StopIsAhead(t)
  {
    if e.Carry? && s.phase.Carrying? { PassMovesOn(s, e.foreground, e.line, e.outcome); }
    hide CarryStep, CanEnd, HasStop, Feed, TopNumber;
  }

  lemma {:induction false} ClosedRunHasItsStopAhead(color: bool, events: seq<Event>)
    requires var s := Run(Initial(color), events); s.closed && s.started
    ensures StopIsAhead(Run(Initial(color), events))
    decreases |events|
  {
    EveryRunIsOrdered(color, events);
    if events != [] {
      var front, last := events[..|events| - 1], events[|events| - 1];
      RunLast(Initial(color), events);
      var s := Run(Initial(color), front);
      EveryRunIsOrdered(color, front);
      if s.closed && s.started { ClosedRunHasItsStopAhead(color, front); }
      hide Run, Apply;
      StopComesAhead(s, last);
    }
  }

  lemma OthersLeaveTurns(s: State, e: Event)
    requires StopIsAhead(s) && !WriterEvent(e)
    ensures var t := Apply(s, e); StopIsAhead(t) && Left(t) == Left(s)
  {
    hide Feed, Records, HasStop;
  }

  lemma TurnIsTaken(s: State, e: Event)
    requires StopIsAhead(s) && WriterEvent(e)
    ensures var t := Apply(s, e);
            StopIsAhead(t) && Left(t) + (if Enabled(s, e) then 1 else 0) <= Left(s)
  {
    if e.Carry? && s.phase.Carrying? { PassMovesOn(s, e.foreground, e.line, e.outcome); }
    hide Records, HasStop, TopNumber, CanEnd, CarryStep;
  }

  lemma {:induction false} TurnsAreUsedUp(s: State, events: seq<Event>)
    requires StopIsAhead(s)
    ensures Turns(s, events) + Left(Run(s, events)) <= Left(s)
    ensures StopIsAhead(Run(s, events))
    decreases |events|
  {
    hide Apply, Enabled, StopIsAhead, Left;
    if events != [] {
      if WriterEvent(events[0]) { TurnIsTaken(s, events[0]); } else { OthersLeaveTurns(s, events[0]); }
      TurnsAreUsedUp(Apply(s, events[0]), events[1..]);
    }
  }

  /** Wherever a run has closed the object, every run from there gives the writer at most so many turns more; none is
      left exactly when the writer has ended. */
  lemma TurnsAreBounded(color: bool, before: seq<Event>, events: seq<Event>)
    requires var s := Run(Initial(color), before); s.closed && s.started
    ensures var s := Run(Initial(color), before);
            && Turns(s, events) + Left(Run(s, events)) <= Left(s) <= |s.book.queue| + 7
            && (Left(Run(s, events)) == 0 <==> Run(s, events).phase.Stopped?)
  {
    ClosedRunHasItsStopAhead(color, before);
    hide Run, Turns;
    TurnsAreUsedUp(Run(Initial(color), before), events);
  }

  lemma LongestPass(s: State)
    requires StopIsAhead(s) && s.phase.Carrying?
    ensures var t := CarryStep(s, true, "", if s.phase.closing then Raised else Wrote); Left(t) == Left(s) - 1
  {
    hide Pass, WrittenPaper, FailedPaper, Records;
  }

  /** A turn that leaves all the others, which there is until the writer has ended. */
  lemma NextTurn(s: State) returns (e: Event)
    requires StopIsAhead(s) && !s.phase.Stopped?
    ensures WriterEvent(e) && Enabled(s, e) && Left(Apply(s, e)) == Left(s) - 1
  {
    if s.phase.Carrying? { LongestPass(s); }
    hide CarryStep, Pass, Feed, HasStop, TopNumber;
    match s.phase
    case Waiting => e := Get;
    case Draining(_) => e := Get;
    case Deciding(_) => e := Decide;
    case Carrying(_, closing) => e := Carry(true, "", if closing then Raised else Wrote);
    case Broken(_) => e := Shut;
    case _ => e := Report;
  }

  lemma {:induction false} AllTurnsCanBeTaken(s: State) returns (events: seq<Event>)
    requires StopIsAhead(s)
    ensures Turns(s, events) == Left(s) && Run(s, events).phase.Stopped?
    decreases Left(s)
  {
    if s.phase.Stopped? {
      events := [];
    } else {
      var e := NextTurn(s);
      TurnIsTaken(s, e);
      hide Apply, Enabled, StopIsAhead;
      var rest := AllTurnsCanBeTaken(Apply(s, e));
      events := [e] + rest;
      assert events[1..] == rest;
    }
  }

  /** The bound is the best one: from everywhere in such a run, another takes exactly so many turns and ends. */
  lemma BoundIsReached(color: bool, before: seq<Event>) returns (events: seq<Event>)
    requires var s := Run(Initial(color), before); s.closed && s.started
    ensures var s := Run(Initial(color), before);
            Turns(s, events) == Left(s) && Run(s, events).phase.Stopped?
  {
    ClosedRunHasItsStopAhead(color, before);
    hide Run, Turns, Left, StopIsAhead;
    events := AllTurnsCanBeTaken(Run(Initial(color), before));
  }

  function Joined(rounds: seq<seq<Event>>): seq<Event> {
    if rounds == [] then [] else rounds[0] + Joined(rounds[1..])
  }

  /** The writer is not held up: in every round it takes a turn, whatever else happens, unless it has ended. */
  predicate Fair(s: State, rounds: seq<seq<Event>>)
    decreases |rounds|
  {
    rounds == []
    || var t := Run(s, rounds[0]); (Turns(s, rounds[0]) >= 1 || t.phase.Stopped?) && Fair(t, rounds[1..])
  }

  lemma {:induction false} RoundsUseUpTurns(s: State, rounds: seq<seq<Event>>)
    requires StopIsAhead(s) && Fair(s, rounds)
    ensures Left(Run(s, Joined(rounds))) + |rounds| <= Left(s) || Run(s, Joined(rounds)).phase.Stopped?
    decreases |rounds|
  {
    if rounds != [] {
      RunAppend(s, rounds[0], Joined(rounds[1..]));
      TurnsAreUsedUp(s, rounds[0]);
      hide Turns;
      var t := Run(s, rounds[0]);
      RoundsUseUpTurns(t, rounds[1..]);
      if t.phase.Stopped? { EndedStays(t, Joined(rounds[1..])); }
    }
  }

  lemma {:induction false} EndedStays(s: State, events: seq<Event>)
    requires s.phase.Stopped? && s.closed
    ensures Run(s, events).phase.Stopped?
    decreases |events|
  {
    if events != [] {
      assert Apply(s, events[0]).phase.Stopped? && Apply(s, events[0]).closed by { hide Feed; }
      hide Apply;
      EndedStays(Apply(s, events[0]), events[1..]);
    }
  }

  /** The writer ends: wherever a run has closed the object, and whatever callers and `close` do after, once the
      writer has been let on in as many rounds as there are requests queued and seven more. */
  lemma WriterEnds(color: bool, before: seq<Event>, rounds: seq<seq<Event>>)
    requires var s := Run(Initial(color), before);
      s.closed && s.started && Fair(s, rounds) && |rounds| >= |s.book.queue| + 7
    ensures Run(Run(Initial(color), before), Joined(rounds)).phase.Stopped?
  {
    ClosedRunHasItsStopAhead(color, before);
    hide Run, Joined, Fair;
    var s := Run(Initial(color), before);
    RoundsUseUpTurns(s, rounds);
    TurnsAreUsedUp(s, Joined(rounds));
  }

  /** The writer always has a turn to take until it has ended, and none after. */
  lemma WriterIsNeverStuck(s: State) returns (e: Event)
    requires !s.phase.NotRunning?
    ensures WriterEvent(e)
    ensures !s.phase.Stopped? ==> Enabled(s, e)
    ensures s.phase.Stopped? ==> forall other: Event | WriterEvent(other) :: !Enabled(s, other)
  {
    match s.phase
    case Waiting => e := if s.book.queue == [] then GetNothing else Get;
    case Draining(_) => e := Get;
    case Deciding(_) => e := Decide;
    case Carrying(_, _) => e := Carry(true, "", Wrote);
    case Broken(_) => e := Shut;
    case _ => e := Report;
  }

  /** So it can always be let on: there are as many fair rounds as one likes, from every state. */
  lemma {:induction false} RoundsGoOn(s: State, n: nat) returns (rounds: seq<seq<Event>>)
    requires !s.phase.NotRunning?
    ensures |rounds| == n && Fair(s, rounds)
    decreases n
  {
    if n == 0 {
      rounds := [];
    } else {
      var e := WriterIsNeverStuck(s);
      var t := Apply(s, e);
      assert [e][1..] == [] && Turns(s, [e]) == (if Enabled(s, e) then 1 else 0) && Run(s, [e]) == t by {
        hide Apply, Enabled;
      }
      assert !t.phase.NotRunning? && (!Enabled(s, e) ==> t == s) by { RunningGoesOn(s, e); hide *; }
      hide Apply, Enabled, Turns, Run;
      var rest := RoundsGoOn(t, n - 1);
      rounds := [[e]] + rest;
      assert rounds[1..] == rest;
    }
  }

  lemma RunningGoesOn(s: State, e: Event)
    requires !s.phase.NotRunning?
    ensures !Apply(s, e).phase.NotRunning? && (!Enabled(s, e) ==> Apply(s, e) == s)
  {
    if e.Carry? && s.phase.Carrying? { PassMovesOn(s, e.foreground, e.line, e.outcome); }
    hide Feed, CarryStep, CanEnd, HasStop, TopNumber;
  }
}
