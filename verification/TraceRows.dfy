/** A task's rows walked once: which steps they start, and what the rebuilt trace holds in the end. */
module TraceRows {
  import Sorting
  import opened Options
  import opened TraceRebuild

  /** A row's call cell: nothing, something that is no JSON object, or a call. */
  datatype Cell<T> = Empty | Broken | Call(tool: T)

  datatype StepRow<T> = StepRow(id: string, thought: bool, call: Cell<T>, written: Option<real>)

  /** The step and attempt reached, and when the row before was written. */
  datatype Place = Place(step: int, attempt: int, previous: Option<real>)

  const START := Place(0, 1, None)

  const STEP_PAUSE := 0.5

  /** A row that starts a step where the planning calls are not known. */
  predicate StartsStep<T>(row: StepRow<T>, p: Place) {
    || p.step == 0
    || row.thought
    || (p.previous.Some? && row.written.Some? && row.written.value - p.previous.value > STEP_PAUSE)
  }

  /** The step and attempt a row belongs to. */
  function Asked<T>(rows: map<string, (int, int)>, row: StepRow<T>, p: Place): (int, int) {
    if |rows| > 0 then if row.id in rows then rows[row.id] else (Max(p.step, 1), p.attempt)
    else (p.step + (if StartsStep(row, p) then 1 else 0), p.attempt)
  }

  function AfterRow<T>(rows: map<string, (int, int)>, row: StepRow<T>, p: Place): Place {
    var (step, attempt) := Asked(rows, row, p);
    Place(Max(p.step, step), Max(p.attempt, attempt), if row.written.Some? then row.written else p.previous)
  }

  function AfterRows<T>(rows: map<string, (int, int)>, list: seq<StepRow<T>>): Place {
    if list == [] then START else AfterRow(rows, list[|list| - 1], AfterRows(rows, list[..|list| - 1]))
  }

  /** What one row adds to the trace. */
  function RowEvents<T>(m: StepMap, row: StepRow<T>, p: Place): seq<Event<T>>
    requires p.step >= 0
  {
    var (step, attempt) := Asked(m.rows, row, p);
    Leg(Sorting.Sorted(m.reflections), p.step, step, attempt) + (if row.call.Call? then [Called(row.call.tool)] else [])
  }

  lemma {:induction false} StepsAreNoLess<T>(rows: map<string, (int, int)>, list: seq<StepRow<T>>)
    ensures AfterRows(rows, list).step >= 0 && AfterRows(rows, list).attempt >= 1
    decreases |list|
  {
    if list != [] { StepsAreNoLess(rows, list[..|list| - 1]); }
  }

  function RowsHistory<T>(m: StepMap, list: seq<StepRow<T>>): seq<Event<T>> {
    if list == [] then []
    else
      var front := list[..|list| - 1];
      StepsAreNoLess(m.rows, front);
      RowsHistory(m, front) + RowEvents(m, list[|list| - 1], AfterRows(m.rows, front))
  }

  /** `steps` is what the run's result says, 0 where it says nothing. */
  function Total<T>(m: StepMap, list: seq<StepRow<T>>, steps: int): int {
    if steps != 0 then steps else Max(AfterRows(m.rows, list).step, m.lastStep)
  }

  function History<T>(m: StepMap, list: seq<StepRow<T>>, steps: int): seq<Event<T>> {
    var p := AfterRows(m.rows, list);
    StepsAreNoLess(m.rows, list);
    RowsHistory(m, list) + Leg(Sorting.Sorted(m.reflections), p.step, Total(m, list, steps), p.attempt)
  }

  /** One row of the walk. */
  method TakeRow<T>(m: StepMap, walk: Walk<T>, row: StepRow<T>, previous: Option<real>)
    returns (ok: bool, written: Option<real>)
    requires walk.Valid() && walk.sorted == Sorting.Sorted(m.reflections)
    modifies walk, walk.trace
    ensures walk.Valid()
    ensures ok <==> !row.call.Broken?
    ensures var p := Place(old(walk.step), old(walk.attempt), previous);
            && Place(walk.step, walk.attempt, written) == AfterRow(m.rows, row, p)
            && walk.trace.history == old(walk.trace.history) + RowEvents(m, row, p)
  {
    hide Leg, LastBegun, Reflections, Calls, Starts, Waiting, Sorting.Rises;
    var rowStep, rowAttempt := 0, 0;
    if |m.rows| > 0 {
      rowStep, rowAttempt := Max(walk.step, 1), walk.attempt;
      if row.id in m.rows {
        rowStep, rowAttempt := m.rows[row.id].0, m.rows[row.id].1;
      }
    } else {
      var paused := previous.Some? && row.written.Some? && row.written.value - previous.value > STEP_PAUSE;
      rowStep, rowAttempt := walk.step, walk.attempt;
      if walk.step == 0 || row.thought || paused {
        rowStep := walk.step + 1;
      }
    }
    written := if row.written.Some? then row.written else previous;
    walk.StartSteps(rowStep, rowAttempt);
    ok := !row.call.Broken?;
    if row.call.Call? {
      walk.trace.Tool(row.call.tool);
    }
  }

  /** The walk over the rows; a call that is no JSON object ends it. */
  method TaskTrace<T>(m: StepMap, list: seq<StepRow<T>>, steps: int) returns (r: Option<Trace<T>>)
    ensures r.None? <==> exists i :: 0 <= i < |list| && list[i].call.Broken?
    ensures r.Some? ==> fresh(r.value) && r.value.Valid() && r.value.history == History(m, list, steps)
  {
    hide Leg, LastBegun, Reflections, Calls, Starts, Waiting, Sorting.Rises, AfterRow, RowEvents;
    var walk := new Walk<T>(m.reflections);
    var previous: Option<real> := None;
    var i := 0;
    assert list[..0] == [];
    while i < |list|
      invariant 0 <= i <= |list| && fresh(walk) && fresh(walk.trace) && walk.Valid()
      invariant walk.sorted == Sorting.Sorted(m.reflections)
      invariant Place(walk.step, walk.attempt, previous) == AfterRows(m.rows, list[..i])
      invariant walk.trace.history == RowsHistory(m, list[..i])
      invariant forall k :: 0 <= k < i ==> !list[k].call.Broken?
    {
      var ok: bool;
      assert list[..i + 1][..i] == list[..i];
      ok, previous := TakeRow(m, walk, list[i], previous);
      if !ok {
        return None;
      }
      i := i + 1;
    }
    assert list[..|list|] == list;
    walk.StartSteps(if steps != 0 then steps else Max(walk.step, m.lastStep), walk.attempt);
    r := Some(walk.trace);
  }

  // ----- What the trace holds -----

  /** The bones of a trace: its steps and its reflections. */
  datatype Mark = Step(k: int) | Thought

  function Marks<T>(history: seq<Event<T>>): seq<Mark> {
    if history == [] then []
    else
      var last := history[|history| - 1];
      Marks(history[..|history| - 1])
      + (match last
         case Began(k, _) => [Step(k)]
         case Reflection => [Thought]
         case Called(_) => [])
  }

  /** Steps 1 to `n`, in front of each the reflections that ran after the step before. */
  function Timeline(n: nat, reflections: seq<int>): seq<Mark> {
    if n == 0 then []
    else Timeline(n - 1, reflections) + Repeat(Thought, CountAfter(reflections, n - 1)) + [Step(n)]
  }

  lemma {:induction false} MarksOfTwo<T>(a: seq<Event<T>>, b: seq<Event<T>>)
    ensures Marks(a + b) == Marks(a) + Marks(b)
    decreases |b|
  {
    if b == [] {
      assert a + b == a;
    } else {
      MarksOfTwo(a, b[..|b| - 1]);
      assert (a + b)[..|a + b| - 1] == a + b[..|b| - 1];
    }
  }

  lemma {:induction false} MarksOfRepeat<T>(n: nat)
    ensures Marks(Repeat<Event<T>>(Reflection, n)) == Repeat(Thought, n)
  {
    if n > 0 {
      var all := Repeat<Event<T>>(Reflection, n);
      assert all[..n - 1] == Repeat<Event<T>>(Reflection, n - 1);
      MarksOfRepeat<T>(n - 1);
      RepeatOne<Mark>(Thought, n - 1);
    }
  }

  lemma OneMark<T>(event: Event<T>)
    ensures Marks([event]) == match event
                              case Began(k, _) => [Step(k)]
                              case Reflection => [Thought]
                              case Called(_) => []
  {
    assert [event][..0] == [];
  }

  lemma NoMarks<T>()
    ensures Marks<T>([]) == []
  {
  }

  /** A leg goes on with the timeline. */
  lemma {:induction false} LegIsTimeline<T>(reflections: seq<int>, from: nat, to: int, attempt: int)
    ensures Timeline(from, reflections) + Marks(Leg<T>(reflections, from, to, attempt))
            == Timeline(Max(from, to), reflections)
    decreases if to <= from then 0 else to - from
  {
    hide Marks, Repeat, CountAfter;
    if to > from {
      LegIsTimeline<T>(reflections, from, to - 1, attempt);
      var n := CountAfter(reflections, to - 1);
      var front, more := Leg<T>(reflections, from, to - 1, attempt), Repeat<Event<T>>(Reflection, n);
      var last: Event<T> := Began(to, attempt);
      MarksOfTwo(front, more);
      MarksOfTwo(front + more, [last]);
      MarksOfRepeat<T>(n);
      OneMark(last);
    } else {
      assert Marks<T>([]) == [] by { NoMarks<T>(); }
    }
  }

  lemma {:induction false} RowsAreTimeline<T>(m: StepMap, list: seq<StepRow<T>>)
    ensures AfterRows(m.rows, list).step >= 0
    ensures Marks(RowsHistory(m, list)) == Timeline(AfterRows(m.rows, list).step, Sorting.Sorted(m.reflections))
    decreases |list|
  {
    hide Asked, Timeline, Leg;
    StepsAreNoLess(m.rows, list);
    var sorted := Sorting.Sorted(m.reflections);
    if list == [] {
      NoTimeline(sorted);
    } else {
      var front, row := list[..|list| - 1], list[|list| - 1];
      RowsAreTimeline(m, front);
      var p := AfterRows(m.rows, front);
      var (step, attempt) := Asked(m.rows, row, p);
      LegIsTimeline<T>(sorted, p.step, step, attempt);
      var leg: seq<Event<T>> := Leg(sorted, p.step, step, attempt);
      MarksOfTwo(RowsHistory(m, front), RowEvents(m, row, p));
      if row.call.Call? {
        OneMark<T>(Called(row.call.tool));
        MarksOfTwo(leg, [Called(row.call.tool)]);
      } else {
        assert RowEvents(m, row, p) == leg;
      }
    }
  }

  lemma NoTimeline(reflections: seq<int>)
    ensures Timeline(0, reflections) == []
  {
  }

  /** The steps the trace ends with: the most of the rows' and the total. */
  function Steps<T>(m: StepMap, list: seq<StepRow<T>>, steps: int): int {
    Max(AfterRows(m.rows, list).step, Total(m, list, steps))
  }

  /** The bones of the rebuilt trace are the timeline, whatever the rows ask for and in whatever order. */
  lemma TraceIsTimeline<T>(m: StepMap, list: seq<StepRow<T>>, steps: int)
    ensures Steps(m, list, steps) >= 0
    ensures Marks(History(m, list, steps)) == Timeline(Steps(m, list, steps), Sorting.Sorted(m.reflections))
  {
    hide Timeline, Leg;
    RowsAreTimeline(m, list);
    var p, total, sorted := AfterRows(m.rows, list), Total(m, list, steps), Sorting.Sorted(m.reflections);
    LegIsTimeline<T>(sorted, p.step, total, p.attempt);
    MarksOfTwo(RowsHistory(m, list), Leg<T>(sorted, p.step, total, p.attempt));
  }

  function StepsOf(marks: seq<Mark>): seq<int> {
    if marks == [] then []
    else StepsOf(marks[..|marks| - 1]) + (if marks[|marks| - 1].Step? then [marks[|marks| - 1].k] else [])
  }

  function LastStep(marks: seq<Mark>): int {
    if marks == [] then 0
    else if marks[|marks| - 1].Step? then marks[|marks| - 1].k else LastStep(marks[..|marks| - 1])
  }

  /** The step in front of each reflection, 0 before the first. */
  function Labels(marks: seq<Mark>): seq<int> {
    if marks == [] then []
    else
      var front := marks[..|marks| - 1];
      Labels(front) + (if marks[|marks| - 1].Thought? then [LastStep(front)] else [])
  }

  lemma {:induction false} ThoughtsFollow(marks: seq<Mark>, n: nat)
    ensures StepsOf(marks + Repeat(Thought, n)) == StepsOf(marks)
    ensures LastStep(marks + Repeat(Thought, n)) == LastStep(marks)
    ensures Labels(marks + Repeat(Thought, n)) == Labels(marks) + Repeat(LastStep(marks), n)
    decreases n
  {
    hide Repeat;
    var all := marks + Repeat(Thought, n);
    RepeatOne<Mark>(Thought, if n == 0 then 0 else n - 1);
    RepeatOne(LastStep(marks), if n == 0 then 0 else n - 1);
    if n == 0 {
      assert all == marks;
      assert Labels(marks) + [] == Labels(marks);
    } else {
      ThoughtsFollow(marks, n - 1);
      assert all == marks + Repeat(Thought, n - 1) + [Thought];
      assert all[..|all| - 1] == marks + Repeat(Thought, n - 1);
    }
  }

  lemma {:induction false} TimelineNumbers(n: nat, reflections: seq<int>)
    ensures StepsOf(Timeline(n, reflections)) == seq(n, i => i + 1)
    ensures LastStep(Timeline(n, reflections)) == n
    ensures n > 0 ==> Labels(Timeline(n, reflections))
                      == Labels(Timeline(n - 1, reflections)) + Repeat(n - 1, CountAfter(reflections, n - 1))
  {
    hide CountAfter;
    if n > 0 {
      TimelineNumbers(n - 1, reflections);
      var before, count := Timeline(n - 1, reflections), CountAfter(reflections, n - 1);
      ThoughtsFollow(before, count);
      var all := Timeline(n, reflections);
      assert all[..|all| - 1] == before + Repeat(Thought, count);
    }
  }

  lemma CountOfRepeat(x: int, n: nat, j: int)
    ensures multiset(Repeat(x, n))[j] == if j == x then n else 0
  {
    if n > 0 {
      CountOfRepeat(x, n - 1, j);
      RepeatOne(x, n - 1);
    }
  }

  predicate AllBelow(s: seq<int>, n: int) {
    forall i :: 0 <= i < |s| ==> s[i] < n
  }

  lemma PlateauRises(s: seq<int>, x: int, n: nat)
    requires Sorting.Rises(s) && AllBelow(s, x)
    ensures Sorting.Rises(s + Repeat(x, n)) && AllBelow(s + Repeat(x, n), x + 1)
  {
  }

  /** Every reflection recorded below step `n` has its place once, in rising order; none later has one. */
  lemma {:induction false} ReflectionsHaveTheirPlace(n: nat, reflections: seq<int>, j: int)
    ensures multiset(Labels(Timeline(n, reflections)))[j] == (if 0 <= j < n then CountAfter(reflections, j) else 0)
    ensures Sorting.Rises(Labels(Timeline(n, reflections))) && AllBelow(Labels(Timeline(n, reflections)), n)
  {
    hide Timeline, CountAfter, Repeat, AllBelow, Sorting.Rises;
    TimelineNumbers(n, reflections);
    if n > 0 {
      ReflectionsHaveTheirPlace(n - 1, reflections, j);
      CountOfRepeat(n - 1, CountAfter(reflections, n - 1), j);
      PlateauRises(Labels(Timeline(n - 1, reflections)), n - 1, CountAfter(reflections, n - 1));
    } else {
      NoTimeline(reflections);
      NothingRises();
    }
  }

  lemma NothingRises()
    ensures Labels([]) == [] && Sorting.Rises([]) && AllBelow([], 0)
  {
  }

  lemma {:induction false} FieldsFollowMarks<T>(history: seq<Event<T>>)
    ensures LastBegun(history).0 == LastStep(Marks(history))
    ensures Reflections(history) == Labels(Marks(history))
    decreases |history|
  {
    if history != [] {
      var front, last := history[..|history| - 1], history[|history| - 1];
      FieldsFollowMarks(front);
      var marks := Marks(history);
      if !last.Called? { assert marks[..|marks| - 1] == Marks(front); } else { assert marks == Marks(front); }
    }
  }

  lemma {:induction false} StartsAreSteps<T>(history: seq<Event<T>>)
    ensures forall k :: k in Starts(history) <==> k in StepsOf(Marks(history))
    ensures forall k <- Starts(history) :: Starts(history)[k] == NOW
    decreases |history|
  {
    if history != [] {
      var front, last := history[..|history| - 1], history[|history| - 1];
      StartsAreSteps(front);
      var marks := Marks(history);
      if !last.Called? { assert marks[..|marks| - 1] == Marks(front); } else { assert marks == Marks(front); }
    }
  }

  lemma {:induction false} InsertCounts(x: int, sorted: seq<int>, j: int)
    ensures CountAfter(Sorting.Insert(x, sorted), j) == CountAfter([x] + sorted, j)
    decreases |sorted|
  {
    assert ([x] + sorted)[1..] == sorted;
    if sorted != [] && Sorting.Insert(x, sorted) != [x] + sorted {
      var all := Sorting.Insert(x, sorted);
      InsertCounts(x, sorted[1..], j);
      assert all == [sorted[0]] + Sorting.Insert(x, sorted[1..]);
      assert all[1..] == Sorting.Insert(x, sorted[1..]);
      assert ([x] + sorted[1..])[1..] == sorted[1..];
    }
  }

  lemma {:induction false} SortedCounts(reflections: seq<int>, j: int)
    ensures CountAfter(Sorting.Sorted(reflections), j) == CountAfter(reflections, j)
  {
    if reflections != [] {
      SortedCounts(reflections[1..], j);
      InsertCounts(reflections[0], Sorting.Sorted(reflections[1..]), j);
      assert ([reflections[0]] + Sorting.Sorted(reflections[1..]))[1..] == Sorting.Sorted(reflections[1..]);
    }
  }

  /** The trace of a run has the steps 1 to N once each in order, and puts every reflection recorded at a step below N
      down to that step, as often as it was recorded, and no other. */
  lemma RebuiltTrace<T>(m: StepMap, list: seq<StepRow<T>>, steps: int, j: int)
    ensures var history, n := History(m, list, steps), Steps(m, list, steps);
      && n >= 0
      && StepsOf(Marks(history)) == seq(n, i => i + 1)
      && Sorting.Rises(Reflections(history))
      && multiset(Reflections(history))[j] == (if 0 <= j < n then CountAfter(m.reflections, j) else 0)
  {
    hide History, Timeline, Sorting.Rises;
    TraceIsTimeline(m, list, steps);
    var history, n, sorted := History(m, list, steps), Steps(m, list, steps), Sorting.Sorted(m.reflections);
    TimelineNumbers(n, sorted);
    ReflectionsHaveTheirPlace(n, sorted, j);
    FieldsFollowMarks(history);
    SortedCounts(m.reflections, j);
  }

  /** It knows a start for each of these steps and for no other. */
  lemma StartsOfRebuiltTrace<T>(m: StepMap, list: seq<StepRow<T>>, steps: int, k: int)
    ensures var starts, n := Starts(History(m, list, steps)), Steps(m, list, steps);
      && (k in starts <==> 1 <= k <= n)
      && (k in starts ==> starts[k] == NOW)
  {
    hide History, Starts, Steps, Marks;
    TraceIsTimeline(m, list, steps);
    var history, n := History(m, list, steps), Steps(m, list, steps);
    TimelineNumbers(n, Sorting.Sorted(m.reflections));
    StartsAreSteps(history);
    var numbers := seq(n, i => i + 1);
    assert StepsOf(Marks(history)) == numbers;
    if 1 <= k <= n { assert numbers[k - 1] == k; }
  }

  // ----- Which step it ends with, and where the calls go -----

  /** The step a row speaks for where the planning calls are known; one they do not name never starts more than 1. */
  function RowStep<T>(rows: map<string, (int, int)>, row: StepRow<T>): int {
    if row.id in rows then rows[row.id].0 else 1
  }

  /** The largest of 0 and the rows' steps. */
  ghost predicate IsPeak<T>(rows: map<string, (int, int)>, list: seq<StepRow<T>>, n: int) {
    && n >= 0 && (forall row :: row in list ==> RowStep(rows, row) <= n)
    && (n == 0 || exists row :: row in list && RowStep(rows, row) == n)
  }

  lemma {:induction false} StepIsPeak<T>(rows: map<string, (int, int)>, list: seq<StepRow<T>>)
    requires |rows| > 0
    ensures IsPeak(rows, list, AfterRows(rows, list).step)
    decreases |list|
  {
    if list != [] {
      var front, row := list[..|list| - 1], list[|list| - 1];
      assert list == front + [row];
      StepIsPeak(rows, front);
      var n := AfterRows(rows, front).step;
      assert AfterRows(rows, list).step == Max(n, RowStep(rows, row));
      if AfterRows(rows, list).step != n {
        assert RowStep(rows, row) == AfterRows(rows, list).step;
      } else if n != 0 {
        var best :| best in front && RowStep(rows, best) == n;
        assert best in list;
      }
    }
  }

  lemma PeakIsOne<T>(rows: map<string, (int, int)>, a: seq<StepRow<T>>, b: seq<StepRow<T>>, n: int, k: int)
    requires IsPeak(rows, a, n) && IsPeak(rows, b, k) && forall row :: row in a <==> row in b
    ensures n == k
  {
  }

  /** Where the planning calls are known, the order of the rows changes neither the steps nor the reflections. */
  lemma RowOrderDoesNotMatter<T>(m: StepMap, a: seq<StepRow<T>>, b: seq<StepRow<T>>, steps: int)
    requires |m.rows| > 0 && multiset(a) == multiset(b)
    ensures Marks(History(m, a, steps)) == Marks(History(m, b, steps))
  {
    hide IsPeak, AfterRow, History, Marks, Timeline;
    forall row ensures row in a <==> row in b {
      assert row in a <==> row in multiset(a);
      assert row in b <==> row in multiset(b);
    }
    StepIsPeak(m.rows, a);
    StepIsPeak(m.rows, b);
    PeakIsOne(m.rows, a, b, AfterRows(m.rows, a).step, AfterRows(m.rows, b).step);
    TraceIsTimeline(m, a, steps);
    TraceIsTimeline(m, b, steps);
  }

  /** When the last row that knows its time was written. */
  function LastWritten<T>(list: seq<StepRow<T>>): Option<real> {
    if list == [] then None
    else if list[|list| - 1].written.Some? then list[|list| - 1].written
    else LastWritten(list[..|list| - 1])
  }

  predicate Paused<T>(list: seq<StepRow<T>>, row: StepRow<T>) {
    LastWritten(list).Some? && row.written.Some? && row.written.value - LastWritten(list).value > STEP_PAUSE
  }

  /** The rows that begin something: the first, those with a thought, those after a pause. */
  function Beginnings<T>(list: seq<StepRow<T>>): nat {
    if list == [] then 0
    else
      var front, row := list[..|list| - 1], list[|list| - 1];
      Beginnings(front) + (if front == [] || row.thought || Paused(front, row) then 1 else 0)
  }

  /** Where they are not known, every row begins at most one step, and the steps are the beginnings. */
  lemma {:induction false} StepsAreBeginnings<T>(list: seq<StepRow<T>>)
    ensures AfterRows(map[], list).step == Beginnings(list)
    ensures AfterRows(map[], list).previous == LastWritten(list)
    ensures list != [] ==> Beginnings(list) > 0
    decreases |list|
  {
    if list != [] { StepsAreBeginnings(list[..|list| - 1]); }
  }

  /** The attempt of the row that began the step reached. */
  function BegunAttempt<T>(rows: map<string, (int, int)>, list: seq<StepRow<T>>): int {
    if list == [] then 0
    else
      var front := list[..|list| - 1];
      var p := AfterRows(rows, front);
      var (step, attempt) := Asked(rows, list[|list| - 1], p);
      if step > p.step then attempt else BegunAttempt(rows, front)
  }

  /** The rows' calls in the rows' order, each put down to the step the rows up to it have reached. */
  function RowCalls<T>(rows: map<string, (int, int)>, list: seq<StepRow<T>>): seq<Placed<T>> {
    if list == [] then []
    else
      var row := list[|list| - 1];
      RowCalls(rows, list[..|list| - 1])
      + (if row.call.Call? then [Placed(AfterRows(rows, list).step, BegunAttempt(rows, list), row.call.tool)] else [])
  }

  lemma {:induction false} ReflectionsAreNoCalls<T>(history: seq<Event<T>>, n: nat)
    ensures LastBegun(history + Repeat(Reflection, n)) == LastBegun(history)
    ensures Calls(history + Repeat(Reflection, n)) == Calls(history)
    decreases n
  {
    var all := history + Repeat<Event<T>>(Reflection, n);
    if n == 0 {
      assert all == history;
    } else {
      ReflectionsAreNoCalls(history, n - 1);
      assert all[..|all| - 1] == history + Repeat(Reflection, n - 1);
    }
  }

  lemma OneMoreEvent<T>(history: seq<Event<T>>, event: Event<T>)
    ensures LastBegun(history + [event]) == if event.Began? then (event.step, event.attempt) else LastBegun(history)
    ensures Calls(history + [event])
            == Calls(history)
               + if event.Called? then [Placed(LastBegun(history).0, LastBegun(history).1, event.tool)] else []
  {
    assert (history + [event])[..|history|] == history;
  }

  lemma {:induction false} LegBegins<T>(history: seq<Event<T>>, reflections: seq<int>, from: nat, to: int, attempt: int)
    ensures LastBegun(history + Leg(reflections, from, to, attempt))
            == if to > from then (to, attempt) else LastBegun(history)
    ensures Calls(history + Leg(reflections, from, to, attempt)) == Calls(history)
    decreases if to <= from then 0 else to - from
  {
    hide LastBegun, Calls, Repeat, CountAfter;
    if to <= from {
      assert history + Leg(reflections, from, to, attempt) == history;
    } else {
      LegBegins(history, reflections, from, to - 1, attempt);
      var leg: seq<Event<T>> := Leg(reflections, from, to - 1, attempt);
      var n, last := CountAfter(reflections, to - 1), Began(to, attempt);
      ReflectionsAreNoCalls(history + leg, n);
      OneMoreEvent(history + leg + Repeat(Reflection, n), last);
      assert history + Leg(reflections, from, to, attempt) == history + leg + Repeat(Reflection, n) + [last];
    }
  }

  lemma NothingBegun<T>()
    ensures LastBegun<T>([]) == (0, 0) && Calls<T>([]) == []
  {
  }

  lemma {:induction false} RowsPlaceTheirCalls<T>(m: StepMap, list: seq<StepRow<T>>)
    ensures LastBegun(RowsHistory(m, list)) == (AfterRows(m.rows, list).step, BegunAttempt(m.rows, list))
    ensures Calls(RowsHistory(m, list)) == RowCalls(m.rows, list)
    decreases |list|
  {
    hide Asked, Leg, LastBegun, Calls;
    NothingBegun<T>();
    StepsAreNoLess(m.rows, list);
    if list != [] {
      var front, row := list[..|list| - 1], list[|list| - 1];
      RowsPlaceTheirCalls(m, front);
      StepsAreNoLess(m.rows, front);
      var p, before := AfterRows(m.rows, front), RowsHistory(m, front);
      var (step, attempt) := Asked(m.rows, row, p);
      var leg: seq<Event<T>> := Leg(Sorting.Sorted(m.reflections), p.step, step, attempt);
      LegBegins(before, Sorting.Sorted(m.reflections), p.step, step, attempt);
      if row.call.Call? {
        OneMoreEvent(before + leg, Called(row.call.tool));
        assert before + RowEvents(m, row, p) == before + leg + [Called(row.call.tool)];
      } else {
        assert before + RowEvents(m, row, p) == before + leg;
      }
    }
  }

  /** No call is lost, doubled or moved past another, and a later total takes none with it. */
  lemma CallsFollowTheRows<T>(m: StepMap, list: seq<StepRow<T>>, steps: int)
    ensures Calls(History(m, list, steps)) == RowCalls(m.rows, list)
  {
    RowsPlaceTheirCalls(m, list);
    StepsAreNoLess(m.rows, list);
    var p := AfterRows(m.rows, list);
    LegBegins(RowsHistory(m, list), Sorting.Sorted(m.reflections), p.step, Total(m, list, steps), p.attempt);
  }
}
