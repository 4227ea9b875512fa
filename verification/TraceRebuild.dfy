/** A run's trace rebuilt from its history: its steps in order, every reflection in its place. */
module TraceRebuild {
  import Sorting
  import opened Options

  function Max(a: int, b: int): int {
    if a < b then b else a
  }

  // ----- The planning calls -----

  datatype CallKind = Plan | Reflect | Other

  /** A row of `llm_calls`; `ids` is None where the cell holds something that is not a list. */
  datatype LlmCall = LlmCall(kind: CallKind, step: int, attempt: int, ids: Option<seq<string>>)

  predicate Damaged(call: LlmCall) {
    call.kind == Plan && call.ids == None
  }

  predicate Names(call: LlmCall, id: string) {
    call.kind == Plan && call.ids.Some? && id in call.ids.value
  }

  /** The step and attempt of the last planning call that names a row. */
  function LastNaming(calls: seq<LlmCall>, id: string): Option<(int, int)> {
    if calls == [] then None
    else
      var last := calls[|calls| - 1];
      if Names(last, id) then Some((last.step, last.attempt)) else LastNaming(calls[..|calls| - 1], id)
  }

  function Reflected(calls: seq<LlmCall>): seq<int> {
    if calls == [] then []
    else
      var last := calls[|calls| - 1];
      Reflected(calls[..|calls| - 1]) + (if last.kind == Reflect then [last.step] else [])
  }

  /** The largest of 0 and the steps planned, and of 0 and all attempts. */
  predicate IsLastStep(calls: seq<LlmCall>, n: int) {
    && (forall i :: 0 <= i < |calls| && calls[i].kind == Plan ==> calls[i].step <= n)
    && n >= 0
    && (n == 0 || exists i :: 0 <= i < |calls| && calls[i].kind == Plan && calls[i].step == n)
  }

  predicate IsTopAttempt(calls: seq<LlmCall>, n: int) {
    && (forall i :: 0 <= i < |calls| ==> calls[i].attempt <= n)
    && n >= 0
    && (n == 0 || exists i :: 0 <= i < |calls| && calls[i].attempt == n)
  }

  lemma OneMoreCall(calls: seq<LlmCall>, i: nat, lastStep: int, attempts: int)
    requires i < |calls| && IsLastStep(calls[..i], lastStep) && IsTopAttempt(calls[..i], attempts)
    ensures IsLastStep(calls[..i + 1], if calls[i].kind == Plan then Max(lastStep, calls[i].step) else lastStep)
    ensures IsTopAttempt(calls[..i + 1], Max(attempts, calls[i].attempt))
  {
    var before, now := calls[..i], calls[..i + 1];
    assert now == before + [calls[i]] && now[i] == calls[i];
    forall k | 0 <= k < i ensures now[k] == before[k] {}
    if lastStep != 0 {
      var k :| 0 <= k < |before| && before[k].kind == Plan && before[k].step == lastStep;
      assert now[k] == before[k];
    }
    if attempts != 0 {
      var k :| 0 <= k < |before| && before[k].attempt == attempts;
      assert now[k] == before[k];
    }
  }

  datatype StepMap = StepMap(rows: map<string, (int, int)>, reflections: seq<int>, lastStep: int, topAttempt: int)

  predicate Maps(rows: map<string, (int, int)>, calls: seq<LlmCall>, id: string) {
    LastNaming(calls, id) == if id in rows then Some(rows[id]) else None
  }

  /** The ids of one planning call, written over what they mapped to. */
  method MapIds(rows: map<string, (int, int)>, ids: seq<string>, at: (int, int)) returns (more: map<string, (int, int)>)
    ensures more.Keys == rows.Keys + set id | id in ids
    ensures forall id :: id in more ==> more[id] == if id in ids then at else rows[id]
  {
    more := rows;
    for i := 0 to |ids|
      invariant more.Keys == rows.Keys + set id | id in ids[..i]
      invariant forall id :: id in more ==> more[id] == if id in ids[..i] then at else rows[id]
    {
      more := more[ids[i] := at];
    }
  }

  lemma NoCalls()
    ensures IsLastStep([], 0) && IsTopAttempt([], 0)
  {
  }

  /** One pass over the calls; a planning call whose ids are no list ends it. */
  method ReadStepMap(calls: seq<LlmCall>) returns (r: Option<StepMap>)
    ensures r.None? <==> exists i :: 0 <= i < |calls| && Damaged(calls[i])
    ensures r.Some? ==> forall id :: Maps(r.value.rows, calls, id)
    ensures r.Some? ==> r.value.reflections == Reflected(calls)
    ensures r.Some? ==> IsLastStep(calls, r.value.lastStep) && IsTopAttempt(calls, r.value.topAttempt)
  {
    hide IsLastStep, IsTopAttempt;
    NoCalls();
    var rows: map<string, (int, int)> := map[];
    var reflections: seq<int> := [];
    var lastStep, attempts := 0, 0;
    var i := 0;
    assert calls[..0] == [];
    while i < |calls|
      invariant 0 <= i <= |calls|
      invariant forall k :: 0 <= k < i ==> !Damaged(calls[k])
      invariant forall id :: Maps(rows, calls[..i], id)
      invariant reflections == Reflected(calls[..i])
      invariant IsLastStep(calls[..i], lastStep) && IsTopAttempt(calls[..i], attempts)
    {
      var call := calls[i];
      ghost var before := rows;
      assert calls[..i + 1][..i] == calls[..i] && calls[..i + 1][i] == call;
      OneMoreCall(calls, i, lastStep, attempts);
      attempts := Max(attempts, call.attempt);
      if call.kind == Reflect {
        reflections := reflections + [call.step];
      } else if call.kind == Plan {
        lastStep := Max(lastStep, call.step);
        if call.ids == None {
          return None;
        }
        rows := MapIds(rows, call.ids.value, (call.step, call.attempt));
      }
      ghost var read := calls[..i + 1];
      forall id ensures Maps(rows, read, id) {
        assert Maps(before, calls[..i], id);
      }
      i := i + 1;
    }
    assert calls[..|calls|] == calls;
    r := Some(StepMap(rows, reflections, lastStep, attempts));
  }

  // ----- The trace -----

  /** What a trace was told, in order. */
  datatype Event<T> = Began(step: int, attempt: int) | Reflection | Called(tool: T)

  /** A tool call with the step and the attempt it is put down to. */
  datatype Placed<T> = Placed(step: int, attempt: int, tool: T)

  function LastBegun<T>(history: seq<Event<T>>): (int, int) {
    if history == [] then (0, 0)
    else
      var last := history[|history| - 1];
      if last.Began? then (last.step, last.attempt) else LastBegun(history[..|history| - 1])
  }

  /** The step after which each reflection came. */
  function Reflections<T>(history: seq<Event<T>>): seq<int> {
    if history == [] then []
    else
      var front := history[..|history| - 1];
      Reflections(front) + (if history[|history| - 1].Reflection? then [LastBegun(front).0] else [])
  }

  function Calls<T>(history: seq<Event<T>>): seq<Placed<T>> {
    if history == [] then []
    else
      var front, last := history[..|history| - 1], history[|history| - 1];
      Calls(front)
      + (if last.Called? then [Placed(LastBegun(front).0, LastBegun(front).1, last.tool)] else [])
  }

  /** What the rebuilt trace's clock always says. */
  const NOW := 0.0

  /** When each step first began. */
  function Starts<T>(history: seq<Event<T>>): map<int, real> {
    if history == [] then map[]
    else
      var starts, last := Starts(history[..|history| - 1]), history[|history| - 1];
      if last.Began? && last.step !in starts then starts[last.step := NOW] else starts
  }

  class Trace<T> {
    var calls: seq<Placed<T>>
    var reflections: seq<int>
    var stepNumber: int
    var attempt: int
    var stepStarts: map<int, real>
    ghost var history: seq<Event<T>>

    ghost predicate Valid()
      reads this
    {
      && (stepNumber, attempt) == LastBegun(history)
      && reflections == Reflections(history)
      && calls == Calls(history)
      && stepStarts == Starts(history)
    }

    constructor ()
      ensures Valid() && history == [] && stepNumber == 0
    {
      calls, reflections, stepNumber, attempt := [], [], 0, 0;
      stepStarts := map[];
      history := [];
    }

    method Step(k: int, at: int)
      requires Valid()
      modifies this
      ensures Valid() && history == old(history) + [Began(k, at)] && stepNumber == k
    {
      stepNumber, attempt := k, at;
      if k !in stepStarts {
        stepStarts := stepStarts[k := NOW];
      }
      history := history + [Began(k, at)];
    }

    method Reflect()
      requires Valid()
      modifies this
      ensures Valid() && history == old(history) + [Reflection] && stepNumber == old(stepNumber)
    {
      reflections := reflections + [stepNumber];
      history := history + [Reflection];
    }

    method Tool(tool: T)
      requires Valid()
      modifies this
      ensures Valid() && history == old(history) + [Called(tool)] && stepNumber == old(stepNumber)
    {
      calls := calls + [Placed(stepNumber, attempt, tool)];
      history := history + [Called(tool)];
    }
  }

  // ----- Where reflections belong -----

  /** The step a reflection comes after: one recorded before the first step comes before it. */
  function After(reflection: int): int {
    Max(reflection, 0)
  }

  function CountAfter(reflections: seq<int>, j: int): nat {
    if reflections == [] then 0
    else CountAfter(reflections[1..], j) + (if After(reflections[0]) == j then 1 else 0)
  }

  /** Those that have not come yet when `step` steps have begun. */
  function Waiting(sorted: seq<int>, step: nat): seq<int> {
    if sorted != [] && After(sorted[0]) < step then Waiting(sorted[1..], step) else sorted
  }

  function Repeat<T>(x: T, n: nat): seq<T> {
    seq(n, i => x)
  }

  lemma RepeatOne<T>(x: T, n: nat)
    ensures Repeat(x, 0) == [] && Repeat(x, n + 1) == Repeat(x, n) + [x]
  {
  }

  /** What starting the steps after `from` up to `to` adds. */
  function Leg<T>(reflections: seq<int>, from: nat, to: int, attempt: int): seq<Event<T>>
    decreases if to <= from then 0 else to - from
  {
    if to <= from then []
    else Leg(reflections, from, to - 1, attempt)
         + Repeat(Reflection, CountAfter(reflections, to - 1)) + [Began(to, attempt)]
  }

  /** Of those that wait at `step`, the ones after `step` itself come first; behind them wait the later ones. */
  lemma {:induction false} WaitingSplits(sorted: seq<int>, step: nat)
    requires Sorting.Rises(sorted)
    ensures CountAfter(sorted, step) <= |Waiting(sorted, step)|
    ensures Waiting(sorted, step)[CountAfter(sorted, step)..] == Waiting(sorted, step + 1)
    ensures forall i :: 0 <= i < CountAfter(sorted, step) ==> Waiting(sorted, step)[i] < step + 1
    ensures CountAfter(sorted, step) < |Waiting(sorted, step)| ==>
      Waiting(sorted, step)[CountAfter(sorted, step)] >= step + 1
    decreases |sorted|
  {
    if sorted != [] {
      var rest := sorted[1..];
      WaitingSplits(rest, step);
      if After(sorted[0]) >= step {
        NoneBefore(sorted, step);
        NoneBefore(rest, step);
        if After(sorted[0]) > step {
          NoneAt(sorted, step);
        } else {
          assert sorted[CountAfter(sorted, step)..] == rest[CountAfter(rest, step)..];
        }
      }
    }
  }

  /** Nothing comes before the first of a rising sequence. */
  lemma NoneBefore(sorted: seq<int>, step: nat)
    requires forall i :: 0 <= i < |sorted| ==> After(sorted[i]) >= step
    ensures Waiting(sorted, step) == sorted
  {
  }

  lemma {:induction false} NoneAt(sorted: seq<int>, step: nat)
    requires forall i :: 0 <= i < |sorted| ==> After(sorted[i]) > step
    ensures CountAfter(sorted, step) == 0
    decreases |sorted|
  {
    if sorted != [] { NoneAt(sorted[1..], step); }
  }

  /** The walk through the rows: the steps begun, the attempt, the reflections still to come. */
  class Walk<T> {
    const trace: Trace<T>
    var reflectAfter: seq<int>
    var step: int
    var attempt: int
    ghost const sorted: seq<int>

    ghost predicate Valid()
      reads this, trace
    {
      && trace.Valid() && Sorting.Rises(sorted)
      && step >= 0 && step == trace.stepNumber
      && reflectAfter == Waiting(sorted, step)
    }

    constructor (reflections: seq<int>)
      ensures Valid() && fresh(trace) && trace.history == []
      ensures sorted == Sorting.Sorted(reflections) && step == 0 && attempt == 1
    {
      trace := new Trace();
      reflectAfter, step, attempt := Sorting.Sorted(reflections), 0, 1;
      sorted := Sorting.Sorted(reflections);
      Sorting.SortedRises(reflections);
      new;
      assert LastBegun(trace.history).0 == 0;
    }

    /** The reflections that ran before step `k`. */
    method PopReflections(k: nat)
      requires trace.Valid() && Sorting.Rises(sorted) && 0 < k && reflectAfter == Waiting(sorted, k - 1)
      modifies `reflectAfter, trace
      ensures trace.Valid() && trace.stepNumber == old(trace.stepNumber) && reflectAfter == Waiting(sorted, k)
      ensures trace.history == old(trace.history) + Repeat(Reflection, CountAfter(sorted, k - 1))
    {
      hide Waiting, CountAfter, Sorting.Rises, Repeat, LastBegun, Reflections, Calls, Starts;
      RepeatOne<Event<T>>(Reflection, 0);
      ghost var before, waiting := trace.history, reflectAfter;
      ghost var popped := 0;
      WaitingSplits(sorted, k - 1);
      while reflectAfter != [] && reflectAfter[0] < k
        invariant 0 <= popped <= CountAfter(sorted, k - 1) <= |waiting|
        invariant reflectAfter == waiting[popped..]
        invariant trace.Valid() && trace.stepNumber == old(trace.stepNumber)
        invariant trace.history == before + Repeat(Reflection, popped)
        decreases |reflectAfter|
      {
        reflectAfter := reflectAfter[1..];
        trace.Reflect();
        popped := popped + 1;
        RepeatOne<Event<T>>(Reflection, popped - 1);
      }
    }

    method StartSteps(toStep: int, toAttempt: int)
      requires Valid()
      modifies this, trace
      ensures Valid()
      ensures step == Max(old(step), toStep) && attempt == Max(old(attempt), toAttempt)
      ensures trace.history == old(trace.history) + Leg(sorted, old(step), toStep, toAttempt)
    {
      hide Waiting, CountAfter, Sorting.Rises, Repeat, LastBegun, Reflections, Calls, Starts;
      ghost var first, begun, before := step, attempt, trace.history;
      for k := step + 1 to Max(step, toStep) + 1
        invariant step == first && attempt == begun && trace.Valid() && trace.stepNumber == k - 1
        invariant Sorting.Rises(sorted) && reflectAfter == Waiting(sorted, k - 1)
        invariant trace.history == before + Leg(sorted, first, k - 1, toAttempt)
      {
        PopReflections(k);
        trace.Step(k, toAttempt);
      }
      step, attempt := Max(step, toStep), Max(attempt, toAttempt);
    }
  }
}
