/** The progress line holds no control character, so it stays on its row: what the screen relies on. */
module LinePlain {
  import opened LineParts
  import opened LineText
  import opened Numerals
  import opened Options
  import opened Reals
  import opened Terminal
  import opened Trimming

  predicate PlainIfAny(text: Option<string>) {
    text.Some? ==> Plain(text.value)
  }

  /** As Unicode has it: every control character is of one of the "other" categories. */
  ghost predicate ControlsAreOther(host: Host) {
    forall c | Control(c) :: host.other(c)
  }

  /** The parts that do not come from past runs: numbers, fixed words and printable labels. */
  predicate PlainParts(p: Parts) {
    AllPlain(p.head) && PlainIfAny(p.attempt) && AllPlain(p.facts) && PlainIfAny(p.tests) && Plain(p.elapsed)
  }

  predicate PlainPast(p: PastParts) {
    PlainIfAny(p.steps) && PlainIfAny(p.times) && PlainIfAny(p.items) && PlainIfAny(p.itemsTitle)
  }

  // ----- Fixed words and numbers -----

  lemma Two(a: string, b: string)
    requires Plain(a) && Plain(b)
    ensures Plain(a + b)
  {
  }

  lemma Three(a: string, b: string, c: string)
    requires Plain(a) && Plain(b) && Plain(c)
    ensures Plain(a + b + c)
  {
  }

  lemma {:induction false} DigitsArePlain(n: nat)
    ensures Plain(Digits(n))
  {
    if n >= 10 { DigitsArePlain(n / 10); }
    var d := [DigitOf(n % 10)];
    assert d[0] >= '0' && Plain(d);
    Two(if n < 10 then "" else Digits(n / 10), d);
  }

  lemma DecimalIsPlain(n: int)
    ensures Plain(Decimal(n))
  {
    DigitsArePlain(if n < 0 then -n else n);
    hide Digits;
  }

  lemma TwoDigitsArePlain(n: nat)
    ensures Plain(TwoDigits(n))
  {
    DigitsArePlain(n);
    hide Digits;
  }

  lemma ElapsedIsPlain(seconds: real)
    ensures Plain(RunElapsed(seconds))
  {
    hide Digits, TwoDigits, Plain, Truncated;
    UnitsArePlain();
    var t := Truncated(seconds);
    var total: nat := if t > 0 then t else 0;
    DigitsArePlain(total);
    DigitsArePlain(total / 60);
    DigitsArePlain(total / 60 / 60);
    TwoDigitsArePlain(total % 60);
    TwoDigitsArePlain(total / 60 % 60);
    if total < 60 {
      Two(Digits(total), "s");
    } else if total / 60 < 60 {
      Three(Digits(total / 60), "m", TwoDigits(total % 60));
      Two(Digits(total / 60) + "m" + TwoDigits(total % 60), "s");
    } else {
      Three(Digits(total / 60 / 60), "h", TwoDigits(total / 60 % 60));
      Two(Digits(total / 60 / 60) + "h" + TwoDigits(total / 60 % 60), "m");
    }
  }

  lemma UnitsArePlain()
    ensures Plain("s") && Plain("m") && Plain("h") && Plain("-") && Plain("s-") && Plain(" min")
    ensures Plain(" step") && Plain(" steps") && Plain(" ") && Plain(", ") && Plain(": ") && Plain(")")
  {
  }

  lemma RangeIsPlain(a: int, joint: string, b: int, unit: string)
    requires Plain(joint) && Plain(unit)
    ensures Plain(Decimal(a) + unit) && Plain(Decimal(a) + joint + Decimal(b) + unit)
  {
    DecimalIsPlain(a);
    DecimalIsPlain(b);
    hide Decimal, Plain;
    Two(Decimal(a), unit);
    Three(Decimal(a), joint, Decimal(b));
    Two(Decimal(a) + joint + Decimal(b), unit);
  }

  lemma WallRangeIsPlain(a: real, b: real)
    ensures Plain(WallRange(a, b))
  {
    UnitsArePlain();
    hide Decimal, Plain, Ceil, Max, Min;
    var lo, hi := Max(0.0, Min(a, b)), Max(0.0, Max(a, b));
    RangeIsPlain(lo.Floor, "-", Ceil(hi), "s");
    RangeIsPlain(lo.Floor, "s-", Ceil(hi / 60.0), " min");
    RangeIsPlain((lo / 60.0).Floor, "-", Ceil(hi / 60.0), " min");
  }

  lemma StepTextsArePlain(lo: int, hi: int)
    ensures Plain(Steps(lo)) && Plain(StepRange(lo, hi))
  {
    UnitsArePlain();
    DecimalIsPlain(lo);
    DecimalIsPlain(hi);
    hide Decimal, Plain;
    Two(Decimal(lo), " step");
    Two(Decimal(lo), " steps");
    Three(Decimal(lo), "-", Decimal(hi));
  }

  // ----- Printable text -----

  /** What `printable` is for: whatever the text holds, no control character is left. */
  lemma PrintableIsPlain(host: Host, text: string)
    requires ControlsAreOther(host)
    ensures Plain(Printable(host, text))
  {
    hide Squeeze;
    var shown := Printable(host, text);
    forall i | 0 <= i < |shown|
      ensures !Control(shown[i])
    {
      var c := Squeeze(host.space, text, false, false)[i];
      assert c in JOINERS ==> c == JOINERS[0] || c == JOINERS[1];
    }
  }

  lemma StripIsPlain(space: char -> bool, text: string)
    requires Plain(text)
    ensures Plain(Strip(space, text))
  {
    hide TrimLeft, TrimRight, Control;
    var t := TrimLeft(space, text);
    assert forall i | 0 <= i < |t| :: t[i] == text[|text| - |t| + i];
  }

  // ----- Past runs -----

  lemma WordsArePlain()
    ensures Plain("last time") && Plain("past") && Plain("past runs ") && Plain("last time:") && Plain("its steps:")
    ensures Plain(SIMILAR_HINT) && Plain("like ") && Plain(":") && Plain(" (×") && Plain(SEPARATOR) && Plain("")
  {
  }

  lemma MarkIsPlain(state: Json, level: int)
    ensures Plain(ItemMark(state, level))
  {
  }

  lemma PastFactsArePlain(past: Json, level: int, hint: Option<string>)
    requires PlainIfAny(hint)
    ensures PlainIfAny(PastFacts(past, level, hint).steps) && PlainIfAny(PastFacts(past, level, hint).times)
  {
    if past.Map? {
      WordsArePlain();
      UnitsArePlain();
      hide Plain, WallRange, RunElapsed, Steps, StepRange, AsInt, AsNumber;
      var m := past.entries;
      var lo, hi := AsNumber(Get(m, "wall_lo_s")), AsNumber(Get(m, "wall_hi_s"));
      if lo.Some? && hi.Some? {
        WallRangeIsPlain(lo.value, hi.value);
        Two("past runs ", WallRange(lo.value, hi.value));
      }
      var wall := OrElse(AsNumber(Get(m, "last_wall_s")), AsNumber(Get(m, "wall_hi_s")));
      if wall.Some? { ElapsedIsPlain(wall.value); }
      SingleRunIsPlain(m, hint);
      SeveralRunsArePlain(m, hint);
    }
  }

  lemma SingleRunIsPlain(m: map<string, Json>, hint: Option<string>)
    requires PlainIfAny(hint)
    ensures var steps := OrElse(AsInt(Get(m, "last_steps")), AsInt(Get(m, "steps_hi")));
            steps.Some? ==> Plain(HintOr(hint, "last time") + " " + Steps(steps.value))
  {
    WordsArePlain();
    UnitsArePlain();
    hide Plain, Steps, AsInt;
    var steps := OrElse(AsInt(Get(m, "last_steps")), AsInt(Get(m, "steps_hi")));
    if steps.Some? {
      StepTextsArePlain(steps.value, 0);
      Three(HintOr(hint, "last time"), " ", Steps(steps.value));
    }
  }

  lemma SeveralRunsArePlain(m: map<string, Json>, hint: Option<string>)
    requires PlainIfAny(hint)
    ensures var lo, hi := AsInt(Get(m, "steps_lo")), AsInt(Get(m, "steps_hi"));
            lo.Some? && hi.Some? ==> Plain(HintOr(hint, "past") + " " + StepRange(lo.value, hi.value) + " steps")
  {
    WordsArePlain();
    UnitsArePlain();
    hide Plain, StepRange, AsInt;
    var lo, hi := AsInt(Get(m, "steps_lo")), AsInt(Get(m, "steps_hi"));
    if lo.Some? && hi.Some? {
      StepTextsArePlain(lo.value, hi.value);
      Three(HintOr(hint, "past"), " ", StepRange(lo.value, hi.value));
      Two(HintOr(hint, "past") + " " + StepRange(lo.value, hi.value), " steps");
    }
  }

  lemma LabelIsPlain(host: Host, value: Json)
    requires ControlsAreOther(host)
    ensures Plain(LabelText(host, value))
  {
    PrintableIsPlain(host, if Truthy(value) then Spelled(host, value) else "");
    hide Plain, Printable, Spelled, Truthy;
  }

  lemma {:induction false} ShownItemsArePlain(host: Host, items: seq<Json>, level: int)
    requires ControlsAreOther(host)
    ensures AllPlain(ShownItems(host, items, level))
    decreases |items|
  {
    if items != [] {
      ShownItemsArePlain(host, items[1..], level);
      if items[0].Map? {
        WordsArePlain();
        UnitsArePlain();
        LabelIsPlain(host, Get(items[0].entries, "label"));
        hide Plain, ItemMark, AsInt, Decimal, LabelText;
        var item := items[0].entries;
        var text, repeats := LabelText(host, Get(item, "label")), IntOr0(Get(item, "repeat"));
        var mark := ItemMark(Get(item, "state"), level);
        MarkIsPlain(Get(item, "state"), level);
        DecimalIsPlain(repeats);
        Three(text, " (×", Decimal(repeats));
        Two(text + " (×" + Decimal(repeats), ")");
        var named := if repeats > 1 then text + " (×" + Decimal(repeats) + ")" else text;
        Three(named, " ", mark);
      }
    }
  }

  lemma {:induction false} JoinIsPlain(texts: seq<string>)
    requires AllPlain(texts)
    ensures Plain(Join(texts))
  {
    WordsArePlain();
    if |texts| > 1 {
      JoinIsPlain(texts[1..]);
      hide Plain;
      Three(texts[0], SEPARATOR, Join(texts[1..]));
    }
  }

  /** The facts and items of past runs hold no control character, whatever the payload holds. */
  lemma PastPartsArePlain(host: Host, payload: map<string, Json>, level: int)
    requires ControlsAreOther(host)
    ensures PlainPast(PastPartsOf(host, payload, level))
  {
    WordsArePlain();
    hide Plain, PastFacts, ShownItems, Join;
    var basis := Get(payload, "basis");
    var similar := basis.Map? && Get(basis.entries, "match") == Str("similar");
    var hint := if similar then Some(SimilarHint(host, Get(basis.entries, "title"))) else None;
    if similar { HintIsPlain(host, Get(basis.entries, "title")); }
    PastFactsArePlain(Get(payload, "past"), level, hint);
    var items := Get(payload, "items");
    if items.List? {
      ShownItemsArePlain(host, items.items, level);
      JoinIsPlain(ShownItems(host, items.items, level));
    }
  }

  lemma HintIsPlain(host: Host, title: Json)
    requires ControlsAreOther(host)
    ensures Plain(SimilarHint(host, title))
  {
    WordsArePlain();
    hide Plain, Printable, Strip;
    if title.Str? {
      PrintableIsPlain(host, title.s);
      var text := Strip(host.space, Printable(host, title.s));
      StripIsPlain(host.space, Printable(host, title.s));
      Three("like ", text, ":");
    }
  }

  // ----- The line -----

  lemma AllOfTwo(a: seq<string>, b: seq<string>)
    requires AllPlain(a) && AllPlain(b)
    ensures AllPlain(a + b)
  {
    hide Plain;
  }

  lemma PastTextIsPlain(p: PastParts, dropped: seq<Part>)
    requires PlainPast(p)
    ensures Plain(PastText(p, dropped))
  {
    WordsArePlain();
    UnitsArePlain();
    hide Plain;
    if p.steps.Some? && p.times.Some? { Three(p.steps.value, ", ", p.times.value); }
  }

  lemma PastSegmentsArePlain(p: PastParts, dropped: seq<Part>)
    requires PlainPast(p)
    ensures AllPlain(PastSegments(p, dropped))
  {
    UnitsArePlain();
    hide Plain, PastText;
    PastTextIsPlain(p, dropped);
    if p.items.Some? {
      Three(PastText(p, dropped), ": ", p.items.value);
      if p.itemsTitle.Some? { Three(p.itemsTitle.value, " ", p.items.value); }
    }
  }

  lemma FrontIsPlain(p: Parts, dropped: seq<Part>)
    requires PlainParts(p)
    ensures AllPlain(FrontSegments(p, dropped))
  {
    var attempt, tests := Kept(p.attempt, Attempt, dropped), Kept(p.tests, Tests, dropped);
    assert AllPlain(attempt) && AllPlain(tests) && AllPlain([p.elapsed]);
    hide AllPlain, Kept;
    AllOfTwo(p.head, attempt);
    AllOfTwo(p.head + attempt, p.facts);
    AllOfTwo(p.head + attempt + p.facts, tests);
    AllOfTwo(p.head + attempt + p.facts + tests, [p.elapsed]);
  }

  lemma CutIsPlain(cells: char -> nat, text: string, width: int)
    requires Plain(text)
    ensures Plain(Cut(cells, text, width))
  {
    hide Width;
  }

  lemma ComposedIsPlain(host: Host, p: Parts, payload: map<string, Json>, level: int, dropped: seq<Part>, width: int)
    requires ControlsAreOther(host) && PlainParts(p) && p.past == PastPartsOf(host, payload, level)
    ensures Plain(Cut(host.cells, Compose(p, dropped), width))
  {
    hide PlainParts, PlainPast, AllPlain, Plain, Cut, PastPartsOf, FrontSegments, PastSegments, Join;
    PastPartsArePlain(host, payload, level);
    FrontIsPlain(p, dropped);
    PastSegmentsArePlain(p.past, dropped);
    AllOfTwo(FrontSegments(p, dropped), PastSegments(p.past, dropped));
    JoinIsPlain(FrontSegments(p, dropped) + PastSegments(p.past, dropped));
    CutIsPlain(host.cells, Compose(p, dropped), width);
  }

  // ----- The other parts -----

  lemma HeadWordsArePlain()
    ensures Plain("starting") && Plain("step ") && Plain(" of ") && Plain(" of ~") && Plain("100%") && Plain("%")
    ensures Plain(" paused at ") && Plain(" stopped at ") && Plain("longer than usual") && Plain(" (past ")
    ensures Plain("retrying") && Plain("stuck") && Plain(" ") && Plain(", ") && Plain(")") && Plain("")
  {
  }

  lemma BarIsPlain(fraction: real, complete: bool)
    ensures Plain(Bar(fraction, complete))
  {
    hide BarOf;
  }

  lemma PercentIsPlain(fraction: real, complete: bool)
    ensures Plain(PercentText(fraction, complete))
  {
    HeadWordsArePlain();
    DigitsArePlain(BarPercent(fraction));
    hide Plain, Digits, BarPercent;
    Two(Digits(BarPercent(fraction)), "%");
  }

  lemma StepTextIsPlain(step: int)
    ensures Plain(StepText(step))
  {
    HeadWordsArePlain();
    DecimalIsPlain(step);
    hide Plain, Decimal;
    Two("step ", Decimal(step));
  }

  lemma ReasonIsPlain(host: Host, payload: map<string, Json>, reason: Json)
    requires ControlsAreOther(host)
    ensures Plain(Reason(host, payload, reason))
  {
    HeadWordsArePlain();
    PrintableIsPlain(host, Spelled(host, reason));
    hide Plain, StepRange, AsInt, Printable, Spelled;
    var past := Get(payload, "past");
    var m := if past.Map? then past.entries else map[];
    var lo, hi := AsInt(Get(m, "steps_lo")), AsInt(Get(m, "steps_hi"));
    if lo.Some? && hi.Some? {
      StepTextsArePlain(lo.value, hi.value);
      Three(" (past ", StepRange(lo.value, hi.value), ")");
      Two("longer than usual", " (past " + StepRange(lo.value, hi.value) + ")");
    }
    Two("longer than usual", "");
  }

  lemma LimitIsPlain(step: int, word: string, limit: int)
    requires Plain(word)
    ensures Plain(StepText(step) + (word + Decimal(limit))) && Plain(StepText(step) + "")
  {
    StepTextIsPlain(step);
    DecimalIsPlain(limit);
    HeadWordsArePlain();
    hide Plain, StepText, Decimal;
    Two(word, Decimal(limit));
    Two(StepText(step), word + Decimal(limit));
    Two(StepText(step), "");
  }

  lemma HeadIsPlain(host: Host, payload: map<string, Json>, level: int, step: int)
    requires ControlsAreOther(host)
    ensures AllPlain(Head(host, payload, level, step))
  {
    var fraction, limit := AsNumber(Get(payload, "fraction")), StepLimit(payload);
    var expected, reason := AsInt(Get(payload, "expected_steps")), Get(payload, "off_reason");
    HeadWordsArePlain();
    StepTextIsPlain(step);
    ReasonIsPlain(host, payload, reason);
    LimitIsPlain(step, " of ", if limit.Some? then limit.value else 0);
    LimitIsPlain(step, " of ~", if expected.Some? then expected.value else 0);
    hide Plain, Bar, PercentText, StepText, StepLimit, AsInt, AsNumber, Reason, Truthy, Decimal;
    Three(StepText(step), ", ", Reason(host, payload, reason));
    if fraction.Some? {
      var complete := Get(payload, "state") == Str("ended") && fraction.value >= 1.0;
      BarIsPlain(fraction.value, complete);
      PercentIsPlain(fraction.value, complete);
      var bar, percent := Bar(fraction.value, complete), PercentText(fraction.value, complete);
      Three(bar, " paused at ", percent);
      Three(bar, " stopped at ", percent);
      Three(bar, " ", percent);
    }
  }

  lemma ToolTimeIsPlain(seconds: real)
    ensures Plain(ToolElapsed(seconds))
  {
    var t := Truncated(seconds);
    var total: nat := if t > 0 then t else 0;
    var minutes := total / 60;
    ColonIsPlain();
    DigitsArePlain(minutes);
    DigitsArePlain(minutes / 60);
    TwoDigitsArePlain(minutes % 60);
    TwoDigitsArePlain(total % 60);
    hide Plain, Digits, TwoDigits, Truncated;
    Three(Digits(minutes), ":", TwoDigits(total % 60));
    Three(Digits(minutes / 60), ":", TwoDigits(minutes % 60));
    Three(Digits(minutes / 60) + ":" + TwoDigits(minutes % 60), ":", TwoDigits(total % 60));
  }

  lemma ColonIsPlain()
    ensures Plain(":") && Plain(" (cycle ") && Plain("tests ") && Plain("/") && Plain("attempt ")
  {
  }

  lemma FactsArePlain(host: Host, payload: map<string, Json>, tool: Option<Tool>, now: real)
    requires ControlsAreOther(host)
    ensures AllPlain(Facts(host, payload, tool, now))
  {
    var phase, cycle := Get(payload, "phase"), IntOr0(Get(payload, "cycle"));
    HeadWordsArePlain();
    ColonIsPlain();
    DecimalIsPlain(cycle);
    hide Plain, Decimal, ToolElapsed, IntOr0, Printable;
    if phase.Str? {
      PrintableIsPlain(host, phase.s);
      var text := Printable(host, phase.s);
      Three(" (cycle ", Decimal(cycle), ")");
      Two(text, " (cycle " + Decimal(cycle) + ")");
      Two(text, "");
    }
    if tool.Some? {
      PrintableIsPlain(host, tool.value.name);
      ToolTimeIsPlain(now - tool.value.started);
      Three(Printable(host, tool.value.name), " ", ToolElapsed(now - tool.value.started));
    }
  }

  lemma TestsArePlain(payload: map<string, Json>)
    ensures PlainIfAny(TestsText(payload))
  {
    ColonIsPlain();
    var tests := Get(payload, "tests");
    if tests.Map? {
      var passed, total := AsInt(Get(tests.entries, "passed")), AsInt(Get(tests.entries, "total"));
      if passed.Some? && total.Some? {
        DecimalIsPlain(passed.value);
        DecimalIsPlain(total.value);
        hide Plain, Decimal;
        Three("tests ", Decimal(passed.value), "/");
        Two("tests " + Decimal(passed.value) + "/", Decimal(total.value));
      }
    }
  }

  lemma AttemptIsPlain(attempt: int)
    ensures Plain("attempt " + Decimal(attempt))
  {
    ColonIsPlain();
    DecimalIsPlain(attempt);
    hide Plain, Decimal;
    Two("attempt ", Decimal(attempt));
  }

  lemma PartsArePlain(host: Host, payload: Json, tool: Option<Tool>, now: real, started: real)
    requires ControlsAreOther(host)
    ensures PlainParts(PartsOf(host, payload, tool, now, started))
  {
    hide AllPlain, Plain, ControlsAreOther, Head, Facts, TestsText, RunElapsed, Decimal, PastPartsOf, IntOr0;
    var m := if payload.Map? then payload.entries else map[];
    var level, step, attempt := IntOr0(Get(m, "level")), IntOr0(Get(m, "step")), IntOr0(Get(m, "attempt"));
    HeadIsPlain(host, m, level, step);
    FactsArePlain(host, m, tool, now);
    TestsArePlain(m);
    ElapsedIsPlain(now - started);
    AttemptIsPlain(attempt);
  }

  /** Every line drawn holds no control character, whatever the payload, the tool, the clock, the width and the parts
      left out. */
  lemma EveryLineIsPlain(host: Host, payload: Json, tool: Option<Tool>, now: real, started: real,
                         dropped: seq<Part>, width: int)
    requires ControlsAreOther(host)
    ensures Plain(Cut(host.cells, Compose(PartsOf(host, payload, tool, now, started), dropped), width))
  {
    PartsArePlain(host, payload, tool, now, started);
    var m := if payload.Map? then payload.entries else map[];
    hide Plain, Cut, Compose, PlainParts, Head, Facts, TestsText, RunElapsed, PastPartsOf, IntOr0, ControlsAreOther;
    ComposedIsPlain(host, PartsOf(host, payload, tool, now, started), m, IntOr0(Get(m, "level")), dropped, width);
  }
}
