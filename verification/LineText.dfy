/** The text of the progress line: its parts, what is left out while it is too wide, and the cut that remains. */
module LineText {
  import opened Numerals
  import opened Options
  import opened Reals
  import opened Trimming

  datatype Json =
    | Null
    | Bool(b: bool)
    | Int(i: int)
    | Float(r: real)
    | NotFinite
    | Str(s: string)
    | List(items: seq<Json>)
    | Map(entries: map<string, Json>)

  /** What the host knows: the cells of a character, which characters are blanks, which have one of the "other"
      categories of Unicode, control and format characters among them, and how a value that is no text is spelled. */
  datatype Host = Host(cells: char -> nat, space: char -> bool, other: char -> bool, spelled: Json -> string)

  const SEPARATOR: string := " · "
  const MARK: char := '…'
  const SIMILAR_HINT: string := "like a similar task:"

  /** The zero-width non-joiner and joiner. */
  const JOINERS: string := "\U{200c}\U{200d}"

  datatype Part = PastTimes | Tests | Items | Attempt

  const DROP_ORDER: seq<Part> := [PastTimes, Tests, Items, Attempt]
  /** The order of `format_past`. */
  const PAST_ORDER: seq<Part> := [PastTimes, Items]

  // ----- Printable text -----

  /** The words of `text` with one blank between: `started` once a word was met, `due` when a blank is owed. */
  function Squeeze(space: char -> bool, text: string, started: bool, due: bool): string {
    if text == "" then ""
    else if space(text[0]) then Squeeze(space, text[1..], started, started)
    else (if due then " " else "") + [text[0]] + Squeeze(space, text[1..], true, false)
  }

  function Masked(host: Host, text: string): string {
    seq(|text|, i requires 0 <= i < |text| => if text[i] !in JOINERS && host.other(text[i]) then '?' else text[i])
  }

  /** `printable`: one row, with control and format characters as question marks. */
  function Printable(host: Host, text: string): string {
    Masked(host, Squeeze(host.space, text, false, false))
  }

  function Spelled(host: Host, v: Json): string {
    if v.Str? then v.s else host.spelled(v)
  }

  predicate Truthy(v: Json) {
    match v
    case Null => false
    case Bool(b) => b
    case Int(i) => i != 0
    case Float(r) => r != 0.0
    case NotFinite => true
    case Str(s) => s != ""
    case List(items) => items != []
    case Map(entries) => entries != map[]
  }

  function LabelText(host: Host, value: Json): string {
    Printable(host, if Truthy(value) then Spelled(host, value) else "")
  }

  // ----- Widths -----

  function Width(cells: char -> nat, text: string): nat {
    if text == "" then 0 else cells(text[0]) + Width(cells, text[1..])
  }

  lemma {:induction false} WidthAppend(cells: char -> nat, a: string, b: string)
    ensures Width(cells, a + b) == Width(cells, a) + Width(cells, b)
    decreases |a|
  {
    if a == "" {
      assert a + b == b;
    } else {
      assert (a + b)[1..] == a[1..] + b;
      WidthAppend(cells, a[1..], b);
    }
  }

  lemma WidthOfPrefix(cells: char -> nat, text: string, n: nat)
    requires n <= |text|
    ensures Width(cells, text[..n]) <= Width(cells, text)
    ensures n < |text| ==> Width(cells, text[..n + 1]) == Width(cells, text[..n]) + cells(text[n])
  {
    WidthAppend(cells, text[..n], text[n..]);
    assert text == text[..n] + text[n..];
    if n < |text| {
      assert [text[n]][1..] == "";
      assert Width(cells, [text[n]]) == cells(text[n]);
      hide Width;
      WidthAppend(cells, text[..n], [text[n]]);
      assert text[..n + 1] == text[..n] + [text[n]];
    }
  }

  /** How many characters of `text` fit `room` cells, from its start to the first that does not. */
  function Fitting(cells: char -> nat, text: string, room: nat): (n: nat)
    ensures n <= |text|
  {
    if text == "" || cells(text[0]) > room then 0 else 1 + Fitting(cells, text[1..], room - cells(text[0]))
  }

  function Cut(cells: char -> nat, text: string, width: int): string {
    if Width(cells, text) <= width then text
    else if width < cells(MARK) then ""
    else text[..Fitting(cells, text, width - cells(MARK))] + [MARK]
  }

  lemma {:induction false} FittingIsLongest(cells: char -> nat, text: string, room: nat)
    ensures var n := Fitting(cells, text, room);
            && Width(cells, text[..n]) <= room
            && (forall m | n < m <= |text| :: Width(cells, text[..m]) > room)
    decreases |text|
  {
    if text == "" {
    } else if cells(text[0]) > room {
      forall m | 0 < m <= |text| ensures Width(cells, text[..m]) > room {
        assert text[..m][0] == text[0];
      }
    } else {
      var n := Fitting(cells, text[1..], room - cells(text[0]));
      FittingIsLongest(cells, text[1..], room - cells(text[0]));
      assert text[..n + 1][1..] == text[1..][..n];
      forall m | n + 1 < m <= |text| ensures Width(cells, text[..m]) > room {
        assert text[..m][1..] == text[1..][..m - 1];
        assert text[..m][0] == text[0];
      }
    }
  }

  /** The cut fits; it changes nothing that fits; what it does cut keeps every character that fits beside the mark,
      and is nothing at all only where the mark alone is too wide. */
  lemma CutFits(cells: char -> nat, text: string, width: nat)
    ensures var line := Cut(cells, text, width);
            && Width(cells, line) <= width
            && (Width(cells, text) <= width ==> line == text)
            && (Width(cells, text) > width >= cells(MARK) ==>
                  exists n | 0 <= n <= |text| :: line == text[..n] + [MARK] && CutIsLongest(cells, text, n, width))
  {
    if Width(cells, text) > width >= cells(MARK) {
      var room := width - cells(MARK);
      var n := Fitting(cells, text, room);
      FittingIsLongest(cells, text, room);
      WidthAppend(cells, text[..n], [MARK]);
      assert [MARK][1..] == "";
      assert CutIsLongest(cells, text, n, width);
    }
  }

  predicate CutIsLongest(cells: char -> nat, text: string, n: nat, width: nat) {
    && n <= |text|
    && Width(cells, text[..n]) + cells(MARK) <= width
    && (forall m | n < m <= |text| :: Width(cells, text[..m]) + cells(MARK) > width)
  }

  /** `cut_to_width`. */
  method CutToWidth(cells: char -> nat, text: string, width: int) returns (line: string)
    ensures line == Cut(cells, text, width)
  {
    var total := DisplayWidth(cells, text);
    if total <= width { return text; }
    var mark := cells(MARK);
    if width < mark { return ""; }
    var kept, used, i := "", 0, 0;
    while i < |text|
      invariant 0 <= i <= |text| && kept == text[..i]
      invariant used == Width(cells, kept) <= width - mark
      invariant Fitting(cells, text, width - mark) == i + Fitting(cells, text[i..], width - mark - used)
    {
      var c := cells(text[i]);
      WidthOfPrefix(cells, text, i);
      assert text[i..][0] == text[i] && text[i..][1..] == text[i + 1..];
      if used + c > width - mark { break; }
      kept := kept + [text[i]];
      used := used + c;
      i := i + 1;
    }
    return kept + [MARK];
  }

  method DisplayWidth(cells: char -> nat, text: string) returns (total: nat)
    ensures total == Width(cells, text)
  {
    total := 0;
    for i := 0 to |text|
      invariant total == Width(cells, text[..i])
    {
      WidthOfPrefix(cells, text, i);
      total := total + cells(text[i]);
    }
    assert text[..|text|] == text;
  }

  // ----- The past runs of a payload -----

  function Get(m: map<string, Json>, key: string): Json {
    if key in m then m[key] else Null
  }

  function Truncated(r: real): int {
    if r >= 0.0 then r.Floor else -((-r).Floor)
  }

  /** A number as a whole one; a truth value is no number. */
  function AsInt(value: Json): Option<int> {
    match value
    case Int(i) => Some(i)
    case Float(r) => Some(Truncated(r))
    case _ => None
  }

  function AsNumber(value: Json): Option<real> {
    match value
    case Int(i) => Some(i as real)
    case Float(r) => Some(r)
    case _ => None
  }

  function TwoDigits(n: nat): string {
    if n < 10 then "0" + Digits(n) else Digits(n)
  }

  function RunElapsed(seconds: real): string {
    var t := Truncated(seconds);
    var total: nat := if t > 0 then t else 0;
    if total < 60 then Digits(total) + "s"
    else if total / 60 < 60 then Digits(total / 60) + "m" + TwoDigits(total % 60) + "s"
    else Digits(total / 60 / 60) + "h" + TwoDigits(total / 60 % 60) + "m"
  }

  function WallRange(a: real, b: real): string {
    var lo, hi := Max(0.0, Min(a, b)), Max(0.0, Max(a, b));
    if hi < 60.0 then
      if lo.Floor == Ceil(hi) then Decimal(lo.Floor) + "s"
      else Decimal(lo.Floor) + "-" + Decimal(Ceil(hi)) + "s"
    else
      var high := Ceil(hi / 60.0);
      if lo < 60.0 then Decimal(lo.Floor) + "s-" + Decimal(high) + " min"
      else
        var low := (lo / 60.0).Floor;
        if low == high then Decimal(low) + " min" else Decimal(low) + "-" + Decimal(high) + " min"
  }

  function Steps(n: int): string {
    if n == 1 then Decimal(n) + " step" else Decimal(n) + " steps"
  }

  function StepRange(lo: int, hi: int): string {
    if lo == hi then Decimal(lo) else Decimal(lo) + "-" + Decimal(hi)
  }

  /** The text of past steps, of past times, and whether they are a single past run's. */
  datatype Past = Past(steps: Option<string>, times: Option<string>, single: bool)

  const NO_PAST := Past(None, None, false)

  function OrElse<T>(a: Option<T>, b: Option<T>): Option<T> {
    if a.None? then b else a
  }

  function HintOr(hint: Option<string>, word: string): string {
    if hint.Some? && hint.value != "" then hint.value else word
  }

  function IntOr0(value: Json): int {
    match AsInt(value) case Some(n) => n case None => 0
  }

  /** `past_facts`. */
  function PastFacts(past: Json, level: int, hint: Option<string>): Past {
    if !past.Map? then NO_PAST
    else
      var m := past.entries;
      var lo, hi := AsNumber(Get(m, "wall_lo_s")), AsNumber(Get(m, "wall_hi_s"));
      if level >= 2 then
        Past(None, if lo.None? || hi.None? then None else Some("past runs " + WallRange(lo.value, hi.value)), false)
      else if IntOr0(Get(m, "runs")) <= 1 then
        var steps := OrElse(AsInt(Get(m, "last_steps")), AsInt(Get(m, "steps_hi")));
        var wall := OrElse(AsNumber(Get(m, "last_wall_s")), AsNumber(Get(m, "wall_hi_s")));
        if steps.None? then NO_PAST
        else Past(Some(HintOr(hint, "last time") + " " + Steps(steps.value)),
                  match wall case None => None case Some(w) => Some(RunElapsed(w)), true)
      else
        var loSteps, hiSteps := AsInt(Get(m, "steps_lo")), AsInt(Get(m, "steps_hi"));
        if loSteps.None? || hiSteps.None? then NO_PAST
        else Past(Some(HintOr(hint, "past") + " " + StepRange(loSteps.value, hiSteps.value) + " steps"),
                  if lo.None? || hi.None? then None else Some(WallRange(lo.value, hi.value)), false)
  }

  function ItemMark(state: Json, level: int): string {
    if !state.Str? || (level < 2 && state.s == "pending") then ""
    else if state.s == "done" then "✓"
    else if state.s == "current" then "◐"
    else if state.s == "skipped" then "–"
    else if state.s == "pending" then "○"
    else ""
  }

  function ShownItems(host: Host, items: seq<Json>, level: int): seq<string> {
    if items == [] then []
    else
      var rest := ShownItems(host, items[1..], level);
      if !items[0].Map? then rest
      else
        var item := items[0].entries;
        var text := LabelText(host, Get(item, "label"));
        if text == "" then rest
        else
          var repeats := IntOr0(Get(item, "repeat"));
          var named := if repeats > 1 then text + " (×" + Decimal(repeats) + ")" else text;
          var mark := ItemMark(Get(item, "state"), level);
          [if mark == "" then named else named + " " + mark] + rest
  }

  /** `items_text`; nothing to show is None. */
  function ItemsText(host: Host, items: Json, level: int): Option<string> {
    if !items.List? then None
    else
      var text := Join(ShownItems(host, items.items, level));
      if text == "" then None else Some(text)
  }

  /** What `_past_parts` gives. */
  datatype PastParts = PastParts(steps: Option<string>, times: Option<string>, items: Option<string>,
                                 itemsTitle: Option<string>, merge: bool)

  function SimilarHint(host: Host, title: Json): string {
    var text := if title.Str? then Strip(host.space, Printable(host, title.s)) else "";
    if text != "" then "like " + text + ":" else SIMILAR_HINT
  }

  function Shown(text: Option<string>): bool {
    text.Some? && text.value != ""
  }

  function PastPartsOf(host: Host, payload: map<string, Json>, level: int): PastParts {
    var basis := Get(payload, "basis");
    var similar := basis.Map? && Get(basis.entries, "match") == Str("similar");
    var hint := if similar then Some(SimilarHint(host, Get(basis.entries, "title"))) else None;
    var past := if level >= 1 then PastFacts(Get(payload, "past"), level, hint) else NO_PAST;
    var items := if level >= 1 then ItemsText(host, Get(payload, "items"), level) else None;
    var title := if level != 1 then None
                 else if !similar then Some("last time:")
                 else if Shown(past.steps) then Some("its steps:") else hint;
    PastParts(past.steps, past.times, items, title, past.single && level == 1)
  }

  // ----- Putting the line together -----

  /** `head`, `attempt`, `facts`, `tests` and `elapsed` come from the rest of the payload and the clock. */
  datatype Parts = Parts(head: seq<string>, attempt: Option<string>, facts: seq<string>, tests: Option<string>,
                         elapsed: string, past: PastParts)

  function Join(parts: seq<string>): string {
    if parts == [] then ""
    else if |parts| == 1 then parts[0]
    else parts[0] + SEPARATOR + Join(parts[1..])
  }

  function Kept(text: Option<string>, part: Part, dropped: seq<Part>): seq<string> {
    if Shown(text) && part !in dropped then [text.value] else []
  }

  /** The past facts as one text, empty when there are none. */
  function PastText(p: PastParts, dropped: seq<Part>): string {
    var steps := if p.steps.Some? then p.steps.value else "";
    if Shown(p.times) && PastTimes !in dropped then
      if steps != "" then steps + ", " + p.times.value else p.times.value
    else steps
  }

  function TitledItems(p: PastParts): string
    requires p.items.Some?
  {
    if Shown(p.itemsTitle) then p.itemsTitle.value + " " + p.items.value else p.items.value
  }

  function PastSegments(p: PastParts, dropped: seq<Part>): seq<string> {
    var past := PastText(p, dropped);
    var items := Shown(p.items) && Items !in dropped;
    if items && p.merge && past != "" then [past + ": " + p.items.value]
    else (if past != "" then [past] else []) + (if items then [TitledItems(p)] else [])
  }

  function FrontSegments(p: Parts, dropped: seq<Part>): seq<string> {
    p.head + Kept(p.attempt, Attempt, dropped) + p.facts + Kept(p.tests, Tests, dropped) + [p.elapsed]
  }

  function Compose(p: Parts, dropped: seq<Part>): string {
    Join(FrontSegments(p, dropped) + PastSegments(p.past, dropped))
  }

  /** The first of the texts from `k` on that fits, or the last. */
  function FirstToFit(cells: char -> nat, texts: seq<string>, budget: nat, k: nat): (n: nat)
    requires k < |texts|
    ensures k <= n < |texts|
    decreases |texts| - k
  {
    if k + 1 == |texts| || Width(cells, texts[k]) <= budget then k else FirstToFit(cells, texts, budget, k + 1)
  }

  /** The line after no drop, one, and so on to all. */
  function LineTexts(p: Parts): (texts: seq<string>)
    ensures |texts| == |DROP_ORDER| + 1
    ensures forall k | 0 <= k <= |DROP_ORDER| :: texts[k] == Compose(p, DROP_ORDER[..k])
  {
    seq(|DROP_ORDER| + 1, k requires 0 <= k <= |DROP_ORDER| => Compose(p, DROP_ORDER[..k]))
  }

  /** How many drops are made: the fewest after which the line fits, or all. */
  function Drops(cells: char -> nat, p: Parts, budget: nat): (n: nat)
    ensures n <= |DROP_ORDER|
  {
    FirstToFit(cells, LineTexts(p), budget, 0)
  }

  function Budget(width: int): nat {
    if width > 1 then width else 1
  }

  /** `format_line` on the parts, without its colour. */
  method FormatLine(host: Host, p: Parts, width: int) returns (line: string)
    ensures var k := Drops(host.cells, p, Budget(width));
            line == Cut(host.cells, Compose(p, DROP_ORDER[..k]), Budget(width))
  {
    hide Compose, Cut, Width;
    ghost var texts := LineTexts(p);
    var budget := Budget(width);
    var dropped: seq<Part> := [];
    line := Compose(p, dropped);
    for k := 0 to |DROP_ORDER|
      invariant dropped == DROP_ORDER[..k] && line == texts[k]
      invariant FirstToFit(host.cells, texts, budget, 0) == FirstToFit(host.cells, texts, budget, k)
    {
      var w := DisplayWidth(host.cells, line);
      if w <= budget { break; }
      assert DROP_ORDER[..k + 1] == DROP_ORDER[..k] + [DROP_ORDER[k]];
      dropped := dropped + [DROP_ORDER[k]];
      line := Compose(p, dropped);
    }
    line := CutToWidth(host.cells, line, budget);
  }

  // ----- What leaving a part out does to the width -----

  /** The cells of a list of segments, counting a separator after each. */
  function Cost(cells: char -> nat, segments: seq<string>): nat {
    if segments == [] then 0
    else Width(cells, segments[0]) + Width(cells, SEPARATOR) + Cost(cells, segments[1..])
  }

  lemma {:induction false} CostAppend(cells: char -> nat, a: seq<string>, b: seq<string>)
    ensures Cost(cells, a + b) == Cost(cells, a) + Cost(cells, b)
    decreases |a|
  {
    if a == [] {
      assert a + b == b;
    } else {
      assert (a + b)[1..] == a[1..] + b;
      CostAppend(cells, a[1..], b);
    }
  }

  lemma {:induction false} CostOfJoin(cells: char -> nat, segments: seq<string>)
    requires segments != []
    ensures Width(cells, Join(segments)) + Width(cells, SEPARATOR) == Cost(cells, segments)
    decreases |segments|
  {
    if |segments| == 1 {
      assert segments[1..] == [];
    } else {
      CostOfJoin(cells, segments[1..]);
      WidthAppend(cells, segments[0] + SEPARATOR, Join(segments[1..]));
      WidthAppend(cells, segments[0], SEPARATOR);
    }
  }

  lemma CostOfOne(cells: char -> nat, text: string)
    ensures Cost(cells, [text]) == Width(cells, text) + Width(cells, SEPARATOR)
  {
    assert [text][1..] == [];
  }

  /** Only a single past run's items are merged with its facts, and those facts have a steps text. */
  predicate Mergeable(p: PastParts) {
    p.merge ==> Shown(p.steps)
  }

  lemma PastTextNarrows(cells: char -> nat, p: PastParts, dropped: seq<Part>, part: Part)
    ensures Width(cells, PastText(p, dropped + [part])) <= Width(cells, PastText(p, dropped))
    ensures PastText(p, dropped) == "" ==> PastText(p, dropped + [part]) == ""
    ensures Shown(p.steps) ==> PastText(p, dropped + [part]) != ""
  {
    if Shown(p.times) && Shown(p.steps) {
      WidthAppend(cells, p.steps.value + ", ", p.times.value);
      WidthAppend(cells, p.steps.value, ", ");
    }
  }

  lemma PastSegmentsNarrow(cells: char -> nat, p: PastParts, dropped: seq<Part>, part: Part)
    requires Mergeable(p)
    ensures Cost(cells, PastSegments(p, dropped + [part])) <= Cost(cells, PastSegments(p, dropped))
  {
    var before, after := PastText(p, dropped), PastText(p, dropped + [part]);
    PastTextNarrows(cells, p, dropped, part);
    CostOfOne(cells, before);
    CostOfOne(cells, after);
    if Shown(p.items) {
      var items := p.items.value;
      CostOfOne(cells, TitledItems(p));
      CostOfOne(cells, before + ": " + items);
      CostOfOne(cells, after + ": " + items);
      WidthAppend(cells, before + ": ", items);
      WidthAppend(cells, before, ": ");
      WidthAppend(cells, after + ": ", items);
      WidthAppend(cells, after, ": ");
      CostAppend(cells, [before], [TitledItems(p)]);
      CostAppend(cells, [after], [TitledItems(p)]);
    }
    assert [before] + [] == [before] && [after] + [] == [after];
    hide Width, PastText, TitledItems;
  }

  lemma KeptNarrows(cells: char -> nat, text: Option<string>, mine: Part, dropped: seq<Part>, part: Part)
    ensures Cost(cells, Kept(text, mine, dropped + [part])) <= Cost(cells, Kept(text, mine, dropped))
  {
  }

  lemma FrontCost(cells: char -> nat, p: Parts, dropped: seq<Part>)
    ensures Cost(cells, FrontSegments(p, dropped))
         == Cost(cells, p.head) + Cost(cells, Kept(p.attempt, Attempt, dropped)) + Cost(cells, p.facts)
            + Cost(cells, Kept(p.tests, Tests, dropped)) + Cost(cells, [p.elapsed])
  {
    var a, t := Kept(p.attempt, Attempt, dropped), Kept(p.tests, Tests, dropped);
    CostAppend(cells, p.head + a + p.facts + t, [p.elapsed]);
    CostAppend(cells, p.head + a + p.facts, t);
    CostAppend(cells, p.head + a, p.facts);
    CostAppend(cells, p.head, a);
  }

  /** Leaving out one more part, whichever it is and whatever is out already, never widens a line whose merged
      items have a steps text to follow. */
  lemma DropNeverWidens(cells: char -> nat, p: Parts, dropped: seq<Part>, part: Part)
    requires Mergeable(p.past)
    ensures Width(cells, Compose(p, dropped + [part])) <= Width(cells, Compose(p, dropped))
  {
    FrontCost(cells, p, dropped);
    FrontCost(cells, p, dropped + [part]);
    KeptNarrows(cells, p.attempt, Attempt, dropped, part);
    KeptNarrows(cells, p.tests, Tests, dropped, part);
    PastSegmentsNarrow(cells, p.past, dropped, part);
    var f, g := FrontSegments(p, dropped), FrontSegments(p, dropped + [part]);
    CostAppend(cells, f, PastSegments(p.past, dropped));
    CostAppend(cells, g, PastSegments(p.past, dropped + [part]));
    CostOfJoin(cells, f + PastSegments(p.past, dropped));
    CostOfJoin(cells, g + PastSegments(p.past, dropped + [part]));
    hide Cost, Width, Join, PastSegments;
  }

  /** A payload never gives a single past run without its steps text, whatever it holds. */
  lemma PayloadPartsMerge(host: Host, payload: map<string, Json>, level: int)
    ensures Mergeable(PastPartsOf(host, payload, level))
  {
  }

  /** The side condition matters: times merged with items and no steps text give a line that a drop widens. */
  lemma DropCanWidenWithoutSteps()
    ensures var cells := (c: char) => 1;
            var p := Parts(["h"], None, [], None, "9s",
                PastParts(None, Some("9s"), Some("x"), Some("last time:"), true));
            Width(cells, Compose(p, [PastTimes])) > Width(cells, Compose(p, []))
  {
    var cells := (c: char) => 1;
    var past := PastParts(None, Some("9s"), Some("x"), Some("last time:"), true);
    var p := Parts(["h"], None, [], None, "9s", past);
    assert FrontSegments(p, []) == FrontSegments(p, [PastTimes]);
    var f := FrontSegments(p, []);
    assert "9s" + ": " + "x" == "9s: x" && "last time:" + " " + "x" == "last time: x";
    assert PastText(past, []) == "9s" && PastText(past, [PastTimes]) == "";
    assert PastSegments(past, []) == ["9s: x"];
    assert PastSegments(past, [PastTimes]) == ["last time: x"] by {
      assert [] + ["last time: x"] == ["last time: x"];
    }
    CostOfJoin(cells, f + ["9s: x"]);
    CostOfJoin(cells, f + ["last time: x"]);
    CostAppend(cells, f, ["9s: x"]);
    CostAppend(cells, f, ["last time: x"]);
    CostOfOne(cells, "9s: x");
    CostOfOne(cells, "last time: x");
    AllOnes("9s: x");
    AllOnes("last time: x");
  }

  lemma {:induction false} AllOnes(text: string)
    ensures Width((c: char) => 1, text) == |text|
    decreases |text|
  {
    if text != "" {
      AllOnes(text[1..]);
    }
  }

  lemma {:induction false} FirstIsFirst(cells: char -> nat, texts: seq<string>, budget: nat, k: nat)
    requires k < |texts|
    ensures var n := FirstToFit(cells, texts, budget, k);
            && (forall j | k <= j < n :: Width(cells, texts[j]) > budget)
            && (n + 1 < |texts| ==> Width(cells, texts[n]) <= budget)
    decreases |texts| - k
  {
    hide Width;
    if k + 1 < |texts| && Width(cells, texts[k]) > budget {
      FirstIsFirst(cells, texts, budget, k + 1);
    }
  }

  /** The loop stops at the fewest drops that fit, or after all. */
  lemma DropsAreFewest(cells: char -> nat, p: Parts, budget: nat)
    ensures var n := Drops(cells, p, budget);
            && (forall j | 0 <= j < n :: Width(cells, Compose(p, DROP_ORDER[..j])) > budget)
            && (n < |DROP_ORDER| ==> Width(cells, Compose(p, DROP_ORDER[..n])) <= budget)
  {
    hide Compose, Width, FirstToFit;
    FirstIsFirst(cells, LineTexts(p), budget, 0);
  }

  /** Along the drop order the line only gets narrower. */
  lemma {:induction false} LaterIsNarrower(cells: char -> nat, p: Parts, j: nat, k: nat)
    requires Mergeable(p.past) && j <= k <= |DROP_ORDER|
    ensures Width(cells, Compose(p, DROP_ORDER[..k])) <= Width(cells, Compose(p, DROP_ORDER[..j]))
    decreases k - j
  {
    hide Compose, Width, Mergeable;
    if j < k {
      LaterIsNarrower(cells, p, j, k - 1);
      assert DROP_ORDER[..k] == DROP_ORDER[..k - 1] + [DROP_ORDER[k - 1]];
      DropNeverWidens(cells, p, DROP_ORDER[..k - 1], DROP_ORDER[k - 1]);
    }
  }

  /** The line of a payload: it fits; where any number of drops fits, it is the whole text after the fewest drops
      that do, and no drop more would help less; it is cut only when all four drops are too wide. */
  lemma LineFits(host: Host, p: Parts, payload: map<string, Json>, level: int, width: int)
    requires p.past == PastPartsOf(host, payload, level)
    ensures var budget := Budget(width);
            var k := Drops(host.cells, p, budget);
            var text := Compose(p, DROP_ORDER[..k]);
            var line := Cut(host.cells, text, budget);
            && Width(host.cells, line) <= budget
            && (forall j | 0 <= j < k :: Width(host.cells, Compose(p, DROP_ORDER[..j])) > budget)
            && (line == text || Width(host.cells, Compose(p, DROP_ORDER)) > budget)
            && (forall j | 0 <= j <= |DROP_ORDER| :: Width(host.cells, Compose(p, DROP_ORDER[..j])) <= budget
                                                     ==> k <= j && line == text)
  {
    hide Compose, Cut, Width, PastPartsOf, Drops;
    var budget := Budget(width);
    var k := Drops(host.cells, p, budget);
    PayloadPartsMerge(host, payload, level);
    DropsAreFewest(host.cells, p, budget);
    assert DROP_ORDER[..|DROP_ORDER|] == DROP_ORDER;
    CutFits(host.cells, Compose(p, DROP_ORDER[..k]), budget);
    forall j | 0 <= j <= |DROP_ORDER| ensures Width(host.cells, Compose(p, DROP_ORDER))
                                           <= Width(host.cells, Compose(p, DROP_ORDER[..j])) {
      LaterIsNarrower(host.cells, p, j, |DROP_ORDER|);
    }
  }

  // ----- The past segment on its own -----

  function ComposePast(p: PastParts, dropped: seq<Part>): string {
    Join(PastSegments(p, dropped))
  }

  function PastTexts(p: PastParts): (texts: seq<string>)
    ensures |texts| == |PAST_ORDER| + 1
    ensures forall k | 0 <= k <= |PAST_ORDER| :: texts[k] == ComposePast(p, PAST_ORDER[..k])
  {
    seq(|PAST_ORDER| + 1, k requires 0 <= k <= |PAST_ORDER| => ComposePast(p, PAST_ORDER[..k]))
  }

  function PastDrops(cells: char -> nat, p: PastParts, budget: nat): (n: nat)
    ensures n <= |PAST_ORDER|
  {
    FirstToFit(cells, PastTexts(p), budget, 0)
  }

  /** `format_past`; a payload that is no mapping is taken as an empty one. */
  method FormatPast(host: Host, payload: Json, width: int) returns (text: string)
    ensures var m := if payload.Map? then payload.entries else map[];
            var p := PastPartsOf(host, m, IntOr0(Get(m, "level")));
            var k := PastDrops(host.cells, p, Budget(width));
            text == Cut(host.cells, ComposePast(p, PAST_ORDER[..k]), Budget(width))
  {
    var m := if payload.Map? then payload.entries else map[];
    var level := IntOr0(Get(m, "level"));
    var p := PastPartsOf(host, m, level);
    var budget := Budget(width);
    if level < 1 {
      NothingBelowOne(host, m, level, PAST_ORDER[..PastDrops(host.cells, p, budget)]);
      return "";
    }
    hide ComposePast, Cut, Width, PastPartsOf;
    ghost var texts := PastTexts(p);
    var dropped: seq<Part> := [];
    text := ComposePast(p, dropped);
    for k := 0 to |PAST_ORDER|
      invariant dropped == PAST_ORDER[..k] && text == texts[k]
      invariant FirstToFit(host.cells, texts, budget, 0) == FirstToFit(host.cells, texts, budget, k)
    {
      var w := DisplayWidth(host.cells, text);
      if w <= budget { break; }
      assert PAST_ORDER[..k + 1] == PAST_ORDER[..k] + [PAST_ORDER[k]];
      dropped := dropped + [PAST_ORDER[k]];
      text := ComposePast(p, dropped);
    }
    text := CutToWidth(host.cells, text, budget);
  }

  /** Below level 1 there is nothing to show. */
  lemma NothingBelowOne(host: Host, payload: map<string, Json>, level: int, dropped: seq<Part>)
    requires level < 1
    ensures ComposePast(PastPartsOf(host, payload, level), dropped) == ""
  {
  }

  lemma PastDropNeverWidens(cells: char -> nat, p: PastParts, dropped: seq<Part>, part: Part)
    requires Mergeable(p)
    ensures Width(cells, ComposePast(p, dropped + [part])) <= Width(cells, ComposePast(p, dropped))
  {
    var before, after := PastSegments(p, dropped), PastSegments(p, dropped + [part]);
    PastTextNarrows(cells, p, dropped, part);
    assert before == [] ==> after == [];
    PastSegmentsNarrow(cells, p, dropped, part);
    assert Width(cells, "") == 0;
    hide PastSegments, Width, Cost;
    if after != [] {
      CostOfJoin(cells, before);
      CostOfJoin(cells, after);
    }
  }

  /** What `format_past` promises: its text fits; the times go first and then the items, and no more than it takes;
      it is cut only when it is too wide without both. */
  lemma PastFits(host: Host, payload: map<string, Json>, level: int, width: int)
    ensures var p, budget := PastPartsOf(host, payload, level), Budget(width);
            var k := PastDrops(host.cells, p, budget);
            var text := ComposePast(p, PAST_ORDER[..k]);
            var line := Cut(host.cells, text, budget);
            && Width(host.cells, line) <= budget
            && (forall j | 0 <= j < k :: Width(host.cells, ComposePast(p, PAST_ORDER[..j])) > budget)
            && (line == text || Width(host.cells, ComposePast(p, PAST_ORDER)) > budget)
            && (forall j | 0 <= j <= |PAST_ORDER| :: Width(host.cells, ComposePast(p, PAST_ORDER[..j])) <= budget
                                                     ==> k <= j && line == text)
  {
    hide ComposePast, Cut, Width, PastPartsOf, FirstToFit, Mergeable;
    var p, budget := PastPartsOf(host, payload, level), Budget(width);
    var k := PastDrops(host.cells, p, budget);
    PayloadPartsMerge(host, payload, level);
    FirstIsFirst(host.cells, PastTexts(p), budget, 0);
    CutFits(host.cells, ComposePast(p, PAST_ORDER[..k]), budget);
    assert PAST_ORDER[..1] == PAST_ORDER[..0] + [PastTimes] && PAST_ORDER[..2] == PAST_ORDER[..1] + [Items];
    assert PAST_ORDER[..2] == PAST_ORDER;
    PastDropNeverWidens(host.cells, p, PAST_ORDER[..0], PastTimes);
    PastDropNeverWidens(host.cells, p, PAST_ORDER[..1], Items);
  }

  /** `format_past` gives the very segment the line ends with: whatever is left out, the line is its front, and
      after a separator the past segment if there is one. */
  lemma LineEndsWithThePast(p: Parts, dropped: seq<Part>)
    ensures Compose(p, dropped) ==
            Join(FrontSegments(p, dropped) + if PastSegments(p.past, dropped) == [] then []
                                             else [ComposePast(p.past, dropped)])
  {
    var f, s := FrontSegments(p, dropped), PastSegments(p.past, dropped);
    if s != [] {
      JoinLast(f, s);
    }
  }

  lemma {:induction false} JoinLast(front: seq<string>, last: seq<string>)
    requires last != []
    ensures Join(front + last) == Join(front + [Join(last)])
    decreases |front|
  {
    if front == [] {
      assert front + last == last && front + [Join(last)] == [Join(last)];
    } else {
      assert (front + last)[1..] == front[1..] + last;
      assert (front + [Join(last)])[1..] == front[1..] + [Join(last)];
      JoinLast(front[1..], last);
    }
  }
}
