/** The text of the settings file: the lines a configuration is saved as, and a reader of such files (TOML v1.0.0,
    sections "Keyval Pairs" and "Table"; tables at most two keys deep, no comments). */
module SettingsText {
  import opened JsonText
  import opened Options
  import opened Settings
  import opened Toml

  // ----- Writing -----

  datatype Line =
    | Empty
    | BarePair(name: string, value: Value)
    | JsonPair(name: string, value: Value)
    | QuotedPair(key: string, value: Value)
    | Header(name: string)
    | PriceHeader(model: string)

  function LineText(line: Line): string {
    match line
    case Empty => ""
    case BarePair(name, v) => name + " = " + Print(v)
    case JsonPair(name, v) => name + " = " + Json(v)
    case QuotedPair(key, v) => PrintString(key) + " = " + Print(v)
    case Header(name) => "[" + name + "]"
    case PriceHeader(model) => "[pricing." + PrintString(model) + "]"
  }

  function BarePairs(entries: seq<Entry>): seq<Line> {
    if entries == [] then [] else [BarePair(entries[0].key, entries[0].value)] + BarePairs(entries[1..])
  }

  function QuotedPairs(entries: seq<Entry>): seq<Line> {
    if entries == [] then [] else [QuotedPair(entries[0].key, entries[0].value)] + QuotedPairs(entries[1..])
  }

  function SectionLines(tables: seq<Entry>): seq<Line> {
    if tables == [] then []
    else (if tables[0].value.Table? then [Header(tables[0].key)] + BarePairs(tables[0].value.entries) + [Empty] else [])
         + SectionLines(tables[1..])
  }

  function PriceLines(prices: seq<Entry>): seq<Line> {
    if prices == [] then []
    else (if prices[0].value.Table? then [PriceHeader(prices[0].key)] + QuotedPairs(prices[0].value.entries) + [Empty]
      else [])
         + PriceLines(prices[1..])
  }

  /** The two backends are written as JSON text, the other top-level settings as values. */
  function TopLines(top: seq<Entry>): seq<Line>
    requires |top| >= 2
  {
    [JsonPair(top[0].key, top[0].value), JsonPair(top[1].key, top[1].value)] + BarePairs(top[2..])
  }

  function SaveLines(shape: Shape, c: Config): seq<Line> {
    TopLines(TopEntries(c)) + [Empty] + SectionLines(ChangedSections(c.fields, shape.sections))
        + PriceLines(Prices(c.fields))
  }

  /** The lines with newlines between them. */
  function Text(lines: seq<Line>): string {
    if lines == [] then "" else if |lines| == 1 then LineText(lines[0])
    else LineText(lines[0]) + "\n" + Text(lines[1..])
  }

  // ----- Reading -----

  datatype Statement = Pair(entry: Entry) | Open(path: seq<string>)

  /** The path of a table header after its opening bracket. */
  function ParsePath(s: string): (p: Parsed<seq<string>>)
    ensures p.Done? ==> |p.rest| < |s|
    decreases |s|
  {
    match ParseKey(SkipBlanks(s))
    case Fail => Fail
    case Done(key, after) =>
      var t := SkipBlanks(after);
      if t == "" then Fail
      else if t[0] == ']' then Done([key], t[1..])
      else if t[0] != '.' then Fail
      else match ParsePath(t[1..]) case Fail => Fail case Done(path, rest) => Done([key] + path, rest)
  }

  function ParseStatement(s: string): (p: Parsed<Statement>)
    ensures p.Done? ==> |p.rest| < |s|
  {
    if s == "" then Fail
    else if s[0] == '[' then
      match ParsePath(s[1..]) case Fail => Fail case Done(path, rest) => Done(Open(path), rest)
    else
      match ParseEntry(s) case Fail => Fail case Done(entry, rest) => Done(Pair(entry), rest)
  }

  /** One statement a line, with blank lines between. */
  function ParseDocument(s: string): Option<seq<Statement>>
    decreases |s|
  {
    var t := SkipLines(s);
    if t == "" then Some([])
    else match ParseStatement(t)
      case Fail => None
      case Done(statement, after) =>
        var u := SkipBlanks(after);
        if u != "" && u[0] != '\n' then None
        else match ParseDocument(u) case None => None case Some(more) => Some([statement] + more)
  }

  /** How many statements before the next header. */
  function PairRun(statements: seq<Statement>): (n: nat)
    ensures n <= |statements|
    ensures n < |statements| ==> statements[n].Open?
    ensures forall i | 0 <= i < n :: statements[i].Pair?
  {
    if statements == [] || statements[0].Open? then 0 else 1 + PairRun(statements[1..])
  }

  function EntriesOf(statements: seq<Statement>): seq<Entry>
    requires forall i | 0 <= i < |statements| :: statements[i].Pair?
  {
    seq(|statements|, i requires 0 <= i < |statements| => statements[i].entry)
  }

  function Replace(root: seq<Entry>, key: string, v: Value): seq<Entry> {
    if root == [] then [] else if root[0].key == key then [Entry(key, v)] + root[1..]
    else [root[0]] + Replace(root[1..], key, v)
  }

  /** The table a header opens; none twice. */
  function AddTable(root: seq<Entry>, path: seq<string>, entries: seq<Entry>): Option<seq<Entry>> {
    if !Distinct(entries) then None
    else if |path| == 1 then
      if Lookup(root, path[0]).Some? then None else Some(root + [Entry(path[0], Table(entries))])
    else if |path| == 2 then
      match Lookup(root, path[0])
      case None => Some(root + [Entry(path[0], Table([Entry(path[1], Table(entries))]))])
      case Some(Table(outer)) =>
        if Lookup(outer, path[1]).Some? then None
        else Some(Replace(root, path[0], Table(outer + [Entry(path[1], Table(entries))])))
      case _ => None
    else None
  }

  function Build(root: seq<Entry>, statements: seq<Statement>): Option<seq<Entry>>
    decreases |statements|
  {
    if statements == [] then Some(root)
    else if statements[0].Pair? then None
    else
      var n := PairRun(statements[1..]);
      match AddTable(root, statements[0].path, EntriesOf(statements[1..][..n]))
      case None => None
      case Some(next) => Build(next, statements[1..][n..])
  }

  /** The tables of a document. */
  function Assemble(statements: seq<Statement>): Option<seq<Entry>> {
    var n := PairRun(statements);
    var top := EntriesOf(statements[..n]);
    if Distinct(top) then Build(top, statements[n..]) else None
  }

  function ReadText(text: string): Option<seq<Entry>> {
    match ParseDocument(text) case None => None case Some(statements) => Assemble(statements)
  }

  /** The configuration a file's text loads as; None where reading it fails. */
  function LoadText(shape: Shape, text: string): Option<Config> {
    match ReadText(text) case None => None case Some(root) => Some(Load(shape, root))
  }

  // ----- Reading what was written -----

  function Meaning(line: Line): seq<Statement> {
    match line
    case Empty => []
    case BarePair(name, v) => [Pair(Entry(name, v))]
    case JsonPair(name, v) => [Pair(Entry(name, v))]
    case QuotedPair(key, v) => [Pair(Entry(key, v))]
    case Header(name) => [Open([name])]
    case PriceHeader(model) => [Open(["pricing", model])]
  }

  function Meanings(lines: seq<Line>): seq<Statement> {
    if lines == [] then [] else Meaning(lines[0]) + Meanings(lines[1..])
  }

  /** Bare where it is written bare, and a dict. */
  predicate Writable(line: Line) {
    match line
    case BarePair(name, v) => Bare(name) && Dict(v)
    case JsonPair(name, v) => Bare(name) && Dict(v)
    case QuotedPair(_, v) => Dict(v)
    case Header(name) => Bare(name)
    case _ => true
  }

  predicate AllWritable(lines: seq<Line>) {
    forall i | 0 <= i < |lines| :: Writable(lines[i])
  }

  predicate Readable(line: Line) {
    match line
    case BarePair(_, v) => KeysPrintable(v)
    case JsonPair(_, v) => TableFree(v)
    case QuotedPair(_, v) => KeysPrintable(v)
    case _ => true
  }

  predicate AllReadable(lines: seq<Line>) {
    forall i | 0 <= i < |lines| :: Readable(lines[i])
  }

  /** The end of a line. */
  predicate LineEnd(rest: string) {
    rest == "" || rest[0] == '\n'
  }

  lemma KeyThenValue(key: string, s: string, p: string)
    requires ParseKey(s) == Done(key, " = " + p)
    requires p != "" && p[0] != ' ' && p[0] != '\t'
    ensures ParseEntry(s) == match ParseValue(p) case Fail => Fail case Done(v, rest) => Done(Entry(key, v), rest)
  {
    hide ParseKey, ParseValue;
    var t := " = " + p;
    assert SkipBlanks(t) == "= " + p by { assert t[1..] == "= " + p; }
    var u := "= " + p;
    assert u[1..] == " " + p;
    assert SkipBlanks(" " + p) == p by { assert (" " + p)[1..] == p; }
  }

  predicate IsPair(line: Line) {
    line.BarePair? || line.JsonPair? || line.QuotedPair?
  }

  function KeyOf(line: Line): string
    requires IsPair(line)
  {
    if line.QuotedPair? then line.key else line.name
  }

  function WrittenKey(line: Line): string
    requires IsPair(line)
  {
    if line.QuotedPair? then PrintString(line.key) else line.name
  }

  function WrittenValue(line: Line): string
    requires IsPair(line)
  {
    if line.JsonPair? then Json(line.value) else Print(line.value)
  }

  lemma KeyOfPairIsRead(line: Line, after: string)
    requires IsPair(line) && Writable(line)
    requires after != "" && after[0] == ' '
    ensures var printed := WrittenKey(line);
            && ParseKey(printed + after) == Done(KeyOf(line), after)
            && printed != "" && (BareChar(printed[0]) || printed[0] == '"')
  {
    if line.QuotedPair? {
      QuotedIsRead(line.key, after);
    } else {
      BareRunStops(line.name, after);
      assert (line.name + after)[..|line.name|] == line.name && (line.name + after)[|line.name|..] == after;
    }
  }

  lemma WrittenValueIsRead(line: Line, rest: string)
    requires IsPair(line) && Writable(line) && LineEnd(rest)
    ensures ParseValue(WrittenValue(line) + rest) == if Readable(line) then Done(line.value, rest) else Fail
    ensures WrittenValue(line) != "" && WrittenValue(line)[0] != ' ' && WrittenValue(line)[0] != '\t'
  {
    hide Print, Json, ParseValue, KeysPrintable, TableFree, Dict;
    if line.JsonPair? {
      JsonIsRead(line.value, rest);
      JsonStarts(line.value);
    } else {
      ValueIsRead(line.value, rest);
      PrintStarts(line.value);
    }
  }

  lemma PairIsRead(line: Line, rest: string)
    requires IsPair(line) && Writable(line) && LineEnd(rest)
    ensures var s := LineText(line) + rest;
            && s[0] != '[' && s[0] != ' ' && s[0] != '\t' && s[0] != '\n'
            && ParseEntry(s) == if Readable(line) then Done(Meaning(line)[0].entry, rest) else Fail
  {
    hide Print, Json, ParseValue, ParseKey, KeysPrintable, TableFree, Dict, ParseEntry, PrintString;
    var p := WrittenValue(line) + rest;
    KeyOfPairIsRead(line, " = " + p);
    assert LineText(line) + rest == WrittenKey(line) + (" = " + p);
    WrittenValueIsRead(line, rest);
    KeyThenValue(KeyOf(line), LineText(line) + rest, p);
  }

  lemma BareKeyIsRead(key: string, rest: string)
    requires Bare(key) && rest != "" && !BareChar(rest[0])
    ensures ParseKey(key + rest) == Done(key, rest) && SkipBlanks(key + rest) == key + rest
  {
    BareRunStops(key, rest);
    assert (key + rest)[0] == key[0] && (key + rest)[..|key|] == key && (key + rest)[|key|..] == rest;
    hide ParseString;
  }

  /** The path of a single key, and a further key before it. */
  lemma PathEnds(key: string, s: string, rest: string)
    requires ParseKey(s) == Done(key, "]" + rest) && SkipBlanks(s) == s
    ensures ParsePath(s) == Done([key], rest)
  {
    hide ParseKey;
    assert ("]" + rest)[1..] == rest;
  }

  lemma PathGoesOn(key: string, s: string, t: string, path: seq<string>, rest: string)
    requires ParseKey(s) == Done(key, "." + t) && SkipBlanks(s) == s && ParsePath(t) == Done(path, rest)
    ensures ParsePath(s) == Done([key] + path, rest)
  {
    hide ParseKey;
    assert ("." + t)[1..] == t;
  }

  lemma HeaderIsRead(name: string, rest: string)
    requires Bare(name)
    ensures var s := LineText(Header(name)) + rest;
            s[0] == '[' && ParsePath(s[1..]) == Done([name], rest)
  {
    hide ParseKey, ParsePath, SkipBlanks;
    var t := name + ("]" + rest);
    assert (LineText(Header(name)) + rest)[1..] == t;
    BareKeyIsRead(name, "]" + rest);
    PathEnds(name, t, rest);
  }

  lemma PriceHeaderText(model: string, rest: string)
    ensures LineText(PriceHeader(model)) + rest == "[" + ("pricing" + ("." + (PrintString(model) + ("]" + rest))))
  {
    hide PrintString;
    assert "[pricing." == "[" + "pricing" + ".";
  }

  lemma PriceHeaderIsRead(model: string, rest: string)
    ensures var s := LineText(PriceHeader(model)) + rest;
            s[0] == '[' && ParsePath(s[1..]) == Done(["pricing", model], rest)
  {
    hide ParseKey, ParsePath, SkipBlanks, PrintString, LineText;
    PriceHeaderText(model, rest);
    var u := PrintString(model) + ("]" + rest);
    QuotedKeyIsRead(model, "]" + rest);
    PathEnds(model, u, rest);
    var t := "pricing" + ("." + u);
    assert ("[" + t)[1..] == t;
    assert Bare("pricing");
    BareKeyIsRead("pricing", "." + u);
    PathGoesOn("pricing", t, u, [model], rest);
    assert ["pricing"] + [model] == ["pricing", model];
  }

  lemma QuotedKeyIsRead(key: string, rest: string)
    requires rest == "" || rest[0] != '"'
    ensures var s := PrintString(key) + rest; ParseKey(s) == Done(key, rest) && SkipBlanks(s) == s
  {
    QuotedIsRead(key, rest);
  }

  lemma StatementIsRead(line: Line, rest: string)
    requires !line.Empty? && Writable(line) && LineEnd(rest)
    ensures var s := LineText(line) + rest;
            && s != "" && SkipLines(s) == s
            && ParseStatement(s) == if Readable(line) then Done(Meaning(line)[0], rest) else Fail
  {
    if line.Header? {
      HeaderIsRead(line.name, rest);
    } else if line.PriceHeader? {
      PriceHeaderIsRead(line.model, rest);
    } else {
      PairIsRead(line, rest);
    }
    hide LineText, ParsePath, ParseEntry;
  }

  /** A statement at the start of a document, and the lines after it. */
  lemma DocumentGoesOn(s: string, statement: Statement, rest: string)
    requires s != "" && SkipLines(s) == s && LineEnd(rest)
    ensures ParseStatement(s).Fail? ==> ParseDocument(s).None?
    ensures ParseStatement(s) == Done(statement, rest) ==>
              ParseDocument(s) == match ParseDocument(rest) case None => None
                  case Some(more) => Some([statement] + more)
  {
    hide ParseStatement, SkipLines;
  }

  /** The lines after the first, with the newline in front of them. */
  function AfterFirst(lines: seq<Line>): string
    requires lines != []
  {
    if lines[1..] == [] then "" else "\n" + Text(lines[1..])
  }

  lemma NewlineBetween(a: string, b: string)
    ensures a + "\n" + b == a + ("\n" + b) && a + "" == a
  {
  }

  lemma NewlineIsSkipped(text: string)
    ensures ParseDocument("\n" + text) == ParseDocument(text)
  {
    hide ParseStatement;
    assert ("\n" + text)[1..] == text;
  }

  lemma TextGoesOn(lines: seq<Line>)
    requires lines != []
    ensures Text(lines) == LineText(lines[0]) + AfterFirst(lines)
    ensures ParseDocument(AfterFirst(lines)) == ParseDocument(Text(lines[1..]))
  {
    hide LineText, ParseDocument;
    NewlineBetween(LineText(lines[0]), Text(lines[1..]));
    NewlineIsSkipped(Text(lines[1..]));
  }

  lemma ReadableGoesOn(lines: seq<Line>)
    requires lines != []
    ensures AllReadable(lines) <==> Readable(lines[0]) && AllReadable(lines[1..])
    ensures AllWritable(lines) ==> Writable(lines[0]) && AllWritable(lines[1..])
  {
    hide Readable, Writable;
  }

  lemma {:induction false} LinesAreRead(lines: seq<Line>)
    requires AllWritable(lines)
    ensures ParseDocument(Text(lines)) == if AllReadable(lines) then Some(Meanings(lines)) else None
    decreases |lines|
  {
    if lines != [] {
      hide ParseDocument, LineText, Readable, Meaning, AllReadable, AllWritable, Writable, Text, AfterFirst;
      var line, more, rest := lines[0], lines[1..], AfterFirst(lines);
      TextGoesOn(lines);
      ReadableGoesOn(lines);
      LinesAreRead(more);
      RestEndsLine(lines);
      if line.Empty? {
        EmptyMeansNothing(line);
        assert "" + rest == rest && [] + Meanings(more) == Meanings(more);
      } else {
        StatementIsRead(line, rest);
        MeaningIsOne(line);
        DocumentGoesOn(LineText(line) + rest, Meaning(line)[0], rest);
      }
    }
  }

  lemma RestEndsLine(lines: seq<Line>)
    requires lines != []
    ensures LineEnd(AfterFirst(lines))
  {
    hide Text;
  }

  lemma EmptyMeansNothing(line: Line)
    requires line.Empty?
    ensures LineText(line) == "" && Meaning(line) == [] && Readable(line)
  {
  }

  lemma MeaningIsOne(line: Line)
    requires !line.Empty?
    ensures |Meaning(line)| == 1 && Meaning(line) == [Meaning(line)[0]]
  {
  }
}
