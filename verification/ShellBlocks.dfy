/** Rows of a snippet as lines, the rows the lines came from, and the text of the Copy button. */
module ShellBlocks {
  import opened ShellRows
  import opened Tokenizer

  datatype Format = Shell | Console | Chat

  datatype LineKind = Cmd | NoteLine | Out

  /** `chat` says which of the two prompts a line is drawn with. */
  datatype Line = Line(kind: LineKind, tokens: seq<Token>, prompt: bool, chat: bool)

  function Strip(s: string): string {
    if s != "" && s[0] == '\n' then Strip(s[1..])
    else if s != "" && s[|s| - 1] == '\n' then Strip(s[..|s| - 1]) else s
  }

  /** Never empty: the pieces between the line breaks. */
  function Split(s: string): (rows: seq<string>)
    ensures rows != []
  {
    if s == "" then [""]
    else if s[0] == '\n' then [""] + Split(s[1..])
    else var rows := Split(s[1..]); [[s[0]] + rows[0]] + rows[1..]
  }

  function Join(rows: seq<string>): string {
    if rows == [] then "" else if |rows| == 1 then rows[0] else rows[0] + "\n" + Join(rows[1..])
  }

  // ----- Rows to lines -----

  function ChatLine(h: Host, row: string): Line {
    Line(Cmd, if "/" <= row then AfterLexemes(h, Lex(h, row), START).0 else [Token(Quote, row)], true, true)
  }

  function OutLine(row: string): Line {
    var tokens :=
      if row == "" then []
      else if row[0] == '\U{2713}' then [Token(Check, row[..1]), Token(Output, row[1..])]
      else if row[0] == '\U{2717}' then [Token(Cross, row[..1]), Token(Output, row[1..])]
      else [Token(Output, row)];
    Line(Out, tokens, false, false)
  }

  /** What a row is in its format and place. */
  predicate Outputs(format: Format, continued: bool, row: string) {
    format == Console && !continued && !("$ " <= row)
  }

  function Body(format: Format, continued: bool, row: string): string
    requires !Outputs(format, continued, row)
  {
    if format == Console && !continued then row[2..] else row
  }

  predicate Notes(h: Host, format: Format, continued: bool, row: string)
    requires !Outputs(format, continued, row)
  {
    !continued && "#" <= LStrip(h, Body(format, continued, row))
  }

  /** One row read with the place and the continuation the row before left. */
  function AfterRow(h: Host, format: Format, row: string, p: Place, continued: bool): (Line, Place, bool) {
    if format == Chat then (if row != "" then ChatLine(h, row) else Line(Out, [], false, false), p, continued)
    else if Outputs(format, continued, row) then (OutLine(row), p, continued)
    else
      var body := Body(format, continued, row);
      if Notes(h, format, continued, row) then (Line(NoteLine, [Token(Note, body)], false, false), START, continued)
      else
        var (tokens, q) := AfterLexemes(h, Lex(h, body), if continued then p else START);
        (Line(Cmd, tokens, !continued, false), q, Continues(h, body))
  }

  function Lines(h: Host, format: Format, rows: seq<string>, p: Place, continued: bool): (lines: seq<Line>)
    ensures |lines| == |rows|
  {
    if rows == [] then []
    else
      var (line, q, c) := AfterRow(h, format, rows[0], p, continued);
      [line] + Lines(h, format, rows[1..], q, c)
  }

  method ReadChatLine(h: Host, row: string) returns (line: Line)
    ensures line == ChatLine(h, row)
  {
    hide AfterLexemes;
    var tokens := [Token(Quote, row)];
    if "/" <= row {
      var command := new CommandLine();
      var continues: bool;
      tokens, continues := command.Tokens(h, row);
    }
    line := Line(Cmd, tokens, true, true);
  }

  /** One turn of the loop over the rows; a row that starts a command starts it with a new state. */
  method ReadRow(h: Host, format: Format, row: string, command: CommandLine, continued: bool)
    returns (line: Line, next: CommandLine, continues: bool)
    modifies command
    ensures next == command || fresh(next)
    ensures (line, next.View(), continues) == AfterRow(h, format, row, old(command.View()), continued)
  {
    hide AfterLexemes, Continues, LStrip;
    next, continues := command, continued;
    if format == Chat {
      line := Line(Out, [], false, false);
      if row != "" {
        line := ReadChatLine(h, row);
      }
    } else if Outputs(format, continued, row) {
      line := OutLine(row);
    } else {
      var body := Body(format, continued, row);
      if !continued {
        next := new CommandLine();
      }
      if !continued && "#" <= LStrip(h, body) {
        line := Line(NoteLine, [Token(Note, body)], false, false);
      } else {
        var tokens: seq<Token>;
        tokens, continues := next.Tokens(h, body);
        line := Line(Cmd, tokens, !continued, false);
      }
    }
  }

  /** The lines of the rows from `i` on are the line of row `i` and those of the rows behind it. */
  lemma OneMoreRow(h: Host, format: Format, rows: seq<string>, i: nat, p: Place, continued: bool)
    requires i < |rows|
    ensures var (line, q, c) := AfterRow(h, format, rows[i], p, continued);
            Lines(h, format, rows[i..], p, continued) == [line] + Lines(h, format, rows[i + 1..], q, c)
  {
    hide AfterRow;
    assert rows[i..][0] == rows[i] && rows[i..][1..] == rows[i + 1..];
  }

  method Parse(h: Host, text: string, format: Format) returns (lines: seq<Line>)
    ensures lines == Lines(h, format, Split(Strip(text)), START, false)
  {
    hide AfterRow, Lines, Split, Strip;
    lines := [];
    var command := new CommandLine();
    var continued := false;
    var rows := Split(Strip(text));
    var i := 0;
    assert rows[0..] == rows;
    while i < |rows|
      invariant 0 <= i <= |rows| && fresh(command)
      invariant lines + Lines(h, format, rows[i..], command.View(), continued) == Lines(h, format, rows, START, false)
    {
      var line: Line;
      OneMoreRow(h, format, rows, i, command.View(), continued);
      line, command, continued := ReadRow(h, format, rows[i], command, continued);
      lines := lines + [line];
      i := i + 1;
    }
    assert Lines(h, format, rows[|rows|..], command.View(), continued) == [];
  }

  // ----- And back -----

  /** The row a line came from, read off the line alone. */
  function Undo(format: Format, line: Line): string {
    (if format == Console && (line.prompt || line.kind == NoteLine) then "$ " else "") + Texts(line.tokens)
  }

  /** Whether the lexer sees the row, and which part of it. */
  predicate Lexed(h: Host, format: Format, row: string, continued: bool) {
    if format == Chat then "/" <= row
    else !Outputs(format, continued, row) && !Notes(h, format, continued, row)
  }

  function LexedPart(h: Host, format: Format, row: string, continued: bool): string
    requires Lexed(h, format, row, continued)
  {
    if format == Chat then row else Body(format, continued, row)
  }

  predicate RowKept(h: Host, format: Format, row: string, continued: bool) {
    Lexed(h, format, row, continued) ==> Keeps(h, LexedPart(h, format, row, continued))
  }

  lemma OneText(token: Token)
    ensures Texts([token]) == token.text
    ensures CodeTexts([token]) == if token.role == Note then "" else token.text
  {
    assert [token][..0] == [] && "" + token.text == token.text;
  }

  lemma TwoTexts(a: Token, b: Token)
    ensures Texts([a, b]) == a.text + b.text
  {
    OneText(a);
    OneText(b);
    TextsOfTwo([a], [b]);
    assert [a, b] == [a] + [b];
  }

  lemma NoTokensNoText()
    ensures Texts([]) == "" && CodeTexts([]) == ""
  {
  }

  lemma OutHasNoPrompt(row: string)
    ensures OutLine(row).kind == Out && !OutLine(row).prompt
  {
  }

  lemma OutIsUndone(row: string)
    ensures Texts(OutLine(row).tokens) == row
  {
    if row == "" {
    } else if row[0] == '\U{2713}' || row[0] == '\U{2717}' {
      TwoTexts(OutLine(row).tokens[0], OutLine(row).tokens[1]);
      assert row == row[..1] + row[1..];
    } else {
      OneText(Token(Output, row));
    }
  }

  lemma LexedTexts(h: Host, body: string, p: Place)
    requires SaneHost(h)
    ensures Texts(AfterLexemes(h, Lex(h, body), p).0) == body <==> Keeps(h, body)
    ensures |Texts(AfterLexemes(h, Lex(h, body), p).0)| <= |body|
  {
    LexemesKeepTheirText(h, Lex(h, body), p);
    TokensJoinBack(h, body);
    LexIsNoLonger(h, body);
  }

  lemma PromptInFront(row: string, body: string)
    requires "$ " <= row
    ensures "$ " + body == row <==> body == row[2..]
  {
    assert row == "$ " + row[2..];
    assert ("$ " + body)[2..] == body;
  }

  lemma NothingInFront(s: string)
    ensures "" + s == s
  {
  }

  lemma ChatIsUndone(h: Host, row: string)
    requires SaneHost(h)
    ensures Texts(ChatLine(h, row).tokens) == row <==> ("/" <= row ==> Keeps(h, row))
    ensures |Texts(ChatLine(h, row).tokens)| <= |row|
  {
    hide Keeps, AfterLexemes;
    if "/" <= row { LexedTexts(h, row, START); } else { OneText(Token(Quote, row)); }
  }

  lemma CommandIsUndone(h: Host, format: Format, row: string, p: Place, continued: bool)
    requires SaneHost(h) && format != Chat && !Outputs(format, continued, row)
    ensures var line := AfterRow(h, format, row, p, continued).0;
            Texts(line.tokens) == Body(format, continued, row) <==> RowKept(h, format, row, continued)
    ensures |Texts(AfterRow(h, format, row, p, continued).0.tokens)| <= |Body(format, continued, row)|
  {
    hide Keeps, AfterLexemes, Texts, Outputs, Continues, LStrip, Body;
    var body := Body(format, continued, row);
    if Notes(h, format, continued, row) {
      OneText(Token(Note, body));
    } else {
      LexedTexts(h, body, if continued then p else START);
    }
  }

  /** A line gives its row back if and only if the row is not cut into tokens or is one the lexer keeps whole. */
  lemma RowIsUndone(h: Host, format: Format, row: string, p: Place, continued: bool)
    requires SaneHost(h)
    ensures Undo(format, AfterRow(h, format, row, p, continued).0) == row <==> RowKept(h, format, row, continued)
    ensures |Undo(format, AfterRow(h, format, row, p, continued).0)| <= |row|
  {
    hide Keeps, AfterLexemes, Continues, LStrip, Texts, ChatLine, OutLine;
    var line := AfterRow(h, format, row, p, continued).0;
    NothingInFront(Texts(line.tokens));
    if format == Chat {
      NoTokensNoText();
      if row != "" { ChatIsUndone(h, row); }
    } else if Outputs(format, continued, row) {
      OutIsUndone(row);
      OutHasNoPrompt(row);
    } else {
      CommandIsUndone(h, format, row, p, continued);
      if format == Console && !continued { PromptInFront(row, Texts(line.tokens)); }
    }
  }

  function Undone(format: Format, lines: seq<Line>): (rows: seq<string>)
    ensures |rows| == |lines|
  {
    if lines == [] then [] else [Undo(format, lines[0])] + Undone(format, lines[1..])
  }

  /** Whether the row after this one goes on with its command; no place in the command matters for it. */
  predicate GoesOn(h: Host, format: Format, row: string, continued: bool) {
    if format != Chat && Lexed(h, format, row, continued) then Continues(h, Body(format, continued, row)) else continued
  }

  predicate RowsKept(h: Host, format: Format, rows: seq<string>, continued: bool) {
    rows == []
    || (RowKept(h, format, rows[0], continued)
        && RowsKept(h, format, rows[1..], GoesOn(h, format, rows[0], continued)))
  }

  /** Every row shorter or the same: the whole is the same only if every row is. */
  lemma {:induction false} JoinTellsRows(a: seq<string>, b: seq<string>)
    requires |a| == |b|
    requires forall i :: 0 <= i < |a| ==> |a[i]| <= |b[i]|
    ensures |Join(a)| <= |Join(b)|
    ensures Join(a) == Join(b) <==> a == b
    decreases |a|
  {
    if |a| > 1 {
      JoinTellsRows(a[1..], b[1..]);
      assert a == [a[0]] + a[1..] && b == [b[0]] + b[1..];
      HeadsAndTails(a[0], Join(a[1..]), b[0], Join(b[1..]));
    } else if |a| == 1 {
      assert a == [a[0]] && b == [b[0]];
    }
  }

  lemma HeadsAndTails(a: string, s: string, b: string, r: string)
    requires |a| <= |b| && |s| <= |r|
    ensures a + "\n" + s == b + "\n" + r <==> a == b && s == r
  {
    if a + "\n" + s == b + "\n" + r {
      var whole := a + "\n" + s;
      assert |whole| == |a| + 1 + |s| == |b| + 1 + |r|;
      assert whole[..|a|] == a && (b + "\n" + r)[..|b|] == b;
      assert whole[|a| + 1..] == s && (b + "\n" + r)[|b| + 1..] == r;
    }
  }

  lemma {:induction false} SplitJoinsBack(s: string)
    ensures Join(Split(s)) == s
    ensures forall row :: row in Split(s) ==> '\n' !in row
  {
    if s == "" {
    } else {
      SplitJoinsBack(s[1..]);
      var rows := Split(s[1..]);
      if s[0] == '\n' {
        assert Split(s)[1..] == rows && s == "" + "\n" + s[1..];
      } else {
        assert Split(s)[1..] == rows[1..];
        assert s == [s[0]] + s[1..];
        FirstGrows(s[0], rows);
      }
    }
  }

  lemma FirstGrows(c: char, rows: seq<string>)
    requires rows != []
    ensures Join([[c] + rows[0]] + rows[1..]) == [c] + Join(rows)
  {
    var grown := [[c] + rows[0]] + rows[1..];
    assert grown[1..] == rows[1..];
    if |rows| > 1 { assert ([c] + rows[0]) + "\n" + Join(rows[1..]) == [c] + (rows[0] + "\n" + Join(rows[1..])); }
  }

  lemma ConsIsSame<T>(a: T, s: seq<T>, b: seq<T>)
    requires b != []
    ensures [a] + s == b <==> a == b[0] && s == b[1..]
  {
    assert b == [b[0]] + b[1..];
    if [a] + s == b { assert ([a] + s)[0] == a && ([a] + s)[1..] == s; }
  }

  lemma {:induction false} RowsAreUndone(h: Host, format: Format, rows: seq<string>, p: Place, continued: bool)
    requires SaneHost(h)
    ensures Undone(format, Lines(h, format, rows, p, continued)) == rows <==> RowsKept(h, format, rows, continued)
    ensures forall i :: 0 <= i < |rows| ==> |Undone(format, Lines(h, format, rows, p, continued))[i]| <= |rows[i]|
    decreases |rows|
  {
    if rows != [] {
      var (line, q, c) := AfterRow(h, format, rows[0], p, continued);
      assert c == GoesOn(h, format, rows[0], continued);
      hide AfterRow, Undo, RowKept, GoesOn, SaneHost;
      RowIsUndone(h, format, rows[0], p, continued);
      RowsAreUndone(h, format, rows[1..], q, c);
      var lines := Lines(h, format, rows, p, continued);
      assert lines[1..] == Lines(h, format, rows[1..], q, c);
      ConsIsSame(Undo(format, line), Undone(format, lines[1..]), rows);
    }
  }

  /** A whole snippet is read back from its lines if and only if the lexer keeps every row it cuts. */
  lemma TextIsUndone(h: Host, format: Format, text: string)
    requires SaneHost(h)
    ensures var rows := Split(Strip(text));
            Join(Undone(format, Lines(h, format, rows, START, false))) == Strip(text)
            <==> RowsKept(h, format, rows, false)
  {
    hide Strip, Split, Lines, RowsKept;
    var rows := Split(Strip(text));
    RowsAreUndone(h, format, rows, START, false);
    SplitJoinsBack(Strip(text));
    JoinTellsRows(Undone(format, Lines(h, format, rows, START, false)), rows);
  }

  // ----- The Copy button -----

  function CopyRows(h: Host, lines: seq<Line>): seq<string> {
    if lines == [] then []
    else
      var row := RStrip(h, CodeTexts(lines[0].tokens));
      (if lines[0].kind == Cmd && row != "" then [row] else []) + CopyRows(h, lines[1..])
  }

  function CopyText(h: Host, lines: seq<Line>): string {
    Join(CopyRows(h, lines))
  }

  /** What is to be copied of a row: a command without its comment, a typed message, nothing of the rest. */
  function Copied(h: Host, format: Format, row: string, continued: bool): string {
    if Lexed(h, format, row, continued) then
      var part := LexedPart(h, format, row, continued);
      var comment := CommentLength(h, Top, part);
      RStrip(h, if comment.Some? then part[..|part| - comment.value] else part)
    else if format == Chat then RStrip(h, row)
    else ""
  }

  function CopiedRows(h: Host, format: Format, rows: seq<string>, continued: bool): seq<string> {
    if rows == [] then []
    else
      var row := Copied(h, format, rows[0], continued);
      (if row != "" then [row] else []) + CopiedRows(h, format, rows[1..], GoesOn(h, format, rows[0], continued))
  }

  lemma CodeOfLexed(h: Host, body: string, p: Place)
    requires SaneHost(h) && Keeps(h, body)
    ensures CodeTexts(AfterLexemes(h, Lex(h, body), p).0) == body[..|body| - CommentLength(h, Top, body).value]
  {
    LexemesKeepTheirText(h, Lex(h, body), p);
    CodeStandsBeforeTheComment(h, body);
  }

  lemma NothingToStrip(h: Host)
    ensures RStrip(h, "") == ""
  {
  }

  lemma RowIsCopied(h: Host, format: Format, row: string, p: Place, continued: bool)
    requires SaneHost(h) && RowKept(h, format, row, continued)
    ensures var line := AfterRow(h, format, row, p, continued).0;
            (if line.kind == Cmd then RStrip(h, CodeTexts(line.tokens)) else "") == Copied(h, format, row, continued)
  {
    hide AfterLexemes, CommentLength, RStrip, LStrip;
    if Lexed(h, format, row, continued) {
      CodeOfLexed(h, LexedPart(h, format, row, continued), if format != Chat && continued then p else START);
    } else if format == Chat {
      NothingToStrip(h);
      NoTokensNoText();
      if row != "" { OneText(Token(Quote, row)); }
    }
  }

  lemma {:induction false} CopyRowsAreTheCode(h: Host, format: Format, rows: seq<string>, p: Place, continued: bool)
    requires SaneHost(h) && RowsKept(h, format, rows, continued)
    ensures CopyRows(h, Lines(h, format, rows, p, continued)) == CopiedRows(h, format, rows, continued)
    decreases |rows|
  {
    if rows != [] {
      var (line, q, c) := AfterRow(h, format, rows[0], p, continued);
      assert c == GoesOn(h, format, rows[0], continued);
      hide AfterRow, Copied, RowKept, GoesOn, RStrip, CodeTexts;
      RowIsCopied(h, format, rows[0], p, continued);
      CopyRowsAreTheCode(h, format, rows[1..], q, c);
      var lines := Lines(h, format, rows, p, continued);
      assert lines[1..] == Lines(h, format, rows[1..], q, c);
    }
  }

  /** Of a snippet the lexer keeps, the Copy button gives the commands without prompt, comment and output, a line each,
      and nothing else. */
  lemma CopyIsTheCode(h: Host, format: Format, text: string)
    requires SaneHost(h) && RowsKept(h, format, Split(Strip(text)), false)
    ensures CopyText(h, Lines(h, format, Split(Strip(text)), START, false))
            == Join(CopiedRows(h, format, Split(Strip(text)), false))
  {
    CopyRowsAreTheCode(h, format, Split(Strip(text)), START, false);
    hide CopyRows, CopiedRows, Lines, Split, Strip, RowsKept, Join;
  }
}
