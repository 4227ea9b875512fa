/** Cutting a shell row into tokens: the lexer's alternatives in their order, and exactly which rows it keeps whole. */
module Tokenizer {
  import opened Options

  /** What counts as whitespace and as a digit; a blank and a tab are whitespace. */
  datatype Host = Host(space: char -> bool, digit: char -> bool)

  predicate Space(h: Host, c: char) {
    c == ' ' || c == '\t' || h.space(c)
  }

  predicate Blank(c: char) {
    c == ' ' || c == '\t'
  }

  predicate OpChar(c: char) {
    c == '|' || c == ';' || c == '&' || c == '<' || c == '>' || c == '(' || c == ')' || c == '{' || c == '}'
  }

  /** Goes on with a word it does not start as a comment. */
  predicate WordChar(h: Host, c: char) {
    !Space(h, c) && !OpChar(c) && c != '\'' && c != '"' && c != '\\'
  }

  datatype Kind = Spaces | Comment | Quoted | Op | Word

  datatype Lexeme = Lexeme(kind: Kind, text: string)

  // ----- How far each alternative reaches -----

  function BlankRun(s: string): (n: nat)
    ensures n <= |s|
  {
    if s == "" || !Blank(s[0]) then 0 else 1 + BlankRun(s[1..])
  }

  /** The rest of a double-quoted string after its opening quote: to the closing quote or the end; None where the
      last character is a backslash with nothing after it. */
  function DoubleRun(s: string): (n: Option<nat>)
    ensures n.Some? ==> n.value <= |s|
    decreases |s|
  {
    if s == "" then Some(0)
    else if s[0] == '"' then Some(1)
    else if s[0] == '\\' then
      if |s| == 1 then None
      else match DoubleRun(s[2..]) case None => None case Some(n) => Some(n + 2)
    else match DoubleRun(s[1..]) case None => None case Some(n) => Some(n + 1)
  }

  function SingleRun(s: string): (n: nat)
    ensures n <= |s|
  {
    if s == "" then 0 else if s[0] == '\'' then 1 else 1 + SingleRun(s[1..])
  }

  function OpRun(s: string): (n: nat)
    ensures n <= |s|
  {
    if "||" <= s || "&&" <= s || ">>" <= s then 2
    else if s != "" && OpChar(s[0]) then 1
    else if s == "\\" then 1 else 0
  }

  function WordRun(h: Host, s: string): (n: nat)
    ensures n <= |s|
    decreases |s|
  {
    if s == "" then 0
    else if s[0] == '\\' then if |s| == 1 then 0 else 2 + WordRun(h, s[2..])
    else if WordChar(h, s[0]) then 1 + WordRun(h, s[1..]) else 0
  }

  /** The first alternative that matches at the start of `s`, with how far it reaches. */
  function Match(h: Host, s: string): Option<(Kind, nat)>
    requires s != ""
  {
    if Blank(s[0]) then Some((Spaces, BlankRun(s)))
    else if s[0] == '#' then Some((Comment, |s|))
    else if s[0] == '"' then match DoubleRun(s[1..]) case None => None case Some(n) => Some((Quoted, n + 1))
    else if s[0] == '\'' then Some((Quoted, SingleRun(s[1..]) + 1))
    else if OpRun(s) > 0 then Some((Op, OpRun(s)))
    else if WordRun(h, s) > 0 then Some((Word, WordRun(h, s)))
    else None
  }

  lemma MatchReaches(h: Host, s: string)
    requires s != ""
    ensures Match(h, s).Some? ==> 0 < Match(h, s).value.1 <= |s|
  {
  }

  /** `finditer`: the matches from left to right; a character none starts at is passed over. */
  function Lex(h: Host, s: string): seq<Lexeme>
    decreases |s|
  {
    if s == "" then []
    else
      MatchReaches(h, s);
      match Match(h, s)
      case None => Lex(h, s[1..])
      case Some((kind, n)) => [Lexeme(kind, s[..n])] + Lex(h, s[n..])
  }

  function LexText(lexemes: seq<Lexeme>): string {
    if lexemes == [] then "" else lexemes[0].text + LexText(lexemes[1..])
  }

  // ----- Which rows are kept whole -----

  datatype Mode = Top | InWord | Escape | Double | DoubleEscape | Single | Rest

  /** One character read: the mode after it, None where the lexer has no token for it. */
  function Next(h: Host, mode: Mode, c: char): Option<Mode> {
    match mode
    case Rest => Some(Rest)
    case Single => Some(if c == '\'' then Top else Single)
    case Double => Some(if c == '"' then Top else if c == '\\' then DoubleEscape else Double)
    case DoubleEscape => Some(Double)
    case Escape => Some(InWord)
    case _ =>
      if Blank(c) || OpChar(c) then Some(Top)
      else if c == '"' then Some(Double)
      else if c == '\'' then Some(Single)
      else if c == '\\' then Some(Escape)
      else if c == '#' && mode.Top? then Some(Rest)
      else if Space(h, c) then None
      else Some(InWord)
  }

  /** Read character by character: how many characters at the end are a comment; None where something is lost, which
      is a whitespace other than blank and tab outside quotes, comments and escapes, or a final backslash inside an
      open double quote. */
  function CommentLength(h: Host, mode: Mode, s: string): (n: Option<nat>)
    ensures n.Some? ==> n.value <= |s|
    decreases |s|
  {
    if s == "" then if mode == DoubleEscape then None else Some(0)
    else
      match Next(h, mode, s[0])
      case None => None
      case Some(next) => if next == Rest then Some(|s|) else CommentLength(h, next, s[1..])
  }

  predicate Keeps(h: Host, s: string) {
    CommentLength(h, Top, s).Some?
  }

  /** `#` is no whitespace, so a word may hold it. */
  predicate SaneHost(h: Host) {
    !h.space('#')
  }

  lemma {:induction false} LexIsNoLonger(h: Host, s: string)
    ensures |LexText(Lex(h, s))| <= |s|
    decreases |s|
  {
    if s != "" {
      MatchReaches(h, s);
      match Match(h, s)
      case None => LexIsNoLonger(h, s[1..]);
      case Some((kind, n)) =>
        LexIsNoLonger(h, s[n..]);
        assert Lex(h, s)[1..] == Lex(h, s[n..]);
    }
  }

  lemma {:induction false} BlanksKeep(h: Host, s: string)
    ensures CommentLength(h, Top, s) == CommentLength(h, Top, s[BlankRun(s)..])
    decreases |s|
  {
    if s != "" && Blank(s[0]) {
      BlanksKeep(h, s[1..]);
      assert s[1..][BlankRun(s[1..])..] == s[BlankRun(s)..];
    } else {
      assert s[0..] == s;
    }
  }

  lemma {:induction false} SingleKeeps(h: Host, s: string)
    ensures CommentLength(h, Single, s) == CommentLength(h, Top, s[SingleRun(s)..])
    decreases |s|
  {
    if s != "" && s[0] != '\'' {
      SingleKeeps(h, s[1..]);
      assert s[1..][SingleRun(s[1..])..] == s[SingleRun(s)..];
    }
  }

  lemma {:induction false} DoubleKeeps(h: Host, s: string)
    ensures DoubleRun(s).None? ==> CommentLength(h, Double, s).None?
    ensures DoubleRun(s).Some? ==> (CommentLength(h, Double, s) == CommentLength(h, Top, s[DoubleRun(s).value..]))
    decreases |s|
  {
    if s == "" || s[0] == '"' {
    } else if s[0] == '\\' {
      if |s| > 1 {
        DoubleKeeps(h, s[2..]);
        assert s[1..][1..] == s[2..];
        if DoubleRun(s[2..]).Some? { assert s[2..][DoubleRun(s[2..]).value..] == s[DoubleRun(s).value..]; }
      } else {
        assert s[1..] == "";
        assert CommentLength(h, DoubleEscape, s[1..]).None?;
      }
    } else {
      DoubleKeeps(h, s[1..]);
      if DoubleRun(s[1..]).Some? { assert s[1..][DoubleRun(s[1..]).value..] == s[DoubleRun(s).value..]; }
    }
  }

  /** Where a word ends, being in it or at the top makes no difference. */
  lemma WordEnds(h: Host, s: string)
    requires SaneHost(h) && WordRun(h, s) == 0
    ensures CommentLength(h, InWord, s) == CommentLength(h, Top, s)
  {
  }

  lemma {:induction false} WordKeeps(h: Host, s: string)
    requires SaneHost(h)
    ensures CommentLength(h, InWord, s) == CommentLength(h, Top, s[WordRun(h, s)..])
    decreases |s|
  {
    if WordRun(h, s) == 0 {
      WordEnds(h, s);
      assert s[0..] == s;
    } else if s[0] == '\\' {
      WordKeeps(h, s[2..]);
      assert s[1..][1..] == s[2..] && s[2..][WordRun(h, s[2..])..] == s[WordRun(h, s)..];
    } else {
      WordKeeps(h, s[1..]);
      assert s[1..][WordRun(h, s[1..])..] == s[WordRun(h, s)..];
    }
  }

  /** A word's first character is one the lexer starts a word with. */
  lemma WordStartKeeps(h: Host, s: string)
    requires SaneHost(h) && s != "" && s[0] != '#' && WordRun(h, s) > 0
    ensures CommentLength(h, Top, s) == CommentLength(h, Top, s[WordRun(h, s)..])
  {
    WordKeeps(h, s);
  }

  lemma OpKeeps(h: Host, s: string)
    requires OpRun(s) > 0
    ensures CommentLength(h, Top, s) == CommentLength(h, Top, s[OpRun(s)..])
  {
    if OpRun(s) == 2 {
      assert s[1..][1..] == s[2..];
      assert CommentLength(h, Top, s) == CommentLength(h, Top, s[1..]);
      assert CommentLength(h, Top, s[1..]) == CommentLength(h, Top, s[2..]);
    }
  }

  /** One token of the lexer and the same characters read one by one. */
  lemma MatchKeeps(h: Host, s: string)
    requires SaneHost(h) && s != ""
    ensures Match(h, s).None? ==> !Keeps(h, s)
    ensures Match(h, s).Some? ==> 0 < Match(h, s).value.1 <= |s|
    ensures Match(h, s).Some? ==>
      var (kind, n) := Match(h, s).value;
      if kind.Comment? then n == |s| && CommentLength(h, Top, s) == Some(n)
      else CommentLength(h, Top, s) == CommentLength(h, Top, s[n..])
  {
    MatchReaches(h, s);
    if Blank(s[0]) {
      BlanksKeep(h, s);
    } else if s[0] == '#' {
    } else if s[0] == '"' {
      DoubleKeeps(h, s[1..]);
      if DoubleRun(s[1..]).Some? { assert s[1..][DoubleRun(s[1..]).value..] == s[DoubleRun(s[1..]).value + 1..]; }
    } else if s[0] == '\'' {
      SingleKeeps(h, s[1..]);
      assert s[1..][SingleRun(s[1..])..] == s[SingleRun(s[1..]) + 1..];
    } else if OpRun(s) > 0 {
      OpKeeps(h, s);
    } else if WordRun(h, s) > 0 {
      WordStartKeeps(h, s);
    }
  }

  lemma SameFront(s: string, n: nat, rest: string)
    requires n <= |s|
    ensures s[..n] + rest == s <==> rest == s[n..]
  {
    assert s == s[..n] + s[n..];
    if s[..n] + rest == s { assert rest == (s[..n] + rest)[n..]; }
  }

  /** The texts of a row's tokens join back to the row if and only if the row is one the reading keeps. */
  lemma {:induction false} TokensJoinBack(h: Host, s: string)
    requires SaneHost(h)
    ensures LexText(Lex(h, s)) == s <==> Keeps(h, s)
    decreases |s|
  {
    if s != "" {
      MatchKeeps(h, s);
      hide CommentLength, Match;
      match Match(h, s)
      case None => LexIsNoLonger(h, s[1..]);
      case Some((kind, n)) =>
        TokensJoinBack(h, s[n..]);
        LexIsNoLonger(h, s[n..]);
        assert Lex(h, s)[1..] == Lex(h, s[n..]);
        SameFront(s, n, LexText(Lex(h, s[n..])));
        if kind.Comment? { assert s[n..] == ""; EmptyKeeps(h); }
    }
  }

  lemma EmptyKeeps(h: Host)
    ensures CommentLength(h, Top, "") == Some(0)
  {
  }

  /** The tokens that are no comment. */
  function CodeText(lexemes: seq<Lexeme>): string {
    if lexemes == [] then ""
    else (if lexemes[0].kind.Comment? then "" else lexemes[0].text) + CodeText(lexemes[1..])
  }

  /** In a row that is kept, the tokens that are no comment are what stands before the comment. */
  lemma {:induction false} CodeStandsBeforeTheComment(h: Host, s: string)
    requires SaneHost(h) && Keeps(h, s)
    ensures CodeText(Lex(h, s)) == s[..|s| - CommentLength(h, Top, s).value]
    decreases |s|
  {
    if s != "" {
      MatchKeeps(h, s);
      hide CommentLength, Match;
      var (kind, n) := Match(h, s).value;
      assert Lex(h, s)[1..] == Lex(h, s[n..]);
      if kind.Comment? {
        assert s[n..] == "" && s[..0] == "";
      } else {
        CodeStandsBeforeTheComment(h, s[n..]);
        var c := CommentLength(h, Top, s).value;
        assert s[n..][..|s[n..]| - c] == s[n..|s| - c];
        assert s[..n] + s[n..|s| - c] == s[..|s| - c];
      }
    } else {
      assert s[..0] == "";
    }
  }

  /** Where the reading stands after a row. */
  function ModeAfter(h: Host, mode: Mode, s: string): Option<Mode>
    decreases |s|
  {
    if s == "" then Some(mode)
    else match Next(h, mode, s[0]) case None => None case Some(next) => ModeAfter(h, next, s[1..])
  }

  predicate OnlyBlanks(h: Host, s: string) {
    forall i | 0 <= i < |s| && Space(h, s[i]) :: Blank(s[i])
  }

  lemma {:induction false} CommentsEnd(h: Host, s: string)
    ensures ModeAfter(h, Rest, s) == Some(Rest)
    decreases |s|
  {
    if s != "" { CommentsEnd(h, s[1..]); }
  }

  lemma {:induction false} BlanksAreRead(h: Host, mode: Mode, s: string)
    requires OnlyBlanks(h, s)
    ensures ModeAfter(h, mode, s).Some?
    ensures CommentLength(h, mode, s).Some? <==> ModeAfter(h, mode, s) != Some(DoubleEscape)
    decreases |s|
  {
    if s != "" {
      var next := Next(h, mode, s[0]);
      assert Space(h, s[0]) ==> Blank(s[0]);
      assert next.Some?;
      BlanksAreRead(h, next.value, s[1..]);
      CommentsEnd(h, s[1..]);
    }
  }

  lemma {:induction false} LastCharacter(h: Host, mode: Mode, s: string)
    requires s != ""
    ensures var before := ModeAfter(h, mode, s[..|s| - 1]);
            ModeAfter(h, mode, s)
            == match before case None => None case Some(m) => Next(h, m, s[|s| - 1])
    decreases |s|
  {
    if |s| == 1 {
      assert s[..0] == "" && s[1..] == "";
    } else {
      assert s[..|s| - 1][1..] == s[1..][..|s[1..]| - 1];
      if Next(h, mode, s[0]).Some? { LastCharacter(h, Next(h, mode, s[0]).value, s[1..]); }
    }
  }

  /** A row whose only whitespace is blanks and tabs is kept if and only if it does not end in a backslash inside an
      open double quote. */
  lemma BlankRowsAreKeptIff(h: Host, s: string)
    requires OnlyBlanks(h, s)
    ensures Keeps(h, s)
            <==> !(s != "" && s[|s| - 1] == '\\' && ModeAfter(h, Top, s[..|s| - 1]) == Some(Double))
  {
    BlanksAreRead(h, Top, s);
    if s != "" { LastCharacter(h, Top, s); }
  }

  /** An open double quote in front of a final backslash: the quote gets no token. */
  lemma OpenQuoteIsLost(h: Host)
    requires SaneHost(h)
    ensures !Keeps(h, ['"', '\\'])
    ensures LexText(Lex(h, ['"', '\\'])) != ['"', '\\']
  {
    var s := ['"', '\\'];
    assert s[1..] == ['\\'] && s[1..][1..] == "";
    assert CommentLength(h, Double, s[1..]).None?;
    TokensJoinBack(h, s);
  }
}
