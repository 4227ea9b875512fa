/** From a snippet's rows to coloured tokens: the words of a command line, the three modes, and the way back. */
module ShellRows {
  import opened Options
  import opened Tokenizer

  // ----- Words -----

  datatype Role = Plain | Command | Sub | Flag | Value | Quote | Note | Output | Check | Cross | Punct

  datatype Token = Token(role: Role, text: string)

  /** Where a command line is. */
  datatype Place = Place(expectCommand: bool, name: string, subcommands: bool, options: bool, valueNext: bool)

  const START := Place(true, "", false, false, false)

  /** Commands whose next plain words are subcommands. */
  predicate TakesSubcommands(word: string) {
    word in {"melo", "uv", "git", "brew", "omlx", "ollama", "hf", "pip", "pip3", "ruff", "black"}
  }

  /** The options of `uv run` that take their value in the next word. */
  predicate TakesValue(word: string) {
    word in {"--with", "--extra", "--group", "--project", "--directory", "--python", "-p"}
  }

  predicate RunsACommand(name: string, word: string) {
    name == "uv" && word == "run"
  }

  const CHAIN: set<string> := {"|", "||", "&&", ";", "{", "("}

  predicate Lower(c: char) { 'a' <= c <= 'z' }

  predicate Figure(c: char) { '0' <= c <= '9' }

  predicate NameChar(c: char) {
    Lower(c) || 'A' <= c <= 'Z' || Figure(c) || c == '_' || c == '.'
  }

  /** Where the first `=` is, the whole length where there is none. */
  function EqualsAt(s: string): (n: nat)
    ensures n <= |s|
    ensures n < |s| ==> s[n] == '='
  {
    if s == "" || s[0] == '=' then 0 else 1 + EqualsAt(s[1..])
  }

  predicate Assigns(word: string) {
    var n := EqualsAt(word);
    0 < n < |word| && !Figure(word[0]) && word[0] != '.' && forall i :: 0 <= i < n ==> NameChar(word[i])
  }

  predicate SubRest(s: string)
    decreases |s|
  {
    s == ""
    || ((Lower(s[0]) || Figure(s[0])) && SubRest(s[1..]))
    || (s[0] == '-' && |s| > 1 && (Lower(s[1]) || Figure(s[1])) && SubRest(s[2..]))
  }

  predicate SubWord(word: string) {
    word != "" && Lower(word[0]) && SubRest(word[1..])
  }

  predicate IsOption(h: Host, word: string) {
    |word| > 1 && word[0] == '-' && !h.digit(word[1])
  }

  /** A word cut at its first `=`: what is before it, the sign, and what is after it where there is something. */
  function CutAtEquals(word: string): seq<Token> {
    var n := EqualsAt(word);
    [Token(Flag, word[..n])]
    + (if n < |word| then [Token(Punct, "=")] else [])
    + (if n + 1 < |word| then [Token(Value, word[n + 1..])] else [])
  }

  /** A word between `uv run` and the command it runs; None when the command itself begins. */
  function AfterRunOption(h: Host, word: string, p: Place): (Option<seq<Token>>, Place) {
    if p.valueNext then (Some([Token(Value, word)]), p.(valueNext := false))
    else if IsOption(h, word) then
      var n := EqualsAt(word);
      (Some(CutAtEquals(word)), p.(valueNext := n == |word| && TakesValue(word)))
    else (None, p.(options := false))
  }

  function AfterPlainWord(h: Host, word: string, p: Place): (seq<Token>, Place) {
    if p.expectCommand then
      if Assigns(word) then (CutAtEquals(word), p)
      else ([Token(Command, word)],
            p.(expectCommand := false, name := word, subcommands := TakesSubcommands(word)))
    else
      var q := p.(subcommands := p.subcommands && !("-" <= word || Assigns(word)));
      if IsOption(h, word) || Assigns(word) then (CutAtEquals(word), q)
      else if q.subcommands && SubWord(word) then
        ([Token(Sub, word)], if RunsACommand(q.name, word) then START.(options := true) else q)
      else ([Token(Value, word)], q.(subcommands := false))
  }

  function AfterWord(h: Host, word: string, p: Place): (seq<Token>, Place) {
    if p.options then
      match AfterRunOption(h, word, p)
      case (Some(tokens), q) => (tokens, q)
      case (None, q) => AfterPlainWord(h, word, q)
    else AfterPlainWord(h, word, p)
  }

  function RoleOf(kind: Kind): Role {
    match kind
    case Spaces => Plain
    case Comment => Note
    case Quoted => Quote
    case _ => Punct
  }

  function AfterLexeme(h: Host, lexeme: Lexeme, p: Place): (seq<Token>, Place) {
    if lexeme.kind.Word? then AfterWord(h, lexeme.text, p)
    else ([Token(RoleOf(lexeme.kind), lexeme.text)],
          if lexeme.kind.Op? && lexeme.text in CHAIN then START else p)
  }

  function AfterLexemes(h: Host, lexemes: seq<Lexeme>, p: Place): (seq<Token>, Place)
    decreases |lexemes|
  {
    if lexemes == [] then ([], p)
    else
      var (tokens, q) := AfterLexemes(h, lexemes[..|lexemes| - 1], p);
      var (more, r) := AfterLexeme(h, lexemes[|lexemes| - 1], q);
      (tokens + more, r)
  }

  function RStrip(h: Host, s: string): string {
    if s != "" && Space(h, s[|s| - 1]) then RStrip(h, s[..|s| - 1]) else s
  }

  function LStrip(h: Host, s: string): string {
    if s != "" && Space(h, s[0]) then LStrip(h, s[1..]) else s
  }

  predicate Continues(h: Host, body: string) {
    var s := RStrip(h, body);
    s != "" && s[|s| - 1] == '\\'
  }

  /** The command-line state, changed in place word by word. */
  class CommandLine {
    var expectCommand: bool
    var name: string
    var subcommands: bool
    var options: bool
    var valueNext: bool

    function View(): Place
      reads this
    {
      Place(expectCommand, name, subcommands, options, valueNext)
    }

    constructor ()
      ensures View() == START
    {
      expectCommand, name, subcommands, options, valueNext := true, "", false, false, false;
    }

    method Chain()
      modifies this
      ensures View() == START
    {
      expectCommand, name, subcommands := true, "", false;
      options, valueNext := false, false;
    }

    method RunOption(h: Host, word: string) returns (tokens: Option<seq<Token>>)
      modifies this
      ensures (tokens, View()) == AfterRunOption(h, word, old(View()))
    {
      if valueNext {
        valueNext := false;
        return Some([Token(Value, word)]);
      }
      if IsOption(h, word) {
        var n := EqualsAt(word);
        valueNext := n == |word| && TakesValue(word[..n]);
        assert word[..|word|] == word;
        return Some(CutAtEquals(word));
      }
      options := false;
      return None;
    }

    method Word(h: Host, word: string) returns (tokens: seq<Token>)
      modifies this
      ensures (tokens, View()) == AfterWord(h, word, old(View()))
    {
      hide CutAtEquals, Assigns, SubWord, IsOption, TakesSubcommands, RunsACommand, AfterRunOption;
      if options {
        var option := RunOption(h, word);
        if option.Some? {
          return option.value;
        }
      }
      if expectCommand {
        if Assigns(word) {
          return CutAtEquals(word);
        }
        expectCommand, name := false, word;
        subcommands := TakesSubcommands(word);
        return [Token(Command, word)];
      }
      subcommands := subcommands && !("-" <= word || Assigns(word));
      if IsOption(h, word) || Assigns(word) {
        return CutAtEquals(word);
      }
      if subcommands && SubWord(word) {
        if RunsACommand(name, word) {
          Chain();
          options := true;
        }
        return [Token(Sub, word)];
      }
      subcommands := false;
      return [Token(Value, word)];
    }

    method Tokens(h: Host, body: string) returns (tokens: seq<Token>, continues: bool)
      modifies this
      ensures (tokens, View()) == AfterLexemes(h, Lex(h, body), old(View()))
      ensures continues == Continues(h, body)
    {
      hide AfterWord;
      tokens := [];
      var lexemes := Lex(h, body);
      var i := 0;
      assert lexemes[..0] == [];
      while i < |lexemes|
        invariant 0 <= i <= |lexemes|
        invariant (tokens, View()) == AfterLexemes(h, lexemes[..i], old(View()))
      {
        assert lexemes[..i + 1][..i] == lexemes[..i];
        var kind, text := lexemes[i].kind, lexemes[i].text;
        if kind.Word? {
          var more := Word(h, text);
          tokens := tokens + more;
        } else {
          tokens := tokens + [Token(RoleOf(kind), text)];
          if kind.Op? && text in CHAIN {
            Chain();
          }
        }
        i := i + 1;
      }
      assert lexemes[..|lexemes|] == lexemes;
      continues := Continues(h, body);
    }
  }

  // ----- What the tokens say of the words -----

  function Texts(tokens: seq<Token>): string {
    if tokens == [] then "" else Texts(tokens[..|tokens| - 1]) + tokens[|tokens| - 1].text
  }

  /** The text without its comments. */
  function CodeTexts(tokens: seq<Token>): string {
    if tokens == [] then ""
    else CodeTexts(tokens[..|tokens| - 1])
         + (if tokens[|tokens| - 1].role == Note then "" else tokens[|tokens| - 1].text)
  }

  lemma Associates(a: string, b: string, c: string)
    ensures (a + b) + c == a + (b + c)
  {
  }

  lemma {:induction false} TextsOfTwo(a: seq<Token>, b: seq<Token>)
    ensures Texts(a + b) == Texts(a) + Texts(b)
    ensures CodeTexts(a + b) == CodeTexts(a) + CodeTexts(b)
    decreases |b|
  {
    if b == [] {
      assert a + b == a;
    } else {
      var front, last := b[..|b| - 1], b[|b| - 1];
      TextsOfTwo(a, front);
      assert (a + b)[..|a + b| - 1] == a + front && (a + b)[|a + b| - 1] == last;
      Associates(Texts(a), Texts(front), last.text);
      Associates(CodeTexts(a), CodeTexts(front), if last.role == Note then "" else last.text);
    }
  }

  /** Text that is code throughout. */
  predicate SaysCode(tokens: seq<Token>, text: string) {
    Texts(tokens) == text && CodeTexts(tokens) == text
  }

  lemma OneTokenSays(role: Role, text: string)
    requires role != Note
    ensures SaysCode([Token(role, text)], text)
  {
    var token := Token(role, text);
    assert [token][..0] == [] && Texts([]) == "" && CodeTexts([]) == "";
    assert "" + text == text;
  }

  lemma TwoSay(a: seq<Token>, b: seq<Token>, s: string, r: string)
    requires SaysCode(a, s) && SaysCode(b, r)
    ensures SaysCode(a + b, s + r)
  {
    TextsOfTwo(a, b);
  }

  lemma SignInTheMiddle(word: string, n: nat)
    requires n < |word| && word[n] == '='
    ensures word == word[..n] + "=" + word[n + 1..]
  {
  }

  lemma CutSays(word: string)
    ensures SaysCode(CutAtEquals(word), word)
  {
    hide SaysCode;
    var n := EqualsAt(word);
    var name, sign := [Token(Flag, word[..n])], [Token(Punct, "=")];
    OneTokenSays(Flag, word[..n]);
    if n < |word| {
      SignInTheMiddle(word, n);
      OneTokenSays(Punct, "=");
      TwoSay(name, sign, word[..n], "=");
      if n + 1 < |word| {
        OneTokenSays(Value, word[n + 1..]);
        TwoSay(name + sign, [Token(Value, word[n + 1..])], word[..n] + "=", word[n + 1..]);
      } else {
        assert word[..n] + "=" + word[n + 1..] == word[..n] + "=";
        assert CutAtEquals(word) == name + sign;
      }
    } else {
      assert word[..n] == word;
      assert CutAtEquals(word) == name;
    }
  }

  lemma PlainWordKeepsItsText(h: Host, word: string, p: Place)
    ensures SaysCode(AfterPlainWord(h, word, p).0, word)
  {
    hide SaysCode, CutAtEquals, Assigns, SubWord, IsOption, EqualsAt, TakesSubcommands, RunsACommand;
    CutSays(word);
    OneTokenSays(Value, word);
    OneTokenSays(Command, word);
    OneTokenSays(Sub, word);
  }

  /** Whatever the place, a word's tokens join back to the word. */
  lemma WordKeepsItsText(h: Host, word: string, p: Place)
    ensures SaysCode(AfterWord(h, word, p).0, word)
  {
    hide SaysCode, CutAtEquals, AfterPlainWord, IsOption, EqualsAt, TakesValue;
    CutSays(word);
    OneTokenSays(Value, word);
    PlainWordKeepsItsText(h, word, p);
    PlainWordKeepsItsText(h, word, AfterRunOption(h, word, p).1);
  }

  lemma {:induction false} LexTextsOfTwo(a: seq<Lexeme>, b: seq<Lexeme>)
    ensures LexText(a + b) == LexText(a) + LexText(b)
    ensures CodeText(a + b) == CodeText(a) + CodeText(b)
  {
    if a == [] {
      assert a + b == b;
    } else {
      LexTextsOfTwo(a[1..], b);
      assert (a + b)[1..] == a[1..] + b && (a + b)[0] == a[0];
      Associates(a[0].text, LexText(a[1..]), LexText(b));
      Associates(if a[0].kind.Comment? then "" else a[0].text, CodeText(a[1..]), CodeText(b));
    }
  }

  lemma LexemeKeepsItsText(h: Host, lexeme: Lexeme, p: Place)
    ensures Texts(AfterLexeme(h, lexeme, p).0) == LexText([lexeme])
    ensures CodeTexts(AfterLexeme(h, lexeme, p).0) == CodeText([lexeme])
  {
    hide AfterWord;
    assert [lexeme][1..] == [] && lexeme.text + "" == lexeme.text;
    if lexeme.kind.Word? {
      WordKeepsItsText(h, lexeme.text, p);
    } else if lexeme.kind.Comment? {
      var token := Token(Note, lexeme.text);
      assert [token][..0] == [] && "" + lexeme.text == lexeme.text;
    } else {
      OneTokenSays(RoleOf(lexeme.kind), lexeme.text);
    }
  }

  lemma {:induction false} LexemesKeepTheirText(h: Host, lexemes: seq<Lexeme>, p: Place)
    ensures Texts(AfterLexemes(h, lexemes, p).0) == LexText(lexemes)
    ensures CodeTexts(AfterLexemes(h, lexemes, p).0) == CodeText(lexemes)
    decreases |lexemes|
  {
    if lexemes != [] {
      var n := |lexemes| - 1;
      LexemesKeepTheirText(h, lexemes[..n], p);
      var (tokens, q) := AfterLexemes(h, lexemes[..n], p);
      LexemeKeepsItsText(h, lexemes[n], q);
      hide AfterLexeme;
      TextsOfTwo(tokens, AfterLexeme(h, lexemes[n], q).0);
      LexTextsOfTwo(lexemes[..n], [lexemes[n]]);
      assert lexemes == lexemes[..n] + [lexemes[n]];
    }
  }

  /** Reading on: the second part is read from the place the first part left. */
  lemma {:induction false} LexemesOfTwo(h: Host, a: seq<Lexeme>, b: seq<Lexeme>, p: Place)
    ensures var (first, q) := AfterLexemes(h, a, p);
            var (second, r) := AfterLexemes(h, b, q);
            AfterLexemes(h, a + b, p) == (first + second, r)
    decreases |b|
  {
    hide AfterLexeme;
    if b == [] {
      assert a + b == a;
      var (first, q) := AfterLexemes(h, a, p);
      assert first + [] == first;
    } else {
      var n := |b| - 1;
      LexemesOfTwo(h, a, b[..n], p);
      assert (a + b)[..|a + b| - 1] == a + b[..n];
      var (first, q) := AfterLexemes(h, a, p);
      var (second, r) := AfterLexemes(h, b[..n], q);
      var last := AfterLexeme(h, b[n], r).0;
      assert (first + second) + last == first + (second + last);
    }
  }

  predicate Chains(lexeme: Lexeme) {
    lexeme.kind.Op? && lexeme.text in CHAIN
  }

  /** After a chaining operator the row goes on as a row of its own would. */
  lemma ChainStartsAfresh(h: Host, before: seq<Lexeme>, op: Lexeme, rest: seq<Lexeme>, p: Place)
    requires Chains(op)
    ensures AfterLexemes(h, before + [op] + rest, p).1 == AfterLexemes(h, rest, START).1
    ensures AfterLexemes(h, before + [op] + rest, p).0
            == AfterLexemes(h, before, p).0 + [Token(Punct, op.text)] + AfterLexemes(h, rest, START).0
  {
    LexemesOfTwo(h, before + [op], rest, p);
    assert (before + [op])[..|before|] == before;
  }

  /** The first word of a row that assigns nothing is its command. */
  lemma {:induction false} FirstWordIsTheCommand(h: Host, before: seq<Lexeme>, word: string)
    requires forall i :: 0 <= i < |before| ==> before[i].kind.Word? ==> Assigns(before[i].text)
    requires !Assigns(word)
    ensures AfterLexemes(h, before, START).1 == START
    ensures AfterLexemes(h, before + [Lexeme(Word, word)], START).0
            == AfterLexemes(h, before, START).0 + [Token(Command, word)]
    decreases |before|
  {
    assert (before + [Lexeme(Word, word)])[..|before|] == before;
    if before != [] {
      FirstWordIsTheCommand(h, before[..|before| - 1], word);
    }
  }

  predicate NoNames(tokens: seq<Token>) {
    forall token :: token in tokens ==> token.role != Sub && token.role != Command
  }

  lemma {:induction false} NothingMoreIsNamed(h: Host, lexemes: seq<Lexeme>, p: Place)
    requires !p.expectCommand && !p.subcommands && !p.options
    requires forall i :: 0 <= i < |lexemes| ==> !Chains(lexemes[i])
    ensures AfterLexemes(h, lexemes, p).1 == p && NoNames(AfterLexemes(h, lexemes, p).0)
    decreases |lexemes|
  {
    if lexemes != [] {
      NothingMoreIsNamed(h, lexemes[..|lexemes| - 1], p);
    }
  }

  /** Options of `uv run` come only where its command is still awaited. */
  lemma {:induction false} OptionsAwaitACommand(h: Host, lexemes: seq<Lexeme>, p: Place)
    requires p.options ==> p.expectCommand
    ensures var q := AfterLexemes(h, lexemes, p).1; q.options ==> q.expectCommand
    decreases |lexemes|
  {
    if lexemes != [] {
      OptionsAwaitACommand(h, lexemes[..|lexemes| - 1], p);
    }
  }

  /** Once a command has taken a word that names nothing, a value, an option or an assignment, no subcommand and no
      command follows up to the next chaining operator. */
  lemma SubcommandsAreOver(h: Host, before: seq<Lexeme>, word: string, rest: seq<Lexeme>)
    requires var p := AfterLexemes(h, before, START).1; !p.expectCommand && NoNames(AfterWord(h, word, p).0)
    requires forall i :: 0 <= i < |rest| ==> !Chains(rest[i])
    ensures var (front, p) := AfterLexemes(h, before, START);
            var (tokens, q) := AfterWord(h, word, p);
            var (more, r) := AfterLexemes(h, rest, q);
            && AfterLexemes(h, before + [Lexeme(Word, word)] + rest, START) == (front + tokens + more, r)
            && NoNames(more) && r == q
  {
    var one := Lexeme(Word, word);
    var (front, p) := AfterLexemes(h, before, START);
    var (tokens, q) := AfterWord(h, word, p);
    OptionsAwaitACommand(h, before, START);
    assert (before + [one])[..|before|] == before;
    assert AfterLexemes(h, before + [one], START) == (front + tokens, q);
    LexemesOfTwo(h, before + [one], rest, START);
    WordEndsNames(h, word, p);
    hide AfterLexemes, AfterWord, NoNames;
    NothingMoreIsNamed(h, rest, q);
  }

  lemma WordEndsNames(h: Host, word: string, p: Place)
    requires !p.expectCommand && !p.options && NoNames(AfterWord(h, word, p).0)
    ensures var q := AfterWord(h, word, p).1; !q.expectCommand && !q.subcommands && !q.options
  {
    var sub := Token(Sub, word);
    assert sub in [sub];
    hide CutAtEquals, SubWord;
  }

  function CountRole(role: Role, tokens: seq<Token>): nat {
    if tokens == [] then 0
    else CountRole(role, tokens[..|tokens| - 1]) + (if tokens[|tokens| - 1].role == role then 1 else 0)
  }

  function CountChains(lexemes: seq<Lexeme>): nat {
    if lexemes == [] then 0
    else CountChains(lexemes[..|lexemes| - 1]) + (if Chains(lexemes[|lexemes| - 1]) then 1 else 0)
  }

  /** The subcommand `run` is a place for a second command. */
  function CountRuns(tokens: seq<Token>): nat {
    if tokens == [] then 0
    else CountRuns(tokens[..|tokens| - 1]) + (if tokens[|tokens| - 1] == Token(Sub, "run") then 1 else 0)
  }

  lemma {:induction false} CountsOfTwo(a: seq<Token>, b: seq<Token>)
    ensures CountRole(Command, a + b) == CountRole(Command, a) + CountRole(Command, b)
    ensures CountRuns(a + b) == CountRuns(a) + CountRuns(b)
    decreases |b|
  {
    if b == [] {
      assert a + b == a;
    } else {
      CountsOfTwo(a, b[..|b| - 1]);
      assert (a + b)[..|a + b| - 1] == a + b[..|b| - 1];
    }
  }

  function Expects(p: Place): nat {
    if p.expectCommand then 1 else 0
  }

  lemma OneTokenCounts(token: Token)
    ensures CountRole(Command, [token]) == (if token.role == Command then 1 else 0)
    ensures CountRuns([token]) == (if token == Token(Sub, "run") then 1 else 0)
  {
    assert [token][..0] == [];
  }

  lemma CutCounts(word: string)
    ensures CountRole(Command, CutAtEquals(word)) == 0
    ensures CountRuns(CutAtEquals(word)) == 0
  {
    var n := EqualsAt(word);
    var name, sign, value := Token(Flag, word[..n]), Token(Punct, "="),
        Token(Value, word[if n < |word| then n + 1 else n..]);
    OneTokenCounts(name);
    OneTokenCounts(sign);
    OneTokenCounts(value);
    CountsOfTwo([name], [sign]);
    CountsOfTwo([name] + [sign], [value]);
    assert CutAtEquals(word) == [name] || CutAtEquals(word) == [name] + [sign]
           || CutAtEquals(word) == [name] + [sign] + [value];
  }

  lemma WordTakesAPlace(h: Host, word: string, p: Place)
    ensures var (tokens, q) := AfterWord(h, word, p);
            CountRole(Command, tokens) + Expects(q) <= Expects(p) + CountRuns(tokens)
  {
    CutCounts(word);
    OneTokenCounts(Token(Value, word));
    OneTokenCounts(Token(Command, word));
    OneTokenCounts(Token(Sub, word));
    hide CutAtEquals, CountRole, CountRuns;
  }

  /** A row names no more commands than it has places for one: its start, its chaining operators, its `run`s. */
  lemma {:induction false} CommandsHavePlaces(h: Host, lexemes: seq<Lexeme>, p: Place)
    ensures var (tokens, q) := AfterLexemes(h, lexemes, p);
            CountRole(Command, tokens) + Expects(q) <= Expects(p) + CountChains(lexemes) + CountRuns(tokens)
    decreases |lexemes|
  {
    hide AfterWord;
    if lexemes != [] {
      var n := |lexemes| - 1;
      CommandsHavePlaces(h, lexemes[..n], p);
      var (tokens, q) := AfterLexemes(h, lexemes[..n], p);
      var (more, r) := AfterLexeme(h, lexemes[n], q);
      CountsOfTwo(tokens, more);
      if lexemes[n].kind.Word? {
        WordTakesAPlace(h, lexemes[n].text, q);
      } else {
        OneTokenCounts(more[0]);
      }
    }
  }
}
