/** The one-line values the settings file is written with, and a parser for them: TOML v1.0.0, sections "Keys",
    "String", "Integer", "Boolean", "Array" and "Inline Table". Floats, dates, multi-line and literal strings,
    dotted keys and underscores in numbers are not read. */
module Toml {
  import opened Numerals

  /** A table is a dict: its keys are distinct, and kept in the order they came. */
  datatype Value =
    | Bool(b: bool)
    | Int(i: int)
    | Str(s: string)
    | List(items: seq<Value>)
    | Table(entries: seq<Entry>)

  datatype Entry = Entry(key: string, value: Value)

  // ----- Printing -----

  const HEX: string := "0123456789abcdef"

  /** One character of a basic string: a JSON escape, with DEL escaped too. */
  function EscapeChar(c: char): string {
    if c == '"' then "\\\""
    else if c == '\\' then "\\\\"
    else if c == '\n' then "\\n"
    else if c == '\r' then "\\r"
    else if c == '\t' then "\\t"
    else if c == '\U{c}' then "\\f"
    else if c == '\U{8}' then "\\b"
    else if c as int < 0x20 || c as int == 0x7f then "\\u00" + [HEX[c as int / 16], HEX[c as int % 16]]
    else [c]
  }

  function Escape(text: string): string {
    if text == "" then "" else EscapeChar(text[0]) + Escape(text[1..])
  }

  function PrintString(text: string): string {
    "\"" + Escape(text) + "\""
  }

  predicate BareChar(c: char) {
    'A' <= c <= 'Z' || 'a' <= c <= 'z' || '0' <= c <= '9' || c == '_' || c == '-'
  }

  predicate AllBare(key: string) {
    forall i | 0 <= i < |key| :: BareChar(key[i])
  }

  /** A key of the language's bare form. */
  predicate Bare(key: string) {
    key != "" && AllBare(key)
  }

  /** A bare key and a newline: the printer's test, whose `$` also stands before a final newline, takes it for a
      bare key. */
  predicate BareThenNewline(key: string) {
    |key| >= 2 && key[|key| - 1] == '\n' && AllBare(key[..|key| - 1])
  }

  function PrintKey(key: string): string {
    if Bare(key) || BareThenNewline(key) then key else PrintString(key)
  }

  function Print(v: Value): string
    decreases v, 1
  {
    match v
    case Bool(b) => if b then "true" else "false"
    case Int(i) => Decimal(i)
    case Str(s) => PrintString(s)
    case List(items) => "[" + PrintItems(items) + "]"
    case Table(entries) => "{" + PrintEntries(entries) + "}"
  }

  function PrintItems(items: seq<Value>): string
    decreases items, 0
  {
    if items == [] then ""
    else if |items| == 1 then Print(items[0])
    else Print(items[0]) + ", " + PrintItems(items[1..])
  }

  function PrintEntries(entries: seq<Entry>): string
    decreases entries, 0
  {
    if entries == [] then ""
    else
      var first := PrintKey(entries[0].key) + " = " + Print(entries[0].value);
      if |entries| == 1 then first else first + ", " + PrintEntries(entries[1..])
  }

  // ----- Parsing -----

  datatype Parsed<T> = Fail | Done(value: T, rest: string)

  function SkipBlanks(s: string): (rest: string)
    ensures |rest| <= |s|
  {
    if s != "" && (s[0] == ' ' || s[0] == '\t') then SkipBlanks(s[1..]) else s
  }

  /** Between the values of an array a newline is a blank too. */
  function SkipLines(s: string): (rest: string)
    ensures |rest| <= |s|
  {
    if s != "" && (s[0] == ' ' || s[0] == '\t' || s[0] == '\n') then SkipLines(s[1..]) else s
  }

  /** The number of `digits` hex digits at the start of `s`, or -1. */
  function HexNumber(s: string, digits: nat, acc: nat): int
    decreases digits
  {
    if digits == 0 then acc
    else if s == "" || !Hex(s[0]) then -1
    else HexNumber(s[1..], digits - 1, acc * 16 + HexValue(s[0]))
  }

  function CodePoint(s: string, digits: nat): Parsed<char> {
    var n := HexNumber(s, digits, 0);
    if |s| < digits || n < 0 || 0xD800 <= n < 0xE000 || n > 0x10FFFF then Fail else Done(n as char, s[digits..])
  }

  /** What follows a backslash. */
  function ParseEscape(s: string): (p: Parsed<char>)
    ensures p.Done? ==> |p.rest| < |s|
  {
    if s == "" then Fail
    else match s[0]
      case 'b' => Done('\U{8}', s[1..])
      case 't' => Done('\t', s[1..])
      case 'n' => Done('\n', s[1..])
      case 'f' => Done('\U{c}', s[1..])
      case 'r' => Done('\r', s[1..])
      case '"' => Done('"', s[1..])
      case '\\' => Done('\\', s[1..])
      case 'u' => CodePoint(s[1..], 4)
      case 'U' => CodePoint(s[1..], 8)
      case _ => Fail
  }

  /** A basic string after its opening quote. */
  function ParseString(s: string): (p: Parsed<string>)
    ensures p.Done? ==> |p.rest| < |s|
    decreases |s|
  {
    if s == "" then Fail
    else if s[0] == '"' then Done("", s[1..])
    else if s[0] == '\\' then
      match ParseEscape(s[1..])
      case Fail => Fail
      case Done(c, rest) => Prepend(c, ParseString(rest))
    else if (s[0] as int < 0x20 && s[0] != '\t') || s[0] as int == 0x7f then Fail
    else Prepend(s[0], ParseString(s[1..]))
  }

  function Prepend(c: char, p: Parsed<string>): Parsed<string> {
    match p case Fail => Fail case Done(text, rest) => Done([c] + text, rest)
  }

  predicate Digit(c: char) {
    '0' <= c <= '9'
  }

  function DigitRun(s: string): (n: nat)
    ensures n <= |s|
  {
    if s == "" || !Digit(s[0]) then 0 else 1 + DigitRun(s[1..])
  }

  function Number(digits: string): nat {
    if digits == "" || !Digit(digits[|digits| - 1]) then 0
    else Number(digits[..|digits| - 1]) * 10 + (digits[|digits| - 1] as int - '0' as int)
  }

  /** A decimal number without leading zeros, not the start of a float, a date or a number in another base. */
  function ParseNat(s: string): Parsed<nat> {
    var n := DigitRun(s);
    if n == 0 || (n > 1 && s[0] == '0') || (n < |s| && (BareChar(s[n]) || s[n] in ".:+")) then Fail
    else Done(Number(s[..n]), s[n..])
  }

  function ParseInt(s: string): Parsed<Value> {
    if s == "" then Fail
    else
      var signed := s[0] == '-' || s[0] == '+';
      match ParseNat(if signed then s[1..] else s)
      case Fail => Fail
      case Done(n, rest) => Done(Int(if s[0] == '-' then 0 - n else n), rest)
  }

  function BareRun(s: string): (n: nat)
    ensures n <= |s|
  {
    if s == "" || !BareChar(s[0]) then 0 else 1 + BareRun(s[1..])
  }

  function ParseKey(s: string): (p: Parsed<string>)
    ensures p.Done? ==> |p.rest| < |s|
  {
    if s == "" then Fail
    else if s[0] == '"' then if s[..1] == s || s[1] != '"' || |s| == 2 || s[2] != '"' then ParseString(s[1..]) else Fail
    else
      var n := BareRun(s);
      if n == 0 then Fail else Done(s[..n], s[n..])
  }

  function ParseValue(s: string): (p: Parsed<Value>)
    ensures p.Done? ==> |p.rest| < |s|
    decreases |s|, 1
  {
    if s == "" then Fail
    else if s[0] == '"' then
      if |s| > 2 && s[1] == '"' && s[2] == '"' then Fail
      else match ParseString(s[1..]) case Fail => Fail case Done(text, rest) => Done(Str(text), rest)
    else if "true" <= s then Done(Bool(true), s[4..])
    else if "false" <= s then Done(Bool(false), s[5..])
    else if s[0] == '[' then ParseArray(s[1..])
    else if s[0] == '{' then ParseTable(s[1..])
    else ParseInt(s)
  }

  /** An array after its opening bracket. */
  function ParseArray(s: string): (p: Parsed<Value>)
    ensures p.Done? ==> |p.rest| < |s|
    decreases |s|, 3
  {
    var t := SkipLines(s);
    if t != "" && t[0] == ']' then Done(List([]), t[1..])
    else match ParseItems(t) case Fail => Fail case Done(items, rest) => Done(List(items), rest)
  }

  /** An inline table after its opening brace. */
  function ParseTable(s: string): (p: Parsed<Value>)
    ensures p.Done? ==> |p.rest| < |s|
    decreases |s|, 3
  {
    var t := SkipBlanks(s);
    if t != "" && t[0] == '}' then Done(Table([]), t[1..])
    else match ParseEntries(t, []) case Fail => Fail case Done(entries, rest) => Done(Table(entries), rest)
  }

  /** The values of an array up to its closing bracket, at least one; a comma may come last. */
  function ParseItems(s: string): (p: Parsed<seq<Value>>)
    ensures p.Done? ==> |p.rest| < |s|
    decreases |s|, 2
  {
    match ParseValue(s)
    case Fail => Fail
    case Done(v, after) =>
      var t := SkipLines(after);
      if t == "" then Fail
      else if t[0] == ']' then Done([v], t[1..])
      else if t[0] != ',' then Fail
      else
        var u := SkipLines(t[1..]);
        if u != "" && u[0] == ']' then Done([v], u[1..])
        else match ParseItems(u) case Fail => Fail case Done(vs, rest) => Done([v] + vs, rest)
  }

  predicate HasKey(entries: seq<Entry>, key: string) {
    exists i :: 0 <= i < |entries| && entries[i].key == key
  }

  /** The entries of an inline table up to its closing brace, at least one; `before` are those already read. */
  function ParseEntries(s: string, before: seq<Entry>): (p: Parsed<seq<Entry>>)
    ensures p.Done? ==> |p.rest| < |s|
    decreases |s|, 2
  {
    match ParseEntry(s)
    case Fail => Fail
    case Done(entry, after) =>
      if HasKey(before, entry.key) then Fail
      else
        var t := SkipBlanks(after);
        if t == "" then Fail
        else if t[0] == '}' then Done(before + [entry], t[1..])
        else if t[0] != ',' then Fail
        else ParseEntries(SkipBlanks(t[1..]), before + [entry])
  }

  /** `key = value`. */
  function ParseEntry(s: string): (p: Parsed<Entry>)
    ensures p.Done? ==> |p.rest| < |s|
    decreases |s|, 0
  {
    match ParseKey(s)
    case Fail => Fail
    case Done(key, after) =>
      var t := SkipBlanks(after);
      if t == "" || t[0] != '=' then Fail
      else match ParseValue(SkipBlanks(t[1..])) case Fail => Fail case Done(v, rest) => Done(Entry(key, v), rest)
  }

  // ----- Printing, then parsing -----

  /** A dict at every level. */
  predicate Dict(v: Value)
    decreases v, 1
  {
    match v
    case List(items) => DictItems(items)
    case Table(entries) => Distinct(entries) && DictEntries(entries)
    case _ => true
  }

  predicate DictItems(items: seq<Value>)
    decreases items, 0
  {
    items == [] || (Dict(items[0]) && DictItems(items[1..]))
  }

  predicate DictEntries(entries: seq<Entry>)
    decreases entries, 0
  {
    entries == [] || (Dict(entries[0].value) && DictEntries(entries[1..]))
  }

  predicate Distinct(entries: seq<Entry>) {
    forall i, j | 0 <= i < j < |entries| :: entries[i].key != entries[j].key
  }

  /** No key at any level is a bare key and a newline. */
  predicate KeysPrintable(v: Value)
    decreases v, 1
  {
    match v
    case List(items) => ItemsPrintable(items)
    case Table(entries) => EntriesPrintable(entries)
    case _ => true
  }

  predicate ItemsPrintable(items: seq<Value>)
    decreases items, 0
  {
    items == [] || (KeysPrintable(items[0]) && ItemsPrintable(items[1..]))
  }

  predicate EntriesPrintable(entries: seq<Entry>)
    decreases entries, 0
  {
    entries == [] || (!BareThenNewline(entries[0].key) && KeysPrintable(entries[0].value)
        && EntriesPrintable(entries[1..]))
  }

  /** What may follow a value. */
  predicate Ends(rest: string) {
    rest == "" || rest[0] == ',' || rest[0] == ']' || rest[0] == '}' || rest[0] == '\n'
  }

  lemma EscapedCharIsRead(c: char, after: string)
    ensures ParseString(EscapeChar(c) + after) == Prepend(c, ParseString(after))
    ensures EscapeChar(c) != ""
    ensures EscapeChar(c)[0] != '"'
  {
    hide CodePoint;
    var e := EscapeChar(c);
    var s := e + after;
    if |e| == 1 {
      assert s[1..] == after;
    } else {
      if |e| == 2 { assert s[1..][0] == e[1] && s[1..][1..] == after; } else { HexEscapeIsRead(c, after); }
      assert s[0] == '\\' && ParseEscape(s[1..]) == Done(c, after);
      hide ParseEscape;
    }
  }

  lemma HexEscapeIsRead(c: char, after: string)
    requires c as int < 0x20 || c as int == 0x7f
    ensures ParseEscape("u00" + [HEX[c as int / 16], HEX[c as int % 16]] + after) == Done(c, after)
    ensures ("\\u00" + [HEX[c as int / 16], HEX[c as int % 16]] + after)[1..]
         == "u00" + [HEX[c as int / 16], HEX[c as int % 16]] + after
  {
    var hi, lo := HEX[c as int / 16], HEX[c as int % 16];
    var s := "u00" + [hi, lo] + after;
    var t := ['0', '0', hi, lo] + after;
    assert s[1..] == t && t[4..] == after;
    HexDigits(c as int / 16);
    HexDigits(c as int % 16);
    FourHexDigits('0', '0', hi, lo, after);
  }

  lemma FourHexDigits(a: char, b: char, c: char, d: char, after: string)
    requires Hex(a) && Hex(b) && Hex(c) && Hex(d)
    ensures HexNumber([a, b, c, d] + after, 4, 0)
         == ((HexValue(a) * 16 + HexValue(b)) * 16 + HexValue(c)) * 16 + HexValue(d)
  {
    hide Hex, HexValue;
    var t := [a, b, c, d] + after;
    var n := HexValue(a) * 16 + HexValue(b);
    assert t[1..] == [b, c, d] + after && t[1..][1..] == [c, d] + after;
    assert t[1..][1..][1..] == [d] + after && t[1..][1..][1..][1..] == after;
    assert HexNumber([d] + after, 1, n * 16 + HexValue(c)) == (n * 16 + HexValue(c)) * 16 + HexValue(d);
    assert HexNumber([c, d] + after, 2, n) == (n * 16 + HexValue(c)) * 16 + HexValue(d);
    assert HexNumber([b, c, d] + after, 3, HexValue(a)) == (n * 16 + HexValue(c)) * 16 + HexValue(d);
  }

  lemma HexDigits(d: nat)
    requires d < 16
    ensures Hex(HEX[d]) && HexValue(HEX[d]) == d
  {
    assert HEX[0] == '0' && HEX[1] == '1' && HEX[2] == '2' && HEX[3] == '3' && HEX[4] == '4' && HEX[5] == '5';
    assert HEX[6] == '6' && HEX[7] == '7' && HEX[8] == '8' && HEX[9] == '9' && HEX[10] == 'a' && HEX[11] == 'b';
    assert HEX[12] == 'c' && HEX[13] == 'd' && HEX[14] == 'e' && HEX[15] == 'f';
  }

  lemma {:induction false} StringIsRead(text: string, rest: string)
    ensures ParseString(Escape(text) + "\"" + rest) == Done(text, rest)
    decreases |text|
  {
    if text == "" {
      assert Escape(text) + "\"" + rest == "\"" + rest;
      assert ("\"" + rest)[1..] == rest;
    } else {
      var after := Escape(text[1..]) + "\"" + rest;
      assert Escape(text) + "\"" + rest == EscapeChar(text[0]) + after;
      EscapedCharIsRead(text[0], after);
      StringIsRead(text[1..], rest);
      assert [text[0]] + text[1..] == text;
    }
  }

  /** A printed string never starts with three quotes unless what follows it adds one. */
  lemma QuotedIsRead(text: string, rest: string)
    requires rest == "" || rest[0] != '"'
    ensures var s := PrintString(text) + rest;
            && s[0] == '"' && |s| >= 2
            && ParseString(s[1..]) == Done(text, rest)
            && (|s| > 2 && s[1] == '"' ==> s[2] != '"')
  {
    StringIsRead(text, rest);
    var t := Escape(text) + "\"" + rest;
    assert PrintString(text) + rest == "\"" + t;
    assert ("\"" + t)[1..] == t;
    hide ParseString;
    if text == "" {
      assert t == "\"" + rest;
    } else {
      EscapedCharIsRead(text[0], "");
      hide EscapeChar;
      assert t[0] == EscapeChar(text[0])[0];
    }
    hide PrintString, Escape;
  }

  lemma {:induction false} DigitsAreRead(n: nat)
    ensures Digits(n) != ""
    ensures forall i | 0 <= i < |Digits(n)| :: Digit(Digits(n)[i])
    ensures Number(Digits(n)) == n
    ensures n > 0 ==> Digits(n)[0] != '0'
    ensures n == 0 ==> Digits(n) == "0"
  {
    hide DigitOf, Digit;
    DigitIsRead(n % 10);
    var s := Digits(n);
    if n < 10 {
      assert s == [DigitOf(n)] && s[..0] == "";
    } else {
      DigitsAreRead(n / 10);
      assert s[..|s| - 1] == Digits(n / 10);
    }
  }

  lemma DigitIsRead(d: nat)
    requires d < 10
    ensures Digit(DigitOf(d)) && DigitOf(d) as int - '0' as int == d
    ensures DigitOf(d) == '0' <==> d == 0
  {
  }

  lemma {:induction false} RunStops(s: string, rest: string)
    requires forall i | 0 <= i < |s| :: Digit(s[i])
    requires rest == "" || !Digit(rest[0])
    ensures DigitRun(s + rest) == |s|
    decreases |s|
  {
    if s == "" {
      assert s + rest == rest;
    } else {
      assert (s + rest)[1..] == s[1..] + rest;
      RunStops(s[1..], rest);
    }
  }

  lemma NatIsRead(n: nat, rest: string)
    requires Ends(rest)
    ensures ParseNat(Digits(n) + rest) == Done(n, rest)
  {
    DigitsAreRead(n);
    RunStops(Digits(n), rest);
    var s := Digits(n) + rest;
    assert s[..|Digits(n)|] == Digits(n) && s[|Digits(n)|..] == rest;
    assert s[0] == Digits(n)[0];
  }

  lemma IntIsRead(i: int, rest: string)
    requires Ends(rest)
    ensures ParseValue(Print(Int(i)) + rest) == Done(Int(i), rest)
  {
    hide ParseNat, ParseArray, ParseTable, ParseString, Digits;
    var s := Print(Int(i)) + rest;
    var n := if i < 0 then -i else i;
    DigitsAreRead(n);
    NatIsRead(n, rest);
    if i < 0 {
      assert s[1..] == Digits(n) + rest;
    } else {
      assert s[0] == Digits(n)[0];
    }
    assert s[0] != 't' && s[0] != 'f' && s[0] != '"' && s[0] != '[' && s[0] != '{';
    assert "true"[0] == 't' && "false"[0] == 'f';
  }

  lemma {:induction false} BareRunStops(key: string, rest: string)
    requires AllBare(key) && rest != "" && !BareChar(rest[0])
    ensures BareRun(key + rest) == |key|
    decreases |key|
  {
    if key == "" {
      assert key + rest == rest;
    } else {
      assert (key + rest)[1..] == key[1..] + rest;
      BareRunStops(key[1..], rest);
    }
  }

  /** A printed key is read back, except a bare one and a newline: there the entry cannot be read at all. */
  lemma KeyIsRead(key: string, v: string)
    ensures var s := PrintKey(key) + " = " + v;
            if BareThenNewline(key) then ParseEntry(s) == Fail
            else ParseKey(s) == Done(key, " = " + v)
  {
    var s := PrintKey(key) + " = " + v;
    if BareThenNewline(key) {
      var bare := key[..|key| - 1];
      BareRunStops(bare, "\n = " + v);
      assert s == bare + ("\n = " + v);
      assert s[0] == bare[0];
      assert s[|bare|..] == "\n = " + v;
    } else if Bare(key) {
      BareRunStops(key, " = " + v);
      assert s == key + (" = " + v);
      assert s[0] == key[0];
    } else {
      assert s == PrintString(key) + (" = " + v);
      QuotedIsRead(key, " = " + v);
    }
  }

  lemma EntryIsRead(key: string, v: Value, rest: string)
    requires ParseValue(Print(v) + rest) == if KeysPrintable(v) then Done(v, rest) else Fail
    requires Print(v) != "" && Print(v)[0] != ' ' && Print(v)[0] != '\t'
    ensures var s := PrintKey(key) + " = " + Print(v) + rest;
            ParseEntry(s) == if !BareThenNewline(key) && KeysPrintable(v) then Done(Entry(key, v), rest) else Fail
  {
    hide Print, PrintKey, ParseKey, ParseValue, KeysPrintable, BareThenNewline;
    var s := PrintKey(key) + " = " + Print(v) + rest;
    KeyIsRead(key, Print(v) + rest);
    assert s == PrintKey(key) + " = " + (Print(v) + rest);
    if !BareThenNewline(key) {
      var t := " = " + (Print(v) + rest);
      assert SkipBlanks(t) == "= " + (Print(v) + rest) by {
        assert t[1..] == "= " + (Print(v) + rest);
      }
      assert ("= " + (Print(v) + rest))[1..] == " " + (Print(v) + rest);
      assert (" " + (Print(v) + rest))[1..] == Print(v) + rest;
      assert SkipBlanks(" " + (Print(v) + rest)) == Print(v) + rest;
    }
  }

  /** A printed value starts with none of the characters its reader skips or stops at. */
  lemma PrintStarts(v: Value)
    ensures Print(v) != ""
    ensures var c := Print(v)[0]; c != ' ' && c != '\t' && c != '\n' && c != ']' && c != '}' && c != ','
    ensures var c := Print(v)[0]; (c == '[' ==> v.List?) && (c == '{' ==> v.Table?) && (c == '"' ==> v.Str?)
  {
    match v {
      case Int(i) => DigitsAreRead(if i < 0 then -i else i);
      case _ =>
    }
  }

  lemma BoolIsRead(b: bool, rest: string)
    ensures ParseValue(Print(Bool(b)) + rest) == Done(Bool(b), rest)
  {
    hide ParseArray, ParseTable, ParseInt, ParseString;
    var s := Print(Bool(b)) + rest;
    assert s[|Print(Bool(b))|..] == rest;
    assert b ==> s[..4] == "true";
    assert !b ==> s[..5] == "false" && s[0] == 'f' && "true"[0] == 't';
  }

  /** What a value starts with says how it is read. */
  lemma ReadByFirst(t: string)
    ensures ParseValue("[" + t) == ParseArray(t)
    ensures ParseValue("{" + t) == ParseTable(t)
  {
    hide ParseArray, ParseTable;
    assert ("[" + t)[1..] == t && ("{" + t)[1..] == t;
    assert ("[" + t)[0] == '[' && ("{" + t)[0] == '{' && "true"[0] == 't' && "false"[0] == 'f';
  }

  lemma StrIsRead(text: string, rest: string)
    requires rest == "" || rest[0] != '"'
    ensures ParseValue(PrintString(text) + rest) == Done(Str(text), rest)
  {
    QuotedIsRead(text, rest);
    hide ParseString, PrintString;
  }

  lemma {:induction false} ValueIsRead(v: Value, rest: string)
    requires Dict(v) && Ends(rest)
    ensures ParseValue(Print(v) + rest) == if KeysPrintable(v) then Done(v, rest) else Fail
    decreases v, 1
  {
    hide ParseValue, ParseItems, ParseEntries, PrintItems, PrintEntries, PrintString;
    match v {
      case Bool(b) => BoolIsRead(b, rest);
      case Int(i) => IntIsRead(i, rest);
      case Str(text) => StrIsRead(text, rest);
      case List(items) =>
        var t := PrintItems(items) + "]" + rest;
        assert Print(v) + rest == "[" + t;
        ReadByFirst(t);
        ArrayIsRead(items, rest);
      case Table(entries) =>
        var t := PrintEntries(entries) + "}" + rest;
        assert Print(v) + rest == "{" + t;
        ReadByFirst(t);
        TableIsRead(entries, rest);
    }
  }

  lemma {:induction false} ArrayIsRead(items: seq<Value>, rest: string)
    requires DictItems(items)
    ensures ParseArray(PrintItems(items) + "]" + rest) == if ItemsPrintable(items) then Done(List(items), rest)
        else Fail
    decreases items, 1
  {
    hide Print, ParseItems;
    var t := PrintItems(items) + "]" + rest;
    if items == [] {
      assert t == "]" + rest && t[1..] == rest;
    } else {
      PrintStarts(items[0]);
      assert t[0] == Print(items[0])[0];
      assert SkipLines(t) == t;
      ItemsAreRead(items, rest);
    }
  }

  lemma {:induction false} TableIsRead(entries: seq<Entry>, rest: string)
    requires Distinct(entries) && DictEntries(entries)
    ensures ParseTable(PrintEntries(entries) + "}" + rest)
         == if EntriesPrintable(entries) then Done(Table(entries), rest) else Fail
    decreases entries, 1
  {
    hide PrintKey, Print, ParseEntries;
    var t := PrintEntries(entries) + "}" + rest;
    if entries == [] {
      assert t == "}" + rest && t[1..] == rest;
    } else {
      KeyStarts(entries[0].key);
      assert t[0] == PrintKey(entries[0].key)[0];
      assert SkipBlanks(t) == t;
      assert [] + entries == entries;
      EntriesAreRead([], entries, rest);
    }
  }

  lemma KeyStarts(key: string)
    ensures PrintKey(key) != ""
    ensures var c := PrintKey(key)[0]; c != ' ' && c != '\t' && c != '}'
  {
  }

  lemma {:induction false} ItemsAreRead(items: seq<Value>, rest: string)
    requires items != [] && DictItems(items)
    ensures ParseItems(PrintItems(items) + "]" + rest) == if ItemsPrintable(items) then Done(items, rest) else Fail
    decreases items, 0
  {
    hide Print, ParseValue, Dict, KeysPrintable;
    var s := PrintItems(items) + "]" + rest;
    if |items| == 1 {
      var after := "]" + rest;
      assert s == Print(items[0]) + after && after[1..] == rest;
      ValueIsRead(items[0], after);
      assert items[1..] == [] && items == [items[0]];
      assert SkipLines(after) == after;
    } else {
      var t := PrintItems(items[1..]) + "]" + rest;
      var after := ", " + t;
      assert s == Print(items[0]) + after;
      assert after[1..] == " " + t && (" " + t)[1..] == t;
      ValueIsRead(items[0], after);
      PrintStarts(items[1]);
      assert t[0] == Print(items[1])[0];
      assert SkipLines(" " + t) == t;
      ItemsAreRead(items[1..], rest);
      assert [items[0]] + items[1..] == items;
    }
  }

  /** An entry is the last of its table, or a further one follows a comma. */
  lemma EntriesGoOn(before: seq<Entry>, s: string, e: Entry, after: string, t: string)
    requires ParseEntry(s) == Done(e, after) && !HasKey(before, e.key)
    ensures after == "}" + t ==> ParseEntries(s, before) == Done(before + [e], t)
    ensures after == ", " + t && SkipBlanks(t) == t ==> ParseEntries(s, before) == ParseEntries(t, before + [e])
  {
    hide ParseEntry, HasKey;
    if after == "}" + t {
      assert SkipBlanks(after) == after && after[1..] == t;
    }
    if after == ", " + t && SkipBlanks(t) == t {
      assert SkipBlanks(after) == after && after[1..] == " " + t && (" " + t)[1..] == t;
      assert SkipBlanks(" " + t) == t;
    }
  }

  lemma NewKey(before: seq<Entry>, entries: seq<Entry>)
    requires entries != [] && Distinct(before + entries)
    ensures !HasKey(before, entries[0].key)
  {
    assert (before + entries)[|before|] == entries[0];
    assert forall i | 0 <= i < |before| :: (before + entries)[i] == before[i];
  }

  lemma {:induction false} EntriesAreRead(before: seq<Entry>, entries: seq<Entry>, rest: string)
    requires entries != [] && Distinct(before + entries) && DictEntries(entries)
    ensures ParseEntries(PrintEntries(entries) + "}" + rest, before)
         == if EntriesPrintable(entries) then Done(before + entries, rest) else Fail
    decreases entries, 0
  {
    hide Print, PrintKey, ParseEntry, ParseValue, Dict, KeysPrintable, BareThenNewline, HasKey, Distinct;
    var s := PrintEntries(entries) + "}" + rest;
    var Entry(key, v) := entries[0];
    NewKey(before, entries);
    var t := if |entries| == 1 then rest else PrintEntries(entries[1..]) + "}" + rest;
    var after := if |entries| == 1 then "}" + t else ", " + t;
    assert s == PrintKey(key) + " = " + Print(v) + after;
    ValueIsRead(v, after);
    PrintStarts(v);
    EntryIsRead(key, v, after);
    if !BareThenNewline(key) && KeysPrintable(v) {
      if |entries| == 1 {
        assert entries[1..] == [] && entries == [Entry(key, v)];
      } else {
        KeyStarts(entries[1].key);
        assert t[0] == PrintKey(entries[1].key)[0];
        assert before + [Entry(key, v)] + entries[1..] == before + entries;
        EntriesAreRead(before + [Entry(key, v)], entries[1..], rest);
      }
      EntriesGoOn(before, s, Entry(key, v), after, t);
      hide ParseEntries, PrintEntries;
    } else {
      hide PrintEntries;
    }
  }

  /** Printing a value and reading it gives the value back if and only if no key in it, at any depth, is a bare key
      followed by a newline; otherwise it cannot be read. */
  lemma PrintThenParse(v: Value)
    requires Dict(v)
    ensures ParseValue(Print(v)) == Done(v, "") <==> KeysPrintable(v)
    ensures ParseValue(Print(v)) == Fail <==> !KeysPrintable(v)
  {
    ValueIsRead(v, "");
    assert Print(v) + "" == Print(v);
  }

  /** Such a table: its key is written bare, and its text cannot be read. */
  lemma NewlineKeyIsLost()
    ensures var v := Table([Entry("a\n", Bool(true))]);
            Dict(v) && !KeysPrintable(v) && ParseValue(Print(v)) == Fail
  {
    var key := "a\n";
    assert key[..1] == "a" && BareThenNewline(key);
    var entries := [Entry(key, Bool(true))];
    assert entries[1..] == [];
    assert Dict(Bool(true)) && DictEntries([]);
    assert BareThenNewline(entries[0].key);
    PrintThenParse(Table(entries));
  }
}
