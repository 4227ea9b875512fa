/** What a terminal shows of the text written to it: the finished rows, the row the cursor is on, and the
    escape sequence it is in the middle of. Rows are not wrapped at the width: the progress line is kept one
    cell short of it. */
module Terminal {

  const ESC: char := '\U{1b}'
  /** To the start of the row, then clear the row. */
  const ERASE: string := "\r" + [ESC] + "[2K"
  const DIM: string := [ESC] + "[2m"
  const RESET: string := [ESC] + "[0m"

  /** A line in its colour. */
  function Dressed(color: bool, line: string): string {
    if color then DIM + line + RESET else line
  }

  datatype Screen = Screen(rows: seq<string>, row: string, col: nat, pending: string)

  const BLANK := Screen([], "", 0, "")

  /** The escape sequence under way after `c`, when `pending` was under way before it. */
  function Pending(pending: string, c: char): string {
    if pending == "" then if c == ESC then [ESC] else ""
    else if pending == [ESC] then if c == '[' then [ESC, '['] else ""
    else if '@' <= c <= '~' then ""
    else pending + [c]
  }

  function Put(row: string, col: nat, c: char): string {
    if col < |row| then row[col := c] else row + seq(col - |row|, _ => ' ') + [c]
  }

  function FeedChar(s: Screen, c: char): Screen {
    var next := Pending(s.pending, c);
    if s.pending != "" then
      if s.pending + [c] == [ESC] + "[2K" then s.(row := "", pending := next) else s.(pending := next)
    else if c == ESC then s.(pending := next)
    else if c == '\r' then s.(col := 0)
    else if c == '\n' then Screen(s.rows + [s.row], "", 0, "")
    else s.(row := Put(s.row, s.col, c), col := s.col + 1)
  }

  function Feed(s: Screen, text: string): Screen
    decreases |text|
  {
    if text == "" then s else Feed(FeedChar(s, text[0]), text[1..])
  }

  /** The control characters, from NUL to the unit separator and from DEL to the last of the C1 set. */
  predicate Control(c: char) {
    c < ' ' || '\U{7f}' <= c <= '\U{9f}'
  }

  /** Every character takes the next place on the row and does nothing else. */
  predicate Plain(text: string) {
    forall i | 0 <= i < |text| :: !Control(text[i])
  }

  predicate AllPlain(texts: seq<string>) {
    forall i | 0 <= i < |texts| :: Plain(texts[i])
  }

  /** The escape sequence still under way at the end of `text`. */
  function Unfinished(pending: string, text: string): string
    decreases |text|
  {
    if text == "" then pending else Unfinished(Pending(pending, text[0]), text[1..])
  }

  /** A text whose every escape sequence ends before the text does. */
  predicate Settled(text: string) {
    Unfinished("", text) == ""
  }

  /** A screen at the start of a fresh row. */
  predicate AtRowStart(s: Screen) {
    s.row == "" && s.col == 0 && s.pending == ""
  }

  /** `s` with `line` written on its fresh row, the cursor after it. */
  function Overlay(s: Screen, line: string): Screen {
    s.(row := line, col := |line|)
  }

  lemma {:induction false} FeedAppend(s: Screen, a: string, b: string)
    ensures Feed(s, a + b) == Feed(Feed(s, a), b)
    decreases |a|
  {
    if a == "" {
      assert a + b == b;
    } else {
      assert (a + b)[1..] == a[1..] + b;
      FeedAppend(FeedChar(s, a[0]), a[1..], b);
    }
  }

  lemma {:induction false} FeedPending(s: Screen, text: string)
    ensures Feed(s, text).pending == Unfinished(s.pending, text)
    decreases |text|
  {
    if text != "" {
      FeedPending(FeedChar(s, text[0]), text[1..]);
    }
  }

  lemma {:induction false} FeedPlain(s: Screen, text: string)
    requires Plain(text) && s.pending == "" && s.col == |s.row|
    ensures Feed(s, text) == s.(row := s.row + text, col := s.col + |text|)
    decreases |text|
  {
    if text == "" {
      assert s.row + text == s.row;
    } else {
      assert s.row + seq(0, _ => ' ') + [text[0]] == s.row + [text[0]];
      assert FeedChar(s, text[0]) == s.(row := s.row + [text[0]], col := s.col + 1);
      FeedPlain(FeedChar(s, text[0]), text[1..]);
      assert s.row + [text[0]] + text[1..] == s.row + text;
    }
  }

  lemma FeedErase(s: Screen)
    requires s.pending == ""
    ensures Feed(s, ERASE) == s.(row := "", col := 0)
  {
    var a := s.(col := 0);
    FeedAppend(s, "\r", [ESC] + "[2K");
    assert ERASE == "\r" + ([ESC] + "[2K");
    assert Feed(s, "\r") == a by { assert "\r"[1..] == ""; }
    FeedCsi(a, '2', 'K');
  }

  /** The four characters of a sequence `ESC [ digit final`. */
  lemma FeedCsi(s: Screen, digit: char, final: char)
    requires s.pending == "" && '0' <= digit <= '9' && '@' <= final <= '~'
    ensures Feed(s, [ESC, '[', digit, final]) == if digit == '2' && final == 'K' then s.(row := "") else s
  {
    var t := [ESC, '[', digit, final];
    var a := s.(pending := [ESC]);
    var b := s.(pending := [ESC, '[']);
    var c := s.(pending := [ESC, '[', digit]);
    assert t[1..] == ['[', digit, final] && t[1..][1..] == [digit, final];
    assert t[1..][1..][1..] == [final] && [final][1..] == [];
    assert FeedChar(a, '[') == b by {
      assert ([ESC] + ['['])[1] == '[' && |[ESC] + ['[']| == 2 && |[ESC] + "[2K"| == 4;
    }
    assert FeedChar(b, digit) == c by { assert |[ESC, '['] + [digit]| == 3 && |[ESC] + "[2K"| == 4; }
    var all := c.pending + [final];
    assert all == [ESC, '[', digit, final] && [ESC] + "[2K" == [ESC, '[', '2', 'K'];
    assert (all == [ESC] + "[2K") == (digit == '2' && final == 'K') by {
      assert all[2] == digit && all[3] == final;
    }
    assert c.pending != [ESC] by { assert |c.pending| == 3; }
    assert Pending(c.pending, final) == "";
    var done := FeedChar(c, final);
    assert done == if digit == '2' && final == 'K' then s.(row := "") else s;
    assert Feed(c, [final]) == done;
    assert Feed(b, [digit, final]) == done;
    assert Feed(a, ['[', digit, final]) == done;
    assert t[0] == ESC && FeedChar(s, ESC) == a;
  }

  /** A settled text and a newline leave the cursor at the start of a fresh row. */
  lemma FeedRecord(s: Screen, record: string)
    requires s.pending == "" && Settled(record)
    ensures AtRowStart(Feed(s, record + "\n"))
    ensures Feed(s, record + "\n").rows == Feed(s, record).rows + [Feed(s, record).row]
  {
    FeedAppend(s, record, "\n");
    FeedPending(s, record);
    var t := Feed(s, record);
    assert Feed(t, "\n") == FeedChar(t, '\n');
  }
}
