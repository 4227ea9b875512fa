/** Texts without the blanks around them, whatever a blank is. */
module Trimming {

  function TrimLeft(blank: char -> bool, text: string): (t: string)
    ensures |t| <= |text| && t == text[|text| - |t|..]
    ensures t == "" || !blank(t[0])
  {
    if text != "" && blank(text[0]) then TrimLeft(blank, text[1..]) else text
  }

  function TrimRight(blank: char -> bool, text: string): (t: string)
    ensures t <= text
    ensures t == "" || !blank(t[|t| - 1])
  {
    if text != "" && blank(text[|text| - 1]) then TrimRight(blank, text[..|text| - 1]) else text
  }

  function Strip(blank: char -> bool, text: string): string {
    TrimRight(blank, TrimLeft(blank, text))
  }

  lemma StripIsIdempotent(blank: char -> bool, text: string)
    ensures Strip(blank, Strip(blank, text)) == Strip(blank, text)
  {
    var t := TrimLeft(blank, text);
    var u := TrimRight(blank, t);
    assert u != "" ==> u[0] == t[0];
    assert TrimLeft(blank, u) == u && TrimRight(blank, u) == u;
  }
}
