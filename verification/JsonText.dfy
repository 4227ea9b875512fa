/** Values as JSON text: how `save` writes its two backends, whatever they hold. A JSON object is no inline table, so
    such a text is read as TOML only where no table holds anything. */
module JsonText {
  import opened Toml

  function Json(v: Value): string
    decreases v, 1
  {
    match v
    case List(items) => "[" + JsonItems(items) + "]"
    case Table(entries) => "{" + JsonEntries(entries) + "}"
    case _ => Print(v)
  }

  function JsonItems(items: seq<Value>): string
    decreases items, 0
  {
    if items == [] then ""
    else if |items| == 1 then Json(items[0])
    else Json(items[0]) + ", " + JsonItems(items[1..])
  }

  function JsonEntries(entries: seq<Entry>): string
    decreases entries, 0
  {
    if entries == [] then ""
    else
      var first := PrintString(entries[0].key) + ": " + Json(entries[0].value);
      if |entries| == 1 then first else first + ", " + JsonEntries(entries[1..])
  }

  /** No table in it holds anything. */
  predicate TableFree(v: Value)
    decreases v, 1
  {
    match v
    case List(items) => ItemsTableFree(items)
    case Table(entries) => entries == []
    case _ => true
  }

  predicate ItemsTableFree(items: seq<Value>)
    decreases items, 0
  {
    items == [] || (TableFree(items[0]) && ItemsTableFree(items[1..]))
  }

  /** Without tables the two ways of writing agree. */
  lemma {:induction false} JsonIsPrint(v: Value)
    requires TableFree(v)
    ensures Json(v) == Print(v) && KeysPrintable(v)
    decreases v, 1
  {
    match v {
      case List(items) => JsonItemsArePrint(items);
      case Table(entries) =>
        assert JsonEntries([]) == "" && PrintEntries([]) == "";
      case _ =>
    }
  }

  lemma {:induction false} JsonItemsArePrint(items: seq<Value>)
    requires ItemsTableFree(items)
    ensures JsonItems(items) == PrintItems(items) && ItemsPrintable(items)
    decreases items, 0
  {
    if items != [] {
      hide Json, Print, KeysPrintable, TableFree;
      JsonIsPrint(items[0]);
      JsonItemsArePrint(items[1..]);
    }
  }

  lemma JsonStarts(v: Value)
    ensures Json(v) != ""
    ensures var c := Json(v)[0]; c != ' ' && c != '\t' && c != '\n' && c != ']' && c != '}' && c != ','
  {
    PrintStarts(v);
    hide Print;
  }

  /** A name, a colon and a value is no entry of a table. */
  lemma ColonIsNoEntry(key: string, v: string)
    ensures ParseEntry(PrintString(key) + ": " + v) == Fail
  {
    hide ParseKey, ParseValue, PrintString;
    var after := ": " + v;
    QuotedKey(key, after);
    assert PrintString(key) + ": " + v == PrintString(key) + after;
    assert SkipBlanks(after) == after;
  }

  lemma QuotedKey(key: string, rest: string)
    requires rest == "" || rest[0] != '"'
    ensures ParseKey(PrintString(key) + rest) == Done(key, rest)
  {
    QuotedIsRead(key, rest);
    hide PrintString;
  }

  lemma JsonObjectFails(entries: seq<Entry>, rest: string)
    requires entries != []
    ensures ParseTable(JsonEntries(entries) + "}" + rest) == Fail
  {
    hide ParseEntry, PrintString, Json;
    var key := entries[0].key;
    var v := Json(entries[0].value) + (if |entries| == 1 then "" else ", " + JsonEntries(entries[1..])) + "}" + rest;
    var t := JsonEntries(entries) + "}" + rest;
    assert t == PrintString(key) + ": " + v;
    ColonIsNoEntry(key, v);
    QuoteFirst(key);
    assert t[0] == '"' && SkipBlanks(t) == t;
  }

  lemma QuoteFirst(key: string)
    ensures PrintString(key) != "" && PrintString(key)[0] == '"'
  {
  }

  /** JSON text is read as the value if and only if no table in it holds anything; otherwise it cannot be read. */
  lemma {:induction false} JsonIsRead(v: Value, rest: string)
    requires Dict(v) && Ends(rest)
    ensures ParseValue(Json(v) + rest) == if TableFree(v) then Done(v, rest) else Fail
    decreases v, 1
  {
    hide ParseValue, ParseTable, Print, KeysPrintable, JsonItems, JsonEntries, ParseItems;
    if TableFree(v) {
      JsonIsPrint(v);
      ValueIsRead(v, rest);
    } else if v.List? {
      var t := JsonItems(v.items) + "]" + rest;
      assert Json(v) + rest == "[" + t;
      ReadByFirst(t);
      JsonItemsFail(v.items, rest);
      ItemsStart(v.items, rest);
    } else {
      var t := JsonEntries(v.entries) + "}" + rest;
      assert Json(v) + rest == "{" + t;
      ReadByFirst(t);
      JsonObjectFails(v.entries, rest);
    }
  }

  lemma ItemsStart(items: seq<Value>, rest: string)
    requires items != []
    ensures var t := JsonItems(items) + "]" + rest; t != "" && t[0] != ']' && SkipLines(t) == t
  {
    hide Json;
    JsonStarts(items[0]);
    var t := JsonItems(items) + "]" + rest;
    assert t[0] == Json(items[0])[0];
  }

  lemma {:induction false} JsonItemsFail(items: seq<Value>, rest: string)
    requires DictItems(items) && !ItemsTableFree(items)
    ensures ParseItems(JsonItems(items) + "]" + rest) == Fail
    decreases items, 0
  {
    hide Json, ParseValue, Dict, TableFree;
    var s := JsonItems(items) + "]" + rest;
    if |items| == 1 {
      var after := "]" + rest;
      assert s == Json(items[0]) + after;
      JsonIsRead(items[0], after);
    } else {
      var t := JsonItems(items[1..]) + "]" + rest;
      var after := ", " + t;
      assert s == Json(items[0]) + after;
      JsonIsRead(items[0], after);
      if TableFree(items[0]) {
        assert after[1..] == " " + t && (" " + t)[1..] == t;
        JsonStarts(items[1]);
        assert t[0] == Json(items[1])[0];
        assert SkipLines(" " + t) == t;
        JsonItemsFail(items[1..], rest);
      }
    }
  }
}
