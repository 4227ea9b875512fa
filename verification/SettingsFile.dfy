/** The settings file as a whole: what `save` writes, read back. */
module SettingsFile {
  import opened Options
  import opened Settings
  import opened SettingsText
  import opened Toml

  function PairsOf(entries: seq<Entry>): seq<Statement> {
    seq(|entries|, i requires 0 <= i < |entries| => Pair(entries[i]))
  }

  predicate StartsBlock(statements: seq<Statement>) {
    statements == [] || statements[0].Open?
  }

  lemma {:induction false} MeaningsAppend(a: seq<Line>, b: seq<Line>)
    ensures Meanings(a + b) == Meanings(a) + Meanings(b)
    decreases |a|
  {
    if a == [] {
      assert a + b == b;
    } else {
      assert (a + b)[1..] == a[1..] + b;
      MeaningsAppend(a[1..], b);
    }
  }

  lemma {:induction false} MeaningsOfPairs(entries: seq<Entry>)
    ensures Meanings(BarePairs(entries)) == PairsOf(entries)
    ensures Meanings(QuotedPairs(entries)) == PairsOf(entries)
    decreases |entries|
  {
    if entries != [] {
      MeaningsOfPairs(entries[1..]);
      assert PairsOf(entries) == [Pair(entries[0])] + PairsOf(entries[1..]);
      assert Entry(entries[0].key, entries[0].value) == entries[0];
    }
  }

  lemma {:induction false} RunOfPairs(entries: seq<Entry>, rest: seq<Statement>)
    requires StartsBlock(rest)
    ensures PairRun(PairsOf(entries) + rest) == |entries|
    decreases |entries|
  {
    if entries == [] {
      assert PairsOf(entries) + rest == rest;
    } else {
      assert (PairsOf(entries) + rest)[1..] == PairsOf(entries[1..]) + rest;
      RunOfPairs(entries[1..], rest);
    }
  }

  lemma BlockIsTaken(entries: seq<Entry>, rest: seq<Statement>)
    requires StartsBlock(rest)
    ensures var s := PairsOf(entries) + rest;
            var n := PairRun(s);
            EntriesOf(s[..n]) == entries && s[n..] == rest
  {
    RunOfPairs(entries, rest);
    var s := PairsOf(entries) + rest;
    assert s[..|entries|] == PairsOf(entries);
  }

  lemma BuildBlock(root: seq<Entry>, path: seq<string>, entries: seq<Entry>, rest: seq<Statement>)
    requires StartsBlock(rest)
    ensures Build(root, [Open(path)] + PairsOf(entries) + rest) ==
            match AddTable(root, path, entries) case None => None case Some(next) => Build(next, rest)
  {
    BlockIsTaken(entries, rest);
    var s := [Open(path)] + PairsOf(entries) + rest;
    assert s[1..] == PairsOf(entries) + rest && s[0] == Open(path);
    hide AddTable, PairRun;
  }

  /** A list of tables under distinct keys, each with distinct keys. */
  predicate TableList(tables: seq<Entry>) {
    Distinct(tables) && forall i | 0 <= i < |tables| :: tables[i].value.Table? && Distinct(tables[i].value.entries)
  }

  lemma {:induction false} FreshLookup(entries: seq<Entry>, key: string)
    ensures Lookup(entries, key).None? <==> !HasKey(entries, key)
    decreases |entries|
  {
    if entries != [] {
      FreshLookup(entries[1..], key);
      assert HasKey(entries, key) <==> entries[0].key == key || HasKey(entries[1..], key) by {
        if HasKey(entries, key) && entries[0].key != key {
          var i :| 0 <= i < |entries| && entries[i].key == key;
          assert entries[1..][i - 1].key == key;
        }
        if HasKey(entries[1..], key) {
          var i :| 0 <= i < |entries[1..]| && entries[1..][i].key == key;
          assert entries[i + 1].key == key;
        }
      }
    }
  }

  /** The lines of one table: its header, its pairs and an empty line. */
  function Block(header: Line, pairs: seq<Line>): seq<Line> {
    [header] + pairs + [Empty]
  }

  lemma BlockMeaning(header: Line, path: seq<string>, pairs: seq<Line>, entries: seq<Entry>, more: seq<Line>)
    requires Meaning(header) == [Open(path)] && Meanings(pairs) == PairsOf(entries)
    ensures Meanings(Block(header, pairs) + more) == [Open(path)] + PairsOf(entries) + Meanings(more)
  {
    hide PairsOf;
    MeaningsAppend(Block(header, pairs), more);
    assert Meanings(Block(header, pairs)) == [Open(path)] + PairsOf(entries) by {
      MeaningsAppend([header] + pairs, [Empty]);
      MeaningsAppend([header], pairs);
      assert [header][1..] == [] && [Empty][1..] == [];
      assert Meanings([header]) == [Open(path)] && Meanings([Empty]) == [];
    }
  }

  lemma AddSection(root: seq<Entry>, table: Entry, rest: seq<Statement>)
    requires table.value.Table? && Distinct(table.value.entries) && Lookup(root, table.key).None? && StartsBlock(rest)
    ensures Build(root, [Open([table.key])] + PairsOf(table.value.entries) + rest) == Build(root + [table], rest)
  {
    BuildBlock(root, [table.key], table.value.entries, rest);
    assert Entry(table.key, Table(table.value.entries)) == table;
    hide Build, Lookup, PairsOf;
  }

  lemma StillFresh(root: seq<Entry>, table: Entry, tables: seq<Entry>)
    requires forall i | 0 <= i < |tables| :: Lookup(root, tables[i].key).None? && tables[i].key != table.key
    ensures forall i | 0 <= i < |tables| :: Lookup(root + [table], tables[i].key).None?
  {
    forall i | 0 <= i < |tables| ensures Lookup(root + [table], tables[i].key).None? {
      LookupAppend(root, [table], tables[i].key);
      LookupOne(table, tables[i].key);
    }
  }

  lemma {:induction false} BuildSections(root: seq<Entry>, tables: seq<Entry>, more: seq<Line>)
    requires TableList(tables) && StartsBlock(Meanings(more))
    requires forall i | 0 <= i < |tables| :: Lookup(root, tables[i].key).None?
    ensures Build(root, Meanings(SectionLines(tables) + more)) == Build(root + tables, Meanings(more))
    ensures StartsBlock(Meanings(SectionLines(tables) + more))
    decreases |tables|
  {
    hide Build, Lookup, PairsOf, Meanings;
    if tables == [] {
      assert SectionLines(tables) + more == more && root + tables == root;
    } else {
      var t, tail := tables[0], SectionLines(tables[1..]) + more;
      MeaningsOfPairs(t.value.entries);
      assert SectionLines(tables) + more == Block(Header(t.key), BarePairs(t.value.entries)) + tail;
      BlockMeaning(Header(t.key), [t.key], BarePairs(t.value.entries), t.value.entries, tail);
      StillFresh(root, t, tables[1..]);
      BuildSections(root + [t], tables[1..], more);
      AddSection(root, t, Meanings(tail));
      assert root + [t] + tables[1..] == root + tables;
    }
  }

  lemma {:induction false} ReplaceLast(root: seq<Entry>, key: string, old_: Value, v: Value)
    requires Lookup(root, key).None?
    ensures Replace(root + [Entry(key, old_)], key, v) == root + [Entry(key, v)]
    ensures Lookup(root + [Entry(key, old_)], key) == Some(old_)
    decreases |root|
  {
    var r := root + [Entry(key, old_)];
    if root == [] {
      assert r[1..] == [];
    } else {
      assert r[1..] == root[1..] + [Entry(key, old_)];
      ReplaceLast(root[1..], key, old_, v);
    }
  }

  /** The prices read so far, in the table they are read into. */
  function WithPrices(root: seq<Entry>, prices: seq<Entry>): seq<Entry> {
    root + if prices == [] then [] else [Entry("pricing", Table(prices))]
  }

  lemma AddPrice(root: seq<Entry>, done: seq<Entry>, price: Entry)
    requires Lookup(root, "pricing").None? && Lookup(done, price.key).None?
    requires price.value.Table? && Distinct(price.value.entries)
    ensures AddTable(WithPrices(root, done), ["pricing", price.key], price.value.entries)
         == Some(WithPrices(root, done + [price]))
  {
    if done == [] {
      assert root + [] == root;
      assert [] + [price] == [price] == [Entry(price.key, Table(price.value.entries))];
    } else {
      ReplaceLast(root, "pricing", Table(done), Table(done + [price]));
      assert Entry(price.key, Table(price.value.entries)) == price;
    }
  }

  lemma AddPriceBlock(root: seq<Entry>, done: seq<Entry>, price: Entry, rest: seq<Statement>)
    requires Lookup(root, "pricing").None? && Lookup(done, price.key).None? && StartsBlock(rest)
    requires price.value.Table? && Distinct(price.value.entries)
    ensures Build(WithPrices(root, done), [Open(["pricing", price.key])] + PairsOf(price.value.entries) + rest)
         == Build(WithPrices(root, done + [price]), rest)
  {
    AddPrice(root, done, price);
    BuildBlock(WithPrices(root, done), ["pricing", price.key], price.value.entries, rest);
    hide Build, AddTable, Lookup, WithPrices, PairsOf;
  }

  lemma {:induction false} BuildPrices(root: seq<Entry>, done: seq<Entry>, prices: seq<Entry>)
    requires Lookup(root, "pricing").None? && TableList(prices)
    requires forall i | 0 <= i < |prices| :: Lookup(done, prices[i].key).None?
    ensures Build(WithPrices(root, done), Meanings(PriceLines(prices))) == Some(WithPrices(root, done + prices))
    ensures StartsBlock(Meanings(PriceLines(prices)))
    decreases |prices|
  {
    hide Build, Lookup, WithPrices, PairsOf, Meanings;
    if prices == [] {
      assert done + prices == done;
      NoStatements(WithPrices(root, done));
    } else {
      var p, tail := prices[0], PriceLines(prices[1..]);
      var entries := p.value.entries;
      MeaningsOfPairs(entries);
      assert PriceLines(prices) == Block(PriceHeader(p.key), QuotedPairs(entries)) + tail;
      BlockMeaning(PriceHeader(p.key), ["pricing", p.key], QuotedPairs(entries), entries, tail);
      StillFresh(done, p, prices[1..]);
      BuildPrices(root, done + [p], prices[1..]);
      AddPriceBlock(root, done, p, Meanings(tail));
      assert done + [p] + prices[1..] == done + prices;
    }
  }

  lemma NoStatements(root: seq<Entry>)
    ensures Build(root, Meanings([])) == Some(root) && StartsBlock(Meanings([]))
  {
  }

  lemma MeaningsOfTop(top: seq<Entry>)
    requires |top| >= 2
    ensures Meanings(TopLines(top)) == PairsOf(top)
  {
    var a, b := JsonPair(top[0].key, top[0].value), JsonPair(top[1].key, top[1].value);
    MeaningsAppend([a, b], BarePairs(top[2..]));
    MeaningsOfPairs(top[2..]);
    assert [a, b][1..] == [b] && [b][1..] == [];
    assert Meanings([a, b]) == [Pair(top[0])] + ([Pair(top[1])] + Meanings([]));
    assert PairsOf(top) == [Pair(top[0]), Pair(top[1])] + PairsOf(top[2..]);
  }

  /** Reading the lines back gives exactly the tables they were written from. */
  lemma LinesAssemble(top: seq<Entry>, sections: seq<Entry>, prices: seq<Entry>)
    requires |top| >= 2 && Distinct(top) && TableList(sections) && TableList(prices)
    requires forall i | 0 <= i < |sections| :: Lookup(top, sections[i].key).None?
    requires Lookup(top + sections, "pricing").None?
    ensures Assemble(Meanings(TopLines(top) + [Empty] + SectionLines(sections) + PriceLines(prices)))
         == Some(WithPrices(top + sections, prices))
  {
    var rest := SectionLines(sections) + PriceLines(prices);
    assert TopLines(top) + [Empty] + SectionLines(sections) + PriceLines(prices) == (TopLines(top) + [Empty]) + rest;
    MeaningsAppend(TopLines(top) + [Empty], rest);
    MeaningsAppend(TopLines(top), [Empty]);
    assert Meanings([Empty]) == [] by { assert [Empty][1..] == []; }
    MeaningsOfTop(top);
    assert PairsOf(top) + [] == PairsOf(top);
    BuildPrices(top + sections, [], prices);
    BuildSections(top, sections, PriceLines(prices));
    BlockIsTaken(top, Meanings(rest));
    assert [] + prices == prices && WithPrices(top + sections, []) == top + sections;
    hide Build, Lookup, PairRun, EntriesOf, TopLines;
  }

  // ----- The saved configuration meets what its reader needs -----

  predicate AllDict(c: Config) {
    forall k <- c.fields :: c.fields[k].Given? ==> Dict(c.fields[k].value)
  }

  predicate IsField(all: seq<Field>, name: string) {
    exists j :: 0 <= j < |all| && all[j].name == name
  }

  lemma LaterField(all: seq<Field>, later: seq<Field>, name: string)
    requires all != [] && later == all[1..] && DistinctFields(all) && IsField(later, name)
    ensures IsField(all, name) && name != all[0].name
  {
    var j :| 0 <= j < |later| && later[j].name == name;
    assert all[j + 1].name == name;
  }

  lemma {:induction false} ChangedIsGood(fields: map<Key, Setting>, section: string, all: seq<Field>)
    requires DistinctFields(all)
    requires forall k <- fields :: fields[k].Given? ==> Dict(fields[k].value)
    ensures var es := Changed(fields, section, all);
            Distinct(es) && forall i | 0 <= i < |es| :: Dict(es[i].value) && IsField(all, es[i].key)
    decreases |all|
  {
    if all != [] {
      hide Dict;
      ChangedIsGood(fields, section, all[1..]);
      var k := Key(section, all[0].name);
      var rest, es := Changed(fields, section, all[1..]), Changed(fields, section, all);
      forall i | 0 <= i < |rest| ensures IsField(all, rest[i].key) && rest[i].key != all[0].name {
        LaterField(all, all[1..], rest[i].key);
      }
      assert IsField(all, all[0].name);
      if k in fields && fields[k] != all[0].default && fields[k].Given? {
        assert es == [Entry(all[0].name, fields[k].value)] + rest;
      } else {
        assert es == rest;
      }
      hide Changed, IsField;
    }
  }

  lemma {:induction false} SectionsAreGood(fields: map<Key, Setting>, sections: seq<Section>)
    requires DistinctSections(sections) && forall i | 0 <= i < |sections| :: DistinctFields(sections[i].fields)
    requires forall k <- fields :: fields[k].Given? ==> Dict(fields[k].value)
    ensures var ts := ChangedSections(fields, sections);
            && TableList(ts)
            && (forall i | 0 <= i < |ts| :: FromSection(fields, sections, ts[i]))
    decreases |sections|
  {
    if sections != [] {
      SectionsAreGood(fields, sections[1..]);
      var body := Changed(fields, sections[0].name, sections[0].fields);
      ChangedIsGood(fields, sections[0].name, sections[0].fields);
      hide Changed, Dict, DistinctFields;
      var rest, ts := ChangedSections(fields, sections[1..]), ChangedSections(fields, sections);
      FromLaterSection(fields, sections, sections[1..], rest);
      if body == [] {
        assert ts == rest;
      } else {
        var first := Entry(sections[0].name, Table(body));
        assert ts == [first] + rest;
        assert IsSection(fields, sections[0], first);
        hide ChangedSections;
      }
    }
  }

  lemma FromLaterSection(fields: map<Key, Setting>, sections: seq<Section>, later: seq<Section>, tables: seq<Entry>)
    requires sections != [] && DistinctSections(sections) && later == sections[1..]
    requires forall i | 0 <= i < |tables| :: FromSection(fields, later, tables[i])
    ensures forall i | 0 <= i < |tables| ::
              && tables[i].key != sections[0].name
              && FromSection(fields, sections, tables[i])
  {
    hide Changed;
    forall i | 0 <= i < |tables|
      ensures tables[i].key != sections[0].name
      ensures FromSection(fields, sections, tables[i])
    {
      var j :| 0 <= j < |later| && IsSection(fields, later[j], tables[i]);
      assert later[j] == sections[j + 1];
      assert IsSection(fields, sections[j + 1], tables[i]);
    }
  }

  /** The table of one of the sections. */
  predicate FromSection(fields: map<Key, Setting>, sections: seq<Section>, table: Entry) {
    exists j :: 0 <= j < |sections| && IsSection(fields, sections[j], table)
  }

  predicate IsSection(fields: map<Key, Setting>, section: Section, table: Entry) {
    table.key == section.name && table.value == Table(Changed(fields, section.name, section.fields))
  }

  lemma {:induction false} DictEntriesAt(entries: seq<Entry>, i: nat)
    requires DictEntries(entries) && i < |entries|
    ensures Dict(entries[i].value)
    decreases i
  {
    if i > 0 { DictEntriesAt(entries[1..], i - 1); }
  }

  lemma {:induction false} TablesAreGood(entries: seq<Entry>)
    requires Distinct(entries) && DictEntries(entries)
    ensures TableList(Tables(entries))
    ensures forall i | 0 <= i < |Tables(entries)| ::
              Tables(entries)[i] in entries && DictEntries(Tables(entries)[i].value.entries)
    decreases |entries|
  {
    if entries != [] {
      TablesAreGood(entries[1..]);
      var ts := Tables(entries);
      if entries[0].value.Table? {
        assert ts == [entries[0]] + Tables(entries[1..]);
        forall i | 0 < i < |ts| ensures ts[i].key != ts[0].key {
          assert ts[i] in entries[1..];
          var j :| 0 <= j < |entries[1..]| && entries[1..][j] == ts[i];
          assert entries[j + 1] == ts[i];
        }
      }
    }
  }

  lemma PricesAreGood(c: Config)
    requires AllDict(c)
    ensures TableList(Prices(c.fields))
    ensures forall i | 0 <= i < |Prices(c.fields)| :: DictEntries(Prices(c.fields)[i].value.entries)
  {
    if Prices(c.fields) != [] {
      TablesAreGood(c.fields[PRICING].value.entries);
    }
  }

  lemma TopIsGood(c: Config)
    requires AllDict(c) && Backend(Get(c.fields, CHAT), c.chatAlias)
        && Backend(Get(c.fields, EMBEDDING), c.embeddingAlias)
    ensures var es := TopEntries(c);
            Distinct(es) && forall i | 0 <= i < |es| :: Dict(es[i].value) && Bare(es[i].key)
  {
    TopNames("mcp_config");
    var rest := Changed(c.fields, "", TOP[2..4]);
    ChangedIsGood(c.fields, "", TOP[2..4]);
    var es := TopEntries(c);
    forall i | 2 <= i < |es| ensures es[i].key == "mcp_config" || es[i].key == "request_timeout_s" {
      assert IsField(TOP[2..4], rest[i - 2].key);
      var j :| 0 <= j < |TOP[2..4]| && TOP[2..4][j].name == rest[i - 2].key;
    }
    TopNamesAreBare();
    hide Changed, Dict, Bare;
    assert forall i | 2 <= i < |es| :: es[i] == rest[i - 2];
    assert "chat_backend"[0] == 'c' && "embedding_backend"[0] == 'e' && "mcp_config"[0] == 'm'
        && "request_timeout_s"[0] == 'r';
  }

  lemma TopNamesAreBare()
    ensures Bare("chat_backend") && Bare("embedding_backend") && Bare("mcp_config") && Bare("request_timeout_s")
  {
  }

  // ----- Writable lines -----

  lemma {:induction false} PairsAreWritable(entries: seq<Entry>)
    requires forall i | 0 <= i < |entries| :: Dict(entries[i].value)
    ensures AllWritable(QuotedPairs(entries))
    ensures (forall i | 0 <= i < |entries| :: Bare(entries[i].key)) ==> AllWritable(BarePairs(entries))
    decreases |entries|
  {
    if entries != [] { PairsAreWritable(entries[1..]); }
  }

  /** A table whose section can be written. */
  predicate Writes(table: Entry) {
    table.value.Table? ==> Bare(table.key) && AllWritable(BarePairs(table.value.entries))
  }

  lemma SectionBodyIsWritable(fields: map<Key, Setting>, section: Section)
    requires ValidSection(section)
    requires forall k <- fields :: fields[k].Given? ==> Dict(fields[k].value)
    ensures AllWritable(BarePairs(Changed(fields, section.name, section.fields)))
  {
    var body := Changed(fields, section.name, section.fields);
    ChangedIsGood(fields, section.name, section.fields);
    hide Changed, Dict;
    forall i | 0 <= i < |body|
      ensures Bare(body[i].key)
    {
      assert IsField(section.fields, body[i].key);
      var n :| 0 <= n < |section.fields| && section.fields[n].name == body[i].key;
    }
    PairsAreWritable(body);
  }

  lemma SectionLinesAreWritable(fields: map<Key, Setting>, sections: seq<Section>,
      tables: seq<Entry>)
    requires forall i | 0 <= i < |sections| :: ValidSection(sections[i])
    requires forall k <- fields :: fields[k].Given? ==> Dict(fields[k].value)
    requires forall i | 0 <= i < |tables| :: FromSection(fields, sections, tables[i])
    ensures AllWritable(SectionLines(tables))
  {
    hide Changed, Dict, SectionLines, AllWritable, BarePairs;
    forall i | 0 <= i < |tables|
      ensures Writes(tables[i])
    {
      assert FromSection(fields, sections, tables[i]);
      var j :| 0 <= j < |sections| && IsSection(fields, sections[j], tables[i]);
      SectionBodyIsWritable(fields, sections[j]);
    }
    TablesAreWritable(tables);
  }

  lemma {:induction false} TablesAreWritable(tables: seq<Entry>)
    requires forall i | 0 <= i < |tables| :: Writes(tables[i])
    ensures AllWritable(SectionLines(tables))
    decreases |tables|
  {
    hide Dict, BarePairs;
    if tables != [] {
      TablesAreWritable(tables[1..]);
      assert Writes(tables[0]);
    }
  }

  lemma {:induction false} PriceLinesAreWritable(prices: seq<Entry>)
    requires forall i | 0 <= i < |prices| :: prices[i].value.Table? && DictEntries(prices[i].value.entries)
    ensures AllWritable(PriceLines(prices))
    decreases |prices|
  {
    if prices != [] {
      var entries := prices[0].value.entries;
      forall i | 0 <= i < |entries| ensures Dict(entries[i].value) { DictEntriesAt(entries, i); }
      PairsAreWritable(entries);
      PriceLinesAreWritable(prices[1..]);
    }
  }

  lemma TopLinesAreWritable(top: seq<Entry>)
    requires |top| >= 2 && forall i | 0 <= i < |top| :: Dict(top[i].value) && Bare(top[i].key)
    ensures AllWritable(TopLines(top))
  {
    PairsAreWritable(top[2..]);
    hide BarePairs, Dict, Bare;
  }

  lemma TopHasBackends(c: Config)
    ensures |TopEntries(c)| >= 2
  {
  }

  lemma PricesAreTables(c: Config)
    requires TableList(Prices(c.fields))
    ensures forall i | 0 <= i < |Prices(c.fields)| :: Prices(c.fields)[i].value.Table?
  {
  }

  lemma LinesAreWritable(shape: Shape, c: Config)
    requires ValidShape(shape) && Loadable(shape, c) && AllDict(c)
    ensures AllWritable(SaveLines(shape, c))
  {
    hide TopEntries, SectionLines, PriceLines, TopLines, ChangedSections, Prices, FromSection, TableList, Dict, Bare;
    TopHasBackends(c);
    TopIsGood(c);
    TopLinesAreWritable(TopEntries(c));
    SectionsAreGood(c.fields, shape.sections);
    SectionLinesAreWritable(c.fields, shape.sections, ChangedSections(c.fields, shape.sections));
    PricesAreGood(c);
    PricesAreTables(c);
    PriceLinesAreWritable(Prices(c.fields));
    assert Writable(Empty);
  }

  /** What a saved configuration's text reads as: its tables, or nothing at all when a key in it cannot be read. */
  lemma SavedTextIsRead(shape: Shape, c: Config)
    requires ValidShape(shape) && Loadable(shape, c) && AllDict(c)
    ensures ReadText(Text(SaveLines(shape, c))) == if AllReadable(SaveLines(shape, c)) then Some(Saved(shape, c))
        else None
  {
    LinesAreWritable(shape, c);
    LinesAreRead(SaveLines(shape, c));
    TopHasBackends(c);
    var top, sections, prices := TopEntries(c), ChangedSections(c.fields, shape.sections), Prices(c.fields);
    TopIsGood(c);
    SectionsAreGood(c.fields, shape.sections);
    PricesAreGood(c);
    SectionKeysAreFresh(shape, c);
    LinesAssemble(top, sections, prices);
    hide Assemble, ParseDocument, AllReadable, TopEntries, ChangedSections, Prices, Loadable, ValidShape;
  }

  lemma SectionKeysAreFresh(shape: Shape, c: Config)
    requires ValidShape(shape) && AllDict(c)
    ensures var sections := ChangedSections(c.fields, shape.sections);
            && (forall i | 0 <= i < |sections| :: Lookup(TopEntries(c), sections[i].key).None?)
            && Lookup(TopEntries(c) + sections, "pricing").None?
  {
    var sections := ChangedSections(c.fields, shape.sections);
    SectionsAreGood(c.fields, shape.sections);
    forall i | 0 <= i < |sections| ensures Lookup(TopEntries(c), sections[i].key).None? {
      var j :| 0 <= j < |shape.sections| && IsSection(c.fields, shape.sections[j], sections[i]);
      NotInTop(c, sections[i].key);
    }
    NotInTop(c, "pricing");
    LookupAppend(TopEntries(c), sections, "pricing");
    LookupSection(c.fields, shape.sections, "pricing");
    SectionFound(shape.sections, "pricing");
    TopNames("pricing");
    hide Lookup, TopEntries, ChangedSections;
  }

  lemma NotInTop(c: Config, key: string)
    requires FindField(TOP, key).None? || key == "pricing"
    ensures Lookup(TopEntries(c), key).None?
  {
    TopNames(key);
    LookupTop(c, key);
    LookupChanged(c.fields, "", TOP[2..4], key);
    hide Lookup, TopEntries, Changed;
  }

  // ----- Loaded configurations -----

  lemma {:induction false} LookupIsDict(entries: seq<Entry>, key: string)
    requires DictEntries(entries)
    ensures Lookup(entries, key).Some? ==> Dict(Lookup(entries, key).value)
    decreases |entries|
  {
    if entries != [] && entries[0].key != key { LookupIsDict(entries[1..], key); }
  }

  lemma FoldedIsDict(extra: Setting, section: seq<Entry>)
    requires (extra.Given? ==> Dict(extra.value)) && DictEntries(section)
    ensures Folded(extra, section).Given? ==> Dict(Folded(extra, section).value)
  {
    LookupIsDict(section, KWARGS);
    if Folded(extra, section) != extra {
      var entries, added := extra.value.entries, Folded(extra, section).value.entries;
      var e := added[|entries|];
      FreshLookup(entries, KWARGS);
      DictEntriesAppend(entries, e);
      assert added == entries + [e];
    }
    hide Lookup;
  }

  lemma {:induction false} DictEntriesAppend(entries: seq<Entry>, e: Entry)
    requires DictEntries(entries) && Dict(e.value)
    ensures DictEntries(entries + [e])
    decreases |entries|
  {
    if entries == [] {
      assert entries + [e] == [e] && [e][1..] == [];
    } else {
      assert (entries + [e])[1..] == entries[1..] + [e];
      DictEntriesAppend(entries[1..], e);
    }
  }

  lemma LoadedFieldIsDict(shape: Shape, root: seq<Entry>, k: Key, default: Setting)
    requires DictEntries(root) && (default.Given? ==> Dict(default.value))
    ensures var s := LoadedField(shape, root, k, default); s.Given? ==> Dict(s.value)
  {
    LookupIsDict(root, k.section);
    LookupIsDict(root, k.name);
    LookupIsDict(root, "pricing");
    match Lookup(root, k.section)
    case Some(Table(entries)) =>
      LookupIsDict(entries, k.name);
      FoldedIsDict(ReadField(root, k, default), entries);
      hide Lookup, Folded;
    case _ => hide Lookup;
  }

  predicate DefaultsAreDicts(shape: Shape) {
    forall k <- AllKeys(shape) :: DefaultOf(shape, k).Given? ==> Dict(DefaultOf(shape, k).value)
  }

  lemma LoadIsDict(shape: Shape, root: seq<Entry>)
    requires DictEntries(root) && DefaultsAreDicts(shape)
    ensures AllDict(Load(shape, root))
  {
    forall k <- AllKeys(shape)
      ensures var s := LoadedField(shape, root, k, DefaultOf(shape, k)); s.Given? ==> Dict(s.value)
    {
      LoadedFieldIsDict(shape, root, k, DefaultOf(shape, k));
    }
    hide Dict, LoadedField, AllKeys, DefaultOf;
  }

  /** From text to text: what a file loads as, saved and loaded again, is itself if and only if its prices are a
      table of tables and every line that is written can be read: no key in it is a bare one and a newline, and a
      backend, written as JSON, is no table that holds something and has none in it. Otherwise, where such a line is
      written, the saved file cannot be read at all. */
  lemma SavedFileLoadsAsItself(shape: Shape, root: seq<Entry>)
    requires ValidShape(shape) && DefaultsSettled(shape) && DefaultsAreDicts(shape) && LooseAreNoBackends(shape)
    requires DictEntries(root)
    ensures var c := Load(shape, root);
            var lines := SaveLines(shape, c);
            && PRICING in c.fields
            && (LoadText(shape, Text(lines)) == Some(c) <==> TableOfTables(c.fields[PRICING]) && AllReadable(lines))
            && (LoadText(shape, Text(lines)).None? <==> !AllReadable(lines))
  {
    TopKeys(shape);
    LoadIsLoadable(shape, root);
    LoadIsDict(shape, root);
    var c := Load(shape, root);
    SavedTextIsRead(shape, c);
    LoadAfterSave(shape, c);
    hide ReadText, Saved, AllReadable, SaveLines, Text, TableOfTables, LoadedField, AllKeys;
  }

  /** A line that cannot be read takes the whole file with it. */
  lemma OneLineIsEnough(shape: Shape, root: seq<Entry>, i: nat)
    requires ValidShape(shape) && DefaultsSettled(shape) && DefaultsAreDicts(shape) && LooseAreNoBackends(shape)
    requires DictEntries(root) && i < |SaveLines(shape, Load(shape, root))|
    requires !Readable(SaveLines(shape, Load(shape, root))[i])
    ensures LoadText(shape, Text(SaveLines(shape, Load(shape, root)))) == None
  {
    SavedFileLoadsAsItself(shape, root);
    hide SaveLines, Load, LoadText, Text, Readable;
  }

  lemma LoadsBackend(shape: Shape, v: Value)
    requires v != Str(ALIAS)
    ensures Get(Load(shape, [Entry("chat_backend", v)]).fields, CHAT) == Given(v)
  {
    LookupOne(Entry("chat_backend", v), "chat_backend");
    TopKeys(shape);
    hide Lookup, AllKeys;
  }

  lemma BackendLine(shape: Shape, c: Config)
    ensures SaveLines(shape, c) != []
    ensures SaveLines(shape, c)[0] == JsonPair("chat_backend", Spelled(Get(c.fields, CHAT), c.chatAlias))
  {
    hide Spelled, SectionLines, PriceLines, ChangedSections, Prices, Changed, BarePairs;
  }

  lemma OneDictEntry(e: Entry)
    requires Dict(e.value)
    ensures Distinct([e]) && DictEntries([e]) && Dict(Table([e]))
  {
    assert [e][1..] == [];
  }

  /** Such files: a backend that is a table is written as a JSON object, which is no TOML. */
  lemma TableBackendIsLost(shape: Shape)
    requires ValidShape(shape) && DefaultsSettled(shape) && DefaultsAreDicts(shape) && LooseAreNoBackends(shape)
    ensures var root := [Entry("chat_backend", Table([Entry("a", Bool(true))]))];
            DictEntries(root) && LoadText(shape, Text(SaveLines(shape, Load(shape, root)))) == None
  {
    var v := Table([Entry("a", Bool(true))]);
    var root := [Entry("chat_backend", v)];
    OneDictEntry(Entry("a", Bool(true)));
    OneDictEntry(root[0]);
    LoadsBackend(shape, v);
    BackendLine(shape, Load(shape, root));
    hide SaveLines, Load, LoadText, Text;
    OneLineIsEnough(shape, root, 0);
  }

  lemma LoadsPrices(shape: Shape, prices: seq<Entry>)
    requires forall i | 0 <= i < |prices| :: prices[i].value.Table?
    ensures Prices(Load(shape, [Entry("pricing", Table(prices))]).fields) == prices
  {
    LookupOne(Entry("pricing", Table(prices)), "pricing");
    TopKeys(shape);
    TablesKeepAll(prices);
    hide Lookup, AllKeys, Tables;
  }

  lemma PriceLine(shape: Shape, c: Config, model: string, e: Entry) returns (i: nat)
    requires Prices(c.fields) == [Entry(model, Table([e]))]
    ensures i < |SaveLines(shape, c)| && SaveLines(shape, c)[i] == QuotedPair(e.key, e.value)
  {
    TopHasBackends(c);
    hide TopLines, SectionLines, ChangedSections, Prices, TopEntries;
    var prices := [Entry(model, Table([e]))];
    assert prices[1..] == [] && [e][1..] == [] && QuotedPairs([e]) == [QuotedPair(e.key, e.value)];
    assert PriceLines(prices)[1] == QuotedPair(e.key, e.value);
    i := |TopLines(TopEntries(c)) + [Empty] + SectionLines(ChangedSections(c.fields, shape.sections))| + 1;
  }

  /** And a price with a key that ends in a newline. */
  lemma NewlinePriceIsLost(shape: Shape)
    requires ValidShape(shape) && DefaultsSettled(shape) && DefaultsAreDicts(shape) && LooseAreNoBackends(shape)
    ensures var price := Table([Entry("input", Table([Entry("a\n", Bool(true))]))]);
            var root := [Entry("pricing", Table([Entry("m", price)]))];
            DictEntries(root) && LoadText(shape, Text(SaveLines(shape, Load(shape, root)))) == None
  {
    hide DictEntries;
    var inner := Table([Entry("a\n", Bool(true))]);
    NewlineKeyIsLost();
    var price := Entry("input", inner);
    var prices := [Entry("m", Table([price]))];
    var root := [Entry("pricing", Table(prices))];
    OneDictEntry(price);
    OneDictEntry(prices[0]);
    OneDictEntry(root[0]);
    LoadsPrices(shape, prices);
    hide SaveLines, Load, LoadText, Text, KeysPrintable, Dict, Prices;
    var i := PriceLine(shape, Load(shape, root), "m", price);
    OneLineIsEnough(shape, root, i);
  }
}
