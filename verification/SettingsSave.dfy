/** `save` as it builds its lines. */
module SettingsSave {
  import opened Settings
  import opened SettingsText
  import opened Toml

  lemma {:induction false} ChangedAppend(fields: map<Key, Setting>, section: string, a: seq<Field>, b: seq<Field>)
    ensures Changed(fields, section, a + b) == Changed(fields, section, a) + Changed(fields, section, b)
    decreases |a|
  {
    if a == [] {
      assert a + b == b;
    } else {
      assert (a + b)[1..] == a[1..] + b;
      ChangedAppend(fields, section, a[1..], b);
    }
  }

  lemma {:induction false} SectionsAppend(fields: map<Key, Setting>, a: seq<Section>, b: seq<Section>)
    ensures ChangedSections(fields, a + b) == ChangedSections(fields, a) + ChangedSections(fields, b)
    decreases |a|
  {
    if a == [] {
      assert a + b == b;
    } else {
      assert (a + b)[1..] == a[1..] + b;
      SectionsAppend(fields, a[1..], b);
    }
  }

  lemma {:induction false} SectionLinesAppend(a: seq<Entry>, b: seq<Entry>)
    ensures SectionLines(a + b) == SectionLines(a) + SectionLines(b)
    decreases |a|
  {
    hide BarePairs;
    if a == [] {
      assert a + b == b;
    } else {
      assert (a + b)[1..] == a[1..] + b;
      SectionLinesAppend(a[1..], b);
    }
  }

  lemma {:induction false} BarePairsAppend(a: seq<Entry>, b: seq<Entry>)
    ensures BarePairs(a + b) == BarePairs(a) + BarePairs(b)
    decreases |a|
  {
    if a == [] {
      assert a + b == b;
    } else {
      assert (a + b)[1..] == a[1..] + b;
      BarePairsAppend(a[1..], b);
    }
  }

  lemma {:induction false} QuotedPairsAppend(a: seq<Entry>, b: seq<Entry>)
    ensures QuotedPairs(a + b) == QuotedPairs(a) + QuotedPairs(b)
    decreases |a|
  {
    if a == [] {
      assert a + b == b;
    } else {
      assert (a + b)[1..] == a[1..] + b;
      QuotedPairsAppend(a[1..], b);
    }
  }

  lemma {:induction false} TablesAppend(a: seq<Entry>, b: seq<Entry>)
    ensures Tables(a + b) == Tables(a) + Tables(b)
    decreases |a|
  {
    if a == [] {
      assert a + b == b;
    } else {
      assert (a + b)[1..] == a[1..] + b;
      TablesAppend(a[1..], b);
    }
  }

  lemma {:induction false} PriceLinesAppend(a: seq<Entry>, b: seq<Entry>)
    ensures PriceLines(a + b) == PriceLines(a) + PriceLines(b)
    decreases |a|
  {
    hide QuotedPairs;
    if a == [] {
      assert a + b == b;
    } else {
      assert (a + b)[1..] == a[1..] + b;
      PriceLinesAppend(a[1..], b);
    }
  }

  lemma OnePair(e: Entry)
    ensures BarePairs([e]) == [BarePair(e.key, e.value)] && QuotedPairs([e]) == [QuotedPair(e.key, e.value)]
  {
    assert [e][1..] == [];
  }

  /** The lines of the settings of one section that are off their defaults. */
  method Body(fields: map<Key, Setting>, section: string, all: seq<Field>) returns (lines: seq<Line>)
    ensures lines == BarePairs(Changed(fields, section, all))
  {
    lines := [];
    for i := 0 to |all|
      invariant lines == BarePairs(Changed(fields, section, all[..i]))
    {
      assert all[..i + 1] == all[..i] + [all[i]];
      ChangedAppend(fields, section, all[..i], [all[i]]);
      BarePairsAppend(Changed(fields, section, all[..i]), Changed(fields, section, [all[i]]));
      assert [all[i]][1..] == [];
      var k := Key(section, all[i].name);
      if k in fields && fields[k] != all[i].default && fields[k].Given? {
        OnePair(Entry(all[i].name, fields[k].value));
        lines := lines + [BarePair(all[i].name, fields[k].value)];
      }
    }
    assert all[..|all|] == all;
  }

  method Sections(fields: map<Key, Setting>, sections: seq<Section>) returns (lines: seq<Line>)
    ensures lines == SectionLines(ChangedSections(fields, sections))
  {
    lines := [];
    for i := 0 to |sections|
      invariant lines == SectionLines(ChangedSections(fields, sections[..i]))
    {
      var section := sections[i];
      assert sections[..i + 1] == sections[..i] + [section];
      var entries := Changed(fields, section.name, section.fields);
      OneSection(fields, section);
      SectionsAppend(fields, sections[..i], [section]);
      SectionLinesAppend(ChangedSections(fields, sections[..i]), ChangedSections(fields, [section]));
      var body := Body(fields, section.name, section.fields);
      hide Changed, ChangedSections, SectionLines;
      if body != [] {
        lines := lines + ([Header(section.name)] + body + [Empty]);
      }
    }
    assert sections[..|sections|] == sections;
  }

  lemma OneSection(fields: map<Key, Setting>, section: Section)
    ensures var entries := Changed(fields, section.name, section.fields);
            && SectionLines(ChangedSections(fields, [section]))
               == (if entries == [] then [] else [Header(section.name)] + BarePairs(entries) + [Empty])
            && (BarePairs(entries) == [] <==> entries == [])
  {
    var entries := Changed(fields, section.name, section.fields);
    hide Changed;
    assert [section][1..] == [];
    var e := Entry(section.name, Table(entries));
    assert [e][1..] == [] && SectionLines([]) == [];
    assert SectionLines([e]) == [Header(section.name)] + BarePairs(entries) + [Empty];
    assert ChangedSections(fields, [section]) == if entries == [] then [] else [e];
  }

  method PriceBody(entries: seq<Entry>) returns (lines: seq<Line>)
    ensures lines == QuotedPairs(entries)
  {
    lines := [];
    for j := 0 to |entries|
      invariant lines == QuotedPairs(entries[..j])
    {
      assert entries[..j + 1] == entries[..j] + [entries[j]];
      QuotedPairsAppend(entries[..j], [entries[j]]);
      OnePair(entries[j]);
      lines := lines + [QuotedPair(entries[j].key, entries[j].value)];
    }
    assert entries[..|entries|] == entries;
  }

  method PriceTables(prices: seq<Entry>) returns (lines: seq<Line>)
    ensures lines == PriceLines(Tables(prices))
  {
    lines := [];
    for i := 0 to |prices|
      invariant lines == PriceLines(Tables(prices[..i]))
    {
      var price := prices[i];
      assert prices[..i + 1] == prices[..i] + [price];
      TablesAppend(prices[..i], [price]);
      PriceLinesAppend(Tables(prices[..i]), Tables([price]));
      OnePrice(price);
      hide PriceLines, Tables;
      if price.value.Table? {
        var body := PriceBody(price.value.entries);
        lines := lines + ([PriceHeader(price.key)] + body + [Empty]);
      }
    }
    assert prices[..|prices|] == prices;
  }

  lemma NoPriceLines()
    ensures PriceLines([]) == []
  {
  }

  lemma OnePrice(price: Entry)
    ensures PriceLines(Tables([price])) == if price.value.Table?
              then [PriceHeader(price.key)] + QuotedPairs(price.value.entries) + [Empty] else []
  {
    assert [price][1..] == [] && PriceLines([]) == [];
  }

  /** The lines `save` joins: the two backends, the other top-level settings, a table for each section with a
      setting off its default, and the prices. */
  method Lines(shape: Shape, c: Config) returns (lines: seq<Line>)
    ensures lines == SaveLines(shape, c)
  {
    var top := Body(c.fields, "", TOP[2..4]);
    var chat := Entry("chat_backend", Spelled(Get(c.fields, CHAT), c.chatAlias));
    var embedding := Entry("embedding_backend", Spelled(Get(c.fields, EMBEDDING), c.embeddingAlias));
    lines := [JsonPair(chat.key, chat.value), JsonPair(embedding.key, embedding.value)] + top + [Empty];
    hide BarePairs, Changed, SectionLines, ChangedSections, PriceLines, Tables, Spelled;
    assert TopEntries(c)[2..] == Changed(c.fields, "", TOP[2..4]);
    var sections := Sections(c.fields, shape.sections);
    lines := lines + sections;
    if PRICING in c.fields && c.fields[PRICING].Given? && c.fields[PRICING].value.Table? {
      var prices := PriceTables(c.fields[PRICING].value.entries);
      lines := lines + prices;
    } else {
      NoPriceLines();
    }
  }
}
