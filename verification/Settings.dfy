/** The settings a file stands for, and the file a configuration is saved as, as values. */
module Settings {
  import opened Options
  import opened Toml
  import opened Trimming

  /** None, or a value a file can hold. */
  datatype Setting = Unset | Given(value: Value)

  datatype Field = Field(name: string, default: Setting)

  datatype Section = Section(name: string, fields: seq<Field>)

  /** The sections of the configuration, those of chat backends, the blanks `strip` takes off and the text `str`
      gives for a value that is no text. */
  datatype Shape = Shape(sections: seq<Section>, backends: set<string>, blank: char -> bool, show: Value -> string)

  /** A top-level key has no section. */
  datatype Key = Key(section: string, name: string)

  const TOP: seq<Field> := [
    Field("chat_backend", Given(Str(""))), Field("embedding_backend", Given(Str(""))),
    Field("mcp_config", Given(Str(""))), Field("request_timeout_s", Unset), Field("pricing", Given(Table([])))]

  const CHAT := Key("", "chat_backend")
  const EMBEDDING := Key("", "embedding_backend")
  const MCP := Key("", "mcp_config")
  const TIMEOUT := Key("", "request_timeout_s")
  const PRICING := Key("", "pricing")
  const ALIAS: string := "omlx"
  const KWARGS: string := "chat_template_kwargs"

  datatype Config = Config(fields: map<Key, Setting>, chatAlias: string, embeddingAlias: string)

  // ----- Lookups -----

  function Lookup(entries: seq<Entry>, key: string): Option<Value> {
    if entries == [] then None
    else if entries[0].key == key then Some(entries[0].value)
    else Lookup(entries[1..], key)
  }

  function FindField(fields: seq<Field>, name: string): Option<Setting> {
    if fields == [] then None
    else if fields[0].name == name then Some(fields[0].default)
    else FindField(fields[1..], name)
  }

  function FindSection(sections: seq<Section>, name: string): Option<Section> {
    if sections == [] then None
    else if sections[0].name == name then Some(sections[0])
    else FindSection(sections[1..], name)
  }

  /** The default of a field; None for a key that is no field. */
  function Default(shape: Shape, k: Key): Option<Setting> {
    if k.section == "" then FindField(TOP, k.name)
    else match FindSection(shape.sections, k.section)
      case None => None
      case Some(section) => FindField(section.fields, k.name)
  }

  function KeysOf(section: string, fields: seq<Field>): set<Key> {
    set i | 0 <= i < |fields| :: Key(section, fields[i].name)
  }

  function SectionKeys(sections: seq<Section>): set<Key> {
    set i, j | 0 <= i < |sections| && 0 <= j < |sections[i].fields| :: Key(sections[i].name, sections[i].fields[j].name)
  }

  function AllKeys(shape: Shape): set<Key> {
    KeysOf("", TOP) + SectionKeys(shape.sections)
  }

  predicate DistinctFields(fields: seq<Field>) {
    forall i, j | 0 <= i < j < |fields| :: fields[i].name != fields[j].name
  }

  /** Section and field names are distinct bare names; no section is named like a top-level field; and the shorthand
      for the keyword arguments is no field. */
  predicate ValidShape(shape: Shape) {
    && (forall i, j | 0 <= i < j < |shape.sections| :: shape.sections[i].name != shape.sections[j].name)
    && (forall i | 0 <= i < |shape.sections| :: ValidSection(shape.sections[i]))
  }

  predicate ValidSection(section: Section) {
    && Bare(section.name) && FindField(TOP, section.name).None?
    && DistinctFields(section.fields)
    && (forall i | 0 <= i < |section.fields| ::
          Bare(section.fields[i].name) && section.fields[i].name != KWARGS)
  }

  // ----- Loading -----

  /** What a loosely spelled value of a file stands for. */
  function Loose(k: Key, v: Value): Value {
    if k == Key("agent", "window_eviction") then if v == Str("slide") then Str("chunk") else v
    else if k == Key("cli", "colors") || k == Key("cli", "background") then
      match v case Int(_) => Str(Print(v)) case _ => v
    else if k == Key("sessions", "record_direct") then Bool(v != Bool(false))
    else v
  }

  /** `_read`: the field as a table of the file has it, else its default. */
  function ReadField(root: seq<Entry>, k: Key, default: Setting): Setting {
    match Lookup(root, k.section)
    case Some(Table(entries)) =>
      (match Lookup(entries, k.name) case Some(v) => Given(Loose(k, v)) case None => default)
    case _ => default
  }

  /** `_migrate_extra_body`: a flat table of keyword arguments joins `extra_body` unless it has its own. */
  function Folded(extra: Setting, section: seq<Entry>): Setting {
    match Lookup(section, KWARGS)
    case Some(Table(kwargs)) =>
      if extra.Given? && extra.value.Table? && Lookup(extra.value.entries, KWARGS).None?
      then Given(Table(extra.value.entries + [Entry(KWARGS, Table(kwargs))]))
      else extra
    case _ => extra
  }

  /** `trim_text` on one field. */
  function Trimmed(shape: Shape, k: Key, s: Setting): Setting {
    if k.section in shape.backends && k.name != "api_key" && s.Given? && s.value.Str?
    then Given(Str(Strip(shape.blank, s.value.s)))
    else s
  }

  function BackendKey(raw: Value): Value {
    if raw == Str(ALIAS) then Str("vllm") else raw
  }

  function Alias(raw: Value): string {
    if raw == Str(ALIAS) then ALIAS else ""
  }

  function Raw(root: seq<Entry>, name: string): Value {
    match Lookup(root, name) case Some(v) => v case None => Str("")
  }

  predicate Falsy(v: Value) {
    v == Bool(false) || v == Int(0) || v == Str("") || v == List([]) || v == Table([])
  }

  function TextOf(shape: Shape, v: Value): string {
    if Falsy(v) then "" else if v.Str? then v.s else shape.show(v)
  }

  function TopField(shape: Shape, root: seq<Entry>, name: string): Setting {
    if name == "mcp_config" then Given(Str(TextOf(shape, Raw(root, name))))
    else if name == "request_timeout_s" || name == "pricing" then
      match Lookup(root, name)
      case Some(v) => Given(v)
      case None => if name == "pricing" then Given(Table([])) else Unset
    else Given(BackendKey(Raw(root, name)))
  }

  /** One field of the configuration a file loads as. */
  function LoadedField(shape: Shape, root: seq<Entry>, k: Key, default: Setting): Setting {
    if k.section == "" then TopField(shape, root, k.name)
    else
      var read := ReadField(root, k, default);
      var folded := match Lookup(root, k.section)
        case Some(Table(entries)) =>
          if k.section in shape.backends && k.name == "extra_body" then Folded(read, entries) else read
        case _ => read;
      Trimmed(shape, k, folded)
  }

  function DefaultOf(shape: Shape, k: Key): Setting {
    match Default(shape, k) case Some(d) => d case None => Unset
  }

  /** The configuration a file loads as, without overrides. */
  function Load(shape: Shape, root: seq<Entry>): Config {
    Config(map k | k in AllKeys(shape) :: LoadedField(shape, root, k, DefaultOf(shape, k)),
           Alias(Raw(root, "chat_backend")), Alias(Raw(root, "embedding_backend")))
  }

  // ----- Saving -----

  function Spelled(backend: Setting, alias: string): Value {
    if backend == Given(Str("vllm")) && alias != "" then Str(alias)
    else match backend case Given(v) => v case Unset => Str("")
  }

  /** The entries of a section's fields that are not at their default. */
  function Changed(fields: map<Key, Setting>, section: string, all: seq<Field>): seq<Entry> {
    if all == [] then []
    else
      var k := Key(section, all[0].name);
      (if k in fields && fields[k] != all[0].default && fields[k].Given?
       then [Entry(all[0].name, fields[k].value)] else [])
      + Changed(fields, section, all[1..])
  }

  function ChangedSections(fields: map<Key, Setting>, sections: seq<Section>): seq<Entry> {
    if sections == [] then []
    else
      var body := Changed(fields, sections[0].name, sections[0].fields);
      (if body == [] then [] else [Entry(sections[0].name, Table(body))]) + ChangedSections(fields, sections[1..])
  }

  /** The prices that are tables; the others are not written. */
  function Tables(entries: seq<Entry>): seq<Entry> {
    if entries == [] then []
    else (if entries[0].value.Table? then [entries[0]] else []) + Tables(entries[1..])
  }

  function Prices(fields: map<Key, Setting>): seq<Entry> {
    if PRICING in fields && fields[PRICING].Given? && fields[PRICING].value.Table?
    then Tables(fields[PRICING].value.entries) else []
  }

  function Get(fields: map<Key, Setting>, k: Key): Setting {
    if k in fields then fields[k] else Unset
  }

  function TopEntries(c: Config): seq<Entry> {
    [Entry("chat_backend", Spelled(Get(c.fields, CHAT), c.chatAlias)),
     Entry("embedding_backend", Spelled(Get(c.fields, EMBEDDING), c.embeddingAlias))]
    + Changed(c.fields, "", TOP[2..4])
  }

  /** The tables of the file a configuration is saved as. */
  function Saved(shape: Shape, c: Config): seq<Entry> {
    TopEntries(c) + ChangedSections(c.fields, shape.sections)
    + (if Prices(c.fields) == [] then [] else [Entry("pricing", Table(Prices(c.fields)))])
  }

  // ----- Lookups in what is saved -----

  lemma {:induction false} LookupAppend(a: seq<Entry>, b: seq<Entry>, key: string)
    ensures Lookup(a + b, key) == if Lookup(a, key).Some? then Lookup(a, key) else Lookup(b, key)
    decreases |a|
  {
    if a == [] {
      assert a + b == b;
    } else {
      assert (a + b)[1..] == a[1..] + b;
      LookupAppend(a[1..], b, key);
    }
  }

  lemma LookupOne(e: Entry, key: string)
    ensures Lookup([e], key) == if e.key == key then Some(e.value) else None
  {
    assert [e][1..] == [];
  }

  /** What `Changed` holds of a name: its setting when it is a field off its default. */
  lemma {:induction false} LookupChanged(fields: map<Key, Setting>, section: string, all: seq<Field>, name: string)
    requires DistinctFields(all)
    ensures var k := Key(section, name);
            Lookup(Changed(fields, section, all), name) ==
            match FindField(all, name)
            case Some(d) => if k in fields && fields[k] != d && fields[k].Given? then Some(fields[k].value) else None
            case None => None
    decreases |all|
  {
    if all != [] {
      var k := Key(section, all[0].name);
      var first := if k in fields && fields[k] != all[0].default && fields[k].Given?
                   then [Entry(all[0].name, fields[k].value)] else [];
      LookupAppend(first, Changed(fields, section, all[1..]), name);
      if first != [] { LookupOne(first[0], name); }
      LookupChanged(fields, section, all[1..], name);
      if all[0].name == name { NotFound(all[1..], name); }
    }
  }

  lemma {:induction false} NotFound(all: seq<Field>, name: string)
    requires forall i | 0 <= i < |all| :: all[i].name != name
    ensures FindField(all, name).None?
    decreases |all|
  {
    if all != [] { NotFound(all[1..], name); }
  }

  predicate DistinctSections(sections: seq<Section>) {
    forall i, j | 0 <= i < j < |sections| :: sections[i].name != sections[j].name
  }

  lemma {:induction false} LookupSection(fields: map<Key, Setting>, sections: seq<Section>, name: string)
    requires DistinctSections(sections)
    ensures Lookup(ChangedSections(fields, sections), name) ==
            match FindSection(sections, name)
            case Some(s) => if Changed(fields, name, s.fields) == [] then None
                            else Some(Table(Changed(fields, name, s.fields)))
            case None => None
    decreases |sections|
  {
    if sections != [] {
      var body := Changed(fields, sections[0].name, sections[0].fields);
      var first := if body == [] then [] else [Entry(sections[0].name, Table(body))];
      LookupAppend(first, ChangedSections(fields, sections[1..]), name);
      if first != [] { LookupOne(first[0], name); }
      LookupSection(fields, sections[1..], name);
      if sections[0].name == name { SectionNotFound(sections[1..], name); }
    }
  }

  lemma {:induction false} SectionNotFound(sections: seq<Section>, name: string)
    requires forall i | 0 <= i < |sections| :: sections[i].name != name
    ensures FindSection(sections, name).None?
    decreases |sections|
  {
    if sections != [] { SectionNotFound(sections[1..], name); }
  }

  lemma {:induction false} SectionFound(sections: seq<Section>, name: string)
    ensures FindSection(sections, name).Some? ==> FindSection(sections, name).value in sections
    ensures FindSection(sections, name).Some? ==> FindSection(sections, name).value.name == name
    decreases |sections|
  {
    if sections != [] { SectionFound(sections[1..], name); }
  }

  lemma LookupTop(c: Config, key: string)
    ensures Lookup(TopEntries(c), key) ==
            if key == "chat_backend" then Some(Spelled(Get(c.fields, CHAT), c.chatAlias))
            else if key == "embedding_backend" then Some(Spelled(Get(c.fields, EMBEDDING), c.embeddingAlias))
            else Lookup(Changed(c.fields, "", TOP[2..4]), key)
  {
    var chat := Entry("chat_backend", Spelled(Get(c.fields, CHAT), c.chatAlias));
    var embedding := Entry("embedding_backend", Spelled(Get(c.fields, EMBEDDING), c.embeddingAlias));
    LookupAppend([chat, embedding], Changed(c.fields, "", TOP[2..4]), key);
    LookupAppend([chat], [embedding], key);
    assert [chat] + [embedding] == [chat, embedding];
    LookupOne(chat, key);
    LookupOne(embedding, key);
  }

  lemma TopNames(name: string)
    ensures FindField(TOP[2..4], name) == if name == "mcp_config" then Some(Given(Str("")))
                                          else if name == "request_timeout_s" then Some(Unset) else None
    ensures FindField(TOP, name).Some? <==> name in ["chat_backend", "embedding_backend", "mcp_config",
                                                    "request_timeout_s", "pricing"]
    ensures DistinctFields(TOP[2..4])
  {
    var l4 := [TOP[4]];
    var l3 := [TOP[3]] + l4;
    var l2 := [TOP[2]] + l3;
    var l1 := [TOP[1]] + l2;
    assert l4[1..] == [] && l3[1..] == l4 && l2[1..] == l3 && l1[1..] == l2 && TOP[1..] == l1;
    assert FindField(l4, name).Some? <==> name == "pricing";
    assert FindField(l3, name).Some? <==> name in ["request_timeout_s", "pricing"];
    assert FindField(l2, name).Some? <==> name in ["mcp_config", "request_timeout_s", "pricing"];
    assert FindField(l1, name).Some? <==> name in ["embedding_backend", "mcp_config", "request_timeout_s", "pricing"];
    var m1 := [TOP[3]];
    assert m1[1..] == [] && TOP[2..4][1..] == m1;
    assert FindField(m1, name) == if name == "request_timeout_s" then Some(Unset) else None;
    assert "mcp_config"[0] != "request_timeout_s"[0];
  }

  /** What the saved file holds under a name. */
  lemma LookupSaved(shape: Shape, c: Config, key: string)
    requires ValidShape(shape)
    ensures Lookup(Saved(shape, c), key) ==
            if FindField(TOP, key).None? then Lookup(ChangedSections(c.fields, shape.sections), key)
            else if key == "pricing" then
              if Prices(c.fields) == [] then None else Some(Table(Prices(c.fields)))
            else Lookup(TopEntries(c), key)
  {
    var prices := if Prices(c.fields) == [] then [] else [Entry("pricing", Table(Prices(c.fields)))];
    var sections := ChangedSections(c.fields, shape.sections);
    LookupAppend(TopEntries(c) + sections, prices, key);
    LookupAppend(TopEntries(c), sections, key);
    if prices != [] { LookupOne(prices[0], key); }
    LookupTop(c, key);
    TopNames(key);
    LookupChanged(c.fields, "", TOP[2..4], key);
    LookupSection(c.fields, shape.sections, key);
    SectionFound(shape.sections, key);
    hide Lookup, Changed, ChangedSections, TopEntries, FindField, FindSection, Prices;
  }

  // ----- Loading what was saved -----

  /** A value that loading leaves alone: spelled strictly and trimmed. */
  predicate Settled(shape: Shape, k: Key, s: Setting) {
    && Trimmed(shape, k, s) == s
    && (s.Given? ==> Loose(k, s.value) == s.value)
  }

  lemma LooseIsIdempotent(k: Key, v: Value)
    ensures Loose(k, Loose(k, v)) == Loose(k, v)
  {
  }

  /** Defaults are settled: spelled strictly and trimmed. */
  predicate DefaultsSettled(shape: Shape) {
    forall k <- AllKeys(shape) :: Settled(shape, k, DefaultOf(shape, k))
  }

  /** The loosely spelled fields are no fields of a chat backend, as `agent`, `cli` and `sessions` are none. */
  predicate LooseAreNoBackends(shape: Shape) {
    "agent" !in shape.backends && "cli" !in shape.backends && "sessions" !in shape.backends && "" !in shape.backends
  }

  lemma LoadedIsSettled(shape: Shape, root: seq<Entry>, k: Key)
    requires LooseAreNoBackends(shape) && k.section != ""
    requires Settled(shape, k, DefaultOf(shape, k))
    ensures Settled(shape, k, LoadedField(shape, root, k, DefaultOf(shape, k)))
  {
    var default := DefaultOf(shape, k);
    if k.section in shape.backends {
      hide Strip, Lookup, Folded, ReadField, Settled;
      var folded: Setting :| LoadedField(shape, root, k, default) == Trimmed(shape, k, folded);
      TrimmedSettles(shape, k, folded);
    } else {
      hide Strip, Lookup, Folded;
    }
  }

  lemma TrimmedSettles(shape: Shape, k: Key, s: Setting)
    requires LooseAreNoBackends(shape) && k.section in shape.backends
    ensures Settled(shape, k, Trimmed(shape, k, s))
  {
    hide Strip, Loose;
    if s.Given? && s.value.Str? { StripIsIdempotent(shape.blank, s.value.s); }
    var t := Trimmed(shape, k, s);
    if t.Given? { BackendsAreStrict(shape, k, t.value); }
  }

  lemma BackendsAreStrict(shape: Shape, k: Key, v: Value)
    requires LooseAreNoBackends(shape) && k.section in shape.backends
    ensures Loose(k, v) == v
  {
    hide Print;
  }

  predicate TableOfTables(s: Setting) {
    s.Given? && s.value.Table? && forall i | 0 <= i < |s.value.entries| :: s.value.entries[i].value.Table?
  }

  lemma {:induction false} TablesKeepAll(entries: seq<Entry>)
    ensures |Tables(entries)| <= |entries|
    ensures Tables(entries) == entries <==> forall i | 0 <= i < |entries| :: entries[i].value.Table?
    decreases |entries|
  {
    if entries != [] {
      TablesKeepAll(entries[1..]);
      if entries[0].value.Table? {
        assert entries == [entries[0]] + entries[1..];
        assert Tables(entries) == [entries[0]] + Tables(entries[1..]);
        assert Tables(entries)[1..] == Tables(entries[1..]);
      }
    }
  }

  /** What a file holds for a setting. */
  function Held(root: seq<Entry>, k: Key): Option<Value> {
    if k.section == "" then Lookup(root, k.name)
    else match Lookup(root, k.section) case Some(Table(entries)) => Lookup(entries, k.name) case _ => None
  }

  /** What a setting of a section, or a top-level one that is no backend and no price, leaves in the file: its value if
      it is a setting off its default, and nothing otherwise. */
  lemma SavedHoldsChanges(shape: Shape, c: Config, k: Key)
    requires ValidShape(shape) && k !in {CHAT, EMBEDDING, PRICING}
    requires k.section != "" ==> FindField(TOP, k.section).None?
    requires k.section == "" ==> FindField(TOP, k.name).Some?
    ensures Held(Saved(shape, c), k) ==
            if Default(shape, k).Some? && k in c.fields && c.fields[k] != DefaultOf(shape, k) && c.fields[k].Given?
            then Some(c.fields[k].value) else None
  {
    if k.section == "" {
      LookupSaved(shape, c, k.name);
      LookupTop(c, k.name);
      TopNames(k.name);
      LookupChanged(c.fields, "", TOP[2..4], k.name);
    } else {
      LookupSaved(shape, c, k.section);
      LookupSection(c.fields, shape.sections, k.section);
      SectionFound(shape.sections, k.section);
      var found := FindSection(shape.sections, k.section);
      if found.Some? { LookupChanged(c.fields, k.section, found.value.fields, k.name); }
    }
    hide Lookup, Changed, ChangedSections, Saved, FindField, FindSection, TopEntries;
  }

  /** The two backends are always in the file, as they are spelled. */
  lemma SavedHoldsBackends(shape: Shape, c: Config)
    requires ValidShape(shape)
    ensures Held(Saved(shape, c), CHAT) == Some(Spelled(Get(c.fields, CHAT), c.chatAlias))
    ensures Held(Saved(shape, c), EMBEDDING) == Some(Spelled(Get(c.fields, EMBEDDING), c.embeddingAlias))
  {
    TopNames("chat_backend");
    TopNames("embedding_backend");
    hide Lookup, Saved, FindField, TopEntries;
    LookupSaved(shape, c, "chat_backend");
    LookupSaved(shape, c, "embedding_backend");
    LookupTop(c, "chat_backend");
    LookupTop(c, "embedding_backend");
  }

  lemma ShorthandIsNotSaved(shape: Shape, c: Config, section: string)
    requires ValidShape(shape) && section != "" && FindField(TOP, section).None?
    ensures Held(Saved(shape, c), Key(section, KWARGS)) == None
  {
    SavedHoldsChanges(shape, c, Key(section, KWARGS));
    SectionFound(shape.sections, section);
    var found := FindSection(shape.sections, section);
    if found.Some? { NotFound(found.value.fields, KWARGS); }
    hide Saved, Lookup, FindField, FindSection;
  }

  /** A saved section field is read back when it is settled. */
  lemma SectionFieldIsReadBack(shape: Shape, c: Config, k: Key)
    requires ValidShape(shape) && k in AllKeys(shape) && k.section != "" && k in c.fields
    requires Settled(shape, k, c.fields[k]) && Settled(shape, k, DefaultOf(shape, k))
    requires c.fields[k].Given? || c.fields[k] == DefaultOf(shape, k)
    ensures LoadedField(shape, Saved(shape, c), k, DefaultOf(shape, k)) == c.fields[k]
  {
    KeyHasSection(shape, k);
    SectionFound(shape.sections, k.section);
    hide Lookup, Saved, Trimmed, Loose, FindField, FindSection, AllKeys;
    SavedHoldsChanges(shape, c, k);
    ShorthandIsNotSaved(shape, c, k.section);
  }

  lemma KeyHasSection(shape: Shape, k: Key)
    requires ValidShape(shape) && k in AllKeys(shape) && k.section != ""
    ensures FindSection(shape.sections, k.section).Some?
    ensures FindField(FindSection(shape.sections, k.section).value.fields, k.name).Some?
  {
    var i, j :| 0 <= i < |shape.sections| && 0 <= j < |shape.sections[i].fields|
                && k == Key(shape.sections[i].name, shape.sections[i].fields[j].name);
    FindsSection(shape.sections, i);
    FindsField(shape.sections[i].fields, j);
  }

  lemma {:induction false} FindsSection(sections: seq<Section>, i: nat)
    requires DistinctSections(sections) && i < |sections|
    ensures FindSection(sections, sections[i].name) == Some(sections[i])
    decreases i
  {
    if i > 0 { FindsSection(sections[1..], i - 1); }
  }

  lemma {:induction false} FindsField(fields: seq<Field>, j: nat)
    requires DistinctFields(fields) && j < |fields|
    ensures FindField(fields, fields[j].name) == Some(fields[j].default)
    decreases j
  {
    if j > 0 { FindsField(fields[1..], j - 1); }
  }

  /** What loading gives and saving relies on: every field, the two backends in whatever form the file has them,
      and an alias only beside the backend it stands for. */
  predicate Loadable(shape: Shape, c: Config) {
    && c.fields.Keys == AllKeys(shape)
    && (forall k <- AllKeys(shape) | k.section != "" ::
          Settled(shape, k, c.fields[k]) && (c.fields[k].Given? || c.fields[k] == DefaultOf(shape, k)))
    && Backend(Get(c.fields, CHAT), c.chatAlias) && Backend(Get(c.fields, EMBEDDING), c.embeddingAlias)
    && Get(c.fields, MCP).Given? && Get(c.fields, MCP).value.Str?
    && Get(c.fields, PRICING).Given?
  }

  predicate Backend(s: Setting, alias: string) {
    && s.Given? && s.value != Str(ALIAS)
    && (alias == "" || (alias == ALIAS && s.value == Str("vllm")))
  }

  lemma LoadIsLoadable(shape: Shape, root: seq<Entry>)
    requires ValidShape(shape) && DefaultsSettled(shape) && LooseAreNoBackends(shape)
    ensures Loadable(shape, Load(shape, root))
  {
    hide Strip, Lookup, Loose, FindField, FindSection;
    TopKeys(shape);
    var c := Load(shape, root);
    forall k <- AllKeys(shape) | k.section != ""
      ensures Settled(shape, k, c.fields[k]) && (c.fields[k].Given? || c.fields[k] == DefaultOf(shape, k))
    {
      LoadedIsSettled(shape, root, k);
    }
    assert Get(c.fields, MCP) == Given(Str(TextOf(shape, Raw(root, "mcp_config"))));
    hide AllKeys, Settled, Lookup;
  }

  lemma TopKeys(shape: Shape)
    ensures CHAT in AllKeys(shape) && EMBEDDING in AllKeys(shape) && MCP in AllKeys(shape)
    ensures TIMEOUT in AllKeys(shape) && PRICING in AllKeys(shape)
    ensures ValidShape(shape) ==> forall k <- AllKeys(shape) | k.section == "" ::
              k in {CHAT, EMBEDDING, MCP, TIMEOUT, PRICING}
  {
    assert Key("", TOP[0].name) == CHAT && Key("", TOP[1].name) == EMBEDDING && Key("", TOP[2].name) == MCP;
    assert Key("", TOP[3].name) == TIMEOUT && Key("", TOP[4].name) == PRICING;
  }

  lemma TopFieldIsReadBack(shape: Shape, c: Config, k: Key)
    requires ValidShape(shape) && Loadable(shape, c) && k in {CHAT, EMBEDDING, MCP, TIMEOUT}
    ensures TopField(shape, Saved(shape, c), k.name) == Get(c.fields, k)
  {
    TopKeys(shape);
    LookupSaved(shape, c, k.name);
    LookupTop(c, k.name);
    TopNames(k.name);
    LookupChanged(c.fields, "", TOP[2..4], k.name);
    hide Lookup, Changed, ChangedSections, Saved, TopEntries, AllKeys, FindField, Settled;
  }

  lemma PricingIsReadBack(shape: Shape, c: Config)
    requires ValidShape(shape) && Loadable(shape, c)
    ensures TopField(shape, Saved(shape, c), "pricing") == c.fields[PRICING] <==> TableOfTables(c.fields[PRICING])
  {
    TopKeys(shape);
    LookupSaved(shape, c, "pricing");
    TopNames("pricing");
    var s := c.fields[PRICING];
    if s.value.Table? {
      TablesKeepAll(s.value.entries);
    }
    hide Lookup, Saved, Changed, ChangedSections, AllKeys, Settled, Tables;
  }

  lemma FieldIsReadBack(shape: Shape, c: Config, k: Key)
    requires ValidShape(shape) && DefaultsSettled(shape) && Loadable(shape, c) && k in AllKeys(shape) && k != PRICING
    ensures LoadedField(shape, Saved(shape, c), k, DefaultOf(shape, k)) == c.fields[k]
  {
    hide Saved, TopField, ReadField, Folded, Trimmed, Settled, AllKeys;
    TopKeys(shape);
    if k.section != "" { SectionFieldIsReadBack(shape, c, k); } else { TopFieldIsReadBack(shape, c, k); }
  }

  /** Saving a loaded configuration and loading it again gives it back if and only if its prices are a table of
      tables. */
  lemma LoadAfterSave(shape: Shape, c: Config)
    requires ValidShape(shape) && DefaultsSettled(shape) && Loadable(shape, c)
    ensures Load(shape, Saved(shape, c)) == c <==> TableOfTables(c.fields[PRICING])
  {
    hide Saved, TopField, ReadField, Folded, Trimmed, Settled;
    TopKeys(shape);
    var d := Load(shape, Saved(shape, c));
    forall k <- AllKeys(shape) | k != PRICING
      ensures d.fields[k] == c.fields[k]
    {
      FieldIsReadBack(shape, c, k);
    }
    PricingIsReadBack(shape, c);
    assert d.fields[PRICING] == TopField(shape, Saved(shape, c), "pricing");
    AliasIsReadBack(shape, c);
    assert d.fields.Keys == c.fields.Keys;
    if d.fields[PRICING] == c.fields[PRICING] {
      assert d.fields == c.fields;
    }
  }

  lemma AliasIsReadBack(shape: Shape, c: Config)
    requires ValidShape(shape) && Loadable(shape, c)
    ensures Alias(Raw(Saved(shape, c), "chat_backend")) == c.chatAlias
    ensures Alias(Raw(Saved(shape, c), "embedding_backend")) == c.embeddingAlias
  {
    TopKeys(shape);
    LookupSaved(shape, c, "chat_backend");
    LookupTop(c, "chat_backend");
    TopNames("chat_backend");
    LookupSaved(shape, c, "embedding_backend");
    LookupTop(c, "embedding_backend");
    TopNames("embedding_backend");
    hide Lookup, Saved, TopEntries, FindField, AllKeys, Settled;
  }

  /** Loading normalizes once: whatever a file holds, what it loads as survives saving and loading if and only if its
      prices are a table of tables. */
  lemma LoadNormalizesOnce(shape: Shape, root: seq<Entry>)
    requires ValidShape(shape) && DefaultsSettled(shape) && LooseAreNoBackends(shape)
    ensures PRICING in Load(shape, root).fields
    ensures Load(shape, Saved(shape, Load(shape, root))) == Load(shape, root)
       <==> TableOfTables(Load(shape, root).fields[PRICING])
  {
    TopKeys(shape);
    LoadIsLoadable(shape, root);
    LoadAfterSave(shape, Load(shape, root));
  }

  /** Such a file: a price that is a number is loaded and not written. */
  lemma NumberPriceIsLost(shape: Shape)
    requires ValidShape(shape) && DefaultsSettled(shape) && LooseAreNoBackends(shape)
    ensures var root := [Entry("pricing", Table([Entry("m", Int(1))]))];
            var c := Load(shape, root);
            && PRICING in c.fields && c.fields[PRICING] == Given(Table([Entry("m", Int(1))]))
            && Prices(c.fields) == [] && Load(shape, Saved(shape, c)) != c
  {
    var prices := [Entry("m", Int(1))];
    var root := [Entry("pricing", Table(prices))];
    TopKeys(shape);
    LookupOne(root[0], "pricing");
    assert root == [root[0]] && prices[1..] == [];
    LoadNormalizesOnce(shape, root);
    assert !prices[0].value.Table? && Tables(prices) == Tables([]) == [];
    hide Saved, AllKeys, Lookup, Tables;
  }
}
