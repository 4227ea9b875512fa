/** The configuration object, the overrides of this process and the file: loading, editing and saving. */
module SettingsStore {
  import opened Options
  import opened Settings
  import opened Toml
  import opened Trimming

  /** What the file had for an overridden setting, and what was set in its place. */
  datatype Swap = Swap(original: Setting, applied: Setting)

  datatype Override = Override(key: Key, value: Setting)

  predicate DistinctOverrides(overrides: seq<Override>) {
    forall i, j | 0 <= i < j < |overrides| :: overrides[i].key != overrides[j].key
  }

  function FindOverride(overrides: seq<Override>, k: Key): Option<Setting> {
    if overrides == [] then None
    else if overrides[0].key == k then Some(overrides[0].value)
    else FindOverride(overrides[1..], k)
  }

  /** The fields with every override of a field in place. */
  function Overridden(fields: map<Key, Setting>, overrides: seq<Override>): map<Key, Setting> {
    map k | k in fields :: match FindOverride(overrides, k) case Some(v) => v case None => fields[k]
  }

  function Swaps(fields: map<Key, Setting>, overrides: seq<Override>): map<Key, Swap> {
    map k | k in fields && FindOverride(overrides, k).Some? :: Swap(fields[k], FindOverride(overrides, k).value)
  }

  /** `_as_in_file`: an override still in place is put back to what the file had. */
  function AsInFile(fields: map<Key, Setting>, swaps: map<Key, Swap>): map<Key, Setting> {
    map k | k in fields :: if k in swaps && fields[k] == swaps[k].applied then swaps[k].original else fields[k]
  }

  function Defaults(shape: Shape): map<Key, Setting> {
    map k | k in AllKeys(shape) :: DefaultOf(shape, k)
  }

  /** A file's tables: every key once, at the top and in each table. */
  predicate FileRoot(root: seq<Entry>) {
    Distinct(root) && forall i | 0 <= i < |root| :: root[i].value.Table? ==> Distinct(root[i].value.entries)
  }

  function ReadFields(fields: map<Key, Setting>, root: seq<Entry>): map<Key, Setting> {
    map k | k in fields :: if k.section == "" then fields[k] else ReadField(root, k, fields[k])
  }

  function FoldedFields(fields: map<Key, Setting>, root: seq<Entry>, sections: set<string>): map<Key, Setting> {
    map k | k in fields ::
      if k.section in sections && k.name == "extra_body" then
        match Lookup(root, k.section) case Some(Table(entries)) => Folded(fields[k], entries) case _ => fields[k]
      else fields[k]
  }

  function TopFields(shape: Shape, fields: map<Key, Setting>, root: seq<Entry>): map<Key, Setting> {
    map k | k in fields :: if k.section == "" then TopField(shape, root, k.name) else fields[k]
  }

  function TrimmedFields(shape: Shape, fields: map<Key, Setting>, sections: set<string>): map<Key, Setting> {
    map k | k in fields :: if k.section in sections then Trimmed(shape, k, fields[k]) else fields[k]
  }

  lemma {:induction false} LookupUpTo(entries: seq<Entry>, n: nat, key: string)
    requires Distinct(entries) && n < |entries|
    ensures Lookup(entries[..n + 1], key) == if entries[n].key == key then Some(entries[n].value)
        else Lookup(entries[..n], key)
    ensures Lookup(entries[..n], entries[n].key).None?
  {
    assert entries[..n + 1] == entries[..n] + [entries[n]];
    LookupAppend(entries[..n], [entries[n]], key);
    LookupOne(entries[n], key);
    NotBefore(entries[..n], entries[n].key);
  }

  lemma {:induction false} NotBefore(entries: seq<Entry>, key: string)
    requires forall i | 0 <= i < |entries| :: entries[i].key != key
    ensures Lookup(entries, key).None?
    decreases |entries|
  {
    if entries != [] { NotBefore(entries[1..], key); }
  }

  lemma {:induction false} OverrideUpTo(overrides: seq<Override>, n: nat, k: Key)
    requires DistinctOverrides(overrides) && n < |overrides|
    ensures FindOverride(overrides[..n + 1], k) ==
            if overrides[n].key == k then Some(overrides[n].value) else FindOverride(overrides[..n], k)
    ensures FindOverride(overrides[..n], overrides[n].key).None?
    decreases n
  {
    if n > 0 {
      assert overrides[..n + 1][1..] == overrides[1..][..n] && overrides[..n][1..] == overrides[1..][..n - 1];
      OverrideUpTo(overrides[1..], n - 1, k);
    } else {
      assert overrides[..1][1..] == [];
    }
  }

  predicate ReadFieldUpTo(root: seq<Entry>, i: nat, k: Key, default: Setting)
    requires i < |root|
  {
    ReadField(root[..i + 1], k, default)
    == if k.section == root[i].key then ReadField([root[i]], k, default) else ReadField(root[..i], k, default)
  }

  function Names(fields: seq<Field>): seq<string> {
    seq(|fields|, i requires 0 <= i < |fields| => fields[i].name)
  }

  lemma NamesAreAll(shape: Shape, section: string)
    requires ValidShape(shape) && FindSection(shape.sections, section).Some? && section != ""
    ensures var names := Names(FindSection(shape.sections, section).value.fields);
            && (forall k <- AllKeys(shape) | k.section == section :: k.name in names)
            && (forall i, j | 0 <= i < j < |names| :: names[i] != names[j])
  {
    SectionFound(shape.sections, section);
    var fields := FindSection(shape.sections, section).value.fields;
    forall k <- AllKeys(shape) | k.section == section ensures k.name in Names(fields) {
      var i, j :| 0 <= i < |shape.sections| && 0 <= j < |shape.sections[i].fields|
                  && k == Key(shape.sections[i].name, shape.sections[i].fields[j].name);
      FindsSection(shape.sections, i);
      assert Names(fields)[j] == k.name;
    }
  }

  class ConfigObject {
    const shape: Shape
    var fields: map<Key, Setting>
    var chatAlias: string
    var embeddingAlias: string
    var overridden: map<Key, Swap>

    ghost function View(): Config
      reads this
    {
      Config(fields, chatAlias, embeddingAlias)
    }

    constructor (shape: Shape)
      ensures this.shape == shape && View() == Config(Defaults(shape), "", "") && overridden == map[]
    {
      this.shape := shape;
      fields := Defaults(shape);
      chatAlias, embeddingAlias, overridden := "", "", map[];
    }

    method SetKey(k: Key, value: Setting) returns (found: bool)
      modifies this`fields
      ensures found <==> k in old(fields)
      ensures fields == if k in old(fields) then old(fields)[k := value] else old(fields)
    {
      found := k in fields;
      if found { fields := fields[k := value]; }
    }

    /** `_read`: every entry of every table of the file that is a field. */
    method Read(root: seq<Entry>)
      requires FileRoot(root)
      modifies this`fields
      ensures fields == ReadFields(old(fields), root)
    {
      ghost var before := fields;
      assert ReadFields(before, []) == before;
      for i := 0 to |root|
        invariant fields == ReadFields(before, root[..i])
      {
        forall k: Key | k in before ensures ReadFieldUpTo(root, i, k, before[k]) {
          LookupUpTo(root, i, k.section);
          LookupOne(root[i], k.section);
        }
        LookupUpTo(root, i, "");
        if root[i].value.Table? {
          ReadTable(root[i].key, root[i].value.entries, before, root[..i]);
        }
        assert fields.Keys == before.Keys;
        assert fields == ReadFields(before, root[..i + 1]);
      }
      assert root[..|root|] == root;
    }

    /** One table of the file, not read before. */
    method ReadTable(table: string, entries: seq<Entry>, ghost before: map<Key, Setting>, ghost done: seq<Entry>)
      requires Distinct(entries) && Lookup(done, table).None? && fields == ReadFields(before, done)
      modifies this`fields
      ensures fields.Keys == old(fields).Keys
      ensures forall k | k in fields :: fields[k] ==
                if k.section == table && table != "" then ReadField([Entry(table, Table(entries))], k, before[k])
                else old(fields)[k]
    {
      ghost var was := fields;
      for j := 0 to |entries|
        invariant fields.Keys == was.Keys
        invariant forall k | k in fields :: fields[k] ==
                    if k.section == table && table != "" && Lookup(entries[..j], k.name).Some?
                    then Given(Loose(k, Lookup(entries[..j], k.name).value)) else was[k]
      {
        forall n: string ensures Lookup(entries[..j + 1], n) ==
                                 if entries[j].key == n then Some(entries[j].value) else Lookup(entries[..j], n) {
          LookupUpTo(entries, j, n);
        }
        var k := Key(table, entries[j].key);
        if table != "" {
          var _ := SetKey(k, Given(Loose(k, entries[j].value)));
        }
      }
      assert entries[..|entries|] == entries;
      LookupOne(Entry(table, Table(entries)), table);
    }

    /** `_migrate_extra_body` for one backend section. */
    method MigrateExtraBody(section: string, entries: seq<Entry>)
      modifies this`fields
      ensures fields.Keys == old(fields).Keys
      ensures forall k | k in fields :: fields[k] ==
                if k == Key(section, "extra_body") then Folded(old(fields)[k], entries) else old(fields)[k]
    {
      var k := Key(section, "extra_body");
      var kwargs := Lookup(entries, KWARGS);
      if k !in fields || kwargs.None? || !kwargs.value.Table? { return; }
      var extra := fields[k];
      if !extra.Given? || !extra.value.Table? { return; }
      if Lookup(extra.value.entries, KWARGS).None? {
        fields := fields[k := Given(Table(extra.value.entries + [Entry(KWARGS, kwargs.value)]))];
      }
    }

    /** `trim_text` for one backend section. */
    method TrimText(section: string, names: seq<string>)
      requires section in shape.backends
      requires forall k | k in fields && k.section == section :: k.name in names
      requires forall i, j | 0 <= i < j < |names| :: names[i] != names[j]
      modifies this`fields
      ensures fields == TrimmedFields(shape, old(fields), {section})
    {
      hide Strip;
      ghost var was := fields;
      for i := 0 to |names|
        invariant fields.Keys == was.Keys
        invariant forall k | k in fields :: fields[k] ==
                    if k.section == section && k.name in names[..i] then Trimmed(shape, k, was[k]) else was[k]
      {
        var k := Key(section, names[i]);
        assert names[..i + 1] == names[..i] + [names[i]];
        if k in fields && names[i] != "api_key" {
          var s := fields[k];
          if s.Given? && s.value.Str? {
            fields := fields[k := Given(Str(Strip(shape.blank, s.value.s)))];
          }
        }
      }
      assert names[..|names|] == names;
      assert fields == TrimmedFields(shape, was, {section});
    }

    /** The overrides of `load`, each with what it replaces. */
    method ApplyOverrides(overrides: seq<Override>)
      requires DistinctOverrides(overrides) && overridden == map[]
      modifies this`fields, this`overridden
      ensures fields == Overridden(old(fields), overrides)
      ensures overridden == Swaps(old(fields), overrides)
    {
      ghost var was := fields;
      assert Overridden(was, []) == was && Swaps(was, []) == map[];
      for i := 0 to |overrides|
        invariant fields == Overridden(was, overrides[..i])
        invariant overridden == Swaps(was, overrides[..i])
      {
        forall k: Key ensures FindOverride(overrides[..i + 1], k) ==
                              if overrides[i].key == k then Some(overrides[i].value)
                                  else FindOverride(overrides[..i], k) {
          OverrideUpTo(overrides, i, k);
        }
        OverrideUpTo(overrides, i, overrides[i].key);
        var key, value := overrides[i].key, overrides[i].value;
        if key in fields {
          var original := fields[key];
          var _ := SetKey(key, value);
          overridden := overridden[key := Swap(original, value)];
        }
        assert fields == Overridden(was, overrides[..i + 1]);
        assert overridden == Swaps(was, overrides[..i + 1]);
      }
      assert overrides[..|overrides|] == overrides;
    }

    /** `_as_in_file`, on a copy. */
    method CopyAsInFile(keys: seq<Key>) returns (saved: map<Key, Setting>)
      requires forall k | k in overridden :: k in keys
      requires forall i, j | 0 <= i < j < |keys| :: keys[i] != keys[j]
      ensures saved == AsInFile(fields, overridden)
    {
      saved := fields;
      for i := 0 to |keys|
        invariant saved.Keys == fields.Keys
        invariant forall k | k in fields :: saved[k] ==
                    if k in keys[..i] && k in overridden && fields[k] == overridden[k].applied
                    then overridden[k].original
                    else fields[k]
      {
        var k := keys[i];
        assert keys[..i + 1] == keys[..i] + [k];
        if k in overridden && k in fields && fields[k] == overridden[k].applied {
          saved := saved[k := overridden[k].original];
        }
      }
      assert keys[..|keys|] == keys;
    }
  }

  predicate Lists(order: seq<string>, names: set<string>) {
    && (forall i | 0 <= i < |order| :: order[i] in names)
    && (forall n <- names :: n in order)
    && (forall i, j | 0 <= i < j < |order| :: order[i] != order[j])
  }

  function SetOf(names: seq<string>): set<string> {
    set i | 0 <= i < |names| :: names[i]
  }

  /** `load`: the file over the defaults, then the backend tables trimmed, then the overrides. `order` lists the
      backend sections. */
  method LoadConfig(shape: Shape, root: seq<Entry>, overrides: seq<Override>, order: seq<string>)
    returns (cfg: ConfigObject)
    requires ValidShape(shape) && "" !in shape.backends && Lists(order, shape.backends)
    requires FileRoot(root) && DistinctOverrides(overrides)
    ensures fresh(cfg)
    ensures cfg.View() == Load(shape, root).(fields := Overridden(Load(shape, root).fields, overrides))
    ensures cfg.overridden == Swaps(Load(shape, root).fields, overrides)
  {
    hide ReadFields, FoldedFields, TopFields, TrimmedFields, Overridden, Swaps, FileRoot, Raw, Alias;
    cfg := new ConfigObject(shape);
    cfg.chatAlias := Alias(Raw(root, "chat_backend"));
    cfg.embeddingAlias := Alias(Raw(root, "embedding_backend"));
    cfg.Read(root);
    MigrateAll(cfg, root, order);
    hide Lists;
    cfg.fields := TopFields(shape, cfg.fields, root);
    PhasesKeepKeys(shape, Defaults(shape), root, SetOf(order));
    TrimAll(cfg, order);
    ListedSet(order, shape.backends);
    PhasesLoad(shape, root);
    cfg.ApplyOverrides(overrides);
  }

  lemma ListedSet(order: seq<string>, names: set<string>)
    requires Lists(order, names)
    ensures SetOf(order) == names
  {
  }

  lemma PhasesKeepKeys(shape: Shape, fields: map<Key, Setting>, root: seq<Entry>, sections: set<string>)
    ensures TopFields(shape, FoldedFields(ReadFields(fields, root), root, sections), root).Keys == fields.Keys
  {
    hide TopField, Folded, ReadField, Lookup;
  }

  lemma OneMore(order: seq<string>, i: nat)
    requires i < |order| && forall i, j | 0 <= i < j < |order| :: order[i] != order[j]
    ensures SetOf(order[..i + 1]) == SetOf(order[..i]) + {order[i]} && order[i] !in SetOf(order[..i])
  {
  }

  lemma TrimOneMore(shape: Shape, fields: map<Key, Setting>, sections: set<string>, section: string)
    requires section !in sections
    ensures TrimmedFields(shape, TrimmedFields(shape, fields, sections), {section})
         == TrimmedFields(shape, fields, sections + {section})
  {
    hide Trimmed;
  }

  /** The fields after one more section is folded, given what folding it alone changes. */
  lemma FoldOneMore(was: map<Key, Setting>, now: map<Key, Setting>, root: seq<Entry>, sections: set<string>,
      section: string)
    requires section !in sections && now.Keys == was.Keys
    requires forall k | k in now :: now[k] ==
               match Lookup(root, section)
               case Some(Table(entries)) =>
                 if k == Key(section, "extra_body") then Folded(FoldedFields(was, root, sections)[k], entries)
                 else FoldedFields(was, root, sections)[k]
               case _ => FoldedFields(was, root, sections)[k]
    ensures now == FoldedFields(was, root, sections + {section})
  {
    hide Folded, Lookup;
  }

  lemma NothingToTrim(shape: Shape, fields: map<Key, Setting>, sections: set<string>, section: string)
    requires ValidShape(shape) && FindSection(shape.sections, section).None? && section != ""
    requires fields.Keys == AllKeys(shape)
    ensures TrimmedFields(shape, fields, sections + {section}) == TrimmedFields(shape, fields, sections)
  {
    forall k <- AllKeys(shape) ensures k.section != section {
      if k.section == section { KeyHasSection(shape, k); }
    }
    hide Trimmed, AllKeys, FindSection, ValidShape;
  }

  method MigrateAll(cfg: ConfigObject, root: seq<Entry>, order: seq<string>)
    requires forall i, j | 0 <= i < j < |order| :: order[i] != order[j]
    modifies cfg`fields
    ensures cfg.fields == FoldedFields(old(cfg.fields), root, SetOf(order))
  {
    ghost var was := cfg.fields;
    assert FoldedFields(was, root, SetOf([])) == was;
    hide Folded, Lookup, SetOf;
    assert order[..0] == [];
    for i := 0 to |order|
      invariant cfg.fields == FoldedFields(was, root, SetOf(order[..i]))
    {
      var section := Lookup(root, order[i]);
      if section.Some? && section.value.Table? {
        cfg.MigrateExtraBody(order[i], section.value.entries);
      }
      OneMore(order, i);
      FoldOneMore(was, cfg.fields, root, SetOf(order[..i]), order[i]);
    }
    assert order[..|order|] == order;
  }

  method TrimAll(cfg: ConfigObject, order: seq<string>)
    requires ValidShape(cfg.shape) && "" !in cfg.shape.backends && Lists(order, cfg.shape.backends)
    requires cfg.fields.Keys == AllKeys(cfg.shape)
    modifies cfg`fields
    ensures cfg.fields == TrimmedFields(cfg.shape, old(cfg.fields), SetOf(order))
  {
    ghost var was := cfg.fields;
    assert TrimmedFields(cfg.shape, was, SetOf([])) == was;
    hide TrimmedFields, AllKeys, ValidShape, SetOf;
    assert order[..0] == [];
    for i := 0 to |order|
      invariant cfg.fields == TrimmedFields(cfg.shape, was, SetOf(order[..i]))
    {
      var section := FindSection(cfg.shape.sections, order[i]);
      OneMore(order, i);
      if section.Some? {
        NamesAreAll(cfg.shape, order[i]);
        cfg.TrimText(order[i], Names(section.value.fields));
        TrimOneMore(cfg.shape, was, SetOf(order[..i]), order[i]);
      } else {
        NothingToTrim(cfg.shape, was, SetOf(order[..i]), order[i]);
      }
    }
    assert order[..|order|] == order;
  }

  /** The phases of loading, one after another, are the loaded configuration. */
  lemma PhasesLoad(shape: Shape, root: seq<Entry>)
    requires "" !in shape.backends
    ensures var read := ReadFields(Defaults(shape), root);
            var folded := FoldedFields(read, root, shape.backends);
            TrimmedFields(shape, TopFields(shape, folded, root), shape.backends) == Load(shape, root).fields
  {
    hide AllKeys, DefaultOf, Folded, ReadField, TopField, Strip, Lookup;
  }

  // ----- Runs of one process -----

  datatype Loaded = Loaded(config: Config, swaps: map<Key, Swap>)

  /** The file, the overrides and the configuration in hand; `base` is what the file loaded as and `edits` what the
      caller has set since. */
  datatype Session = Session(file: seq<Entry>, overrides: seq<Override>, loaded: Option<Loaded>,
                             base: Config, edits: map<Key, Setting>)

  datatype Event = SetOverrides(values: seq<Override>) | LoadFile | Edit(key: Key, value: Setting) | Save

  /** A save needs a value for every setting off its default. */
  predicate Savable(shape: Shape, fields: map<Key, Setting>) {
    forall k <- AllKeys(shape) :: k in fields && (fields[k].Unset? ==> DefaultOf(shape, k).Unset?)
  }

  function Apply(shape: Shape, s: Session, e: Event): Session {
    match e
    case SetOverrides(values) => if DistinctOverrides(values) then s.(overrides := values) else s
    case LoadFile =>
      var c := Load(shape, s.file);
      s.(loaded := Some(Loaded(c.(fields := Overridden(c.fields, s.overrides)), Swaps(c.fields, s.overrides))),
         base := c, edits := map[])
    case Edit(k, v) =>
      if s.loaded.Some? && k in s.loaded.value.config.fields then
        var l := s.loaded.value;
        s.(loaded := Some(l.(config := l.config.(fields := l.config.fields[k := v]))), edits := s.edits[k := v])
      else s
    case Save =>
      if s.loaded.Some? then
        var l := s.loaded.value;
        var fields := AsInFile(l.config.fields, l.swaps);
        if Savable(shape, fields) then s.(file := Saved(shape, l.config.(fields := fields))) else s
      else s
  }

  function Run(shape: Shape, s: Session, events: seq<Event>): Session
    decreases |events|
  {
    if events == [] then s else Run(shape, Apply(shape, s, events[0]), events[1..])
  }

  function Start(file: seq<Entry>): Session {
    Session(file, [], None, Config(map[], "", ""), map[])
  }

  /** What a setting must be saved as: the caller's value if it was set to something other than the override in
      place, else what the file held when it was loaded. */
  function Kept(base: map<Key, Setting>, edits: map<Key, Setting>, swaps: map<Key, Swap>): map<Key, Setting> {
    map k | k in base :: if k in edits && !(k in swaps && edits[k] == swaps[k].applied) then edits[k] else base[k]
  }

  /** The configuration in hand is the loaded one with the overrides on it and the edits on top. */
  predicate Consistent(s: Session) {
    s.loaded.Some? ==>
      var l := s.loaded.value;
      && l.config == s.base.(fields := l.config.fields)
      && l.config.fields.Keys == s.base.fields.Keys
      && s.edits.Keys <= s.base.fields.Keys
      && l.swaps.Keys <= s.base.fields.Keys
      && (forall k <- l.swaps :: l.swaps[k].original == s.base.fields[k])
      && (forall k <- s.base.fields :: l.config.fields[k] ==
            if k in s.edits then s.edits[k] else if k in l.swaps then l.swaps[k].applied else s.base.fields[k])
  }

  lemma {:induction false} RunIsConsistent(shape: Shape, s: Session, events: seq<Event>)
    requires Consistent(s)
    ensures Consistent(Run(shape, s, events))
    decreases |events|
  {
    if events != [] {
      StepIsConsistent(shape, s, events[0]);
      hide Apply, Consistent;
      RunIsConsistent(shape, Apply(shape, s, events[0]), events[1..]);
    }
  }

  lemma StepIsConsistent(shape: Shape, s: Session, e: Event)
    requires Consistent(s)
    ensures Consistent(Apply(shape, s, e))
  {
    hide Load, Saved, FindOverride, AllKeys;
  }

  /** Overrides never reach the file: whatever the run, a save writes each setting as the caller left it if that is
      not the override in place, and otherwise as the file held it at the load the configuration comes from. */
  lemma OverridesNeverPersist(shape: Shape, file: seq<Entry>, events: seq<Event>)
    ensures var s := Run(shape, Start(file), events);
            s.loaded.Some? && Savable(shape, AsInFile(s.loaded.value.config.fields, s.loaded.value.swaps)) ==>
              Apply(shape, s, Save).file
              == Saved(shape, s.base.(fields := Kept(s.base.fields, s.edits, s.loaded.value.swaps)))
  {
    RunIsConsistent(shape, Start(file), events);
    hide Run, Saved, AllKeys;
    var s := Run(shape, Start(file), events);
    if s.loaded.Some? {
      assert AsInFile(s.loaded.value.config.fields, s.loaded.value.swaps)
          == Kept(s.base.fields, s.edits, s.loaded.value.swaps);
    }
  }

  /** Without edits the overrides leave no trace: loading and saving under any overrides writes what loading and
      saving under none does. */
  lemma OverridesLeaveNoTrace(shape: Shape, file: seq<Entry>, values: seq<Override>)
    requires Savable(shape, Load(shape, file).fields)
    ensures Run(shape, Start(file), [SetOverrides(values), LoadFile, Save]).file
         == Saved(shape, Load(shape, file))
  {
    hide Load, Saved, AllKeys, FindOverride, Savable;
    var s0 := Start(file);
    var s1 := s0.(overrides := if DistinctOverrides(values) then values else []);
    var s2 := Apply(shape, s1, LoadFile);
    var l := s2.loaded.value;
    assert AsInFile(l.config.fields, l.swaps) == Load(shape, file).fields;
    var s3 := s2.(file := Saved(shape, Load(shape, file)));
    assert Apply(shape, s2, Save) == s3;
    assert Apply(shape, s0, SetOverrides(values)) == s1;
    hide Apply;
    RunThree(shape, s0, SetOverrides(values), LoadFile, Save);
  }

  lemma RunThree(shape: Shape, s: Session, a: Event, b: Event, c: Event)
    ensures Run(shape, s, [a, b, c]) == Apply(shape, Apply(shape, Apply(shape, s, a), b), c)
  {
    hide Apply;
    assert [a, b, c][1..] == [b, c] && [b, c][1..] == [c] && [c][1..] == [];
    var t := Apply(shape, s, a);
    var u := Apply(shape, t, b);
    assert Run(shape, u, [c]) == Run(shape, Apply(shape, u, c), []);
    assert Run(shape, t, [b, c]) == Run(shape, u, [c]);
  }
}
