/** The in-memory settings store: FileSettings, one dictionary keyed by module
    id, and ModuleSettings, the typed facade of one module over its own entry,
    which is the very dictionary object FileSettings holds under that id. */
module SettingsStore {
  import opened Wrappers
  import opened SettingsCodec
  import opened ModuleProvider
  import opened Sequences

  /** A Dictionary<string, object?> object handed out by reference: the entry of
      one module id, shared by FileSettings and that module's ModuleSettings. */
  class Table {
    var items: map<string, Value>

    constructor (items: map<string, Value>)
      ensures this.items == items
    {
      this.items := items;
    }
  }

  datatype Slot = Shared(table: Table) | Held(value: Value)

  /** What the top-level dictionary holds under a module id: a dictionary, by
      reference, or any other value (a dictionary is never held by value). */
  type Entry = s: Slot | !(s.Held? && s.value.VObject?) witness Held(VNull)

  /** The value an entry stands for; a dictionary is read through its reference. */
  ghost function ViewOf(e: Entry): Value
    reads if e.Shared? then {e.table} else {}
  {
    match e
    case Shared(t) => VObject(t.items)
    case Held(v) => v
  }

  /** What FileSettings.Get<Dictionary> leaves under a key that held `v`. */
  function AsDictionary(v: Value): (r: Value)
    ensures r.VObject?
    ensures v.VObject? ==> r == v
    ensures !v.VObject? ==> r.fields == map[]
  {
    if v.VObject? then v else VObject(map[])
  }

  /** The outcome of the loading loop: the keys added in order, the document
      they form, and whether the loop completed or threw. */
  datatype Loaded = Loaded(keys: seq<string>, doc: map<string, Value>, outcome: Outcome)

  /** The loading loop of FileSettings.OnUse over the root object's members:
      each section's value is converted, then added with Add; the first
      exception stops the loop and leaves the sections added so far in place. */
  function LoadSections(ms: seq<(string, Json)>, keys: seq<string>, doc: map<string, Value>): (r: Loaded)
    ensures |keys| <= |r.keys| <= |keys| + |ms|
    ensures r.outcome.Pass? ==> |r.keys| == |keys| + |ms|
    ensures r.outcome.Fail? ==> r.outcome.error == NotAnInt32 || r.outcome.error.DuplicateKey?
    decreases |ms|
  {
    if ms == [] then Loaded(keys, doc, Pass)
    else
      match ParseJson(ms[0].1)
      case Err(e) => Loaded(keys, doc, Fail(e))
      case Ok(v) =>
        if ms[0].0 in doc then Loaded(keys, doc, Fail(DuplicateKey(ms[0].0)))
        else LoadSections(ms[1..], keys + [ms[0].0], doc[ms[0].0 := v])
  }

  /** Reading the parsed settings file into an empty store. */
  function LoadDocument(root: Json): (r: Loaded)
    ensures !root.JObject? ==> r.outcome == Fail(ObjectExpected) && r.keys == [] && r.doc == map[]
    ensures r.outcome.Pass? ==> |r.keys| == |root.members|
    ensures r.outcome.Fail? ==>
      r.outcome.error == ObjectExpected || r.outcome.error == NotAnInt32 || r.outcome.error.DuplicateKey?
  {
    if root.JObject? then LoadSections(root.members, [], map[])
    else Loaded([], map[], Fail(ObjectExpected))
  }

  /** Loading the sections one by one is converting the root object: it fails
      with the same exception, and when it completes the document is the
      converted root and the keys are the member names in document order. */
  lemma {:induction false} LoadSectionsIsParseMembers(ms: seq<(string, Json)>, keys: seq<string>, doc: map<string, Value>)
    ensures var l := LoadSections(ms, keys, doc);
      && (l.outcome.Pass? <==> ParseMembers(ms, doc).Ok?)
      && (l.outcome.Fail? ==> ParseMembers(ms, doc) == Err(l.outcome.error))
      && (l.outcome.Pass? ==> ParseMembers(ms, doc) == Ok(l.doc) && l.keys == keys + MemberNames(ms))
    decreases |ms|
  {
    if ms != [] {
      var v := ParseJson(ms[0].1);
      if v.Ok? && ms[0].0 !in doc {
        LoadSectionsIsParseMembers(ms[1..], keys + [ms[0].0], doc[ms[0].0 := v.value]);
        assert MemberNames(ms) == [ms[0].0] + MemberNames(ms[1..]);
      }
    }
  }

  /** A completed load of a settings file holds exactly the converted root
      object, with its sections in document order. */
  lemma LoadDocumentIsParseJson(root: Json)
    ensures var l := LoadDocument(root);
      && (l.outcome.Pass? <==> root.JObject? && ParseJson(root).Ok?)
      && (l.outcome.Pass? ==> ParseJson(root) == Ok(VObject(l.doc)) && l.keys == MemberNames(root.members))
  {
    if root.JObject? {
      LoadSectionsIsParseMembers(root.members, [], map[]);
    }
  }

  /** A load stops after some prefix of the sections: loading that prefix
      alone completes with the same keys and document. */
  lemma {:induction false} LoadSectionsReplaysPrefix(ms: seq<(string, Json)>, keys: seq<string>, doc: map<string, Value>)
    ensures var l := LoadSections(ms, keys, doc);
      LoadSections(ms[..|l.keys| - |keys|], keys, doc) == Loaded(l.keys, l.doc, Pass)
    decreases |ms|
  {
    assert ms[..0] == [];
    if ms != [] {
      var v := ParseJson(ms[0].1);
      if v.Ok? && ms[0].0 !in doc {
        var keys' := keys + [ms[0].0];
        var doc' := doc[ms[0].0 := v.value];
        var l := LoadSections(ms[1..], keys', doc');
        LoadSectionsReplaysPrefix(ms[1..], keys', doc');
        var p := ms[..|l.keys| - |keys|];
        assert p[0] == ms[0] && p[1..] == ms[1..][..|l.keys| - |keys'|];
      }
    }
  }

  /** A load keeps the sections of the prefix it completed, in order. */
  lemma LoadSectionsKeepsPrefix(ms: seq<(string, Json)>, keys: seq<string>, doc: map<string, Value>)
    ensures var l := LoadSections(ms, keys, doc);
      var n := |l.keys| - |keys|;
      && l.keys == keys + MemberNames(ms[..n])
      && LoadSections(ms[..n], keys, doc) == Loaded(l.keys, l.doc, Pass)
  {
    var n := |LoadSections(ms, keys, doc).keys| - |keys|;
    LoadSectionsReplaysPrefix(ms, keys, doc);
    LoadSectionsIsParseMembers(ms[..n], keys, doc);
  }

  /** Why the section after the kept prefix stopped the load. */
  predicate StoppedBy(m: (string, Json), l: Loaded) {
    l.outcome.Fail? &&
    match ParseJson(m.1)
    case Err(e) => l.outcome.error == e
    case Ok(_) => m.0 in l.doc && l.outcome.error == DuplicateKey(m.0)
  }

  /** A load that throws stops at the section right after the kept prefix:
      its conversion threw that exception, or its name is already present. */
  lemma {:induction false} LoadSectionsStopsAt(ms: seq<(string, Json)>, keys: seq<string>, doc: map<string, Value>)
    ensures var l := LoadSections(ms, keys, doc);
      var n := |l.keys| - |keys|;
      l.outcome.Fail? ==> 0 <= n < |ms| && StoppedBy(ms[n], l)
    decreases |ms|
  {
    if ms != [] {
      var v := ParseJson(ms[0].1);
      if v.Ok? && ms[0].0 !in doc {
        var l := LoadSections(ms[1..], keys + [ms[0].0], doc[ms[0].0 := v.value]);
        LoadSectionsStopsAt(ms[1..], keys + [ms[0].0], doc[ms[0].0 := v.value]);
        var n := |l.keys| - |keys|;
        if l.outcome.Fail? {
          assert ms[n] == ms[1..][n - 1];
        }
      }
    }
  }

  /** FileSettings: the settings of every module, read from the settings file
      on first use. `keys` is the dictionary's enumeration order. */
  class FileSettings {
    var keys: seq<string>
    var entries: map<string, Entry>

    ghost predicate Valid()
      reads this
    {
      && Distinct(keys)
      && (forall k :: k in entries <==> k in keys)
    }

    /** The dictionary objects the store holds. */
    ghost function Tables(): set<Table>
      reads this
    {
      set k | k in entries && entries[k].Shared? :: entries[k].table
    }

    /** The settings document the store stands for. */
    ghost function Document(): (d: map<string, Value>)
      reads this, Tables()
      ensures d.Keys == entries.Keys
    {
      map k | k in entries :: ViewOf(entries[k])
    }

    constructor ()
      ensures Valid() && keys == [] && entries == map[]
    {
      keys := [];
      entries := map[];
    }

    /** Keys(): every key of the dictionary, once each. */
    function Keys(): (r: seq<string>)
      reads this
      requires Valid()
      ensures forall k :: k in r <==> k in entries
      ensures Distinct(r)
    {
      keys
    }

    /** Get<T> for T the dictionary type: the dictionary stored under `prop`,
        or, when the key is absent, null or holds another type, a fresh empty
        dictionary that replaces it. */
    method GetTable(prop: string) returns (t: Table)
      requires Valid()
      modifies this
      ensures Valid()
      ensures entries == old(entries)[prop := Shared(t)]
      ensures keys == if prop in old(entries) then old(keys) else old(keys) + [prop]
      ensures old(prop in entries && entries[prop].Shared?) ==> t == old(entries[prop].table)
      ensures !old(prop in entries && entries[prop].Shared?) ==> fresh(t) && t.items == map[]
      ensures Document() ==
        old(Document())[prop := if prop in old(entries) then AsDictionary(old(Document())[prop]) else VObject(map[])]
    {
      if prop in entries && entries[prop].Shared? {
        t := entries[prop].table;
      } else {
        ghost var before := Document();
        t := new Table(map[]);
        if prop !in entries {
          keys := keys + [prop];
        }
        entries := entries[prop := Shared(t)];
        assert Document() == before[prop := VObject(map[])];
      }
    }

    /** Set: overwrites the one key `prop`; a new key goes last. */
    method Set(value: Entry, prop: string)
      requires Valid()
      modifies this
      ensures Valid()
      ensures entries == old(entries)[prop := value]
      ensures keys == if prop in old(entries) then old(keys) else old(keys) + [prop]
    {
      if prop !in entries {
        keys := keys + [prop];
      }
      entries := entries[prop := value];
    }

    /** OnUse: uses the configuration module, then reads the settings file
        (`file`, None when it does not exist) only if the store is empty. */
    method OnUse(file: Option<Json>, calls: CallLog) returns (r: Outcome)
      requires Valid()
      modifies this, calls
      ensures Valid()
      ensures calls.calls == old(calls.calls) + [Call.Use(ConfigurationId)]
      ensures old(keys) != [] || file.None? ==> r == Pass && keys == old(keys) && entries == old(entries)
      ensures old(keys) == [] && file.Some? ==>
        var l := LoadDocument(file.value);
        keys == l.keys && Document() == l.doc && r == l.outcome
      ensures old(keys) == [] ==> forall k :: k in entries && entries[k].Shared? ==> fresh(entries[k].table)
    {
      calls.Use(ConfigurationId);
      if |keys| > 0 {
        return Pass;
      }
      if file.None? {
        return Pass;
      }
      var root := file.value;
      if !root.JObject? {
        return Fail(ObjectExpected);
      }
      var sections := root.members;
      assert sections[0..] == sections;
      var i := 0;
      while i < |sections|
        invariant 0 <= i <= |sections|
        invariant Valid()
        invariant calls.calls == old(calls.calls) + [Call.Use(ConfigurationId)]
        invariant LoadSections(sections[i..], keys, Document()) == LoadSections(sections, [], map[])
        invariant forall k :: k in entries && entries[k].Shared? ==> fresh(entries[k].table)
      {
        var (name, j) := sections[i];
        assert sections[i..][0] == (name, j) && sections[i..][1..] == sections[i + 1..];
        var parsed := ParseJson(j);
        if parsed.Err? {
          return Fail(parsed.error);
        }
        if name in entries {
          return Fail(DuplicateKey(name));
        }
        AddParsed(name, parsed.value);
        i := i + 1;
      }
      return Pass;
    }

    /** The body of the loading loop once `v` is converted: `_settings.Add(name, v)`
        for a name not yet present; a dictionary becomes a new dictionary object. */
    method AddParsed(name: string, v: Value)
      requires Valid() && name !in entries
      modifies this
      ensures Valid()
      ensures keys == old(keys) + [name]
      ensures entries.Keys == old(entries.Keys) + {name}
      ensures forall k :: k in old(entries) ==> entries[k] == old(entries[k])
      ensures entries[name].Shared? ==> fresh(entries[name].table)
      ensures Document() == old(Document())[name := v]
    {
      ghost var before := Document();
      var e: Entry;
      if v.VObject? {
        var t := new Table(v.fields);
        e := Shared(t);
      } else {
        e := Held(v);
      }
      keys := keys + [name];
      entries := entries[name := e];
      assert Document() == before[name := v];
    }

    /** Use(), as another module calls it: the module base class is not part of
        this model. It may run OnUse, which loads only into an empty store, so
        a store that already holds keys keeps them, their entries and their
        values, and completes; an empty store may come back loaded, or the
        load may throw. */
    method Use(calls: CallLog) returns (r: Outcome)
      requires Valid()
      modifies this, calls
      ensures Valid()
      ensures calls.calls == old(calls.calls) + [Call.Use(FileSettingsId)]
      ensures old(keys) != [] ==>
        r == Pass && keys == old(keys) && entries == old(entries) && Document() == old(Document())
    {
      calls.Use(FileSettingsId);
      r := Pass;
    }

    /** OnRelease: writes the document back to the settings file, then releases
        the configuration module. */
    method OnRelease(calls: CallLog)
      modifies calls
      ensures calls.calls == old(calls.calls) + [Call.Release(ConfigurationId)]
    {
      calls.Release(ConfigurationId);
    }
  }

  /** The value types ModuleSettings.Get<T> is used with (T : struct). */
  datatype StructType = Int32Type | BooleanType

  /** The reference types GetOrDefault<T> and GetWithDefault<T> are used with
      (T : class); ObjectType is `object`, which every non-null value is. */
  datatype ClassType = StringType | ListType | DictionaryType | ObjectType

  /** `v as T` is not null. */
  predicate IsInstance(v: Value, t: ClassType) {
    match t
    case StringType => v.VString?
    case ListType => v.VList?
    case DictionaryType => v.VObject?
    case ObjectType => v != VNull
  }

  /** The unboxing `(T)v` succeeds. */
  predicate Unboxes(v: Value, t: StructType) {
    match t
    case Int32Type => v.VInt?
    case BooleanType => v.VBool?
  }

  /** default(T). */
  function DefaultOf(t: StructType): (r: Value)
    ensures Unboxes(r, t)
  {
    match t
    case Int32Type => VInt(0)
    case BooleanType => VBool(false)
  }

  /** ModuleSettings: typed access to the settings of module `id`. Its
      dictionary is the one FileSettings holds under `id` when it is built. */
  class ModuleSettings {
    const id: string
    const settings: Table

    /** The facade still reads and writes the entry FileSettings holds for `id`. */
    ghost predicate BoundTo(fileSettings: FileSettings)
      reads fileSettings
    {
      id in fileSettings.entries && fileSettings.entries[id] == Shared(settings)
    }

    constructor (fileSettings: FileSettings, id: string)
      requires fileSettings.Valid()
      modifies fileSettings
      ensures this.id == id && fileSettings.Valid() && BoundTo(fileSettings)
      ensures fileSettings.entries == old(fileSettings.entries)[id := Shared(settings)]
      ensures fileSettings.keys ==
        if id in old(fileSettings.entries) then old(fileSettings.keys) else old(fileSettings.keys) + [id]
      ensures old(id in fileSettings.entries && fileSettings.entries[id].Shared?) ==>
        settings == old(fileSettings.entries[id].table)
      ensures !old(id in fileSettings.entries && fileSettings.entries[id].Shared?) ==>
        fresh(settings) && settings.items == map[]
    {
      this.id := id;
      var t := fileSettings.GetTable(id);
      settings := t;
    }

    /** GetOrDefault<T>: the value stored under `prop` when it is a T, and
        null when the key is absent, null or of another type. */
    function GetOrDefault(t: ClassType, prop: Option<string>): (r: Result<Option<Value>>)
      reads settings
      ensures prop.None? <==> r == Err(NullProp)
      ensures prop.Some? ==> r.Ok?
      ensures r.Ok? ==> (r.value.Some? <==> prop.value in settings.items && IsInstance(settings.items[prop.value], t))
      ensures r.Ok? && r.value.Some? ==> r.value.value == settings.items[prop.value] && IsInstance(r.value.value, t)
    {
      if prop.None? then Err(NullProp)
      else if prop.value in settings.items && IsInstance(settings.items[prop.value], t) then
        Ok(Some(settings.items[prop.value]))
      else Ok(None)
    }

    /** GetWithDefault<T>: GetOrDefault<T>, with `defaultVal` in place of null. */
    function GetWithDefault(t: ClassType, defaultVal: Value, prop: Option<string>): (r: Result<Value>)
      reads settings
      ensures prop.None? ==> r == Err(NullProp)
      ensures prop.Some? && !(prop.value in settings.items && IsInstance(settings.items[prop.value], t)) ==>
        r == Ok(defaultVal)
      ensures prop.Some? && prop.value in settings.items && IsInstance(settings.items[prop.value], t) ==>
        r == Ok(settings.items[prop.value])
      ensures r.Ok? ==> r.value == defaultVal || IsInstance(r.value, t)
    {
      match GetOrDefault(t, prop)
      case Err(e) => Err(e)
      case Ok(None) => Ok(defaultVal)
      case Ok(Some(v)) => Ok(v)
    }

    /** Get<T> for a value type: default(T) when the key is absent or null,
        the stored value when it unboxes to T, and InvalidCast otherwise. */
    function Get(t: StructType, prop: Option<string>): (r: Result<Value>)
      reads settings
      ensures prop.None? ==> r == Err(NullProp)
      ensures r.Ok? ==> Unboxes(r.value, t)
      ensures prop.Some? && (prop.value !in settings.items || settings.items[prop.value] == VNull) ==>
        r == Ok(DefaultOf(t))
      ensures prop.Some? && prop.value in settings.items && settings.items[prop.value] != VNull ==>
        r == if Unboxes(settings.items[prop.value], t) then Ok(settings.items[prop.value]) else Err(InvalidCast)
    {
      match GetOrDefault(ObjectType, prop)
      case Err(e) => Err(e)
      case Ok(None) => Ok(DefaultOf(t))
      case Ok(Some(v)) => if Unboxes(v, t) then Ok(v) else Err(InvalidCast)
    }

    /** Set: stores `value` under `prop` in the shared dictionary. */
    method Set(value: Value, prop: Option<string>) returns (r: Outcome)
      modifies settings
      ensures prop.None? ==> r == Fail(NullProp) && settings.items == old(settings.items)
      ensures prop.Some? ==> r == Pass && settings.items == old(settings.items)[prop.value := value]
      ensures prop.Some? && value != VNull ==> GetOrDefault(ObjectType, prop) == Ok(Some(value))
    {
      if prop.None? {
        return Fail(NullProp);
      }
      settings.items := settings.items[prop.value := value];
      return Pass;
    }

    /** OnUse: uses the file settings module. */
    method OnUse(calls: CallLog)
      modifies calls
      ensures calls.calls == old(calls.calls) + [Call.Use(FileSettingsId)]
    {
      calls.Use(FileSettingsId);
    }

    /** OnRelease: releases the file settings module. */
    method OnRelease(calls: CallLog)
      modifies calls
      ensures calls.calls == old(calls.calls) + [Call.Release(FileSettingsId)]
    {
      calls.Release(FileSettingsId);
    }
  }

  /** A write through a module's facade is seen by everyone who asks the file
      settings for that module's entry: both hold the same dictionary. */
  method SetThroughFacade(fileSettings: FileSettings, facade: ModuleSettings, value: Value, prop: string)
    returns (seen: Table)
    requires fileSettings.Valid() && facade.BoundTo(fileSettings)
    modifies fileSettings, facade.settings
    ensures fileSettings.Valid() && facade.BoundTo(fileSettings)
    ensures seen == facade.settings && seen.items == old(facade.settings.items)[prop := value]
    ensures fileSettings.entries == old(fileSettings.entries) && fileSettings.keys == old(fileSettings.keys)
    ensures fileSettings.Document()[facade.id] == VObject(old(facade.settings.items)[prop := value])
  {
    var r := facade.Set(value, Some(prop));
    seen := fileSettings.GetTable(facade.id);
  }
}
