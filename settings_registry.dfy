/** Settings: the dictionary of module instances keyed by module id, filled
    from the configuration sections. Each section names its module type under
    "Type"; a section whose type is not registered is skipped. */
module SettingsRegistry {
  import opened Wrappers
  import opened ModuleRegistry
  import opened Sequences

  /** One configuration section: its key and its "Type" value (None when the
      section has no "Type"). */
  datatype Section = Section(key: string, typeName: Option<string>)

  /** A module instance: the type it was resolved from and its Id. */
  datatype Instance = Instance(moduleType: TypeInfo, id: string)

  /** The dictionary after a load, and whether the load completed or threw. */
  datatype LoadState = LoadState(modules: map<string, Instance>, outcome: Outcome)

  /** Every instance is stored under its own Id. */
  ghost predicate KeyedById(modules: map<string, Instance>) {
    forall k :: k in modules ==> modules[k].id == k
  }

  /** The section names a registered module type. */
  predicate IsRegistered(s: Section, types: map<string, TypeInfo>) {
    s.typeName.Some? && s.typeName.value in types
  }

  /** The keys of the sections that name a registered type, in order. */
  function RegisteredKeys(ss: seq<Section>, types: map<string, TypeInfo>): (r: seq<string>)
    ensures |r| <= |ss|
    ensures forall k :: 0 <= k < |ss| && IsRegistered(ss[k], types) ==> ss[k].key in r
  {
    if ss == [] then []
    else if IsRegistered(ss[0], types) then [ss[0].key] + RegisteredKeys(ss[1..], types)
    else RegisteredKeys(ss[1..], types)
  }

  /** The loop of Settings.Load as written: for each section, GetModule of its
      "Type", then Add under the section key. Only InvalidOperationException is
      caught, so a section without "Type" (a null name, which ContainsKey
      rejects) and a key already present both end the load. */
  function LoadAsWritten(ss: seq<Section>, types: map<string, TypeInfo>, modules: map<string, Instance>): LoadState
    decreases |ss|
  {
    if ss == [] then LoadState(modules, Pass)
    else
      match GetModule(types, ss[0].typeName)
      case Err(e) =>
        if e.IsInvalidOperation() then LoadAsWritten(ss[1..], types, modules) else LoadState(modules, Fail(e))
      case Ok(t) =>
        if ss[0].key in modules then LoadState(modules, Fail(DuplicateKey(ss[0].key)))
        else LoadAsWritten(ss[1..], types, modules[ss[0].key := Instance(t, ss[0].key)])
  }

  /** The loop of Settings.Load with a section without "Type" skipped like one
      whose type is not registered. */
  function LoadAll(ss: seq<Section>, types: map<string, TypeInfo>, modules: map<string, Instance>): LoadState
    decreases |ss|
  {
    if ss == [] then LoadState(modules, Pass)
    else if ss[0].typeName.None? then LoadAll(ss[1..], types, modules)
    else
      match GetModule(types, ss[0].typeName)
      case Err(e) =>
        if e.IsInvalidOperation() then LoadAll(ss[1..], types, modules) else LoadState(modules, Fail(e))
      case Ok(t) =>
        if ss[0].key in modules then LoadState(modules, Fail(DuplicateKey(ss[0].key)))
        else LoadAll(ss[1..], types, modules[ss[0].key := Instance(t, ss[0].key)])
  }

  /** A load only adds: every instance present before keeps its key, every key
      added is the key of a registered section, instances stay keyed by their
      Id, and the only exception left is a duplicate key already present. */
  lemma {:induction false} LoadAllOnlyAdds(ss: seq<Section>, types: map<string, TypeInfo>, modules: map<string, Instance>)
    ensures var l := LoadAll(ss, types, modules);
      && (forall k :: k in modules ==> k in l.modules && l.modules[k] == modules[k])
      && (forall k :: k in l.modules ==> k in modules || k in RegisteredKeys(ss, types))
      && (KeyedById(modules) ==> KeyedById(l.modules))
      && (l.outcome.Fail? ==> l.outcome.error.DuplicateKey? && l.outcome.error.key in l.modules)
    decreases |ss|
  {
    if ss != [] {
      if IsRegistered(ss[0], types) {
        var t := types[ss[0].typeName.value];
        if ss[0].key !in modules {
          LoadAllOnlyAdds(ss[1..], types, modules[ss[0].key := Instance(t, ss[0].key)]);
        }
      } else {
        LoadAllOnlyAdds(ss[1..], types, modules);
      }
    }
  }

  /** A completed load holds, under the key of every section whose type is
      registered, an instance of that type whose Id is the key. */
  lemma {:induction false} LoadAllLoadsRegistered(ss: seq<Section>, types: map<string, TypeInfo>, modules: map<string, Instance>)
    requires LoadAll(ss, types, modules).outcome.Pass?
    ensures forall k :: 0 <= k < |ss| && IsRegistered(ss[k], types) ==>
      var l := LoadAll(ss, types, modules);
      ss[k].key in l.modules && l.modules[ss[k].key] == Instance(types[ss[k].typeName.value], ss[k].key)
    decreases |ss|
  {
    if ss != [] {
      var next := if IsRegistered(ss[0], types) then modules[ss[0].key := Instance(types[ss[0].typeName.value], ss[0].key)] else modules;
      assert LoadAll(ss, types, modules) == LoadAll(ss[1..], types, next);
      LoadAllLoadsRegistered(ss[1..], types, next);
      LoadAllOnlyAdds(ss[1..], types, next);
      forall k | 0 <= k < |ss| && IsRegistered(ss[k], types)
        ensures var l := LoadAll(ss, types, modules);
          ss[k].key in l.modules && l.modules[ss[k].key] == Instance(types[ss[k].typeName.value], ss[k].key)
      {
        if k > 0 {
          assert ss[k] == ss[1..][k - 1];
        }
      }
    }
  }

  /** A load completes exactly when the registered sections' keys are distinct
      and none of them is present yet. */
  lemma {:induction false} LoadAllPassIff(ss: seq<Section>, types: map<string, TypeInfo>, modules: map<string, Instance>)
    ensures LoadAll(ss, types, modules).outcome.Pass? <==>
      Distinct(RegisteredKeys(ss, types)) && forall k :: k in RegisteredKeys(ss, types) ==> k !in modules
    decreases |ss|
  {
    if ss != [] {
      var rest := RegisteredKeys(ss[1..], types);
      if IsRegistered(ss[0], types) {
        var key := ss[0].key;
        var next := modules[key := Instance(types[ss[0].typeName.value], key)];
        LoadAllPassIff(ss[1..], types, next);
        assert RegisteredKeys(ss, types) == [key] + rest;
        DistinctCons(key, rest);
      } else {
        LoadAllPassIff(ss[1..], types, modules);
      }
    }
  }

  /** Loading the same sections a second time throws a duplicate-key error as
      soon as one of them names a registered type. */
  lemma SecondLoadFails(ss: seq<Section>, types: map<string, TypeInfo>, modules: map<string, Instance>)
    requires LoadAll(ss, types, modules).outcome.Pass?
    requires exists k :: 0 <= k < |ss| && IsRegistered(ss[k], types)
    ensures var again := LoadAll(ss, types, LoadAll(ss, types, modules).modules);
      again.outcome.Fail? && again.outcome.error.DuplicateKey?
  {
    var loaded := LoadAll(ss, types, modules).modules;
    var k :| 0 <= k < |ss| && IsRegistered(ss[k], types);
    LoadAllLoadsRegistered(ss, types, modules);
    LoadAllPassIff(ss, types, loaded);
    LoadAllOnlyAdds(ss, types, loaded);
  }

  /** As written, the load runs like the corrected one up to the first section
      without "Type", and there throws ArgumentNullException. */
  lemma {:induction false} AsWrittenStopsAtUntyped(ss: seq<Section>, types: map<string, TypeInfo>, modules: map<string, Instance>, n: nat)
    requires n < |ss| && ss[n].typeName.None?
    requires forall k :: 0 <= k < n ==> ss[k].typeName.Some?
    ensures var l := LoadAll(ss[..n], types, modules);
      LoadAsWritten(ss, types, modules) == if l.outcome.Pass? then LoadState(l.modules, Fail(ArgumentNull)) else l
    decreases n
  {
    if n > 0 {
      assert ss[..n][0] == ss[0] && ss[..n][1..] == ss[1..][..n - 1];
      var next := if IsRegistered(ss[0], types) then modules[ss[0].key := Instance(types[ss[0].typeName.value], ss[0].key)] else modules;
      if !IsRegistered(ss[0], types) || ss[0].key !in modules {
        AsWrittenStopsAtUntyped(ss[1..], types, next, n - 1);
      }
    } else {
      assert ss[..0] == [];
    }
  }

  /** When every section has a "Type", the load as written and the corrected
      load agree. */
  lemma {:induction false} AsWrittenAgreesWhenTyped(ss: seq<Section>, types: map<string, TypeInfo>, modules: map<string, Instance>)
    requires forall k :: 0 <= k < |ss| ==> ss[k].typeName.Some?
    ensures LoadAsWritten(ss, types, modules) == LoadAll(ss, types, modules)
    decreases |ss|
  {
    if ss != [] {
      assert ss[0].typeName.Some?;
      forall k | 0 <= k < |ss[1..]| ensures ss[1..][k].typeName.Some? {
        assert ss[1..][k] == ss[k + 1];
      }
      if IsRegistered(ss[0], types) {
        if ss[0].key !in modules {
          AsWrittenAgreesWhenTyped(ss[1..], types, modules[ss[0].key := Instance(types[ss[0].typeName.value], ss[0].key)]);
        }
      } else {
        AsWrittenAgreesWhenTyped(ss[1..], types, modules);
      }
    }
  }

  /** A settings section without "Type" ahead of a registered one: as written
      the load throws and loads nothing; corrected it loads the registered one. */
  lemma UntypedSectionAbortsLoad()
    ensures var controller := TypeInfo("ModulaIOT.Device.Modules", "Controller");
      var types := map["Controller" := controller];
      var ss := [Section("id", None), Section("controller", Some("Controller"))];
      && LoadAsWritten(ss, types, map[]) == LoadState(map[], Fail(ArgumentNull))
      && LoadAll(ss, types, map[]) == LoadState(map["controller" := Instance(controller, "controller")], Pass)
  {
    var controller := TypeInfo("ModulaIOT.Device.Modules", "Controller");
    var types := map["Controller" := controller];
    var ss := [Section("id", None), Section("controller", Some("Controller"))];
    assert ss[1..] == [Section("controller", Some("Controller"))];
    assert ss[1..][1..] == [];
  }

  /** Settings: a dictionary of module instances keyed by module id. */
  class Settings {
    var modules: map<string, Instance>

    ghost predicate Valid()
      reads this
    {
      KeyedById(modules)
    }

    constructor ()
      ensures Valid() && modules == map[]
    {
      modules := map[];
    }

    /** Load: adds an instance for every section that names a registered type,
        under the section key; stops at the first key already present. */
    method Load(sections: seq<Section>, registry: ModuleMap) returns (r: Outcome)
      requires Valid()
      modifies this
      ensures Valid()
      ensures LoadState(modules, r) == LoadAll(sections, registry.types, old(modules))
    {
      assert sections[0..] == sections;
      var i := 0;
      while i < |sections|
        invariant 0 <= i <= |sections|
        invariant Valid()
        invariant LoadAll(sections[i..], registry.types, modules) == LoadAll(sections, registry.types, old(modules))
      {
        var section := sections[i];
        assert sections[i..][0] == section && sections[i..][1..] == sections[i + 1..];
        if section.typeName.Some? {
          var resolved := GetModule(registry.types, section.typeName);
          match resolved
          case Err(e) =>
            if !e.IsInvalidOperation() {
              return Fail(e);
            }
          case Ok(t) =>
            if section.key in modules {
              return Fail(DuplicateKey(section.key));
            }
            modules := modules[section.key := Instance(t, section.key)];
        }
        i := i + 1;
      }
      return Pass;
    }

    /** Get<T>(id): the instance stored under `id`; the indexer throws when
        `id` is absent. */
    function Get(id: string): (r: Result<Instance>)
      reads this
      ensures id in modules <==> r.Ok?
      ensures r.Ok? ==> r.value == modules[id]
      ensures Valid() && r.Ok? ==> r.value.id == id
      ensures id !in modules ==> r == Err(KeyNotFound(id))
    {
      if id in modules then Ok(modules[id]) else Err(KeyNotFound(id))
    }

    /** Save: does nothing. */
    method Save()
      ensures modules == old(modules)
    {
    }
  }
}
