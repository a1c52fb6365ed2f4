# Settings and module registry of the ModulaIOT device, in Dafny

This project models the in-memory settings and registry logic of the ModulaIOT
device runtime and proves properties of it.

- **SettingsCodec** (`settings_codec.dfy`) models `FileSettings.ParseJson`. It is a
  pure recursive conversion from a parsed JSON element to the stored value tree:
  32-bit integers, booleans, strings, lists, dictionaries and null. The relation
  `Encodes` says when a JSON document renders a value. The conversion succeeds
  with `v` exactly when the document encodes `v`, and it fails exactly when a
  number is not an in-range integer or an object repeats a member name.
- **SettingsStore** (`settings_store.dfy`) models `FileSettings` and
  `ModuleSettings`.
  - `FileSettings` is a class. It holds the top-level dictionary as an ordered key
    list plus a map of entries.
  - A dictionary entry is a `Table` object held by reference. `ModuleSettings`
    keeps that same object, so a write through the facade is seen through
    `FileSettings`.
  - `Document()` is the abstract document the store stands for. `OnUse` is proved
    against the pure loading loop `LoadSections`, and that loop is proved equal to
    converting the root object.
- **ModuleProvider** (`module_provider.dfy`) models the collaborators the core
  calls but does not define: `Use`, `Release` and `Build`. Each call is appended
  to a `CallLog` trace.
- **ModuleLoader** (`module_loader.dfy`) models `Loader`. `OnUse` is proved
  against `Builds`, the pure list of `Build` calls over the store's keys, and
  against `Dictionaries`, the store after every entry has been read as a
  dictionary.
- **ModuleRegistry** (`module_registry.dfy`) models the static `ModuleMap` with
  `UseModule` and `GetModule`.
- **SettingsRegistry** (`settings_registry.dfy`) models the `Settings` dictionary
  of module instances: `Load`, `Get` and `Save`.
- **WritableConfig** (`writable_config.dfy`) models
  `WriteableJsonConfigurationProvider.Set` and `GetModuleConfig`.
  - The key is split on `':'`.
  - The file's object tree is walked, and missing objects are created on the way.
  - The string is stored at the leaf.
- **Sequences** (`sequences.dfy`) defines `Distinct`, used for the store's key
  order, the member names of a JSON object and the registered section keys.
- **Wrappers** (`wrappers.dfy`) holds `Option`, `Result`, `Outcome` and one
  `Exception` constructor for each .NET exception the code raises or lets through.

Exceptions become `Result`/`Outcome` values. A method that throws after changing
state keeps the change, as the source does: `Set` of the provider updates its flat
data before it reads the file.

## Model

| member | source | states |
|---|---|---|
| SettingsCodec.ParseJson | Modules/Settings.cs:98-125 | The only failures are a number that is not a 32-bit integer and a repeated member name. On success, null gives null, true/false give that boolean, a number gives the same integer, a string gives the same string, an array gives a list of the same length, and an object gives a dictionary with exactly the member names. |
| SettingsCodec.ParseItems | Modules/Settings.cs:109-115 | A successful array conversion has one value per item; its only failures are those of ParseJson. |
| SettingsCodec.ParseMembers | Modules/Settings.cs:116-122 | A successful object conversion has as keys the names added so far plus the member names; its only failures are those of ParseJson. |
| SettingsCodec.ParseJsonInvertsEncodes | Modules/Settings.cs:98-125 | ParseJson(j) == Ok(v) if and only if j is a JSON rendering of v: any document that renders a value converts back to exactly that value, and nothing else converts to it. |
| SettingsCodec.ParseItemsInvertsEncodes | Modules/Settings.cs:109-115 | The array loop yields vs exactly when every item renders the value at its position. |
| SettingsCodec.ParseMembersInvertsEncodes | Modules/Settings.cs:116-122 | The object loop yields r exactly when the names are distinct and new, r extends the dictionary built so far, and every member renders its entry. |
| SettingsCodec.ParseMembersEncodes | Modules/Settings.cs:116-122 | One direction of ParseMembersInvertsEncodes: a successful object conversion has distinct new names, extends the dictionary built so far, and every member renders its entry. |
| SettingsCodec.EncodesParseMembers | Modules/Settings.cs:116-122 | The other direction: members with distinct new names that render the entries of r convert to exactly r. |
| SettingsCodec.ParseJsonFailsIff | Modules/Settings.cs:102-103 | Conversion succeeds exactly when every number is an in-range integer and no object repeats a member name. |
| SettingsCodec.ParseItemsFailsIff | Modules/Settings.cs:111-114 | The array loop succeeds exactly when every item converts. |
| SettingsCodec.ParseMembersFailsIff | Modules/Settings.cs:118-121 | The object loop succeeds exactly when the names are distinct, none is already present, and every value converts. |
| SettingsStore.AsDictionary | Modules/Settings.cs:84-88 | A dictionary is kept as it is; anything else, null included, becomes an empty dictionary. |
| SettingsStore.LoadSections | Modules/Settings.cs:61-64 | The loading loop adds at most one key per section and all of them when it completes. Its only exceptions are a number that is not a 32-bit integer and a duplicate name. |
| SettingsStore.LoadDocument | Modules/Settings.cs:60-64 | A root that is not an object throws (EnumerateObject) and loads nothing. A completed load has one key per section. The only other exceptions are those of the loop. |
| SettingsStore.LoadSectionsIsParseMembers | Modules/Settings.cs:61-64 | The loading loop completes exactly when converting the root object succeeds. It fails with the same exception, including a duplicate top-level name. When it completes, the store is the converted root and the keys are the section names in document order. |
| SettingsStore.LoadDocumentIsParseJson | Modules/Settings.cs:60-64 | Loading completes exactly when the root is an object that converts; the store is then the converted root, keys in document order. |
| SettingsStore.LoadSectionsReplaysPrefix | Modules/Settings.cs:61-64 | A load stops after a prefix of the sections, and loading that prefix alone completes with the same keys and document. |
| SettingsStore.LoadSectionsKeepsPrefix | Modules/Settings.cs:61-64 | The keys a load leaves are the names of that prefix, in document order, and the prefix alone loads to the same document without an exception. |
| SettingsStore.LoadSectionsStopsAt | Modules/Settings.cs:61-64 | A load that throws stops at the section right after the kept prefix. Either that section's conversion threw the same exception, or its name is already present and the exception is the duplicate key. |
| SettingsStore.FileSettings.Keys | Modules/Settings.cs:77-80 | Lists each key of the dictionary exactly once. |
| SettingsStore.FileSettings.GetTable | Modules/Settings.cs:82-91 | A stored dictionary is returned as the same object and nothing changes. Otherwise a fresh empty dictionary replaces the entry, or is added last when the key is absent. Afterwards the entry is the returned object; no other key changes. |
| SettingsStore.FileSettings.Set | Modules/Settings.cs:93-96 | Only the entry for prop changes; a new key goes last, an existing one keeps its place. |
| SettingsStore.FileSettings.OnUse | Modules/Settings.cs:52-65 | Uses the configuration module first. A non-empty store or a missing file leaves the store unchanged, so a second OnUse never reloads. A non-object root throws. Otherwise the store and its outcome are those of LoadDocument on the file, with fresh dictionary objects. |
| SettingsStore.FileSettings.AddParsed | Modules/Settings.cs:63 | Adds one converted section last under a new name; the document gains exactly that entry. |
| SettingsStore.FileSettings.Use | Modules/Loader.cs:25 | Use of the file settings as another module calls it: records the call. A store that already holds keys completes and keeps its keys, its entries (the same dictionary objects) and its values. An empty store may come back loaded, or the load may throw. |
| SettingsStore.FileSettings.OnRelease | Modules/Settings.cs:67-75 | Releases the configuration module. |
| SettingsStore.DefaultOf | Modules/Settings.cs:143 | default(T) is a value of T. |
| SettingsStore.ModuleSettings.constructor | Modules/Settings.cs:133-137 | The facade's dictionary is the object FileSettings holds under its id. FileSettings replaces or creates that entry the same way as GetTable. |
| SettingsStore.ModuleSettings.GetOrDefault | Modules/Settings.cs:152-156 | A null prop throws. Otherwise the result is the stored value exactly when it is present and is a T, and null in every other case. |
| SettingsStore.ModuleSettings.GetWithDefault | Modules/Settings.cs:147-150 | A null prop throws. defaultVal is returned exactly when GetOrDefault gives null; otherwise the stored T is returned. |
| SettingsStore.ModuleSettings.Get | Modules/Settings.cs:139-145 | A null prop throws. An absent or null key gives default(T). A stored T is returned. Any other stored value fails the unboxing. |
| SettingsStore.ModuleSettings.Set | Modules/Settings.cs:158-162 | A null prop throws and nothing changes. Otherwise only prop changes, and GetOrDefault(prop) then returns the value. |
| SettingsStore.ModuleSettings.OnUse | Modules/Settings.cs:164-167 | Uses the file settings module. |
| SettingsStore.ModuleSettings.OnRelease | Modules/Settings.cs:169-172 | Releases the file settings module. |
| SettingsStore.SetThroughFacade | Modules/Settings.cs:135-136 | After a facade's Set, FileSettings' entry for the facade's id holds the new value. The lookup returns the facade's own object, and no key of FileSettings changes. |
| ModuleLoader.TypeOf | Modules/Loader.cs:29 | An entry names a module type exactly when it is a dictionary whose "Type" value is a string, and the type is that string. |
| ModuleLoader.BuildFor | Modules/Loader.cs:28-33 | At most one Build per key. |
| ModuleLoader.Builds | Modules/Loader.cs:26-34 | The loop issues only Build calls, at most one per key visited. |
| ModuleLoader.Dictionaries | Modules/Loader.cs:28 | Reading every key as a dictionary keeps the key set and leaves every entry a dictionary. |
| ModuleLoader.BuildIssuedIff | Modules/Loader.cs:29-33 | Build(t, id) is issued if and only if id is one of the keys and its entry's "Type" value is the string t; an absent or non-string "Type" issues nothing. |
| ModuleLoader.BuildsFollowKeyOrder | Modules/Loader.cs:26-34 | The calls for earlier keys come before those for later keys. |
| ModuleLoader.BuildsIgnoreReplacedEntries | Modules/Loader.cs:28-29 | Replacing non-dictionary entries by empty dictionaries changes no Build call, so a later scan of the same store issues the same calls. |
| ModuleLoader.Loader.OnUse | Modules/Loader.cs:23-35 | Use of the file settings comes first. When Use throws, OnUse throws too, before the scan: no Build is issued and the store is as Use left it. Otherwise the scan runs over the store as Use leaves it: the Build calls of Builds over those keys follow, in key order, and afterwards every entry is a dictionary and that key order is unchanged. When the store already held keys, Use completes and the scanned store is the old one. Every dictionary object already stored stays the same object, the one a ModuleSettings built earlier holds. |
| ModuleLoader.Loader.VisitAll | Modules/Loader.cs:26-34 | The foreach issues exactly Builds over the keys and leaves the store as Dictionaries of the old one; every dictionary object already stored stays the same object. |
| ModuleLoader.Loader.Visit | Modules/Loader.cs:28-33 | One key: its entry becomes a dictionary, and BuildFor's call is issued. A stored dictionary is kept as the same object. |
| ModuleLoader.Loader.OnRelease | Modules/Loader.cs:37-40 | Releases the file settings. |
| ModuleRegistry.ModuleDescriptors | Models/Module.cs:38-47 | Two descriptors, IModule and the type itself, both implemented by the type, singleton exactly when requested. |
| ModuleRegistry.GetModule | Models/Module.cs:52-57 | An unregistered name throws InvalidOperationException ("not registered"). A null name throws ArgumentNullException, which is not an InvalidOperationException. A registered name resolves to exactly the type mapped to it. |
| ModuleRegistry.ModuleMap.UseModule | Models/Module.cs:31-50 | A name already in the map throws, and the map and the services are unchanged. Otherwise only the type's name is mapped, to the type, and its two descriptors are added. Every type stays keyed by its own name. |
| ModuleRegistry.RegisterKeepsKeyedByName | Models/Module.cs:37 | Registering keeps every type under its own simple name. |
| ModuleRegistry.GetModuleAfterRegister | Models/Module.cs:52-57 | After a registration, the new name resolves to the new type and every other name resolves as before. |
| ModuleRegistry.OneTypePerName | Models/Module.cs:34-35 | Two distinct types with one simple name are never both registered. |
| ModuleRegistry.GetModuleFindsRegistered | Models/Module.cs:52-57 | In a map keyed by name, GetModule finds a type exactly when that type is registered. |
| SettingsRegistry.LoadAsWritten | Models/Settings.cs:30-47 | The Load loop as written: a section without "Type" ends the load with ArgumentNullException. |
| SettingsRegistry.LoadAll | Models/Settings.cs:30-47 | The Load loop with a section without "Type" skipped like an unregistered one. |
| SettingsRegistry.LoadAllOnlyAdds | Models/Settings.cs:37-45 | A load keeps every instance already present and adds only keys of registered sections. Instances stay keyed by their Id. The only exception that escapes is a duplicate key. |
| SettingsRegistry.LoadAllLoadsRegistered | Models/Settings.cs:37-40 | After a completed load, every section whose type is registered appears under its key, as an instance of that type whose Id is the key. |
| SettingsRegistry.LoadAllPassIff | Models/Settings.cs:40-45 | A load completes if and only if the keys of the registered sections are distinct and none is present yet. |
| SettingsRegistry.SecondLoadFails | Models/Settings.cs:40-42 | Loading the same sections again throws a duplicate-key error as soon as one section is registered. |
| SettingsRegistry.AsWrittenStopsAtUntyped | Models/Settings.cs:34-45 | As written, the load runs like the corrected one up to the first section without "Type", and there throws ArgumentNullException. |
| SettingsRegistry.AsWrittenAgreesWhenTyped | Models/Settings.cs:30-47 | When every section has a "Type", the load as written and the corrected load give the same dictionary and outcome. |
| SettingsRegistry.UntypedSectionAbortsLoad | Models/Settings.cs:34-37 | Take an "id" section with no "Type" ahead of a registered "controller". As written this loads nothing and throws; corrected it loads the controller. |
| SettingsRegistry.Settings.Load | Models/Settings.cs:30-47 | The dictionary and the outcome are those of LoadAll over the registry's current map; instances stay keyed by Id. |
| SettingsRegistry.Settings.Get | Models/Settings.cs:54-57 | Returns the instance stored under id, whose Id is id. An absent id throws KeyNotFoundException. |
| SettingsRegistry.Settings.Save | Models/Settings.cs:49-52 | Leaves the dictionary unchanged. |
| WritableConfig.Split | Models/Configuration.cs:25 | There is always at least one segment. |
| WritableConfig.JoinSplit | Models/Configuration.cs:25 | Joining the segments with ':' gives back the key. |
| WritableConfig.SplitHasNoSeparator | Models/Configuration.cs:25 | No segment contains ':'. |
| WritableConfig.SplitAtSeparator | Models/Configuration.cs:25 | Split(a + ":" + b) == Split(a) + Split(b). |
| WritableConfig.SplitWithoutSeparator | Models/Configuration.cs:25 | A key without ':' is one segment. |
| WritableConfig.SplitJoin | Models/Configuration.cs:25 | Splitting a path joined with ':' gives back its segments when none contains ':'. |
| WritableConfig.SetPath | Models/Configuration.cs:27-32 | A single segment always succeeds. The only exception is InvalidCastException. A successful walk has as top-level keys the old ones plus the first segment, and leaves every other top-level property as it was. |
| WritableConfig.SetPathFailsIff | Models/Configuration.cs:27-31 | The walk fails, with InvalidCastException, exactly when an intermediate segment exists and is not an object. |
| WritableConfig.SetPathReaches | Models/Configuration.cs:27-32 | After the walk, following the segments reaches the written string, and every intermediate segment leads to an object. |
| WritableConfig.SetPathKeepsOthers | Models/Configuration.cs:27-32 | Every path that parts ways with the written one looks up the same token as before, so existing objects are reused and nothing off the path changes. |
| WritableConfig.SetPathIdempotent | Models/Configuration.cs:27-32 | Writing the same value at the same key twice gives the same document as writing it once. |
| WritableConfig.TopLevelSet | Models/Configuration.cs:25-32 | A key without ':' sets the top-level property directly. |
| WritableConfig.SectionPath | Models/Configuration.cs:87-90 | The section path of module id has segments "modules" followed by the segments of id. |
| WritableConfig.SectionPathInjective | Models/Configuration.cs:87-90 | Distinct module ids give distinct section path strings. |
| WritableConfig.WriteableJsonConfigurationProvider.Set | Models/Configuration.cs:21-34 | The flat data always takes the value. A file that is not an object throws, unchanged. A blocked path throws InvalidCastException and leaves the file unchanged. Otherwise the file becomes the walk's result. |

## Left out

- File and stream I/O, the JSON reader's tokenisation and the serializer are not modelled. The parsed document is a parameter (`Option<Json>`, None when the file does not exist; a `JToken` for the configuration file). FileSettings.OnRelease and the provider's write-back therefore only record their Release call, or leave the new tree in the `file` field.
- Fractional and exponent JSON numbers are only the error case of GetInt32; no floating point is modelled.
- The reference-counted Use/Release base class, its "once" flag and the module provider's Build are not part of this model. They are opaque calls recorded in a `CallLog`, and Build's own errors are not modelled. The trace holds only the calls a member issues itself, not those made inside a module it uses (FileSettings.OnUse's own Use of the configuration module, when Loader's Use of it runs that OnUse).
- Dependency-injection resolution is not modelled. GetModule returns the registered type in place of `provider.GetService(type)`. A Settings instance is a value (type, Id), so sharing one singleton instance between two sections is not captured: the second section's `instance.Id = section.Key` would also rename the first.
- SettingsStore.FileSettings.Use: on an empty store, whether the load runs and which outcome and store it gives are left open. When it runs it is FileSettings.OnUse on the settings file. The base class that decides this is not part of this model.
- SettingsRegistry.Settings.Get: the cast `(T)` to the requested module interface is not modelled; Get returns the stored instance.
- `section.Bind`, `Console.WriteLine`, `async`/`Task` scheduling and concurrency are not modelled.
- Dictionaries nested inside a module's entry are values, so aliasing below the top level of a module's dictionary is not captured. Only the top-level entries shared between FileSettings and ModuleSettings are objects.
- SettingsStore.FileSettings.GetTable models Get<T> only for T = Dictionary<string, object?>, the one instantiation the core uses. A null prop, which the dictionary rejects, is not modelled.
- ModuleLoader.Loader.OnUse assumes that overwriting an existing key during the foreach keeps the key order and does not end the enumeration. Dictionary behaves this way in .NET Core 3.0 and later.
- The key order inside one module's dictionary is not kept: `Table.items` and `VObject.fields` are maps, while the source's Dictionary and the serializer keep insertion order. The top-level key order is kept (`FileSettings.keys`).
- Configuration keys are case-insensitive in the flat data of the provider; the model compares keys exactly.
- WritableConfig.WriteableJsonConfigurationProvider.Set walks and updates the JObject tree as a value (SetPath), not in place. The tree is local to one Set call, so only the written-back result is observable. JObject property order is not kept, and a null value string is not modelled.
- `SetValue` (JValue.ToString), the default configuration data and its `Dns.GetHostName()`, and the configuration source plumbing are not modelled.
- Controller, DeviceBuilder/DeviceModule, CoreSettings and the interface-only files are not part of this model.

## Findings

| source | as written | input that shows it | evidently intended | confidence | as-written member | corrected member |
|---|---|---|---|---|---|---|
| Models/Settings.cs:34-42 | `section["Type"]` is null for a section without "Type". `GetModule(null)` calls `ModuleMap.ContainsKey(null)`, which throws ArgumentNullException. The catch handles only InvalidOperationException, so Load stops there. | sections `id` (no "Type") then `controller` with "Type" = "Controller", "Controller" registered: Load throws and adds nothing. | A section that names no registered module is skipped, as the catch does for unregistered names, and the remaining sections are loaded. | medium, not executed | SettingsRegistry.LoadAsWritten, SettingsRegistry.AsWrittenStopsAtUntyped, SettingsRegistry.UntypedSectionAbortsLoad, SettingsRegistry.AsWrittenAgreesWhenTyped | SettingsRegistry.LoadAll, SettingsRegistry.LoadAllOnlyAdds, SettingsRegistry.LoadAllLoadsRegistered, SettingsRegistry.Settings.Load |
