/** The module type registry: the static map from a type's simple name to the
    type, filled by UseModule while the services are configured and read by
    GetModule. */
module ModuleRegistry {
  import opened Wrappers

  /** A module type: its namespace and its simple name (Type.Name). */
  datatype TypeInfo = TypeInfo(namespace: string, name: string)

  datatype Lifetime = Singleton | Transient

  /** The service a descriptor registers: the IModule interface or the
      module's own type. */
  datatype ServiceType = ModuleInterface | Concrete(moduleType: TypeInfo)

  datatype ServiceDescriptor = ServiceDescriptor(service: ServiceType, implementation: TypeInfo, lifetime: Lifetime)

  /** The descriptors UseModule adds for `t`: IModule and `t` itself, both
      implemented by `t`, with the chosen lifetime. */
  function ModuleDescriptors(t: TypeInfo, singleton: bool): (r: seq<ServiceDescriptor>)
    ensures |r| == 2 && r[0].service == ModuleInterface && r[1].service == Concrete(t)
    ensures forall k :: 0 <= k < |r| ==>
      r[k].implementation == t && r[k].lifetime == (if singleton then Singleton else Transient)
  {
    var lifetime := if singleton then Singleton else Transient;
    [ServiceDescriptor(ModuleInterface, t, lifetime), ServiceDescriptor(Concrete(t), t, lifetime)]
  }

  /** The service collection; only the descriptors added to it are modelled. */
  class ServiceCollection {
    var descriptors: seq<ServiceDescriptor>

    constructor ()
      ensures descriptors == []
    {
      descriptors := [];
    }

    method Add(d: ServiceDescriptor)
      modifies this
      ensures descriptors == old(descriptors) + [d]
    {
      descriptors := descriptors + [d];
    }
  }

  /** Every type is registered under its own simple name. */
  ghost predicate KeyedByName(moduleMap: map<string, TypeInfo>) {
    forall n :: n in moduleMap ==> moduleMap[n].name == n
  }

  /** `t` itself is what its name resolves to. */
  ghost predicate Registered(moduleMap: map<string, TypeInfo>, t: TypeInfo) {
    t.name in moduleMap && moduleMap[t.name] == t
  }

  /** GetModule(typeName) on the registry's current map: the type registered
      under that name; a null name makes ContainsKey throw, an unknown name is
      "not registered". */
  function GetModule(moduleMap: map<string, TypeInfo>, typeName: Option<string>): (r: Result<TypeInfo>)
    ensures typeName.None? <==> r == Err(ArgumentNull)
    ensures typeName.Some? && typeName.value !in moduleMap ==> r == Err(NotRegistered(typeName.value))
    ensures r.Ok? <==> typeName.Some? && typeName.value in moduleMap
    ensures r.Ok? ==> r.value == moduleMap[typeName.value]
    ensures r.Err? && r.error.IsInvalidOperation() <==> typeName.Some? && typeName.value !in moduleMap
  {
    match typeName
    case None => Err(ArgumentNull)
    case Some(name) =>
      if name !in moduleMap then Err(NotRegistered(name)) else Ok(moduleMap[name])
  }

  /** The static ModuleMap. */
  class ModuleMap {
    var types: map<string, TypeInfo>

    ghost predicate Valid()
      reads this
    {
      KeyedByName(types)
    }

    constructor ()
      ensures Valid() && types == map[]
    {
      types := map[];
    }

    /** UseModule<TService>: registers `t` under its simple name and adds its
        two service descriptors, or throws when the name is taken. */
    method UseModule(services: ServiceCollection, t: TypeInfo, singleton: bool) returns (r: Outcome)
      requires Valid()
      modifies this, services
      ensures Valid()
      ensures t.name in old(types) ==>
        r == Fail(AlreadyRegistered(t.name)) && types == old(types) && services.descriptors == old(services.descriptors)
      ensures t.name !in old(types) ==>
        r == Pass && types == old(types)[t.name := t]
        && services.descriptors == old(services.descriptors) + ModuleDescriptors(t, singleton)
    {
      if t.name in types {
        return Fail(AlreadyRegistered(t.name));
      }
      types := types[t.name := t];
      var descriptors := ModuleDescriptors(t, singleton);
      services.Add(descriptors[0]);
      services.Add(descriptors[1]);
      return Pass;
    }
  }

  /** Registering keeps every type under its own name. */
  lemma RegisterKeepsKeyedByName(moduleMap: map<string, TypeInfo>, t: TypeInfo)
    requires KeyedByName(moduleMap)
    ensures KeyedByName(moduleMap[t.name := t])
  {
  }

  /** After registering `t`, GetModule resolves its name to exactly `t` and
      resolves every other name as before. */
  lemma GetModuleAfterRegister(moduleMap: map<string, TypeInfo>, t: TypeInfo, typeName: Option<string>)
    requires t.name !in moduleMap
    ensures GetModule(moduleMap[t.name := t], Some(t.name)) == Ok(t)
    ensures typeName != Some(t.name) ==> GetModule(moduleMap[t.name := t], typeName) == GetModule(moduleMap, typeName)
  {
  }

  /** The map is keyed by simple name: two distinct types with one name are
      never both registered. */
  lemma OneTypePerName(moduleMap: map<string, TypeInfo>, t1: TypeInfo, t2: TypeInfo)
    requires t1 != t2 && t1.name == t2.name
    ensures !(Registered(moduleMap, t1) && Registered(moduleMap, t2))
  {
  }

  /** In a map keyed by name, GetModule finds a type exactly when it is registered. */
  lemma GetModuleFindsRegistered(moduleMap: map<string, TypeInfo>, t: TypeInfo)
    requires KeyedByName(moduleMap)
    ensures GetModule(moduleMap, Some(t.name)) == Ok(t) <==> Registered(moduleMap, t)
  {
  }
}
