/** The collaborators the core calls but does not define: the reference-counted
    Use and Release of a module and the provider's Build. Each call is recorded
    in order; what the collaborator then does is outside the model. */
module ModuleProvider {

  /** The id under which the device configuration module is registered. */
  const ConfigurationId: string := "Configuration"

  /** The id under which the file settings module is registered. */
  const FileSettingsId: string := "FileSettings"

  datatype Call =
    | Use(moduleId: string)
    | Release(moduleId: string)
    | Build(typeName: string, id: string)

  /** The calls issued so far, oldest first. */
  class CallLog {
    var calls: seq<Call>

    constructor ()
      ensures calls == []
    {
      calls := [];
    }

    method Use(moduleId: string)
      modifies this
      ensures calls == old(calls) + [Call.Use(moduleId)]
    {
      calls := calls + [Call.Use(moduleId)];
    }

    method Release(moduleId: string)
      modifies this
      ensures calls == old(calls) + [Call.Release(moduleId)]
    {
      calls := calls + [Call.Release(moduleId)];
    }

    method Build(typeName: string, id: string)
      modifies this
      ensures calls == old(calls) + [Call.Build(typeName, id)]
    {
      calls := calls + [Call.Build(typeName, id)];
    }
  }
}
