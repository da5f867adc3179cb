/** The module registry: an ordered, in-memory list of module records bound
    to a configuration store, loaded when the registry is built and written
    back by `Save`. */
module AlfrescoModuleRegistry {
  import opened Wrappers
  import opened ModuleRecords
  import opened ModuleLists
  import opened NamedModules

  /** The store key under which the registry's list is persisted. */
  const RegistryKey: string := "moduleRegistry"

  /** The two ways a mutating call fails. */
  datatype RegistryError = InvalidArgument | NotFound

  /** The host's configuration store: a key/value map that `set` updates in
      place, and the live project coordinates used to resolve placeholders. */
  class ConfigStore {
    var configData: map<string, seq<Module>>
    var projectGroupId: string
    var projectVersion: string

    constructor (configData: map<string, seq<Module>>, projectGroupId: string, projectVersion: string)
      ensures this.configData == configData
      ensures this.projectGroupId == projectGroupId && this.projectVersion == projectVersion
    {
      this.configData := configData;
      this.projectGroupId := projectGroupId;
      this.projectVersion := projectVersion;
    }

    /** `get(key)`: the stored value, or `None` when nothing was ever set. */
    function Get(key: string): (r: Option<seq<Module>>)
      reads this
      ensures r.Some? <==> key in configData
      ensures r.Some? ==> r.value == configData[key]
    {
      if key in configData then Some(configData[key]) else None
    }

    /** `set(key, value)`: replaces the value under `key`, nothing else. */
    method Set(key: string, value: seq<Module>)
      modifies this
      ensures configData == old(configData)[key := value]
      ensures projectGroupId == old(projectGroupId) && projectVersion == old(projectVersion)
    {
      configData := configData[key := value];
    }
  }

  class ModuleRegistry {
    const store: ConfigStore
    var modules: seq<Module>

    /** Every record held uses forward-slash paths. */
    ghost predicate Valid()
      reads this
    {
      AllPosix(modules)
    }

    /** Builds a registry over `store`, loading whatever it holds under the
        registry key (nothing means an empty list). */
    constructor (store: ConfigStore)
      ensures this.store == store
      ensures modules == Load(store.Get(RegistryKey))
      ensures Valid()
    {
      this.store := store;
      modules := Load(store.Get(RegistryKey));
    }

    /** `getModules`: the records in insertion order. */
    function GetModules(): (r: seq<Module>)
      reads this
      ensures r == modules
    {
      modules
    }

    /** `getNamedModules`: every record with its display name, placeholders
        resolved from the store's project values at the time of the call. */
    function GetNamedModules(): (r: seq<NamedModule>)
      reads this, store
      ensures |r| == |modules|
      ensures forall i :: 0 <= i < |modules| ==>
        r[i].record == modules[i] && r[i].name == Name(modules[i], store.projectGroupId, store.projectVersion)
    {
      NameAll(modules, store.projectGroupId, store.projectVersion)
    }

    /** The linear scan shared by find, add and remove: the position of the
        first record with identity `key`. */
    method Locate(key: Identity) returns (r: Option<nat>)
      ensures r == Lookup(modules, key)
    {
      var i := 0;
      while i < |modules|
        invariant 0 <= i <= |modules|
        invariant forall j :: 0 <= j < i ==> IdOf(modules[j]) != key
      {
        if IdOf(modules[i]) == key {
          return Some(i);
        }
        i := i + 1;
      }
      return None;
    }

    /** `findModule`: the first record whose identity the input names. The
        path plays no part and may be missing; an input without a complete
        identity finds nothing and raises nothing. */
    method FindModule(input: ModuleInput) returns (r: Option<Module>)
      ensures !HasIdentity(input) ==> r.None?
      ensures HasIdentity(input) ==>
        var at := Lookup(modules, NormalizeIdentity(input).value);
        r == if at.Some? then Some(modules[at.value]) else None
    {
      match NormalizeIdentity(input)
      case None =>
        return None;
      case Some(key) =>
        var at := Locate(key);
        match at
        case None =>
          return None;
        case Some(i) =>
          return Some(modules[i]);
    }

    /** `addModule`: appends the record the input describes, does nothing when
        its identity is already present, and fails with InvalidArgument when
        the input is incomplete. */
    method AddModule(input: ModuleInput) returns (r: Outcome<RegistryError>)
      requires Valid()
      modifies this
      ensures Normalize(input).None? ==> r == Fail(InvalidArgument) && modules == old(modules)
      ensures Normalize(input).Some? ==> r == Pass && modules == Added(old(modules), Normalize(input).value)
      ensures Valid()
      ensures Unique(old(modules)) ==> Unique(modules)
    {
      match Normalize(input)
      case None =>
        return Fail(InvalidArgument);
      case Some(m) =>
        var at := Locate(IdOf(m));
        if at.None? {
          AppendedFound(modules, m);
          modules := modules + [m];
        }
        if Unique(old(modules)) {
          AddedKeepsUnique(old(modules), m);
        }
        return Pass;
    }

    /** `removeModule`: deletes the record whose identity the input names and
        keeps the others in order. Fails with InvalidArgument when the input is
        incomplete and with NotFound when no record has that identity. */
    method RemoveModule(input: ModuleInput) returns (r: Outcome<RegistryError>)
      requires Valid()
      modifies this
      ensures Normalize(input).None? ==> r == Fail(InvalidArgument) && modules == old(modules)
      ensures Normalize(input).Some? ==>
        var key := IdOf(Normalize(input).value);
        && (Lookup(old(modules), key).None? ==> r == Fail(NotFound) && modules == old(modules))
        && (Lookup(old(modules), key).Some? ==> r == Pass && modules == Removed(old(modules), key))
      ensures Valid()
      ensures Unique(old(modules)) ==> Unique(modules)
      ensures Unique(old(modules)) && Normalize(input).Some? ==>
        modules == Without(old(modules), IdOf(Normalize(input).value))
    {
      match Normalize(input)
      case None =>
        return Fail(InvalidArgument);
      case Some(m) =>
        var key := IdOf(m);
        var at := Locate(key);
        match at
        case None =>
          WithoutAbsent(modules, key);
          return Fail(NotFound);
        case Some(i) =>
          RemovedKeepsPosix(modules, key);
          if Unique(modules) {
            RemovedKeepsUnique(modules, key);
            RemovedIsWithout(modules, key);
          }
          modules := modules[..i] + modules[i + 1..];
          return Pass;
    }

    /** `save`: writes the whole list back to the store under the registry
        key, replacing what was there. */
    method Save()
      modifies store
      ensures store.configData == old(store.configData)[RegistryKey := modules]
      ensures store.projectGroupId == old(store.projectGroupId)
      ensures store.projectVersion == old(store.projectVersion)
    {
      store.Set(RegistryKey, modules);
    }
  }
}
