/** The registry's documented behaviour, call sequence by call sequence,
    as client methods whose postconditions follow from the registry's
    contracts alone. */
module RegistryScenarios {
  import opened Wrappers
  import opened ModuleRecords
  import opened ModuleLists
  import opened NamedModules
  import opened AlfrescoModuleRegistry

  const ProjectGroupId: string := "org.alfresco"
  const ProjectVersion: string := "1.0.0-SNAPSHOT"

  /** A registry over a store that holds nothing. */
  method EmptyRegistry() returns (reg: ModuleRegistry)
    ensures fresh(reg) && fresh(reg.store) && reg.modules == [] && reg.Valid()
    ensures reg.store.projectGroupId == ProjectGroupId && reg.store.projectVersion == ProjectVersion
  {
    var store := new ConfigStore(map[], ProjectGroupId, ProjectVersion);
    reg := new ModuleRegistry(store);
  }

  /** A record that normalization accepts as it is. */
  predicate Storable(m: Module)
  {
    Filled(m) && IsPosix(m.path)
  }

  /** A fresh registry lists no modules, plain or named. */
  method FreshRegistryIsEmpty() returns (plain: seq<Module>, named: seq<NamedModule>)
    ensures plain == [] && named == []
  {
    var reg := EmptyRegistry();
    plain := reg.GetModules();
    named := reg.GetNamedModules();
  }

  /** One add, in either argument form, yields exactly that record. */
  method SingleAdd(m: Module) returns (positional: seq<Module>, objectForm: seq<Module>)
    requires Storable(m)
    ensures positional == [m] && objectForm == [m]
  {
    NormalizeRoundTrip(m);
    var reg := EmptyRegistry();
    var _ := reg.AddModule(Positional(AsArguments(m)));
    positional := reg.GetModules();
    reg := EmptyRegistry();
    var _ := reg.AddModule(Object(AsObject(m)));
    objectForm := reg.GetModules();
  }

  /** The named view resolves the placeholders in the name from the store and
      keeps them in the record. */
  method NamedWithPlaceholders(m: Module) returns (named: seq<NamedModule>)
    requires Storable(m) && m.groupId == GroupIdToken && m.version == VersionToken
    ensures named == [NamedModule(ProjectGroupId + ":" + m.artifactId + ":" + ProjectVersion + ":"
                                  + m.packaging + ":" + m.war + ":" + m.location, m)]
  {
    NormalizeRoundTrip(m);
    var reg := EmptyRegistry();
    var _ := reg.AddModule(Positional(AsArguments(m)));
    named := reg.GetNamedModules();
    PlaceholdersResolved(m, ProjectGroupId, ProjectVersion);
  }

  /** A registry holding `a`, `b`, `c` in that order. */
  method ThreeModules(a: Module, b: Module, c: Module) returns (reg: ModuleRegistry)
    requires Storable(a) && Storable(b) && Storable(c)
    requires IdOf(a) != IdOf(b) && IdOf(b) != IdOf(c) && IdOf(a) != IdOf(c)
    ensures fresh(reg) && reg.modules == [a, b, c] && reg.Valid()
  {
    NormalizeRoundTrip(a);
    NormalizeRoundTrip(b);
    NormalizeRoundTrip(c);
    reg := EmptyRegistry();
    var _ := reg.AddModule(Positional(AsArguments(a)));
    var _ := reg.AddModule(Positional(AsArguments(b)));
    assert Lookup([a, b], IdOf(c)).None?;
    var _ := reg.AddModule(Positional(AsArguments(c)));
  }

  /** The lookup finds a record first, in the middle or last, even without a
      path, and finds nothing in an empty registry. */
  method FindAnywhere(a: Module, b: Module, c: Module)
    returns (none: Option<Module>, first: Option<Module>, middle: Option<Module>,
             last: Option<Module>, noPath: Option<Module>)
    requires Storable(a) && Storable(b) && Storable(c)
    requires IdOf(a) != IdOf(b) && IdOf(b) != IdOf(c) && IdOf(a) != IdOf(c)
    ensures none == None
    ensures first == Some(a) && middle == Some(b) && last == Some(c) && noPath == Some(b)
  {
    NormalizeRoundTrip(a);
    NormalizeRoundTrip(b);
    NormalizeRoundTrip(c);
    var empty := EmptyRegistry();
    none := empty.FindModule(Positional(AsArguments(b)));
    var reg := ThreeModules(a, b, c);
    first := reg.FindModule(Positional(AsArguments(a)));
    middle := reg.FindModule(Positional(AsArguments(b)));
    last := reg.FindModule(Positional(AsArguments(c)));
    IdentityIgnoresPath(b, None);
    noPath := reg.FindModule(Positional(AsArguments(b)[..PathIndex] + [None]));
    var all := [a, b, c];
    assert all[0] == a && all[1] == b && all[2] == c;
    assert Lookup(all, IdOf(a)) == Some(0);
    assert Lookup(all, IdOf(b)) == Some(1);
    assert Lookup(all, IdOf(c)) == Some(2);
  }

  /** Adding an identity twice keeps one copy. */
  method AddTwiceKeepsOne(m: Module) returns (plain: seq<Module>)
    requires Storable(m)
    ensures plain == [m]
  {
    NormalizeRoundTrip(m);
    var reg := EmptyRegistry();
    var _ := reg.AddModule(Positional(AsArguments(m)));
    var _ := reg.AddModule(Positional(AsArguments(m)));
    plain := reg.GetModules();
  }

  /** Incomplete input makes add and remove fail with InvalidArgument, and
      removing an absent module fails with NotFound. */
  method RejectedCalls(m: Module)
    returns (addNone: Outcome<RegistryError>, addSix: Outcome<RegistryError>,
             addUndefined: Outcome<RegistryError>, removeNone: Outcome<RegistryError>,
             removeSix: Outcome<RegistryError>, removeUndefined: Outcome<RegistryError>,
             removeAbsent: Outcome<RegistryError>)
    requires Storable(m)
    ensures addNone == addSix == addUndefined == Fail(InvalidArgument)
    ensures removeNone == removeSix == removeUndefined == Fail(InvalidArgument)
    ensures removeAbsent == Fail(NotFound)
  {
    NormalizeRoundTrip(m);
    NormalizeRejectsIncomplete(m);
    var reg := EmptyRegistry();
    addNone := reg.AddModule(Positional([]));
    addSix := reg.AddModule(Positional(AsArguments(m)[..PathIndex]));
    addUndefined := reg.AddModule(Positional(AsArguments(m)[2 := None][5 := None]));
    removeNone := reg.RemoveModule(Positional([]));
    removeSix := reg.RemoveModule(Positional(AsArguments(m)[..PathIndex]));
    removeUndefined := reg.RemoveModule(Positional(AsArguments(m)[2 := None][5 := None]));
    removeAbsent := reg.RemoveModule(Positional(AsArguments(m)));
  }

  /** Removing the only record empties the registry. */
  method RemoveOnly(m: Module) returns (only: seq<Module>)
    requires Storable(m)
    ensures only == []
  {
    NormalizeRoundTrip(m);
    var reg := EmptyRegistry();
    var _ := reg.AddModule(Positional(AsArguments(m)));
    var _ := reg.RemoveModule(Positional(AsArguments(m)));
    only := reg.GetModules();
  }

  /** Removing the first, middle or last of three records leaves the other
      two in their original order. */
  method RemoveOneOfThree(a: Module, b: Module, c: Module, k: nat) returns (rest: seq<Module>)
    requires Storable(a) && Storable(b) && Storable(c)
    requires IdOf(a) != IdOf(b) && IdOf(b) != IdOf(c) && IdOf(a) != IdOf(c)
    requires k < 3
    ensures k == 0 ==> rest == [b, c]
    ensures k == 1 ==> rest == [a, c]
    ensures k == 2 ==> rest == [a, b]
  {
    var reg := ThreeModules(a, b, c);
    var all := [a, b, c];
    NormalizeRoundTrip(all[k]);
    assert Lookup(all, IdOf(all[k])) == Some(k);
    var _ := reg.RemoveModule(Positional(AsArguments(all[k])));
    rest := reg.GetModules();
    assert rest == all[..k] + all[k + 1..];
  }

  /** A path with backslashes is stored with forward slashes right after the
      add, and still reads that way after a save and a new registry built over
      the same store. */
  method WindowsPathSurvivesReload(m: Module) returns (added: seq<Module>, reloaded: seq<Module>)
    requires Filled(m)
    ensures added == [m.(path := ToPosix(m.path))]
    ensures reloaded == added
  {
    var store := new ConfigStore(map[], ProjectGroupId, ProjectVersion);
    var reg := new ModuleRegistry(store);
    var _ := reg.AddModule(Positional(AsArguments(m)));
    added := reg.GetModules();
    reg.Save();
    reg := new ModuleRegistry(store);
    reloaded := reg.GetModules();
    SaveLoadRoundTrip(added);
  }
}
