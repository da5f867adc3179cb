# Alfresco module registry and prompt validators, in Dafny

This project models two small components of `generator-alfresco-common`, a
library shared by Yeoman generators for Alfresco projects.

* **The Alfresco module registry.** It is an ordered, in-memory list of
  module records. Each record has seven string fields: groupId, artifactId,
  version, packaging, war, location and path. The registry is bound to the
  generator's configuration store. It loads its list from the store key
  `moduleRegistry` when it is built, and writes the list back on `save()`.
  A record's *identity* is its first six fields; the path is not part of it.
  `normalizeModule` takes either seven positional values or one object. It
  returns the record, with backslashes in the path turned into slashes, or
  nothing when a field is missing. `findModule` returns the first record with
  the identity it is given. `addModule` appends a record unless its identity
  is already there, and `removeModule` deletes one and keeps the rest in
  order. Both throw on incomplete input, and `removeModule` also throws when
  the module is not there. `getNamedModules` pairs each record with the name
  `groupId:artifactId:version:packaging:war:location`. In that name the
  tokens `${project.groupId}` and `${project.version}` are replaced by the
  project's current values.
* **Prompt validators.** `sequentialValidatorFactory` chains validators. Each
  member gets the same answer, the same bound context and the same registry
  argument. The first result that is not exactly `true` wins.
  `uniqueSourceAmpModuleValidator` rejects an empty answer, rejects an answer
  whose artifact is already in the registry, and accepts anything else.

The library's implementation (`index.js` and the modules it exports) is not
part of this model. The behaviour modelled is what the repository's tests
assert: `test/test-alfresco-module-registry.js` and
`test/test-prompt-validators.js`.

## Layout

| file | module | contents |
|---|---|---|
| `wrappers.dfy` | `Wrappers` | `Option` (undefined results) and `Outcome` (thrown errors) |
| `module_records.dfy` | `ModuleRecords` | records, identities, the two input shapes, path rewriting, `Normalize` |
| `module_lists.dfy` | `ModuleLists` | the list as a value: `Lookup`, `Added`, `Removed`, the reference filter `Without`, `Load`, and the lemmas about them |
| `named_modules.dfy` | `NamedModules` | placeholder resolution, the colon-joined name, and its inverse `Split` |
| `registry.dfy` | `AlfrescoModuleRegistry` | class `ConfigStore` (the store) and class `ModuleRegistry` (the registry), with methods proved against `ModuleLists` |
| `registry_scenarios.dfy` | `RegistryScenarios` | the tested call sequences as client methods. Each holds for every record of the tested shape, not only for the tests' literal strings |
| `validators.dfy` | `PromptValidators` | verdicts, the chain, the three validators, and the tested cases |

How the model is built:

* **The registry is a class.** Its `modules: seq<Module>` field is
  reassigned by `AddModule` and `RemoveModule`. The store is a class too:
  `Save` changes its `configData` map in place, and a second registry built
  over the same store reads that change back.
* **Thrown errors and undefined results are values.** A thrown error is
  `Fail(InvalidArgument)` or `Fail(NotFound)`. An `undefined` result is
  `None`.
* **Input shapes.** `seq<Option<string>>` stands for positional input. An
  argument left off is simply missing from the sequence, as in JavaScript.
  `map<string, string>` stands for object input.
* **The validator's `this` is a parameter.** The context the caller binds
  is passed to every validator as an explicit `Context` argument.

The model follows the tests on two points:

* An `undefined` or `null` answer does not end a non-empty chain by itself.
  Line 51 of the validator tests shows a one-member chain passing
  `undefined` to its member and returning the member's
  `'Artifact Id cannot be empty'`. `Chain` returns "no decision" only for an
  empty list.
* Uniqueness is not plain equality between the answer and a stored
  artifactId. Line 76 of the validator tests rejects the answer `boo`
  against a stored `boo-repo-amp`. The model compares a stored artifactId
  with `DerivedArtifactId(answer)` (see "Left out").

## Model

| member | source | states |
|---|---|---|
| `ModuleRecords.ToPosix` | test/test-alfresco-module-registry.js:476-491 | the path keeps its length; each backslash becomes a slash and every other character stays |
| `ModuleRecords.ToPosixIsPosix` | test/test-alfresco-module-registry.js:477-491 | a rewritten path contains no backslash |
| `ModuleRecords.ToPosixKeepsPosix` | test/test-alfresco-module-registry.js:493-519 | a path with no backslash is left unchanged, so reading a saved path gives it back as it was |
| `ModuleRecords.ToPosixIdempotent` | test/test-alfresco-module-registry.js:477-519 | rewriting twice gives the same path as rewriting once |
| `ModuleRecords.NormalizeIdentity` | test/test-alfresco-module-registry.js:221-235 | an identity comes back exactly when the six identity fields are present (neither undefined, null nor empty), and it holds those six values; the path is not read |
| `ModuleRecords.Normalize` | test/test-alfresco-module-registry.js:138-211 | a record comes back exactly when all seven fields are present; it holds the six identity values as given and the path with slashes, and it never fails |
| `ModuleRecords.FormsAgree` | test/test-alfresco-module-registry.js:139-175 | seven values given positionally and the same values given as an object normalize to the same result, complete or not |
| `ModuleRecords.NormalizeRoundTrip` | test/test-alfresco-module-registry.js:139-175 | a record with all fields filled and a slash-only path normalizes to itself, in both input forms |
| `ModuleRecords.IdentityIgnoresPath` | test/test-alfresco-module-registry.js:221-235 | any path, an undefined path or no path at all gives the same identity; with the path missing, `Normalize` returns nothing for positional and object input alike |
| `ModuleRecords.NormalizeRejectsIncomplete` | test/test-alfresco-module-registry.js:177-198 | no arguments, six arguments, undefined inner arguments and an empty object all normalize to nothing |
| `ModuleLists.Lookup` | test/test-alfresco-module-registry.js:214-304 | an index comes back exactly when some record has the identity; it is the first such record |
| `ModuleLists.AddedKeepsUnique` | test/test-alfresco-module-registry.js:307-323 | an add keeps a duplicate-free list duplicate-free, and afterwards the identity is found; a new record is found at the end |
| `ModuleLists.AddedIdempotent` | test/test-alfresco-module-registry.js:308-323 | adding a record whose identity was just added, whatever its path, leaves the list unchanged |
| `ModuleLists.AddThenRemove` | test/test-alfresco-module-registry.js:348-355 | adding a new identity and then removing it gives back the original list |
| `ModuleLists.RemovedIsWithout` | test/test-alfresco-module-registry.js:347-445 | on a duplicate-free list, removing the first match equals filtering out every record with that identity: exactly that record goes and the rest keep their relative order |
| `ModuleLists.RemoveThenLookup` | test/test-alfresco-module-registry.js:348-355 | on a duplicate-free list, the identity cannot be found after a remove |
| `ModuleLists.RemovedKeepsUnique` | test/test-alfresco-module-registry.js:357-445 | a remove keeps a duplicate-free list duplicate-free |
| `ModuleLists.Load` | test/test-alfresco-module-registry.js:493-519 | nothing stored loads as the empty list; a stored list loads with the same length, the same identities in the same order, and its paths rewritten to slashes |
| `ModuleLists.SaveLoadRoundTrip` | test/test-alfresco-module-registry.js:504-519 | a list whose paths use slashes loads back exactly as it was saved |
| `NamedModules.NameAll` | test/test-alfresco-module-registry.js:64-116 | the view has one entry per record, in order; each entry holds the record unchanged and that record's name |
| `NamedModules.NameSplits` | test/test-alfresco-module-registry.js:72-89 | if no field holds a colon, splitting a name at its colons gives back the six resolved identity fields in order |
| `NamedModules.NamesDistinguishIdentities` | test/test-alfresco-module-registry.js:77-78 | for records with no placeholders and no colons, two names are equal exactly when the identities are equal |
| `NamedModules.PlaceholdersResolved` | test/test-alfresco-module-registry.js:118-135 | a record holding both tokens gets a name with the given project groupId and version put in their places |
| `NamedModules.PlainNamesIgnoreProject` | test/test-alfresco-module-registry.js:72-116 | a record without tokens gets the colon-join of its own six fields as its name, whatever the project values are |
| `AlfrescoModuleRegistry.ConfigStore.Get` | test/test-alfresco-module-registry.js:494-499 | the value stored under a key, or nothing when that key was never set |
| `AlfrescoModuleRegistry.ConfigStore.Set` | test/test-alfresco-module-registry.js:497 | replaces the value under one key and changes nothing else |
| `AlfrescoModuleRegistry.ModuleRegistry.constructor` | test/test-alfresco-module-registry.js:504-507 | the new registry holds what its store keeps under `moduleRegistry`, loaded as described for `Load`, with every path using slashes |
| `AlfrescoModuleRegistry.ModuleRegistry.GetModules` | test/test-alfresco-module-registry.js:15-21 | returns the current records in insertion order |
| `AlfrescoModuleRegistry.ModuleRegistry.GetNamedModules` | test/test-alfresco-module-registry.js:64-135 | one entry per record, in order, holding the record unchanged; names use the store's project values at the time of the call |
| `AlfrescoModuleRegistry.ModuleRegistry.Locate` | test/test-alfresco-module-registry.js:214-304 | a front-to-back scan that returns the position `Lookup` gives |
| `AlfrescoModuleRegistry.ModuleRegistry.FindModule` | test/test-alfresco-module-registry.js:214-304 | the first record with the identity the input names, or nothing; an input without a complete identity finds nothing and does not fail |
| `AlfrescoModuleRegistry.ModuleRegistry.AddModule` | test/test-alfresco-module-registry.js:307-344 | an incomplete input fails with InvalidArgument and changes nothing; otherwise the list becomes `Added` of the old list; slash-only paths and freedom from duplicates are kept |
| `AlfrescoModuleRegistry.ModuleRegistry.RemoveModule` | test/test-alfresco-module-registry.js:347-473 | an incomplete input fails with InvalidArgument, and an absent identity fails with NotFound; either way nothing changes. Otherwise the first match is spliced out, which on a duplicate-free list equals `Without`. The invariants are kept |
| `AlfrescoModuleRegistry.ModuleRegistry.Save` | test/test-alfresco-module-registry.js:504-507 | the store's `moduleRegistry` entry becomes the whole current list; no other entry and neither project value changes |
| `RegistryScenarios.FreshRegistryIsEmpty` | test/test-alfresco-module-registry.js:15-21 | a registry over an empty store lists no modules, plain or named |
| `RegistryScenarios.SingleAdd` | test/test-alfresco-module-registry.js:23-61 | one add, positional or object, yields a list holding exactly that record |
| `RegistryScenarios.NamedWithPlaceholders` | test/test-alfresco-module-registry.js:118-135 | the named view of a record with both tokens has `org.alfresco` and `1.0.0-SNAPSHOT` in its name and the literal tokens in its record |
| `RegistryScenarios.FindAnywhere` | test/test-alfresco-module-registry.js:214-304 | an empty registry finds nothing; among three records, each is found, whether first, middle or last, and the middle one is found with an undefined path too |
| `RegistryScenarios.AddTwiceKeepsOne` | test/test-alfresco-module-registry.js:308-323 | adding the same record twice leaves one copy |
| `RegistryScenarios.RejectedCalls` | test/test-alfresco-module-registry.js:325-473 | add and remove fail with InvalidArgument on no arguments, on six arguments and on undefined inner arguments; remove of an absent module fails with NotFound |
| `RegistryScenarios.RemoveOnly` | test/test-alfresco-module-registry.js:348-355 | removing the only record leaves the list empty |
| `RegistryScenarios.RemoveOneOfThree` | test/test-alfresco-module-registry.js:357-445 | removing the first, middle or last of three records leaves the other two in their original order |
| `RegistryScenarios.WindowsPathSurvivesReload` | test/test-alfresco-module-registry.js:476-519 | a backslash path is stored with slashes right after the add, and reads the same after `save()` and a new registry over the same store |
| `PromptValidators.Chain` | test/test-prompt-validators.js:45-58 | an empty list gives no decision, for undefined and null answers too. Otherwise the result is `true` exactly when every member returns `true`; if not, it is the first result that is not `true`, unchanged |
| `PromptValidators.SequentialValidatorFactory` | test/test-prompt-validators.js:59-65 | the composed validator always gives the chain's verdict for the answer, context and registry it is called with |
| `PromptValidators.ChainSingleton` | test/test-prompt-validators.js:50-54 | a one-member chain returns what its member returns, for every answer, undefined included |
| `PromptValidators.ChainShortCircuits` | test/test-prompt-validators.js:55-58 | a member that does not return `true`, whether it returns `false` or a message, ends the chain with its own result; later members never surface |
| `PromptValidators.ChainAppend` | test/test-prompt-validators.js:55-58 | running two chains one after the other: the second's verdict counts only when the first accepts |
| `PromptValidators.ChainForwards` | test/test-prompt-validators.js:51-65 | a chain's verdict depends only on what each member returns for the exact answer, context and registry given to the chain |
| `PromptValidators.IsNotEmpty` | test/test-prompt-validators.js:35-37 | returns `true` exactly for a non-empty string answer and plain `false` for anything else |
| `PromptValidators.ThisNameCheck` | test/test-prompt-validators.js:38-42 | returns `true` exactly when the answer equals the bound context's `name` (undefined when there is none); any other answer gets the message `that did not work` |
| `PromptValidators.UniqueSourceAmpModuleValidator` | test/test-prompt-validators.js:67-77 | an undefined, null or empty answer gets `Artifact Id cannot be empty`. Otherwise the answer gets `Duplicate artifact Id specified` exactly when a registered record has the artifact id derived from it, and `true` when none does |
| `PromptValidators.SingleMemberChains` | test/test-prompt-validators.js:50-54 | one-member chains: the uniqueness check rejects undefined and `''` with its message, and `isNotEmpty` accepts `one` |
| `PromptValidators.OrderDecides` | test/test-prompt-validators.js:55-58 | for `''`, `[isNotEmpty, unique]` returns `false` and `[unique, isNotEmpty]` returns `Artifact Id cannot be empty` |
| `PromptValidators.ContextReachesMembers` | test/test-prompt-validators.js:59-65 | bound to `{name: 'fred'}`, the composed `thisNameCheck` accepts `fred` and rejects `george` with `that did not work` |
| `PromptValidators.UniqueSourceAmpCases` | test/test-prompt-validators.js:67-77 | undefined and null are rejected as empty, `one` is accepted over an empty registry, and `boo` is rejected as a duplicate when `boo-repo-amp` is registered |
| `PromptValidators.DuplicateAgainstStoredRegistry` | test/test-prompt-validators.js:17-44 | a registry loaded from a store whose `moduleRegistry` entry holds `boo-repo-amp` makes the composed uniqueness check reject `boo` as a duplicate |

## Left out

- The library's implementation (`index.js` and the modules it exports) is not part of this model. Behaviour is taken from the two test files; where they say nothing, the choices made are listed below.
- The Yeoman generator object, `require` and module caching are not modelled. The store is reduced to its `get`/`set` contract plus the two project fields. The test store whose `set` discards writes behaves like an empty `ConfigStore` that is never read again.
- JavaScript dynamic typing is not modelled: argument counts, non-string field values and `deepStrictEqual`. Positional input is a sequence of optional strings, and positional values past the seventh are ignored.
- `Normalize`: an empty string counts as missing. No test covers this case.
- `Name`: a placeholder counts only when the whole groupId or version field equals the token. The tests only use such whole-field tokens.
- `UniqueSourceAmpModuleValidator`: the rule that derives an artifact id from the answer is in the unseen implementation. The model uses `answer + "-repo-amp"`. That is the simplest rule that agrees with the one tested case (`boo` against `boo-repo-amp`), and its contract is stated in terms of `DerivedArtifactId`. Any further suffix or substring rule is not modelled.
- `UniqueSourceAmpModuleValidator`: a validator receives the registry's list of records, not the registry object. A call without a registry argument gets the empty list. Whatever the implementation does when no registry is passed with a non-empty answer is not modelled.
- `Chain`: the contract promises "no decision" for every answer over an empty list. The tests check only undefined and null there; the result for a defined answer over an empty list is the model's choice.
- The `lodash` and `debug` libraries are not modelled. `_.isEmpty` is modelled only on the answers a prompt gives: undefined, null and strings.
- `AlfrescoModuleRegistry.ModuleRegistry.constructor`: loading does not remove duplicates, because no test shows that it does. Freedom from duplicates is therefore a property that add and remove preserve, not an invariant of every registry.
- The scenarios are proved for every record of the tested shape: filled fields, slash-only paths, and distinct identities where several records are involved. The tests' literal strings are not evaluated one by one.
- Interactive prompting, file-system and template operations are outside this model.
