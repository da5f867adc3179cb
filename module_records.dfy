/** Module records and the single normalization step that turns either
    argument shape (seven positional values, or one object) into a record. */
module ModuleRecords {
  import opened Wrappers

  /** One packaged artifact contributed to a generated project. */
  datatype Module = Module(groupId: string, artifactId: string, version: string,
                           packaging: string, war: string, location: string,
                           path: string)

  /** The part of a record that identifies it: every field except `path`. */
  datatype Identity = Identity(groupId: string, artifactId: string, version: string,
                               packaging: string, war: string, location: string)

  function IdOf(m: Module): Identity
  {
    Identity(m.groupId, m.artifactId, m.version, m.packaging, m.war, m.location)
  }

  /** The two argument shapes the registry accepts. A positional call passes
      its arguments in order; `undefined` and `null` are `None`, and an
      argument the caller left off is absent from `args`. An object call
      passes one object; a key it lacks is absent from `fields`. */
  datatype ModuleInput =
    | Positional(args: seq<Option<string>>)
    | Object(fields: map<string, string>)

  /** The seven field names, in positional order. */
  const FieldNames: seq<string> :=
    ["groupId", "artifactId", "version", "packaging", "war", "location", "path"]

  const PathIndex: nat := 6

  /** The raw value the input supplies for field `i`. */
  function Field(input: ModuleInput, i: nat): Option<string>
    requires i < |FieldNames|
  {
    match input
    case Positional(args) => if i < |args| then args[i] else None
    case Object(fields) => if FieldNames[i] in fields then Some(fields[FieldNames[i]]) else None
  }

  /** A field is present when it is neither undefined, null nor empty. */
  predicate Present(v: Option<string>)
  {
    v.Some? && v.value != ""
  }

  /** The six identity fields are present. */
  predicate HasIdentity(input: ModuleInput)
  {
    forall i :: 0 <= i < PathIndex ==> Present(Field(input, i))
  }

  /** All seven fields are present. */
  predicate IsComplete(input: ModuleInput)
  {
    forall i :: 0 <= i < |FieldNames| ==> Present(Field(input, i))
  }

  predicate IsPosix(s: string)
  {
    forall i :: 0 <= i < |s| ==> s[i] != '\\'
  }

  /** Rewrites every backslash path separator to a forward slash. */
  function ToPosix(s: string): (r: string)
    ensures |r| == |s|
    ensures forall i :: 0 <= i < |s| ==> r[i] == (if s[i] == '\\' then '/' else s[i])
  {
    if s == [] then []
    else [if s[0] == '\\' then '/' else s[0]] + ToPosix(s[1..])
  }

  lemma ToPosixIsPosix(s: string)
    ensures IsPosix(ToPosix(s))
  {
  }

  /** A path without backslashes is left as it is, so the rewrite is idempotent. */
  lemma ToPosixKeepsPosix(s: string)
    requires IsPosix(s)
    ensures ToPosix(s) == s
  {
  }

  lemma ToPosixIdempotent(s: string)
    ensures ToPosix(ToPosix(s)) == ToPosix(s)
  {
    ToPosixIsPosix(s);
    ToPosixKeepsPosix(ToPosix(s));
  }

  /** The identity an input names, used by the lookup, which does not need
      the path. */
  function NormalizeIdentity(input: ModuleInput): (r: Option<Identity>)
    ensures r.Some? <==> HasIdentity(input)
    ensures r.Some? ==>
      && Field(input, 0) == Some(r.value.groupId)
      && Field(input, 1) == Some(r.value.artifactId)
      && Field(input, 2) == Some(r.value.version)
      && Field(input, 3) == Some(r.value.packaging)
      && Field(input, 4) == Some(r.value.war)
      && Field(input, 5) == Some(r.value.location)
  {
    var g, a, v := Field(input, 0), Field(input, 1), Field(input, 2);
    var p, w, l := Field(input, 3), Field(input, 4), Field(input, 5);
    if Present(g) && Present(a) && Present(v) && Present(p) && Present(w) && Present(l) then
      Some(Identity(g.value, a.value, v.value, p.value, w.value, l.value))
    else
      None
  }

  /** `normalizeModule`: the record an input describes, or `None` when any of
      the seven fields is missing. The path is stored with forward slashes. */
  function Normalize(input: ModuleInput): (r: Option<Module>)
    ensures r.Some? <==> IsComplete(input)
    ensures r.Some? ==>
      && NormalizeIdentity(input) == Some(IdOf(r.value))
      && r.value.path == ToPosix(Field(input, PathIndex).value)
      && IsPosix(r.value.path)
  {
    var p := Field(input, PathIndex);
    match NormalizeIdentity(input)
    case Some(k) =>
      if Present(p) then
        Some(Module(k.groupId, k.artifactId, k.version, k.packaging, k.war, k.location,
                    ToPosix(p.value)))
      else
        None
    case None => None
  }

  /** The positional arguments that describe a record. */
  function AsArguments(m: Module): seq<Option<string>>
  {
    [Some(m.groupId), Some(m.artifactId), Some(m.version), Some(m.packaging),
     Some(m.war), Some(m.location), Some(m.path)]
  }

  /** The object that describes a record. */
  function AsObject(m: Module): map<string, string>
  {
    map["groupId" := m.groupId, "artifactId" := m.artifactId, "version" := m.version,
        "packaging" := m.packaging, "war" := m.war, "location" := m.location,
        "path" := m.path]
  }

  /** A record every one of whose fields is non-empty. */
  predicate Filled(m: Module)
  {
    m.groupId != "" && m.artifactId != "" && m.version != "" && m.packaging != ""
    && m.war != "" && m.location != "" && m.path != ""
  }

  /** The positional and object forms of the same seven values normalize to
      the same result, complete or not. */
  lemma FormsAgree(m: Module)
    ensures Normalize(Positional(AsArguments(m))) == Normalize(Object(AsObject(m)))
  {
  }

  /** Normalization round-trips every filled record whose path already uses
      forward slashes, in both argument forms. */
  lemma NormalizeRoundTrip(m: Module)
    requires Filled(m) && IsPosix(m.path)
    ensures Normalize(Positional(AsArguments(m))) == Some(m)
    ensures Normalize(Object(AsObject(m))) == Some(m)
  {
    ToPosixKeepsPosix(m.path);
  }

  /** The path plays no part in the identity an input names, and may even be
      missing, while normalization itself rejects a missing path. */
  lemma IdentityIgnoresPath(m: Module, path: Option<string>)
    ensures NormalizeIdentity(Positional(AsArguments(m)[..PathIndex] + [path]))
         == NormalizeIdentity(Positional(AsArguments(m)))
    ensures NormalizeIdentity(Positional(AsArguments(m)[..PathIndex]))
         == NormalizeIdentity(Positional(AsArguments(m)))
    ensures Normalize(Positional(AsArguments(m)[..PathIndex])).None?
    ensures Normalize(Object(AsObject(m) - {"path"})).None?
  {
  }

  /** The rejected shapes the tests exercise: no arguments, six arguments,
      undefined inner arguments, an empty object. */
  lemma NormalizeRejectsIncomplete(m: Module)
    ensures Normalize(Positional([])).None?
    ensures Normalize(Positional(AsArguments(m)[..PathIndex])).None?
    ensures Normalize(Positional(AsArguments(m)[2 := None][5 := None])).None?
    ensures Normalize(Object(map[])).None?
  {
  }
}
