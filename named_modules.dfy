/** The named view of the registry: each record paired with a colon-joined
    display name in which the project placeholders are resolved. */
module NamedModules {
  import opened ModuleRecords

  const GroupIdToken: string := "${project.groupId}"
  const VersionToken: string := "${project.version}"

  /** A record together with its display name (the `module` property of the
      view; `module` is a keyword here, so the field is called `record`). */
  datatype NamedModule = NamedModule(name: string, record: Module)

  /** A field equal to `token` stands for `value`; any other field stands for itself. */
  function Resolve(field: string, token: string, value: string): string
  {
    if field == token then value else field
  }

  /** The six identity fields as they appear in a name, placeholders resolved. */
  function NameFields(m: Module, projectGroupId: string, projectVersion: string): seq<string>
  {
    [Resolve(m.groupId, GroupIdToken, projectGroupId), m.artifactId,
     Resolve(m.version, VersionToken, projectVersion), m.packaging, m.war, m.location]
  }

  /** The pieces joined with colons, as `Array.prototype.join(':')` does. */
  function Join(pieces: seq<string>): string
  {
    if pieces == [] then ""
    else if |pieces| == 1 then pieces[0]
    else pieces[0] + ":" + Join(pieces[1..])
  }

  /** `groupId:artifactId:version:packaging:war:location`. */
  function Name(m: Module, projectGroupId: string, projectVersion: string): string
  {
    Join(NameFields(m, projectGroupId, projectVersion))
  }

  /** The named view of a list, in the list's order. The records themselves,
      placeholders included, are carried over untouched. */
  function NameAll(ms: seq<Module>, projectGroupId: string, projectVersion: string)
    : (r: seq<NamedModule>)
    ensures |r| == |ms|
    ensures forall i :: 0 <= i < |ms| ==>
      r[i].record == ms[i] && r[i].name == Name(ms[i], projectGroupId, projectVersion)
  {
    if ms == [] then []
    else [NamedModule(Name(ms[0], projectGroupId, projectVersion), ms[0])]
         + NameAll(ms[1..], projectGroupId, projectVersion)
  }

  /** The pieces of `s` between colons. */
  function Split(s: string): (r: seq<string>)
    ensures |r| >= 1
  {
    if s == [] then [""]
    else if s[0] == ':' then [""] + Split(s[1..])
    else var t := Split(s[1..]); [[s[0]] + t[0]] + t[1..]
  }

  predicate ColonFree(s: string)
  {
    forall i :: 0 <= i < |s| ==> s[i] != ':'
  }

  lemma {:induction false} SplitColonFree(a: string)
    requires ColonFree(a)
    ensures Split(a) == [a]
  {
    if a != [] {
      SplitColonFree(a[1..]);
      assert [a[0]] + a[1..] == a;
    }
  }

  /** A colon-free piece followed by a colon splits off as the first piece. */
  lemma {:induction false} SplitJoin(a: string, rest: string)
    requires ColonFree(a)
    ensures Split(a + ":" + rest) == [a] + Split(rest)
  {
    if a == [] {
      assert a + ":" + rest == [':'] + rest;
      assert (a + ":" + rest)[1..] == rest;
    } else {
      var s := a + ":" + rest;
      assert s[0] == a[0];
      assert s[1..] == a[1..] + ":" + rest;
      SplitJoin(a[1..], rest);
      assert [a[0]] + a[1..] == a;
    }
  }

  /** Splitting a join of colon-free pieces gives the pieces back. */
  lemma {:induction false} SplitOfJoin(pieces: seq<string>)
    requires |pieces| >= 1
    requires forall k :: 0 <= k < |pieces| ==> ColonFree(pieces[k])
    ensures Split(Join(pieces)) == pieces
  {
    if |pieces| == 1 {
      SplitColonFree(pieces[0]);
    } else {
      SplitOfJoin(pieces[1..]);
      SplitJoin(pieces[0], Join(pieces[1..]));
      assert [pieces[0]] + pieces[1..] == pieces;
    }
  }

  /** When no identity field holds a colon, splitting a name at its colons
      gives back the six resolved fields: the name encodes the identity. */
  lemma NameSplits(m: Module, projectGroupId: string, projectVersion: string)
    requires forall k :: 0 <= k < 6 ==> ColonFree(NameFields(m, projectGroupId, projectVersion)[k])
    ensures Split(Name(m, projectGroupId, projectVersion)) == NameFields(m, projectGroupId, projectVersion)
  {
    SplitOfJoin(NameFields(m, projectGroupId, projectVersion));
  }

  /** Records without placeholders and without colons in their identity have
      the same name exactly when they have the same identity. */
  lemma NamesDistinguishIdentities(m: Module, m': Module, projectGroupId: string, projectVersion: string)
    requires m.groupId != GroupIdToken && m.version != VersionToken
    requires m'.groupId != GroupIdToken && m'.version != VersionToken
    requires forall k :: 0 <= k < 6 ==> ColonFree(NameFields(m, projectGroupId, projectVersion)[k])
    requires forall k :: 0 <= k < 6 ==> ColonFree(NameFields(m', projectGroupId, projectVersion)[k])
    ensures Name(m, projectGroupId, projectVersion) == Name(m', projectGroupId, projectVersion)
        <==> IdOf(m) == IdOf(m')
  {
    NameSplits(m, projectGroupId, projectVersion);
    NameSplits(m', projectGroupId, projectVersion);
    var f, f' := NameFields(m, projectGroupId, projectVersion), NameFields(m', projectGroupId, projectVersion);
    if Name(m, projectGroupId, projectVersion) == Name(m', projectGroupId, projectVersion) {
      assert f == f';
      assert f[0] == f'[0] && f[2] == f'[2];
    }
  }

  /** A six-piece join written out. */
  lemma JoinSix(f: seq<string>)
    requires |f| == 6
    ensures Join(f) == f[0] + ":" + f[1] + ":" + f[2] + ":" + f[3] + ":" + f[4] + ":" + f[5]
  {
    assert f[5..][1..] == [];
    assert Join(f[5..]) == f[5];
    assert Join(f[4..]) == f[4] + ":" + f[5] by { assert f[4..][1..] == f[5..]; }
    assert Join(f[3..]) == f[3] + ":" + (f[4] + ":" + f[5]) by { assert f[3..][1..] == f[4..]; }
    assert Join(f[2..]) == f[2] + ":" + (f[3] + ":" + (f[4] + ":" + f[5])) by { assert f[2..][1..] == f[3..]; }
    assert Join(f[1..]) == f[1] + ":" + (f[2] + ":" + (f[3] + ":" + (f[4] + ":" + f[5]))) by { assert f[1..][1..] == f[2..]; }
  }

  /** Placeholders are resolved in the name only, from the project values
      given at the time of the call; every other field is copied verbatim. */
  lemma PlaceholdersResolved(m: Module, projectGroupId: string, projectVersion: string)
    requires m.groupId == GroupIdToken && m.version == VersionToken
    ensures Name(m, projectGroupId, projectVersion)
         == projectGroupId + ":" + m.artifactId + ":" + projectVersion + ":" + m.packaging
            + ":" + m.war + ":" + m.location
  {
    JoinSix(NameFields(m, projectGroupId, projectVersion));
  }

  /** Without placeholders the name does not depend on the project values. */
  lemma PlainNamesIgnoreProject(m: Module, g: string, v: string, g': string, v': string)
    requires m.groupId != GroupIdToken && m.version != VersionToken
    ensures Name(m, g, v) == Name(m, g', v')
    ensures Name(m, g, v) == m.groupId + ":" + m.artifactId + ":" + m.version + ":"
                             + m.packaging + ":" + m.war + ":" + m.location
  {
    JoinSix(NameFields(m, g, v));
    JoinSix(NameFields(m, g', v'));
  }
}
