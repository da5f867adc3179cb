/** The registry's ordered list of records, as values: lookup by identity,
    the effect of an add and of a remove, and what loading a stored list does.
    The registry's methods are proved against these functions. */
module ModuleLists {
  import opened Wrappers
  import opened ModuleRecords

  /** The position of the first record with identity `key`. */
  function Lookup(ms: seq<Module>, key: Identity): (r: Option<nat>)
    ensures r.Some? ==> r.value < |ms| && IdOf(ms[r.value]) == key
    ensures r.Some? ==> forall j :: 0 <= j < r.value ==> IdOf(ms[j]) != key
    ensures r.None? <==> forall j :: 0 <= j < |ms| ==> IdOf(ms[j]) != key
  {
    if ms == [] then None
    else if IdOf(ms[0]) == key then Some(0)
    else match Lookup(ms[1..], key)
      case None => None
      case Some(i) => Some(i + 1)
  }

  /** No two records share an identity. */
  predicate Unique(ms: seq<Module>)
  {
    forall i, j :: 0 <= i < j < |ms| ==> IdOf(ms[i]) != IdOf(ms[j])
  }

  /** Every stored path uses forward slashes. */
  predicate AllPosix(ms: seq<Module>)
  {
    forall i :: 0 <= i < |ms| ==> IsPosix(ms[i].path)
  }

  /** The list after adding `m`: appended at the end, unless a record with the
      same identity is already there. */
  function Added(ms: seq<Module>, m: Module): seq<Module>
  {
    if Lookup(ms, IdOf(m)).Some? then ms else ms + [m]
  }

  /** The list after removing the first record with identity `key`. */
  function Removed(ms: seq<Module>, key: Identity): seq<Module>
  {
    match Lookup(ms, key)
    case None => ms
    case Some(i) => ms[..i] + ms[i + 1..]
  }

  /** Reference definition: the records whose identity is not `key`, in order. */
  function Without(ms: seq<Module>, key: Identity): (r: seq<Module>)
    ensures |r| <= |ms|
  {
    if ms == [] then []
    else if IdOf(ms[0]) == key then Without(ms[1..], key)
    else [ms[0]] + Without(ms[1..], key)
  }

  lemma {:induction false} WithoutAbsent(ms: seq<Module>, key: Identity)
    requires forall j :: 0 <= j < |ms| ==> IdOf(ms[j]) != key
    ensures Without(ms, key) == ms
  {
    if ms != [] {
      WithoutAbsent(ms[1..], key);
    }
  }

  /** Removing from a list whose head has another identity keeps the head. */
  lemma RemovedCons(ms: seq<Module>, key: Identity)
    requires ms != [] && IdOf(ms[0]) != key
    ensures Removed(ms, key) == [ms[0]] + Removed(ms[1..], key)
  {
    var tail := ms[1..];
    match Lookup(tail, key)
    case None =>
      assert Lookup(ms, key).None?;
      assert [ms[0]] + tail == ms;
    case Some(i) =>
      assert Lookup(ms, key) == Some(i + 1);
      assert ms[..i + 1] + ms[i + 2..] == [ms[0]] + (tail[..i] + tail[i + 1..]);
  }

  /** The tail of a list without duplicates has none either, and when the
      head has identity `key` no record of the tail does. */
  lemma UniqueTail(ms: seq<Module>)
    requires ms != [] && Unique(ms)
    ensures Unique(ms[1..])
    ensures forall j :: 0 <= j < |ms[1..]| ==> IdOf(ms[1..][j]) != IdOf(ms[0])
  {
    var tail := ms[1..];
    forall i, j | 0 <= i < j < |tail| ensures IdOf(tail[i]) != IdOf(tail[j]) {
      assert tail[i] == ms[i + 1] && tail[j] == ms[j + 1];
    }
    forall j | 0 <= j < |tail| ensures IdOf(tail[j]) != IdOf(ms[0]) {
      assert tail[j] == ms[j + 1];
    }
  }

  /** On a list without duplicates, removing the first match is the same as
      filtering out every record with that identity: exactly the matching
      record goes, and the others keep their relative order. */
  lemma {:induction false} RemovedIsWithout(ms: seq<Module>, key: Identity)
    requires Unique(ms)
    ensures Removed(ms, key) == Without(ms, key)
  {
    if ms != [] {
      UniqueTail(ms);
      if IdOf(ms[0]) == key {
        assert Lookup(ms, key) == Some(0);
        WithoutAbsent(ms[1..], key);
      } else {
        RemovedIsWithout(ms[1..], key);
        RemovedCons(ms, key);
      }
    }
  }

  lemma {:induction false} WithoutDropsKey(ms: seq<Module>, key: Identity)
    ensures forall j :: 0 <= j < |Without(ms, key)| ==> IdOf(Without(ms, key)[j]) != key
  {
    if ms != [] {
      WithoutDropsKey(ms[1..], key);
    }
  }

  /** After a remove on a list without duplicates the identity is gone. */
  lemma RemoveThenLookup(ms: seq<Module>, key: Identity)
    requires Unique(ms)
    ensures Lookup(Removed(ms, key), key).None?
  {
    RemovedIsWithout(ms, key);
    WithoutDropsKey(ms, key);
  }

  /** Removing one record leaves every other record where it was relative to
      the rest, so the result is a subsequence and has no duplicates either. */
  lemma RemovedKeepsUnique(ms: seq<Module>, key: Identity)
    requires Unique(ms)
    ensures Unique(Removed(ms, key))
  {
    match Lookup(ms, key)
    case None =>
    case Some(i) =>
      var r := ms[..i] + ms[i + 1..];
      forall a, b | 0 <= a < b < |r| ensures IdOf(r[a]) != IdOf(r[b]) {
        var a', b' := if a < i then a else a + 1, if b < i then b else b + 1;
        assert r[a] == ms[a'] && r[b] == ms[b'];
      }
  }

  lemma RemovedKeepsPosix(ms: seq<Module>, key: Identity)
    requires AllPosix(ms)
    ensures AllPosix(Removed(ms, key))
  {
    match Lookup(ms, key)
    case None =>
    case Some(i) =>
      var r := ms[..i] + ms[i + 1..];
      forall a | 0 <= a < |r| ensures IsPosix(r[a].path) {
        assert r[a] == ms[if a < i then a else a + 1];
      }
  }

  /** Adding keeps the list free of duplicates, and afterwards the identity is
      found; a new record is found as given. */
  lemma AddedKeepsUnique(ms: seq<Module>, m: Module)
    requires Unique(ms)
    ensures Unique(Added(ms, m))
    ensures Lookup(Added(ms, m), IdOf(m)).Some?
    ensures Lookup(ms, IdOf(m)).None? ==> Lookup(Added(ms, m), IdOf(m)) == Some(|ms|)
  {
    if Lookup(ms, IdOf(m)).None? {
      AppendedFound(ms, m);
      var r := ms + [m];
      forall i, j | 0 <= i < j < |r| ensures IdOf(r[i]) != IdOf(r[j]) {
        if j < |ms| {
          assert r[i] == ms[i] && r[j] == ms[j];
        } else {
          assert r[i] == ms[i] && r[j] == m;
        }
      }
    }
  }

  /** A record appended to a list that lacks its identity is found at the end. */
  lemma AppendedFound(ms: seq<Module>, m: Module)
    requires Lookup(ms, IdOf(m)).None?
    ensures Lookup(ms + [m], IdOf(m)) == Some(|ms|)
  {
    var r := ms + [m];
    assert r[|ms|] == m;
    forall j | 0 <= j < |ms| ensures IdOf(r[j]) != IdOf(m) {
      assert r[j] == ms[j];
    }
  }

  /** Adding the same identity twice is the same as adding it once. */
  lemma AddedIdempotent(ms: seq<Module>, m: Module, m': Module)
    requires IdOf(m') == IdOf(m)
    ensures Added(Added(ms, m), m') == Added(ms, m)
  {
    if Lookup(ms, IdOf(m)).None? {
      AppendedFound(ms, m);
    }
  }

  /** A fresh add followed by a remove of the same identity restores the list. */
  lemma AddThenRemove(ms: seq<Module>, m: Module)
    requires Lookup(ms, IdOf(m)).None?
    ensures Removed(Added(ms, m), IdOf(m)) == ms
  {
    AppendedFound(ms, m);
    assert (ms + [m])[..|ms|] == ms;
  }

  /** The list read back from the store: absent means empty, and every path is
      rewritten to forward slashes. */
  function Load(stored: Option<seq<Module>>): (r: seq<Module>)
    ensures stored.None? ==> r == []
    ensures stored.Some? ==> |r| == |stored.value|
    ensures stored.Some? ==> forall i :: 0 <= i < |r| ==>
      IdOf(r[i]) == IdOf(stored.value[i]) && r[i].path == ToPosix(stored.value[i].path)
    ensures AllPosix(r)
  {
    match stored
    case None => []
    case Some(ms) => PosixPaths(ms)
  }

  function PosixPaths(ms: seq<Module>): (r: seq<Module>)
    ensures |r| == |ms|
    ensures forall i :: 0 <= i < |r| ==>
      IdOf(r[i]) == IdOf(ms[i]) && r[i].path == ToPosix(ms[i].path)
  {
    if ms == [] then []
    else [ms[0].(path := ToPosix(ms[0].path))] + PosixPaths(ms[1..])
  }

  /** What was saved is what is loaded: a list whose paths use forward slashes
      survives a save and reload unchanged. */
  lemma SaveLoadRoundTrip(ms: seq<Module>)
    requires AllPosix(ms)
    ensures Load(Some(ms)) == ms
  {
    var r := Load(Some(ms));
    forall i | 0 <= i < |ms| ensures r[i] == ms[i] {
      ToPosixKeepsPosix(ms[i].path);
    }
  }
}
