/** Loader: on use, builds one module for every settings entry that names its
    module type under the key "Type". */
module ModuleLoader {
  import opened Wrappers
  import opened SettingsCodec
  import opened ModuleProvider
  import opened SettingsStore
  import opened Sequences

  /** The module type an entry names: its "Type" value, when the entry is a
      dictionary and that value is a string. */
  function TypeOf(v: Value): (r: Option<string>)
    ensures r.Some? <==> v.VObject? && "Type" in v.fields && v.fields["Type"].VString?
    ensures r.Some? ==> v.fields["Type"] == VString(r.value)
  {
    if v.VObject? && "Type" in v.fields && v.fields["Type"].VString? then Some(v.fields["Type"].s) else None
  }

  /** The Build call the loop issues for one key, if any. */
  function BuildFor(id: string, v: Value): (r: seq<Call>)
    ensures |r| <= 1
  {
    match TypeOf(v)
    case Some(t) => [Call.Build(t, id)]
    case None => []
  }

  /** The Build calls the loop issues, visiting the keys `ids` of `doc` in order. */
  function Builds(ids: seq<string>, doc: map<string, Value>): (r: seq<Call>)
    requires forall k :: 0 <= k < |ids| ==> ids[k] in doc
    ensures |r| <= |ids|
    ensures forall k :: 0 <= k < |r| ==> r[k].Build?
  {
    if ids == [] then [] else BuildFor(ids[0], doc[ids[0]]) + Builds(ids[1..], doc)
  }

  /** Every entry that is not a dictionary is replaced by an empty dictionary. */
  function Dictionaries(doc: map<string, Value>): (r: map<string, Value>)
    ensures r.Keys == doc.Keys
    ensures forall k :: k in r ==> r[k].VObject?
  {
    map k | k in doc :: AsDictionary(doc[k])
  }

  /** Build(t, id) is issued exactly when `id` is visited and its entry has the
      string "Type" t. */
  lemma {:induction false} BuildIssuedIff(ids: seq<string>, doc: map<string, Value>, t: string, id: string)
    requires forall k :: 0 <= k < |ids| ==> ids[k] in doc
    ensures Call.Build(t, id) in Builds(ids, doc) <==> id in ids && TypeOf(doc[id]) == Some(t)
  {
    if ids != [] {
      BuildIssuedIff(ids[1..], doc, t, id);
      assert id in ids <==> id == ids[0] || id in ids[1..];
    }
  }

  /** The calls follow the key order: visiting `ids1` then `ids2` issues the
      calls for `ids1` first, at most one per key. */
  lemma {:induction false} BuildsFollowKeyOrder(ids1: seq<string>, ids2: seq<string>, doc: map<string, Value>)
    requires forall k :: 0 <= k < |ids1| ==> ids1[k] in doc
    requires forall k :: 0 <= k < |ids2| ==> ids2[k] in doc
    ensures Builds(ids1 + ids2, doc) == Builds(ids1, doc) + Builds(ids2, doc)
  {
    if ids1 != [] {
      assert (ids1 + ids2)[0] == ids1[0] && (ids1 + ids2)[1..] == ids1[1..] + ids2;
      BuildsFollowKeyOrder(ids1[1..], ids2, doc);
    } else {
      assert ids1 + ids2 == ids2;
    }
  }

  /** Replacing non-dictionary entries by empty ones changes no Build call, so a
      second pass over the same store issues the same calls. */
  lemma {:induction false} BuildsIgnoreReplacedEntries(ids: seq<string>, doc: map<string, Value>)
    requires forall k :: 0 <= k < |ids| ==> ids[k] in doc
    ensures Builds(ids, Dictionaries(doc)) == Builds(ids, doc)
  {
    if ids != [] {
      BuildsIgnoreReplacedEntries(ids[1..], doc);
    }
  }

  /** The store part-way through the loop: the entries of `visited` are
      dictionaries, the others as they were. */
  ghost function Visited(doc: map<string, Value>, visited: seq<string>): map<string, Value> {
    map k | k in doc :: if k in visited then AsDictionary(doc[k]) else doc[k]
  }

  /** One turn of the loop over the keys `ids`: visiting `ids[i]` turns the
      store and the calls of the first i keys into those of the first i + 1. */
  lemma VisitedStep(doc: map<string, Value>, ids: seq<string>, i: nat, calls: seq<Call>)
    requires i < |ids|
    requires Distinct(ids)
    requires forall k :: 0 <= k < |ids| ==> ids[k] in doc
    ensures ids[i] in Visited(doc, ids[..i]) && Visited(doc, ids[..i])[ids[i]] == doc[ids[i]]
    ensures Visited(doc, ids[..i])[ids[i] := AsDictionary(doc[ids[i]])] == Visited(doc, ids[..i + 1])
    ensures calls + Builds(ids[..i], doc) + BuildFor(ids[i], doc[ids[i]]) == calls + Builds(ids[..i + 1], doc)
  {
    assert ids[..i + 1] == ids[..i] + [ids[i]];
    assert ids[i] !in ids[..i];
    BuildsFollowKeyOrder(ids[..i], [ids[i]], doc);
    assert Builds([ids[i]], doc) == BuildFor(ids[i], doc[ids[i]]) + Builds([], doc);
  }

  lemma VisitedAll(doc: map<string, Value>, visited: seq<string>)
    requires forall k :: k in doc ==> k in visited
    ensures Visited(doc, visited) == Dictionaries(doc)
  {
  }

  class Loader {
    const settings: FileSettings

    constructor (settings: FileSettings)
      ensures this.settings == settings
    {
      this.settings := settings;
    }

    /** OnUse: uses the file settings, then for each key in enumeration order
        asks for its dictionary with Get<Dictionary> and builds the module its
        string "Type" names. The scan runs over the store as Use leaves it
        (`scannedKeys`, `scanned`), which is the store as it was unless the
        store was empty. When Use throws, its exception leaves OnUse before the
        scan and no module is built. */
    method OnUse(calls: CallLog) returns (r: Outcome, ghost scannedKeys: seq<string>, ghost scanned: map<string, Value>)
      requires settings.Valid()
      modifies settings, calls
      ensures forall k :: 0 <= k < |scannedKeys| ==> scannedKeys[k] in scanned
      ensures settings.Valid() && settings.keys == scannedKeys
      ensures r.Pass? ==> settings.Document() == Dictionaries(scanned)
      ensures r.Pass? ==>
        calls.calls == old(calls.calls) + [Call.Use(FileSettingsId)] + Builds(scannedKeys, scanned)
      ensures r.Fail? ==> settings.Document() == scanned && calls.calls == old(calls.calls) + [Call.Use(FileSettingsId)]
      ensures old(settings.keys) != [] ==>
        r == Pass && scannedKeys == old(settings.keys) && scanned == old(settings.Document())
      ensures forall k :: k in old(settings.entries) && old(settings.entries[k]).Shared? ==>
        k in settings.entries && settings.entries[k] == old(settings.entries[k])
    {
      r := settings.Use(calls);
      scannedKeys := settings.keys;
      scanned := settings.Document();
      if r.Fail? {
        return;
      }
      VisitAll(calls);
    }

    /** The loop of OnUse: Get<Dictionary> and Build for each key in turn. A
        dictionary already stored stays the same object. */
    method VisitAll(calls: CallLog)
      requires settings.Valid()
      modifies settings, calls
      ensures settings.Valid() && settings.keys == old(settings.keys)
      ensures settings.Document() == Dictionaries(old(settings.Document()))
      ensures calls.calls == old(calls.calls) + Builds(old(settings.keys), old(settings.Document()))
      ensures forall k :: k in old(settings.entries) && old(settings.entries[k]).Shared? ==>
        k in settings.entries && settings.entries[k] == old(settings.entries[k])
    {
      ghost var doc0 := settings.Document();
      ghost var entries0 := settings.entries;
      ghost var calls0 := calls.calls;
      var ids := settings.Keys();
      var i := 0;
      while i < |ids|
        invariant 0 <= i <= |ids|
        invariant settings.Valid() && settings.keys == ids
        invariant settings.Document() == Visited(doc0, ids[..i])
        invariant calls.calls == calls0 + Builds(ids[..i], doc0)
        invariant forall k :: k in entries0 && entries0[k].Shared? ==> k in settings.entries && settings.entries[k] == entries0[k]
      {
        VisitedStep(doc0, ids, i, calls0);
        Visit(ids[i], calls);
        i := i + 1;
      }
      assert ids[..i] == ids;
      VisitedAll(doc0, ids);
    }

    /** The loop body for one key: `Get<Dictionary>(id)`, then Build when its
        "Type" value is a string. Every stored dictionary stays the same object. */
    method Visit(id: string, calls: CallLog)
      requires settings.Valid() && id in settings.entries
      modifies settings, calls
      ensures settings.Valid() && settings.keys == old(settings.keys)
      ensures settings.Document() == old(settings.Document())[id := AsDictionary(old(settings.Document())[id])]
      ensures calls.calls == old(calls.calls) + BuildFor(id, old(settings.Document())[id])
      ensures forall k :: k in old(settings.entries) && old(settings.entries[k]).Shared? ==>
        k in settings.entries && settings.entries[k] == old(settings.entries[k])
    {
      ghost var v := settings.Document()[id];
      var t := settings.GetTable(id);
      var typeValue := if "Type" in t.items then t.items["Type"] else VNull;
      assert TypeOf(VObject(t.items)) == TypeOf(v);
      if typeValue.VString? {
        calls.Build(typeValue.s, id);
      }
    }

    /** OnRelease: releases the file settings. */
    method OnRelease(calls: CallLog)
      modifies calls
      ensures calls.calls == old(calls.calls) + [Call.Release(FileSettingsId)]
    {
      calls.Release(FileSettingsId);
    }
  }
}
