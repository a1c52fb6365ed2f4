/** The writable JSON configuration provider: Set(key, value) stores the value
    in the provider's flat data and writes it into the settings file at the
    nested path the ':'-separated key names, creating missing objects on the
    way. */
module WritableConfig {
  import opened Wrappers

  /** A JSON token of the settings file. */
  datatype JToken =
    | JObject(props: map<string, JToken>)
    | JArray(items: seq<JToken>)
    | JString(s: string)
    | JInteger(i: int)
    | JBoolean(b: bool)
    | JNull

  /** key.Split(':'): the segments between the separators, at least one. */
  function Split(s: string): (r: seq<string>)
    ensures |r| >= 1
  {
    if s == [] then [""]
    else if s[0] == ':' then [""] + Split(s[1..])
    else var t := Split(s[1..]); [[s[0]] + t[0]] + t[1..]
  }

  /** The segments put back together with ':' between them. */
  function Join(segs: seq<string>): string
    requires |segs| >= 1
  {
    if |segs| == 1 then segs[0] else segs[0] + ":" + Join(segs[1..])
  }

  /** Splitting loses nothing: joining the segments gives back the key. */
  lemma {:induction false} JoinSplit(s: string)
    ensures Join(Split(s)) == s
  {
    if s != [] {
      JoinSplit(s[1..]);
      var t := Split(s[1..]);
      if s[0] == ':' {
        assert s == [':'] + s[1..];
      } else if |t| == 1 {
        assert s == [s[0]] + s[1..];
      } else {
        assert Join(t) == t[0] + ":" + Join(t[1..]);
        assert s == [s[0]] + s[1..];
      }
    }
  }

  /** No segment holds the separator. */
  lemma {:induction false} SplitHasNoSeparator(s: string)
    ensures forall k :: 0 <= k < |Split(s)| ==> ':' !in Split(s)[k]
  {
    if s != [] {
      SplitHasNoSeparator(s[1..]);
      var t := Split(s[1..]);
      if s[0] != ':' {
        assert ':' !in t[0];
        assert Split(s)[0] == [s[0]] + t[0];
        forall k | 1 <= k < |Split(s)| ensures ':' !in Split(s)[k] {
          assert Split(s)[k] == t[k];
        }
      } else {
        forall k | 1 <= k < |Split(s)| ensures ':' !in Split(s)[k] {
          assert Split(s)[k] == t[k - 1];
        }
      }
    }
  }

  /** Splitting at a separator splits each side on its own. */
  lemma {:induction false} SplitAtSeparator(a: string, b: string)
    ensures Split(a + ":" + b) == Split(a) + Split(b)
  {
    if a == [] {
      assert a + ":" + b == [':'] + b;
      assert ([':'] + b)[1..] == b;
    } else {
      var ab := a + ":" + b;
      assert ab[0] == a[0] && ab[1..] == a[1..] + ":" + b;
      SplitAtSeparator(a[1..], b);
    }
  }

  /** A key without ':' is a single segment. */
  lemma {:induction false} SplitWithoutSeparator(s: string)
    requires ':' !in s
    ensures Split(s) == [s]
  {
    if s != [] {
      assert ':' !in s[1..] by {
        forall k | 0 <= k < |s[1..]| ensures s[1..][k] != ':' {
          assert s[1..][k] == s[k + 1];
        }
      }
      SplitWithoutSeparator(s[1..]);
      assert [s[0]] + s[1..] == s;
    }
  }

  /** Splitting a joined path gives back its segments when none holds ':'. */
  lemma {:induction false} SplitJoin(segs: seq<string>)
    requires |segs| >= 1
    requires forall k :: 0 <= k < |segs| ==> ':' !in segs[k]
    ensures Split(Join(segs)) == segs
  {
    SplitWithoutSeparator(segs[0]);
    if |segs| > 1 {
      SplitJoin(segs[1..]);
      SplitAtSeparator(segs[0], Join(segs[1..]));
      assert [segs[0]] + segs[1..] == segs;
    }
  }

  /** The token reached by following `path` from `t`, if every step is a
      member of an object. */
  function Lookup(t: JToken, path: seq<string>): (r: Option<JToken>)
    ensures path == [] ==> r == Some(t)
  {
    if path == [] then Some(t)
    else if t.JObject? && path[0] in t.props then Lookup(t.props[path[0]], path[1..])
    else None
  }

  /** The walk of Set over the object `props`: each segment but the last is
      added as a new empty object when absent and must be an object (the
      cast); the last is assigned the string value. */
  function SetPath(props: map<string, JToken>, path: seq<string>, value: string): (r: Result<map<string, JToken>>)
    requires |path| >= 1
    ensures |path| == 1 ==> r.Ok?
    ensures r.Err? ==> r.error == InvalidCast
    ensures r.Ok? ==> r.value.Keys == props.Keys + {path[0]}
    ensures r.Ok? ==> forall k :: k in props && k != path[0] ==> r.value[k] == props[k]
    decreases |path|
  {
    if |path| == 1 then Ok(props[path[0] := JString(value)])
    else
      var child := if path[0] in props then props[path[0]] else JObject(map[]);
      if !child.JObject? then Err(InvalidCast)
      else match SetPath(child.props, path[1..], value)
        case Err(e) => Err(e)
        case Ok(updated) => Ok(props[path[0] := JObject(updated)])
  }

  /** Some proper prefix of `path` already leads to a value that is not an
      object, so the cast in the walk fails. */
  ghost predicate Blocked(props: map<string, JToken>, path: seq<string>)
    requires |path| >= 1
    decreases |path|
  {
    |path| > 1 && path[0] in props &&
      (!props[path[0]].JObject? || Blocked(props[path[0]].props, path[1..]))
  }

  /** The two paths part ways: they differ at some segment both have. */
  ghost predicate Diverges(a: seq<string>, b: seq<string>) {
    |a| > 0 && |b| > 0 && (a[0] != b[0] || Diverges(a[1..], b[1..]))
  }

  /** The walk fails, with the cast's exception, exactly when the path is blocked. */
  lemma {:induction false} SetPathFailsIff(props: map<string, JToken>, path: seq<string>, value: string)
    requires |path| >= 1
    ensures SetPath(props, path, value).Err? <==> Blocked(props, path)
    ensures SetPath(props, path, value).Err? ==> SetPath(props, path, value).error == InvalidCast
    decreases |path|
  {
    if |path| > 1 {
      if path[0] in props && props[path[0]].JObject? {
        SetPathFailsIff(props[path[0]].props, path[1..], value);
      } else if path[0] !in props {
        SetPathFailsIff(map[], path[1..], value);
        NothingBlocksEmpty(path[1..]);
      }
    }
  }

  lemma {:induction false} NothingBlocksEmpty(path: seq<string>)
    requires |path| >= 1
    ensures !Blocked(map[], path)
  {
  }

  /** After the walk, following the path reaches the written string, and every
      proper prefix of it leads to an object. */
  lemma {:induction false} SetPathReaches(props: map<string, JToken>, path: seq<string>, value: string)
    requires |path| >= 1
    requires SetPath(props, path, value).Ok?
    ensures Lookup(JObject(SetPath(props, path, value).value), path) == Some(JString(value))
    ensures forall n :: 0 <= n < |path| ==>
      var t := Lookup(JObject(SetPath(props, path, value).value), path[..n]);
      t.Some? && t.value.JObject?
    decreases |path|
  {
    var q := SetPath(props, path, value).value;
    if |path| > 1 {
      var child := if path[0] in props then props[path[0]] else JObject(map[]);
      SetPathReaches(child.props, path[1..], value);
      forall n | 0 <= n < |path|
        ensures var t := Lookup(JObject(q), path[..n]); t.Some? && t.value.JObject?
      {
        if n > 0 {
          assert path[..n][0] == path[0] && path[..n][1..] == path[1..][..n - 1];
        }
      }
    } else {
      forall n | 0 <= n < |path|
        ensures var t := Lookup(JObject(q), path[..n]); t.Some? && t.value.JObject?
      {
        assert path[..n] == [];
      }
    }
  }

  /** The walk leaves alone every path that parts ways with the written one:
      properties off the written path keep their values. */
  lemma {:induction false} SetPathKeepsOthers(props: map<string, JToken>, path: seq<string>, value: string, other: seq<string>)
    requires |path| >= 1
    requires SetPath(props, path, value).Ok?
    requires Diverges(path, other)
    ensures Lookup(JObject(SetPath(props, path, value).value), other) == Lookup(JObject(props), other)
    decreases |path|
  {
    if |path| > 1 && path[0] == other[0] {
      var child := if path[0] in props then props[path[0]] else JObject(map[]);
      SetPathKeepsOthers(child.props, path[1..], value, other[1..]);
      if path[0] !in props {
        NothingUnderEmpty(other[1..]);
      }
    }
  }

  /** An empty object holds nothing below it. */
  lemma {:induction false} NothingUnderEmpty(path: seq<string>)
    requires |path| >= 1
    ensures Lookup(JObject(map[]), path) == None
  {
  }

  /** Setting the same value at the same path twice gives the same document as
      setting it once. */
  lemma {:induction false} SetPathIdempotent(props: map<string, JToken>, path: seq<string>, value: string)
    requires |path| >= 1
    requires SetPath(props, path, value).Ok?
    ensures SetPath(SetPath(props, path, value).value, path, value) == SetPath(props, path, value)
    decreases |path|
  {
    var q := SetPath(props, path, value).value;
    if |path| > 1 {
      var child := if path[0] in props then props[path[0]] else JObject(map[]);
      SetPathIdempotent(child.props, path[1..], value);
      assert q[path[0] := q[path[0]]] == q;
    } else {
      assert q[path[0] := JString(value)] == q;
    }
  }

  /** A key without ':' sets the top-level property directly. */
  lemma TopLevelSet(props: map<string, JToken>, key: string, value: string)
    requires ':' !in key
    ensures SetPath(props, Split(key), value) == Ok(props[key := JString(value)])
  {
    SplitWithoutSeparator(key);
  }

  /** GetModuleConfig(id): the configuration section of module `id`. */
  function SectionPath(id: string): (r: string)
    ensures Split(r) == ["modules"] + Split(id)
  {
    SplitAtSeparator("modules", id);
    SplitWithoutSeparator("modules");
    assert "modules:" + id == "modules" + ":" + id;
    "modules:" + id
  }

  /** Distinct module ids give distinct section path strings. */
  lemma {:induction false} SectionPathInjective(id1: string, id2: string)
    requires SectionPath(id1) == SectionPath(id2)
    ensures id1 == id2
  {
    JoinSplit(id1);
    JoinSplit(id2);
    assert Split(id1) == Split(SectionPath(id1))[1..];
  }

  /** The provider: the flat key/value data of its base class and the parsed
      settings file it writes through. */
  class WriteableJsonConfigurationProvider {
    var data: map<string, string>
    var file: JToken

    constructor (data: map<string, string>, file: JToken)
      ensures this.data == data && this.file == file
    {
      this.data := data;
      this.file := file;
    }

    /** Set(key, value): the flat data always takes the value; the file must
        hold an object, and is rewritten only when the walk succeeds. */
    method Set(key: string, value: string) returns (r: Outcome)
      modifies this
      ensures data == old(data)[key := value]
      ensures !old(file).JObject? ==> r == Fail(ReaderError) && file == old(file)
      ensures old(file).JObject? ==> (r.Fail? <==> Blocked(old(file).props, Split(key)))
      ensures old(file).JObject? ==>
        match SetPath(old(file).props, Split(key), value)
        case Ok(updated) => r == Pass && file == JObject(updated)
        case Err(e) => r == Fail(e) && e == InvalidCast && file == old(file)
    {
      data := data[key := value];
      var keys := Split(key);
      if !file.JObject? {
        return Fail(ReaderError);
      }
      SetPathFailsIff(file.props, keys, value);
      match SetPath(file.props, keys, value)
      case Err(e) =>
        return Fail(e);
      case Ok(updated) =>
        file := JObject(updated);
        return Pass;
    }
  }
}
