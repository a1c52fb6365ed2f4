/** The conversion that FileSettings.ParseJson performs from a parsed JSON element
    to the loosely typed value tree the settings store keeps (boxed int, bool,
    string, List<object?>, Dictionary<string, object?> or null). */
module SettingsCodec {
  import opened Wrappers
  import opened Sequences

  /** The range of System.Int32. */
  type Int32 = i: int | -0x8000_0000 <= i < 0x8000_0000

  /** A JSON number token: an integer literal, or a token with a fraction or an
      exponent part (whose value the model does not keep). */
  datatype Number = Integer(i: int) | NonInteger

  /** A parsed JSON element as the document reader presents it: the value kinds
      of RFC 8259. Object members keep document order and may repeat a name. */
  datatype Json =
    | JNull
    | JTrue
    | JFalse
    | JNumber(n: Number)
    | JString(s: string)
    | JArray(items: seq<Json>)
    | JObject(members: seq<(string, Json)>)

  /** A stored settings value. */
  datatype Value =
    | VNull
    | VInt(i: Int32)
    | VBool(b: bool)
    | VString(s: string)
    | VList(items: seq<Value>)
    | VObject(fields: map<string, Value>)

  /** The member names of a JSON object, in document order. */
  function MemberNames(ms: seq<(string, Json)>): (r: seq<string>)
    ensures |r| == |ms| && forall k :: 0 <= k < |ms| ==> r[k] == ms[k].0
  {
    seq(|ms|, k requires 0 <= k < |ms| => ms[k].0)
  }

  /** The member names of a JSON object, as a set. */
  function Names(ms: seq<(string, Json)>): set<string> {
    set x | x in MemberNames(ms)
  }

  /** No member name occurs twice. */
  predicate DistinctNames(ms: seq<(string, Json)>) {
    Distinct(MemberNames(ms))
  }

  /** The shape a converted value has for each JSON kind, one level deep. */
  ghost predicate SameKind(j: Json, v: Value) {
    match j
    case JNull => v == VNull
    case JTrue => v == VBool(true)
    case JFalse => v == VBool(false)
    case JNumber(n) => n.Integer? && v.VInt? && v.i == n.i
    case JString(s) => v == VString(s)
    case JArray(items) => v.VList? && |v.items| == |items|
    case JObject(ms) => v.VObject? && v.fields.Keys == Names(ms)
  }

  /** ParseJson: numbers become 32-bit integers (GetInt32), true and false become
      booleans, strings stay strings, arrays become lists converted element by
      element, objects become dictionaries filled with Add, null becomes null. */
  function ParseJson(j: Json): (r: Result<Value>)
    ensures r.Err? ==> r.error == NotAnInt32 || r.error.DuplicateKey?
    ensures r.Ok? ==> SameKind(j, r.value)
    decreases j
  {
    match j
    case JNull => Ok(VNull)
    case JTrue => Ok(VBool(true))
    case JFalse => Ok(VBool(false))
    case JNumber(n) =>
      if n.Integer? && -0x8000_0000 <= n.i < 0x8000_0000 then Ok(VInt(n.i)) else Err(NotAnInt32)
    case JString(s) => Ok(VString(s))
    case JArray(items) =>
      (match ParseItems(items)
       case Ok(vs) => Ok(VList(vs))
       case Err(e) => Err(e))
    case JObject(ms) =>
      (match ParseMembers(ms, map[])
       case Ok(fields) => Ok(VObject(fields))
       case Err(e) => Err(e))
  }

  /** The array loop: converts the items in order; the first failure propagates. */
  function ParseItems(items: seq<Json>): (r: Result<seq<Value>>)
    ensures r.Err? ==> r.error == NotAnInt32 || r.error.DuplicateKey?
    ensures r.Ok? ==> |r.value| == |items|
    decreases items
  {
    if items == [] then Ok([])
    else
      match ParseJson(items[0])
      case Err(e) => Err(e)
      case Ok(v) =>
        (match ParseItems(items[1..])
         case Err(e) => Err(e)
         case Ok(vs) => Ok([v] + vs))
  }

  /** The object loop: each member's value is converted first, then added under
      its name to the dictionary built so far; Add rejects a name already present. */
  function ParseMembers(ms: seq<(string, Json)>, acc: map<string, Value>): (r: Result<map<string, Value>>)
    ensures r.Err? ==> r.error == NotAnInt32 || r.error.DuplicateKey?
    ensures r.Ok? ==> r.value.Keys == acc.Keys + Names(ms)
    decreases ms
  {
    if ms == [] then Ok(acc)
    else
      assert ms[0].1 < ms[0];
      match ParseJson(ms[0].1)
      case Err(e) => Err(e)
      case Ok(v) =>
        if ms[0].0 in acc then Err(DuplicateKey(ms[0].0))
        else
          var r := ParseMembers(ms[1..], acc[ms[0].0 := v]);
          assert r.Ok? ==> Names(ms) == {ms[0].0} + Names(ms[1..]) by {
            if r.Ok? { NamesCons(ms); }
          }
          r
  }

  /** `j` is a JSON rendering of `v`: the relation between a value and any
      document that serialises it, whatever the member order. */
  ghost predicate Encodes(j: Json, v: Value)
    decreases j
  {
    match j
    case JNull => v == VNull
    case JTrue => v == VBool(true)
    case JFalse => v == VBool(false)
    case JNumber(n) => n.Integer? && v.VInt? && v.i == n.i
    case JString(s) => v == VString(s)
    case JArray(items) =>
      && v.VList?
      && |v.items| == |items|
      && forall k :: 0 <= k < |items| ==> Encodes(items[k], v.items[k])
    case JObject(ms) =>
      && v.VObject?
      && DistinctNames(ms)
      && v.fields.Keys == Names(ms)
      && forall k :: 0 <= k < |ms| ==> Encodes(ms[k].1, v.fields[ms[k].0])
  }

  /** The documents ParseJson accepts: every number an integer in the 32-bit
      range, and no object repeating a member name. */
  ghost predicate Convertible(j: Json)
    decreases j
  {
    match j
    case JNumber(n) => n.Integer? && -0x8000_0000 <= n.i < 0x8000_0000
    case JArray(items) => forall k :: 0 <= k < |items| ==> Convertible(items[k])
    case JObject(ms) => DistinctNames(ms) && forall k :: 0 <= k < |ms| ==> Convertible(ms[k].1)
    case _ => true
  }

  lemma NamesCons(ms: seq<(string, Json)>)
    requires ms != []
    ensures Names(ms) == {ms[0].0} + Names(ms[1..])
  {
    forall x | x in Names(ms) ensures x in {ms[0].0} + Names(ms[1..]) {
      var k :| 0 <= k < |ms| && ms[k].0 == x;
      if k > 0 { assert ms[1..][k - 1].0 == x; }
    }
    forall x | x in Names(ms[1..]) ensures x in Names(ms) {
      var k :| 0 <= k < |ms[1..]| && ms[1..][k].0 == x;
      assert ms[k + 1].0 == x;
    }
  }

  lemma DistinctNamesCons(ms: seq<(string, Json)>)
    requires ms != []
    ensures DistinctNames(ms) <==> ms[0].0 !in Names(ms[1..]) && DistinctNames(ms[1..])
  {
    assert MemberNames(ms) == [ms[0].0] + MemberNames(ms[1..]);
    DistinctCons(ms[0].0, MemberNames(ms[1..]));
    assert ms[0].0 in MemberNames(ms[1..]) <==> ms[0].0 in Names(ms[1..]) by {
      if ms[0].0 in Names(ms[1..]) {
        var k :| 0 <= k < |ms[1..]| && ms[1..][k].0 == ms[0].0;
        assert MemberNames(ms[1..])[k] == ms[0].0;
      }
    }
  }

  /** ParseJson is exactly the inverse of rendering: it yields `v` if and only
      if `j` renders `v`. In particular every rendering of a value converts back
      to that value, whatever member order the writer chose. */
  lemma {:induction false} ParseJsonInvertsEncodes(j: Json, v: Value)
    ensures ParseJson(j) == Ok(v) <==> Encodes(j, v)
    decreases j, 1
  {
    match j
    case JArray(items) =>
      if v.VList? {
        ParseItemsInvertsEncodes(items, v.items);
      }
    case JObject(ms) =>
      if v.VObject? {
        ParseMembersInvertsEncodes(ms, map[], v.fields);
      }
    case _ =>
  }

  lemma {:induction false} ParseItemsInvertsEncodes(items: seq<Json>, vs: seq<Value>)
    ensures ParseItems(items) == Ok(vs) <==>
      |vs| == |items| && forall k :: 0 <= k < |items| ==> Encodes(items[k], vs[k])
    decreases items, 0
  {
    if items != [] {
      if vs == [] {
        assert |vs| != |items|;
      } else {
        ParseJsonInvertsEncodes(items[0], vs[0]);
        ParseItemsInvertsEncodes(items[1..], vs[1..]);
        assert vs == [vs[0]] + vs[1..];
        if |vs| == |items| && forall k :: 0 <= k < |items| ==> Encodes(items[k], vs[k]) {
          forall k | 0 <= k < |items[1..]| ensures Encodes(items[1..][k], vs[1..][k]) {
            assert items[1..][k] == items[k + 1] && vs[1..][k] == vs[k + 1];
          }
        }
        if ParseItems(items) == Ok(vs) {
          forall k | 0 <= k < |items| ensures Encodes(items[k], vs[k]) {
            if k > 0 { assert items[1..][k - 1] == items[k] && vs[1..][k - 1] == vs[k]; }
          }
        }
      }
    }
  }

  /** The members `ms` render the fields `r` has beyond `acc`. */
  ghost predicate MembersEncode(ms: seq<(string, Json)>, acc: map<string, Value>, r: map<string, Value>) {
    && DistinctNames(ms)
    && Names(ms) !! acc.Keys
    && r.Keys == acc.Keys + Names(ms)
    && (forall x :: x in acc ==> r[x] == acc[x])
    && forall k :: 0 <= k < |ms| ==> Encodes(ms[k].1, r[ms[k].0])
  }

  lemma {:induction false} ParseMembersInvertsEncodes(ms: seq<(string, Json)>, acc: map<string, Value>, r: map<string, Value>)
    ensures ParseMembers(ms, acc) == Ok(r) <==>
      && DistinctNames(ms)
      && Names(ms) !! acc.Keys
      && r.Keys == acc.Keys + Names(ms)
      && (forall x :: x in acc ==> r[x] == acc[x])
      && forall k :: 0 <= k < |ms| ==> Encodes(ms[k].1, r[ms[k].0])
    decreases ms, 1
  {
    if ParseMembers(ms, acc) == Ok(r) {
      ParseMembersEncodes(ms, acc, r);
    }
    if MembersEncode(ms, acc, r) {
      EncodesParseMembers(ms, acc, r);
    }
  }

  lemma {:induction false} ParseMembersEncodes(ms: seq<(string, Json)>, acc: map<string, Value>, r: map<string, Value>)
    requires ParseMembers(ms, acc) == Ok(r)
    ensures MembersEncode(ms, acc, r)
    decreases ms, 0
  {
    if ms == [] {
      assert Names(ms) == {};
    } else {
      var (name, j) := ms[0];
      NamesCons(ms);
      DistinctNamesCons(ms);
      assert ms[0].1 < ms[0];
      var v := ParseJson(j).value;
      ParseMembersEncodes(ms[1..], acc[name := v], r);
      assert name in r && r[name] == v;
      ParseJsonInvertsEncodes(j, v);
      forall k | 0 <= k < |ms| ensures Encodes(ms[k].1, r[ms[k].0]) {
        if k > 0 { assert ms[1..][k - 1] == ms[k]; }
      }
    }
  }

  lemma {:induction false} EncodesParseMembers(ms: seq<(string, Json)>, acc: map<string, Value>, r: map<string, Value>)
    requires MembersEncode(ms, acc, r)
    ensures ParseMembers(ms, acc) == Ok(r)
    decreases ms, 0
  {
    if ms == [] {
      assert Names(ms) == {};
      assert r == acc;
    } else {
      var (name, j) := ms[0];
      NamesCons(ms);
      DistinctNamesCons(ms);
      assert ms[0].1 < ms[0];
      ParseJsonInvertsEncodes(j, r[name]);
      forall k | 0 <= k < |ms[1..]| ensures Encodes(ms[1..][k].1, r[ms[1..][k].0]) {
        assert ms[1..][k] == ms[k + 1];
      }
      EncodesParseMembers(ms[1..], acc[name := r[name]], r);
    }
  }

  /** ParseJson fails exactly on the documents that hold a number that is not a
      32-bit integer or an object that repeats a member name. */
  lemma {:induction false} ParseJsonFailsIff(j: Json)
    ensures ParseJson(j).Ok? <==> Convertible(j)
    decreases j, 1
  {
    match j
    case JArray(items) => ParseItemsFailsIff(items);
    case JObject(ms) => ParseMembersFailsIff(ms, map[]);
    case _ =>
  }

  lemma {:induction false} ParseItemsFailsIff(items: seq<Json>)
    ensures ParseItems(items).Ok? <==> forall k :: 0 <= k < |items| ==> Convertible(items[k])
    decreases items, 0
  {
    if items != [] {
      ParseJsonFailsIff(items[0]);
      ParseItemsFailsIff(items[1..]);
      if forall k :: 0 <= k < |items| ==> Convertible(items[k]) {
        forall k | 0 <= k < |items[1..]| ensures Convertible(items[1..][k]) {
          assert items[1..][k] == items[k + 1];
        }
      }
      if ParseItems(items).Ok? {
        forall k | 0 <= k < |items| ensures Convertible(items[k]) {
          if k > 0 { assert items[1..][k - 1] == items[k]; }
        }
      }
    }
  }

  lemma {:induction false} ParseMembersFailsIff(ms: seq<(string, Json)>, acc: map<string, Value>)
    ensures ParseMembers(ms, acc).Ok? <==>
      DistinctNames(ms) && Names(ms) !! acc.Keys && forall k :: 0 <= k < |ms| ==> Convertible(ms[k].1)
    decreases ms, 0
  {
    if ms == [] {
      assert Names(ms) == {};
    } else {
      var (name, j) := ms[0];
      NamesCons(ms);
      DistinctNamesCons(ms);
      assert ms[0].1 < ms[0];
      ParseJsonFailsIff(j);
      var v := ParseJson(j);
      if v.Ok? {
        ParseMembersFailsIff(ms[1..], acc[name := v.value]);
      }
      if ParseMembers(ms, acc).Ok? {
        forall k | 0 <= k < |ms| ensures Convertible(ms[k].1) {
          if k > 0 { assert ms[1..][k - 1] == ms[k]; }
        }
      }
      if forall k :: 0 <= k < |ms| ==> Convertible(ms[k].1) {
        forall k | 0 <= k < |ms[1..]| ensures Convertible(ms[1..][k].1) {
          assert ms[1..][k] == ms[k + 1];
        }
      }
    }
  }
}
