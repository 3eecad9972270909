/**
  The strict-mode schema transform: every JSON Schema object whose "type" is
  exactly "object" and that has no "additionalProperties" gets
  "additionalProperties": false (JSON Schema Core 2020-12, section 10.3.2.3),
  and the transformed schema is wrapped in a strict `json_schema` response format.
 */
module StrictSchema {
  import opened Wrappers

  /** A JSON value; an object's members keep their insertion order. */
  datatype Json =
    | JNull
    | JBool(b: bool)
    | JNum(n: int)
    | JStr(s: string)
    | JArr(items: seq<Json>)
    | JObj(members: seq<Member>)

  datatype Member = Member(key: string, value: Json)

  const AdditionalProperties: string := "additionalProperties"

  /** Position of the first member named `key`, or |ms| when there is none. */
  function KeyIndex(ms: seq<Member>, key: string): (i: nat)
    ensures i <= |ms|
    ensures i < |ms| ==> ms[i].key == key
    ensures forall j :: 0 <= j < i ==> ms[j].key != key
  {
    if ms == [] then 0 else if ms[0].key == key then 0 else 1 + KeyIndex(ms[1..], key)
  }

  predicate HasKey(ms: seq<Member>, key: string) {
    KeyIndex(ms, key) < |ms|
  }

  /** `dict.get(key)`. */
  function Lookup(ms: seq<Member>, key: string): Option<Json> {
    var i := KeyIndex(ms, key);
    if i < |ms| then Some(ms[i].value) else None
  }

  function Keys(ms: seq<Member>): (ks: seq<string>)
    ensures |ks| == |ms| && forall i :: 0 <= i < |ms| ==> ks[i] == ms[i].key
  {
    seq(|ms|, i requires 0 <= i < |ms| => ms[i].key)
  }

  /** Two member lists with the same keys in the same order find every key at the same place. */
  lemma {:induction false} SameKeysSameIndex(a: seq<Member>, b: seq<Member>, key: string)
    requires Keys(a) == Keys(b)
    ensures KeyIndex(a, key) == KeyIndex(b, key)
  {
    if a != [] {
      assert a[0].key == Keys(a)[0] == Keys(b)[0] == b[0].key;
      assert Keys(a[1..]) == Keys(a)[1..];
      assert Keys(b[1..]) == Keys(b)[1..];
      SameKeysSameIndex(a[1..], b[1..], key);
    }
  }

  /** A key present in the front part is found there; otherwise it is looked up in the rest. */
  lemma {:induction false} KeyIndexAppend(a: seq<Member>, b: seq<Member>, key: string)
    ensures KeyIndex(a + b, key) == if KeyIndex(a, key) < |a| then KeyIndex(a, key) else |a| + KeyIndex(b, key)
  {
    if a != [] {
      assert (a + b)[1..] == a[1..] + b;
      KeyIndexAppend(a[1..], b, key);
    } else {
      assert a + b == b;
    }
  }

  /** The guard of the transform: "type" is the string "object" and the key is absent. */
  predicate NeedsClosing(ms: seq<Member>) {
    Lookup(ms, "type") == Some(JStr("object")) && !HasKey(ms, AdditionalProperties)
  }

  /** The member the transform adds, or nothing. */
  function Closing(ms: seq<Member>): seq<Member> {
    if NeedsClosing(ms) then [Member(AdditionalProperties, JBool(false))] else []
  }

  /**
    `ensure_no_additional_properties` as a value-to-value function. The source
    inserts the new member before walking the members; that member is the
    boolean false, which the walk leaves alone, so adding it after the walk
    gives the same object.
   */
  function Strict(v: Json): (r: Json)
    decreases v, 0
    ensures r.JObj? == v.JObj?
    ensures !v.JObj? ==> r == v
    ensures v.JObj? ==> |v.members| <= |r.members| <= |v.members| + 1
  {
    match v
    case JObj(ms) => JObj(StrictMembers(ms) + Closing(ms))
    case _ => v
  }

  /** The walk over an object's members: each value is descended into. */
  function StrictMembers(ms: seq<Member>): (r: seq<Member>)
    decreases ms, 1
    ensures |r| == |ms|
    ensures forall i :: 0 <= i < |ms| ==> r[i] == Member(ms[i].key, Descend(ms[i].value))
  {
    if ms == [] then [] else [Member(ms[0].key, Descend(ms[0].value))] + StrictMembers(ms[1..])
  }

  /** A member value: an object is transformed, a list has its object items transformed. */
  function Descend(v: Json): Json
    decreases v, 1
  {
    match v
    case JObj(_) => Strict(v)
    case JArr(items) => JArr(StrictItems(items))
    case _ => v
  }

  /** The walk over a list: object items are transformed, every other item is kept as it is. */
  function StrictItems(items: seq<Json>): (r: seq<Json>)
    decreases items, 0
    ensures |r| == |items|
    ensures forall j :: 0 <= j < |items| ==> r[j] == if items[j].JObj? then Strict(items[j]) else items[j]
  {
    if items == [] then [] else [if items[0].JObj? then Strict(items[0]) else items[0]] + StrictItems(items[1..])
  }

  // ---------------------------------------------------------------------------
  // What the transform preserves

  /** Values keep their kind; only objects and lists can change at all. */
  lemma DescendKeepsKind(v: Json)
    ensures Descend(v).JObj? == v.JObj? && Descend(v).JArr? == v.JArr?
    ensures !v.JObj? && !v.JArr? ==> Descend(v) == v
  {
  }

  /**
    On an object: no key is removed or reordered, the only key ever added is
    "additionalProperties", appended last, and only when the guard holds; every
    existing member keeps its key and has its value descended into.
   */
  lemma StrictObject(ms: seq<Member>)
    ensures Strict(JObj(ms)).JObj?
    ensures Keys(Strict(JObj(ms)).members)
              == Keys(ms) + if NeedsClosing(ms) then [AdditionalProperties] else []
    ensures forall i :: 0 <= i < |ms| ==>
              Strict(JObj(ms)).members[i] == Member(ms[i].key, Descend(ms[i].value))
    ensures NeedsClosing(ms) ==> Lookup(Strict(JObj(ms)).members, AdditionalProperties) == Some(JBool(false))
  {
    var walked := StrictMembers(ms);
    assert Keys(walked) == Keys(ms);
    var r := walked + Closing(ms);
    assert Keys(r) == Keys(walked) + Keys(Closing(ms));
    if NeedsClosing(ms) {
      KeyIndexAppend(walked, Closing(ms), AdditionalProperties);
      SameKeysSameIndex(walked, ms, AdditionalProperties);
    }
  }

  /** Python dictionaries have distinct keys. */
  predicate UniqueKeys(ms: seq<Member>) {
    forall i, j :: 0 <= i < j < |ms| ==> ms[i].key != ms[j].key
  }

  /** The transform never produces a second member with the same key. */
  lemma StrictKeepsKeysUnique(ms: seq<Member>)
    requires UniqueKeys(ms)
    ensures UniqueKeys(Strict(JObj(ms)).members)
  {
    StrictObject(ms);
    var r := Strict(JObj(ms)).members;
    assert forall i :: 0 <= i < |r| ==> r[i].key == Keys(r)[i];
  }

  /** A "type" member is found in the result where it was, with the same string value or not one. */
  lemma StrictTypeUnchanged(ms: seq<Member>)
    ensures (Lookup(Strict(JObj(ms)).members, "type") == Some(JStr("object")))
              == (Lookup(ms, "type") == Some(JStr("object")))
  {
    var r := Strict(JObj(ms)).members;
    KeyIndexAppend(StrictMembers(ms), Closing(ms), "type");
    SameKeysSameIndex(StrictMembers(ms), ms, "type");
    var i := KeyIndex(ms, "type");
    if i < |ms| {
      DescendKeepsKind(ms[i].value);
    }
  }

  /** An existing "additionalProperties" is kept: scalars as they were, objects and lists descended into. */
  lemma StrictKeepsAdditionalProperties(ms: seq<Member>)
    requires HasKey(ms, AdditionalProperties)
    ensures Lookup(Strict(JObj(ms)).members, AdditionalProperties)
              == Some(Descend(Lookup(ms, AdditionalProperties).value))
  {
    KeyIndexAppend(StrictMembers(ms), Closing(ms), AdditionalProperties);
    SameKeysSameIndex(StrictMembers(ms), ms, AdditionalProperties);
  }

  // ---------------------------------------------------------------------------
  // Coverage

  /**
    Every object the transform visits (the root, object values of members, and
    object items of lists that are member values) that has "type": "object"
    also has "additionalProperties".
   */
  predicate Closed(v: Json)
    decreases v, 1
  {
    match v
    case JObj(ms) =>
      && (Lookup(ms, "type") == Some(JStr("object")) ==> HasKey(ms, AdditionalProperties))
      && forall i :: 0 <= i < |ms| ==> DescendClosed(ms[i])
    case _ => true
  }

  predicate DescendClosed(m: Member)
    decreases m, 0
  {
    match m.value
    case JObj(_) => Closed(m.value)
    case JArr(items) => forall j :: 0 <= j < |items| ==> items[j].JObj? ==> Closed(items[j])
    case _ => true
  }

  lemma {:induction false} StrictCloses(v: Json)
    ensures Closed(Strict(v))
    decreases v, 1
  {
    match v
    case JObj(ms) =>
      var r := Strict(v).members;
      StrictObject(ms);
      StrictTypeUnchanged(ms);
      if Lookup(r, "type") == Some(JStr("object")) && !NeedsClosing(ms) {
        SameKeysSameIndex(StrictMembers(ms), ms, AdditionalProperties);
        KeyIndexAppend(StrictMembers(ms), Closing(ms), AdditionalProperties);
      }
      forall i | 0 <= i < |r| ensures DescendClosed(r[i]) {
        if i < |ms| {
          DescendCloses(ms[i]);
        } else {
          assert r[i] == Member(AdditionalProperties, JBool(false));
        }
      }
    case _ =>
  }

  lemma {:induction false} DescendCloses(m: Member)
    ensures DescendClosed(Member(m.key, Descend(m.value)))
    decreases m, 0
  {
    match m.value
    case JObj(_) => StrictCloses(m.value);
    case JArr(items) =>
      var r := StrictItems(items);
      forall j | 0 <= j < |r| && r[j].JObj? ensures Closed(r[j]) {
        if items[j].JObj? { StrictCloses(items[j]); }
      }
    case _ =>
  }

  // ---------------------------------------------------------------------------
  // Idempotence

  lemma {:induction false} StrictIdempotent(v: Json)
    ensures Strict(Strict(v)) == Strict(v)
    decreases v, 1
  {
    match v
    case JObj(ms) =>
      var r := Strict(v).members;
      StrictObject(ms);
      StrictCloses(v);
      StrictTypeUnchanged(ms);
      StrictTypeUnchanged(r);
      assert !NeedsClosing(r);
      var rr := StrictMembers(r);
      forall i | 0 <= i < |r| ensures rr[i] == r[i] {
        if i < |ms| {
          DescendIdempotent(ms[i]);
        }
      }
    case _ =>
  }

  lemma {:induction false} DescendIdempotent(m: Member)
    ensures Descend(Descend(m.value)) == Descend(m.value)
    decreases m, 0
  {
    match m.value
    case JObj(_) => StrictIdempotent(m.value);
    case JArr(items) =>
      var r := StrictItems(items);
      var rr := StrictItems(r);
      forall j | 0 <= j < |items| ensures rr[j] == r[j] {
        if items[j].JObj? { StrictIdempotent(items[j]); }
      }
    case _ =>
  }

  // ---------------------------------------------------------------------------
  // The in-place walk

  /**
    The transform as the source runs it: check the guard and add the member,
    then loop over the members, recursing into object values and into the
    object items of list values.
   */
  method EnsureNoAdditionalProperties(v: Json) returns (r: Json)
    ensures r == Strict(v)
    decreases v, 2
  {
    if !v.JObj? {
      return v;
    }
    var ms := v.members;
    var all := ms + Closing(ms);
    var out: seq<Member> := [];
    var i := 0;
    while i < |all|
      invariant 0 <= i <= |all|
      invariant |out| == i
      invariant forall k :: 0 <= k < i ==> out[k] == Member(all[k].key, Descend(all[k].value))
    {
      var m := all[i];
      var value := m.value;
      if i < |ms| {
        assert m == ms[i];
        value := DescendMember(m);
      }
      out := out + [Member(m.key, value)];
      i := i + 1;
    }
    r := JObj(out);
    assert out == StrictMembers(ms) + Closing(ms);
  }

  /** One member of the loop: an object value is transformed, a list value item by item. */
  method DescendMember(m: Member) returns (r: Json)
    ensures r == Descend(m.value)
    decreases m, 1
  {
    match m.value
    case JObj(_) =>
      r := EnsureNoAdditionalProperties(m.value);
    case JArr(items) =>
      var out := DescendItems(items);
      r := JArr(out);
    case _ =>
      r := m.value;
  }

  /** The inner loop over a list: object items are transformed, nothing else is entered. */
  method DescendItems(items: seq<Json>) returns (out: seq<Json>)
    ensures out == StrictItems(items)
    decreases items, 0
  {
    out := [];
    var j := 0;
    while j < |items|
      invariant 0 <= j <= |items|
      invariant |out| == j
      invariant forall k :: 0 <= k < j ==> out[k] == if items[k].JObj? then Strict(items[k]) else items[k]
    {
      var item := items[j];
      if item.JObj? {
        item := EnsureNoAdditionalProperties(item);
      }
      out := out + [item];
      j := j + 1;
    }
  }

  // ---------------------------------------------------------------------------
  // The request wrapper

  function IsUpper(c: char): bool {
    'A' <= c <= 'Z'
  }

  /** `str.lower()` on ASCII letters. */
  function Lower(s: string): (r: string)
    ensures |r| == |s|
    ensures forall i :: 0 <= i < |s| ==> !IsUpper(r[i])
    ensures forall i :: 0 <= i < |s| ==> r[i] == s[i] || (IsUpper(s[i]) && r[i] as int == s[i] as int + 32)
  {
    if s == [] then []
    else [if IsUpper(s[0]) then (s[0] as int + 32) as char else s[0]] + Lower(s[1..])
  }

  /** The strict response format sent with a decision request. */
  function ResponseFormat(className: string, schema: Json): (r: Json)
    ensures r.JObj? && Lookup(r.members, "type") == Some(JStr("json_schema"))
    ensures var inner := Lookup(r.members, "json_schema");
            && inner.Some? && inner.value.JObj?
            && Lookup(inner.value.members, "strict") == Some(JBool(true))
            && Lookup(inner.value.members, "name") == Some(JStr(Lower(className)))
            && var s := Lookup(inner.value.members, "schema");
               s.Some? && s.value == Strict(schema) && Closed(s.value)
  {
    StrictCloses(schema);
    var inner := [
      Member("name", JStr(Lower(className))),
      Member("strict", JBool(true)),
      Member("schema", Strict(schema))];
    var outer := [Member("type", JStr("json_schema")), Member("json_schema", JObj(inner))];
    assert inner[0].key != "strict" && inner[0].key != "schema" && inner[1].key != "schema";
    assert inner[1].key == "strict" && inner[2].key == "schema";
    assert KeyIndex(inner, "strict") == 1 && KeyIndex(inner, "schema") == 2;
    assert outer[0].key != "json_schema" && KeyIndex(outer, "json_schema") == 1;
    JObj(outer)
  }
}
