/** The JSON value: a tagged union over null, number, boolean, string, list and
    dictionary. A dictionary is an ordered sequence of (key, value) entries whose keys need
    not be distinct; lookups take the first entry with the key. */
module JsonValues {
  import opened Wrappers

  /** A double, carried as its 64-bit pattern; nothing in the model computes with it. */
  datatype Number = Double(bits: bv64)

  datatype Json =
    | Null
    | Num(n: Number)
    | Bool(b: bool)
    | Str(s: string)
    | List(items: seq<Json>)
    | Dict(entries: seq<(string, Json)>)

  /** The exceptions the source throws, by the expectation that failed. */
  datatype JsonError =
    | TypeMismatch
    | NotAList
    | NotADictionary
    | KeyNotFound
    | InvalidNull
    | InvalidBool
    | InvalidNumber
    | InvalidArray
    | InvalidObject
    | UnexpectedCharacter
    | EndOfInput   // the input ended before a value's first character was read

  predicate IsNull(v: Json) { v.Null? }
  predicate IsNumber(v: Json) { v.Num? }
  predicate IsBool(v: Json) { v.Bool? }
  predicate IsString(v: Json) { v.Str? }
  predicate IsList(v: Json) { v.List? }
  predicate IsDictionary(v: Json) { v.Dict? }

  /** Exactly one of the six type predicates holds of every value. */
  lemma ExactlyOneKind(v: Json)
    ensures (if IsNull(v) then 1 else 0) + (if IsNumber(v) then 1 else 0)
          + (if IsBool(v) then 1 else 0) + (if IsString(v) then 1 else 0)
          + (if IsList(v) then 1 else 0) + (if IsDictionary(v) then 1 else 0) == 1
  {
  }

  function GetNumber(v: Json): (r: Result<Number, JsonError>)
    ensures r.Ok? <==> IsNumber(v)
    ensures r.Ok? ==> v == Num(r.value)
    ensures r.Err? ==> r.error == TypeMismatch
  {
    if v.Num? then Ok(v.n) else Err(TypeMismatch)
  }

  function GetBool(v: Json): (r: Result<bool, JsonError>)
    ensures r.Ok? <==> IsBool(v)
    ensures r.Ok? ==> v == Bool(r.value)
    ensures r.Err? ==> r.error == TypeMismatch
  {
    if v.Bool? then Ok(v.b) else Err(TypeMismatch)
  }

  function GetString(v: Json): (r: Result<string, JsonError>)
    ensures r.Ok? <==> IsString(v)
    ensures r.Ok? ==> v == Str(r.value)
    ensures r.Err? ==> r.error == TypeMismatch
  {
    if v.Str? then Ok(v.s) else Err(TypeMismatch)
  }

  /** The index of the first entry whose key is `key`, if any. */
  function FirstIndexOf(entries: seq<(string, Json)>, key: string): (r: Option<nat>)
    ensures r.Some? ==> r.value < |entries| && entries[r.value].0 == key
    ensures r.Some? ==> forall j :: 0 <= j < r.value ==> entries[j].0 != key
    ensures r.None? ==> forall j :: 0 <= j < |entries| ==> entries[j].0 != key
  {
    if entries == [] then None
    else if entries[0].0 == key then Some(0)
    else
      match FirstIndexOf(entries[1..], key)
      case None => None
      case Some(i) => Some(i + 1)
  }

  /** What `d[key] = v` does to the entries of dictionary `d`: overwrite the value of the
      first entry with that key, or append a new entry when there is none. */
  function SetFirst(entries: seq<(string, Json)>, key: string, v: Json): (r: seq<(string, Json)>)
    ensures |entries| <= |r| <= |entries| + 1
    ensures forall j :: 0 <= j < |entries| ==> r[j].0 == entries[j].0
    ensures |r| == |entries| + 1 ==> r[|entries|] == (key, v)
  {
    match FirstIndexOf(entries, key)
    case Some(i) => entries[i := (key, v)]
    case None => entries + [(key, v)]
  }

  /** After `d[key] = v`, looking `key` up finds `v`; the dictionary grows by one entry
      exactly when `key` was absent, and every other entry is untouched. */
  lemma SetFirstThenFind(entries: seq<(string, Json)>, key: string, v: Json)
    ensures var r := SetFirst(entries, key, v);
      && |r| == (if FirstIndexOf(entries, key).None? then |entries| + 1 else |entries|)
      && FirstIndexOf(r, key).Some?
      && r[FirstIndexOf(r, key).value] == (key, v)
      && (forall j :: 0 <= j < |entries| && j != FirstIndexOf(r, key).value ==> r[j] == entries[j])
  {
    var r := SetFirst(entries, key, v);
    match FirstIndexOf(entries, key)
    case Some(i) =>
      FirstIndexIsUnique(r, key, i);
    case None =>
      FirstIndexIsUnique(r, key, |entries|);
  }

  /** No two entries share a key. */
  ghost predicate DistinctKeys(entries: seq<(string, Json)>)
  {
    forall i, j :: 0 <= i < j < |entries| ==> entries[i].0 != entries[j].0
  }

  lemma SetFirstKeepsKeysDistinct(entries: seq<(string, Json)>, key: string, v: Json)
    requires DistinctKeys(entries)
    ensures DistinctKeys(SetFirst(entries, key, v))
  {
    var r := SetFirst(entries, key, v);
    match FirstIndexOf(entries, key)
    case Some(i) =>
      forall a, b | 0 <= a < b < |r| ensures r[a].0 != r[b].0 {
        assert r[a].0 == entries[a].0 && r[b].0 == entries[b].0;
      }
    case None =>
      forall a, b | 0 <= a < b < |r| ensures r[a].0 != r[b].0 {
        if b == |entries| {
          assert r[a] == entries[a];
        } else {
          assert r[a] == entries[a] && r[b] == entries[b];
        }
      }
  }

  /** Every dictionary anywhere inside `v` has pairwise distinct keys. */
  ghost predicate WellKeyed(v: Json)
  {
    match v
    case List(items) => forall i :: 0 <= i < |items| ==> WellKeyed(items[i])
    case Dict(entries) =>
      DistinctKeys(entries) && forall i :: 0 <= i < |entries| ==> WellKeyed(entries[i].1)
    case _ => true
  }

  /** `d[key] = v` keeps a dictionary's keys distinct and every value in it well keyed. */
  lemma SetFirstKeepsWellKeyed(entries: seq<(string, Json)>, key: string, v: Json)
    requires WellKeyed(Dict(entries)) && WellKeyed(v)
    ensures WellKeyed(Dict(SetFirst(entries, key, v)))
  {
    SetFirstKeepsKeysDistinct(entries, key, v);
    var r := SetFirst(entries, key, v);
    forall i | 0 <= i < |r| ensures WellKeyed(r[i].1) {
      if i < |entries| && r[i] != entries[i] {
        assert r[i] == (key, v);
      }
    }
  }

  /** The linear scan both forms of `operator[]` perform. */
  method FindKey(entries: seq<(string, Json)>, key: string) returns (r: Option<nat>)
    ensures r == FirstIndexOf(entries, key)
  {
    var i := 0;
    while i < |entries|
      invariant 0 <= i <= |entries|
      invariant forall j :: 0 <= j < i ==> entries[j].0 != key
    {
      if entries[i].0 == key {
        FirstIndexIsUnique(entries, key, i);
        return Some(i);
      }
      i := i + 1;
    }
    FirstIndexIsUnique(entries, key, -1);
    return None;
  }

  /** The first matching index is determined by where the key first occurs. */
  lemma {:induction false} FirstIndexIsUnique(entries: seq<(string, Json)>, key: string, i: int)
    requires -1 <= i < |entries|
    requires i >= 0 ==> entries[i].0 == key
    requires forall j :: 0 <= j < (if i >= 0 then i else |entries|) ==> entries[j].0 != key
    ensures FirstIndexOf(entries, key) == if i >= 0 then Some(i) else None
  {
    if entries != [] && entries[0].0 != key {
      FirstIndexIsUnique(entries[1..], key, if i >= 0 then i - 1 else -1);
    }
  }

  /** The `json` object: one value, updated in place by the mutating API. */
  class JsonValue {
    var value: Json

    constructor ()
      ensures value == Null
    {
      value := Null;
    }

    method SetNull()
      modifies this
      ensures value == Null && IsNull(value)
    {
      value := Null;
    }

    method SetBool(x: bool)
      modifies this
      ensures value == Bool(x) && IsBool(value) && GetBool(value) == Ok(x)
    {
      value := Bool(x);
    }

    method SetNumber(x: Number)
      modifies this
      ensures value == Num(x) && IsNumber(value) && GetNumber(value) == Ok(x)
    {
      value := Num(x);
    }

    method SetString(x: string)
      modifies this
      ensures value == Str(x) && IsString(value) && GetString(value) == Ok(x)
    {
      value := Str(x);
    }

    method SetList()
      modifies this
      ensures value == List([]) && IsList(value)
    {
      value := List([]);
    }

    method SetDictionary()
      modifies this
      ensures value == Dict([]) && IsDictionary(value)
    {
      value := Dict([]);
    }

    method PushFront(x: Json) returns (o: Outcome<JsonError>)
      modifies this
      ensures old(value).List? ==> o == Pass && value == List([x] + old(value).items)
      ensures !old(value).List? ==> o == Fail(NotAList) && value == old(value)
    {
      if !value.List? {
        return Fail(NotAList);
      }
      value := List([x] + value.items);
      o := Pass;
    }

    method PushBack(x: Json) returns (o: Outcome<JsonError>)
      modifies this
      ensures old(value).List? ==> o == Pass && value == List(old(value).items + [x])
      ensures !old(value).List? ==> o == Fail(NotAList) && value == old(value)
    {
      if !value.List? {
        return Fail(NotAList);
      }
      value := List(value.items + [x]);
      o := Pass;
    }

    /** Appends the entry even when its key is already present. */
    method Insert(key: string, x: Json) returns (o: Outcome<JsonError>)
      modifies this
      ensures old(value).Dict? ==> o == Pass && value == Dict(old(value).entries + [(key, x)])
      ensures !old(value).Dict? ==> o == Fail(NotADictionary) && value == old(value)
    {
      if !value.Dict? {
        return Fail(NotADictionary);
      }
      value := Dict(value.entries + [(key, x)]);
      o := Pass;
    }

    /** The read-only `operator[]`: the value of the first entry with the key. */
    method Lookup(key: string) returns (r: Result<Json, JsonError>)
      ensures !value.Dict? ==> r == Err(NotADictionary)
      ensures value.Dict? ==> (r.Ok? <==> exists j :: 0 <= j < |value.entries| && value.entries[j].0 == key)
      ensures value.Dict? && r.Err? ==> r.error == KeyNotFound
      ensures value.Dict? && r.Ok? ==> exists i :: 0 <= i < |value.entries| && value.entries[i] == (key, r.value)
                                        && forall j :: 0 <= j < i ==> value.entries[j].0 != key
    {
      if !value.Dict? {
        return Err(NotADictionary);
      }
      var found := FindKey(value.entries, key);
      match found
      case None =>
        r := Err(KeyNotFound);
      case Some(i) =>
        r := Ok(value.entries[i].1);
    }

    /** The mutable `operator[]`: the index of the entry the returned reference designates.
        On a miss it first appends `(key, null)`. */
    method Index(key: string) returns (r: Result<nat, JsonError>)
      modifies this
      ensures !old(value).Dict? ==> r == Err(NotADictionary) && value == old(value)
      ensures old(value).Dict? ==> r.Ok? && value.Dict? && r.value < |value.entries|
      ensures old(value).Dict? && FirstIndexOf(old(value).entries, key).Some? ==>
                r.value == FirstIndexOf(old(value).entries, key).value && value == old(value)
      ensures old(value).Dict? && FirstIndexOf(old(value).entries, key).None? ==>
                r.value == |old(value).entries| && value == Dict(old(value).entries + [(key, Null)])
    {
      if !value.Dict? {
        return Err(NotADictionary);
      }
      var found := FindKey(value.entries, key);
      match found
      case Some(i) =>
        r := Ok(i);
      case None =>
        r := Ok(|value.entries|);
        value := Dict(value.entries + [(key, Null)]);
    }

    /** `d[key] = x` on a dictionary: the reference `Index` returns, then assignment through
        it; the first entry with the key gets the value, or a new entry is appended. */
    method Put(key: string, x: Json)
      requires value.Dict?
      modifies this
      ensures value == Dict(SetFirst(old(value).entries, key, x))
    {
      var slot := Index(key);
      AssignAt(slot.value, x);
    }

    /** Assignment through the reference `Index` returned: replaces that entry's value. */
    method AssignAt(i: nat, x: Json)
      requires value.Dict? && i < |value.entries|
      modifies this
      ensures value == Dict(old(value).entries[i := (old(value).entries[i].0, x)])
    {
      value := Dict(value.entries[i := (value.entries[i].0, x)]);
    }
  }
}
