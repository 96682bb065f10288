/**
 * JSON-like values as the request pipeline sees them, JavaScript truthiness and property
 * access on them, and the key normaliser `toCamelCase` of src/app.ts.
 */
module Json {
  import opened Wrappers
  import opened Text
  import opened OrderedMaps
  import Lists

  /** A JavaScript value as it comes out of `JSON.parse`. An object is its own enumerable
      properties in insertion order (see OrderedMaps). */
  datatype Json =
    | JNull
    | JBool(b: bool)
    | JNum(n: int)
    | JStr(s: string)
    | JArr(items: seq<Json>)
    | JObj(fields: seq<(string, Json)>)

  /** JavaScript's `!!v`. */
  predicate Truthy(v: Json) {
    match v
    case JNull => false
    case JBool(b) => b
    case JNum(n) => n != 0
    case JStr(s) => s != ""
    case _ => true
  }

  /** Lodash's `_.isObject`: arrays and objects, but not null or a primitive. */
  predicate IsObjectLike(v: Json) {
    v.JArr? || v.JObj?
  }

  /** The property access `v.key` on a value that is not null: an object's own property, and
      `undefined` (None) on arrays and primitives for every key this model reads. */
  function Prop(v: Json, key: string): (r: Option<Json>)
    ensures r.Some? ==> v.JObj? && (key, r.value) in v.fields
    ensures v.JObj? && key in KeySet(v.fields) ==> r.Some?
  {
    if v.JObj? then Get(v.fields, key) else None
  }

  /** Every object, at every depth, has pairwise distinct keys: what a JavaScript object is. */
  ghost predicate WellFormed(v: Json)
    decreases v
  {
    match v
    case JArr(items) => forall i :: 0 <= i < |items| ==> WellFormed(items[i])
    case JObj(fields) => UniqueKeys(fields) && forall i :: 0 <= i < |fields| ==> WellFormed(fields[i].1)
    case _ => true
  }

  // ---------------------------------------------------------------------------------------
  // The key converter
  // ---------------------------------------------------------------------------------------

  predicate IsSeparator(c: char) {
    c == '_' || c == '-' || c == ' '
  }

  predicate NoSeparator(s: string) {
    forall i :: 0 <= i < |s| ==> !IsSeparator(s[i])
  }

  /** Scan `s`: separators are dropped; the first kept character is lower-cased, a kept
      character right after a separator is upper-cased, the rest are kept. `started` says a
      character has been kept already, `boundary` that a separator was just dropped. */
  function CamelFrom(s: string, started: bool, boundary: bool): (r: string)
    ensures NoSeparator(r)
    ensures |r| <= |s|
    ensures !started && r != [] ==> !IsUpper(r[0])
    decreases |s|
  {
    if s == [] then []
    else if IsSeparator(s[0]) then CamelFrom(s[1..], started, true)
    else
      var c := if !started then LowerChar(s[0]) else if boundary then UpperChar(s[0]) else s[0];
      assert !IsSeparator(c);
      [c] + CamelFrom(s[1..], true, false)
  }

  /** The key converter: lodash's `_.camelCase` on snake_case, kebab-case and spaced keys
      (`show_type` becomes `showType`). */
  function CamelCase(key: string): (r: string)
    ensures NoSeparator(r)
    ensures r != [] ==> !IsUpper(r[0])
  {
    CamelFrom(key, false, false)
  }

  lemma {:induction false} CamelFromKeeps(s: string)
    requires NoSeparator(s)
    ensures CamelFrom(s, true, false) == s
    decreases |s|
  {
    if s != [] {
      CamelFromKeeps(s[1..]);
    }
  }

  /** Converting an already converted key changes nothing. */
  lemma CamelCaseIdempotent(key: string)
    ensures CamelCase(CamelCase(key)) == CamelCase(key)
  {
    var t := CamelCase(key);
    if t != [] {
      CamelFromKeeps(t[1..]);
      assert t == [t[0]] + t[1..];
    }
  }

  /** The keys the converter leaves alone are exactly those without separators that do not
      start with an upper-case letter. */
  lemma CamelCaseFixedPoints(key: string)
    ensures CamelCase(key) == key <==> NoSeparator(key) && (key == [] || !IsUpper(key[0]))
  {
    if NoSeparator(key) && key != [] && !IsUpper(key[0]) {
      CamelFromKeeps(key[1..]);
      assert key == [key[0]] + key[1..];
    }
  }

  lemma CamelFromBoundary()
    ensures CamelFrom("_type", true, false) == "Type"
  {
    CamelFromKeeps("ype");
    assert CamelFrom("type", true, true) == "Type";
  }

  lemma {:induction false} CamelFromKeepsPrefix(p: string, s: string)
    requires NoSeparator(p)
    ensures CamelFrom(p + s, true, false) == p + CamelFrom(s, true, false)
    decreases |p|
  {
    if p != [] {
      assert (p + s)[0] == p[0] && !IsSeparator(p[0]);
      assert (p + s)[1..] == p[1..] + s;
      CamelFromKeepsPrefix(p[1..], s);
      assert p == [p[0]] + p[1..];
      Lists.AppendAssociative([p[0]], p[1..], CamelFrom(s, true, false));
    } else {
      assert p + s == s;
    }
  }

  lemma CamelCaseExamples()
    ensures CamelCase("show_type") == "showType"
  {
    CamelFromBoundary();
    assert "how_type" == "how" + "_type";
    CamelFromKeepsPrefix("how", "_type");
    assert "show_type"[1..] == "how_type";
  }


  // ---------------------------------------------------------------------------------------
  // toCamelCase (src/app.ts:43-62)
  // ---------------------------------------------------------------------------------------

  /** The key renaming step, `_.mapKeys(obj, (value, key) => _.camelCase(key))`. */
  function MapKeys(fields: seq<(string, Json)>): (r: seq<(string, Json)>)
    ensures UniqueKeys(r) && |r| <= |fields|
  {
    PutAll([], seq(|fields|, i requires 0 <= i < |fields| => (CamelCase(fields[i].0), fields[i].1)))
  }

  /** The recursive normalisation of one value. An array maps element by element, an object
      renames its keys and normalises every value, anything else is returned as it is. */
  function ToCamelCase(v: Json): (r: Json)
    ensures !IsObjectLike(v) ==> r == v
    ensures v.JArr? <==> r.JArr?
    ensures v.JObj? <==> r.JObj?
    ensures v.JArr? ==> |r.items| == |v.items|
    ensures WellFormed(r)
    decreases v, 0
  {
    match v
    case JArr(items) =>
      var r := JArr(seq(|items|, i requires 0 <= i < |items| => ToCamelCase(items[i])));
      assert WellFormed(r);
      r
    case JObj(fields) =>
      var converted := seq(|fields|, i requires 0 <= i < |fields| =>
                             (CamelCase(fields[i].0), ConvertValue(fields[i].1)));
      var m := PutAll([], converted);
      WellFormedPutAll(converted);
      JObj(m)
    case _ => v
  }

  /** The value callback of `_.mapValues`: recurse into arrays and objects only. */
  function ConvertValue(x: Json): (r: Json)
    ensures WellFormed(x) ==> WellFormed(r)
    ensures IsObjectLike(x) ==> WellFormed(r)
    decreases x, 1
  {
    if IsObjectLike(x) then ToCamelCase(x) else x
  }

  lemma WellFormedPutAll(s: seq<(string, Json)>)
    requires forall i :: 0 <= i < |s| ==> WellFormed(s[i].1)
    ensures forall j :: 0 <= j < |PutAll([], s)| ==> WellFormed(PutAll([], s)[j].1)
  {
    PutAllEntriesFrom([], s);
  }

  /** The fields `toCamelCase` gives an object, before any lemma about them. */
  function ConvertedFields(fields: seq<(string, Json)>): seq<(string, Json)> {
    seq(|fields|, i requires 0 <= i < |fields| => (CamelCase(fields[i].0), ConvertValue(fields[i].1)))
  }

  lemma ObjectCase(fields: seq<(string, Json)>)
    ensures ToCamelCase(JObj(fields)) == JObj(PutAll([], ConvertedFields(fields)))
  {
  }

  /** Every value of a normalised object is the normalisation of some value of the input. */
  lemma NormalisedValueOrigin(fields: seq<(string, Json)>, key: string)
    ensures var r := Prop(ToCamelCase(JObj(fields)), key);
            r.Some? ==> exists i :: 0 <= i < |fields| && r.value == ConvertValue(fields[i].1)
  {
    var conv := ConvertedFields(fields);
    ObjectCase(fields);
    PutAllEntriesFrom([], conv);
    var r := Prop(ToCamelCase(JObj(fields)), key);
    if r.Some? {
      var m := PutAll([], conv);
      var j :| 0 <= j < |m| && m[j] == (key, r.value);
      var i :| 0 <= i < |conv| && conv[i] == m[j];
      assert r.value == ConvertValue(fields[i].1);
    }
  }

  /** The object case in the order src/app.ts writes it: `_.mapKeys` first, `_.mapValues`
      with the recursive callback second. */
  lemma ObjectCaseAsWritten(fields: seq<(string, Json)>)
    ensures ToCamelCase(JObj(fields)) == JObj(MapValues(ConvertValue, MapKeys(fields)))
  {
    var renamed := seq(|fields|, i requires 0 <= i < |fields| => (CamelCase(fields[i].0), fields[i].1));
    PutAllMapValues(ConvertValue, [], renamed);
    assert MapValues(ConvertValue, renamed) == ConvertedFields(fields);
    assert MapValues(ConvertValue, []) == [];
  }

  /** An array is mapped element by element: same length, same order. */
  lemma ArrayCase(items: seq<Json>)
    ensures ToCamelCase(JArr(items)).items == seq(|items|, i requires 0 <= i < |items| => ToCamelCase(items[i]))
  {
  }

  /** The keys of the result are exactly the converted keys of the input. */
  lemma {:induction false} ObjectKeys(fields: seq<(string, Json)>)
    ensures KeySet(ToCamelCase(JObj(fields)).fields) == set k | k in KeySet(fields) :: CamelCase(k)
  {
    var c := ConvertedFields(fields);
    assert KeySet(c) == set k | k in KeySet(fields) :: CamelCase(k) by {
      forall x | x in KeySet(c) ensures x in set k | k in KeySet(fields) :: CamelCase(k) {
        var i :| 0 <= i < |c| && c[i].0 == x;
        assert fields[i].0 in KeySet(fields);
      }
      forall k | k in KeySet(fields) ensures CamelCase(k) in KeySet(c) {
        var i :| 0 <= i < |fields| && fields[i].0 == k;
        assert c[i].0 == CamelCase(k);
      }
    }
  }

  /** On a key collision the later field wins: field `i` supplies the value of its converted
      key exactly when no later field converts to the same key. */
  lemma {:induction false} ObjectLaterKeyWins(fields: seq<(string, Json)>, i: nat)
    requires i < |fields|
    requires forall j :: i < j < |fields| ==> CamelCase(fields[j].0) != CamelCase(fields[i].0)
    ensures Get(ToCamelCase(JObj(fields)).fields, CamelCase(fields[i].0)) == Some(ConvertValue(fields[i].1))
  {
    var c := ConvertedFields(fields);
    var k := CamelCase(fields[i].0);
    assert c[i].0 == k;
    GetPutAll([], c, k);
    var v := LastValue(c, k);
    var i' :| 0 <= i' < |c| && c[i'] == (k, v.value) && forall j :: i' < j < |c| ==> c[j].0 != k;
    assert i' == i;
  }

  /** Converted fields whose keys are converted already and whose values are normalised
      already are left as they are. */
  lemma ConvertedFieldsFixed(fields: seq<(string, Json)>, m: seq<(string, Json)>)
    requires forall i :: 0 <= i < |fields| ==> ConvertValue(ConvertValue(fields[i].1)) == ConvertValue(fields[i].1)
    requires forall j :: 0 <= j < |m| ==> m[j] in ConvertedFields(fields)
    ensures ConvertedFields(m) == m
  {
    var c := ConvertedFields(fields);
    forall j | 0 <= j < |m| ensures ConvertedFields(m)[j] == m[j] {
      var i :| 0 <= i < |c| && m[j] == c[i];
      CamelCaseIdempotent(fields[i].0);
    }
  }

  /** The object step of idempotence, given idempotence of every field value. */
  lemma ObjectIdempotent(fields: seq<(string, Json)>)
    requires forall i :: 0 <= i < |fields| ==> ConvertValue(ConvertValue(fields[i].1)) == ConvertValue(fields[i].1)
    ensures ToCamelCase(ToCamelCase(JObj(fields))) == ToCamelCase(JObj(fields))
  {
    var c := ConvertedFields(fields);
    var m := PutAll([], c);
    ObjectCase(fields);
    ObjectCase(m);
    PutAllEntriesFrom([], c);
    ConvertedFieldsFixed(fields, m);
    assert [] + m == m;
    PutAllFresh([], m);
    assert ToCamelCase(JObj(m)) == JObj(m);
  }

  /** Normalisation is idempotent. */
  lemma {:induction false} ToCamelCaseIdempotent(v: Json)
    ensures ToCamelCase(ToCamelCase(v)) == ToCamelCase(v)
    decreases v, 0
  {
    match v
    case JArr(items) =>
      forall i | 0 <= i < |items| ensures ToCamelCase(ToCamelCase(items[i])) == ToCamelCase(items[i]) {
        ToCamelCaseIdempotent(items[i]);
      }
    case JObj(fields) =>
      forall i | 0 <= i < |fields|
        ensures ConvertValue(ConvertValue(fields[i].1)) == ConvertValue(fields[i].1)
      {
        ConvertValueIdempotent(fields[i].1);
      }
      ObjectIdempotent(fields);
    case _ =>
  }

  lemma {:induction false} ConvertValueIdempotent(x: Json)
    ensures ConvertValue(ConvertValue(x)) == ConvertValue(x)
    decreases x, 1
  {
    if IsObjectLike(x) {
      ToCamelCaseIdempotent(x);
    }
  }
}
