// Canonical argument values and the recorded form they are keyed by.
//
// The model works on JSON trees rather than on JSON text: booleans, integers and
// floats are separate constructors because they are spelled differently, and a finite
// float is represented by its spelling.
module Canonical {
  import opened Wrappers

  datatype Json =
    | JNull
    | JBool(b: bool)
    | JInt(i: int)
    | JFloat(spelling: string)
    | JString(s: string)
    | JList(items: seq<Json>)
    | JObject(fields: map<string, Json>)

  datatype Value =
    | Null
    | Bool(b: bool)
    | Int(i: int)
    | Float(spelling: string)
    | NonFinite // NaN and the infinities, which the JSON data model lacks
    | String(s: string)
    | List(items: seq<Value>)
    | Object(fields: map<string, Value>)
    | Fallback(representation: Value)

  // One call's arguments by name.
  type Arguments = map<string, Value>

  // ArgumentCanonicalizationError and InvalidExecutionError.
  datatype CanonicalError = Uncanonical | InvalidRecord

  // The recorded form and the digest that keys the call.
  datatype CanonicalArguments = CanonicalArguments(data: Json, digest: string)

  const MARKER := "__glyff_fallback__"

  // ---- Encoding -------------------------------------------------------------------

  function EncodeValue(value: Value): (r: Result<Json, CanonicalError>) {
    match value
    case Null => Ok(JNull)
    case Bool(b) => Ok(JBool(b))
    case Int(i) => Ok(JInt(i))
    case Float(spelling) => Ok(JFloat(spelling))
    case NonFinite => Err(Uncanonical)
    case String(s) => Ok(JString(s))
    case Fallback(representation) =>
      var inner :- EncodeValue(representation);
      Ok(JObject(map[MARKER := inner]))
    case List(items) =>
      if exists i | 0 <= i < |items| :: EncodeValue(items[i]).Err? then
        Err(Uncanonical)
      else
        Ok(JList(seq(|items|, i requires 0 <= i < |items| => EncodeValue(items[i]).value)))
    case Object(fields) =>
      if MARKER in fields || exists k | k in fields :: EncodeValue(fields[k]).Err? then
        Err(Uncanonical)
      else
        Ok(JObject(map k | k in fields :: EncodeValue(fields[k]).value))
  }

  // The constructor of CanonicalArguments, up to the digest.
  function Encode(arguments: Arguments): Result<Json, CanonicalError> {
    EncodeValue(Object(arguments))
  }

  // ---- Restoring ------------------------------------------------------------------

  function RestoreValue(json: Json): (r: Result<Value, CanonicalError>) {
    match json
    case JNull => Ok(Null)
    case JBool(b) => Ok(Bool(b))
    case JInt(i) => Ok(Int(i))
    case JFloat(spelling) => Ok(Float(spelling))
    case JString(s) => Ok(String(s))
    case JList(items) =>
      if exists i | 0 <= i < |items| :: RestoreValue(items[i]).Err? then
        Err(InvalidRecord)
      else
        Ok(List(seq(|items|, i requires 0 <= i < |items| => RestoreValue(items[i]).value)))
    case JObject(fields) =>
      if |fields| == 1 && MARKER in fields then
        var inner :- RestoreValue(fields[MARKER]);
        Ok(Fallback(inner))
      else if MARKER in fields || exists k | k in fields :: RestoreValue(fields[k]).Err? then
        Err(InvalidRecord)
      else
        Ok(Object(map k | k in fields :: RestoreValue(fields[k]).value))
  }

  // The top-level mapping is restored entry by entry, so a marker there is not read as
  // a fallback; only encoding the result again refuses it.
  function Decode(data: Json): Result<Arguments, CanonicalError> {
    if !data.JObject? then
      Err(InvalidRecord)
    else if exists k | k in data.fields :: RestoreValue(data.fields[k]).Err? then
      Err(InvalidRecord)
    else
      Ok(map k | k in data.fields :: RestoreValue(data.fields[k]).value)
  }

  function FromRecorded(data: Json): Result<Json, CanonicalError> {
    var decoded :- Decode(data);
    var again :- Encode(decoded);
    if again != data then Err(InvalidRecord) else Ok(data)
  }

  // ---- Canonicalizing -------------------------------------------------------------

  // The canonicalizer's walk, on values that are already canonical.
  function ToCanonical(value: Value): (r: Result<Value, CanonicalError>) {
    match value
    case Fallback(_) => if EncodeValue(value).Ok? then Ok(value) else Err(Uncanonical)
    case List(items) =>
      if exists i | 0 <= i < |items| :: ToCanonical(items[i]).Err? then
        Err(Uncanonical)
      else
        Ok(List(seq(|items|, i requires 0 <= i < |items| => ToCanonical(items[i]).value)))
    case Object(fields) =>
      if exists k | k in fields :: ToCanonical(fields[k]).Err? then
        Err(Uncanonical)
      else
        Ok(Object(map k | k in fields :: ToCanonical(fields[k]).value))
    case _ => Ok(value)
  }

  function Canonicalize(arguments: Arguments): Result<Json, CanonicalError> {
    var canonical :- ToCanonical(Object(arguments));
    EncodeValue(canonical)
  }

  // ---- What is accepted -----------------------------------------------------------

  ghost predicate Encodable(value: Value) {
    match value
    case NonFinite => false
    case Fallback(representation) => Encodable(representation)
    case List(items) => forall i :: 0 <= i < |items| ==> Encodable(items[i])
    case Object(fields) => MARKER !in fields && forall k :: k in fields ==> Encodable(fields[k])
    case _ => true
  }

  ghost predicate Restorable(json: Json) {
    match json
    case JList(items) => forall i :: 0 <= i < |items| ==> Restorable(items[i])
    case JObject(fields) =>
      && (MARKER in fields ==> fields.Keys == {MARKER})
      && forall k :: k in fields ==> Restorable(fields[k])
    case _ => true
  }

  lemma {:induction false} SingletonKeys<V>(m: map<string, V>, key: string)
    requires key in m
    ensures |m| == 1 <==> m.Keys == {key}
  {
    assert |m| == |m.Keys|;
    if |m| == 1 {
      assert |m.Keys - {key}| == 0;
      assert m.Keys == {key};
    }
  }

  lemma {:induction false} EncodeAccepts(value: Value)
    ensures EncodeValue(value).Ok? <==> Encodable(value)
  {
    match value
    case Fallback(representation) => EncodeAccepts(representation);
    case List(items) => forall i | 0 <= i < |items| { EncodeAccepts(items[i]); }
    case Object(fields) => forall k | k in fields { EncodeAccepts(fields[k]); }
    case _ =>
  }

  lemma {:induction false} RestoreAccepts(json: Json)
    ensures RestoreValue(json).Ok? <==> Restorable(json)
  {
    match json
    case JList(items) => forall i | 0 <= i < |items| { RestoreAccepts(items[i]); }
    case JObject(fields) =>
      forall k | k in fields { RestoreAccepts(fields[k]); }
      if MARKER in fields { SingletonKeys(fields, MARKER); }
    case _ =>
  }

  // ---- What is written ------------------------------------------------------------

  // The tree that spells a value: the same shape node by node, a fallback as the mapping
  // whose one key is the reserved name.
  ghost predicate Spells(value: Value, json: Json) {
    match value
    case Null => json.JNull?
    case Bool(b) => json == JBool(b)
    case Int(i) => json == JInt(i)
    case Float(spelling) => json == JFloat(spelling)
    case NonFinite => false
    case String(s) => json == JString(s)
    case Fallback(representation) =>
      json.JObject? && json.fields.Keys == {MARKER} && Spells(representation, json.fields[MARKER])
    case List(items) =>
      json.JList? && |json.items| == |items| && forall i :: 0 <= i < |items| ==> Spells(items[i], json.items[i])
    case Object(fields) =>
      && json.JObject? && json.fields.Keys == fields.Keys && MARKER !in fields
      && forall k :: k in fields ==> Spells(fields[k], json.fields[k])
  }

  lemma {:induction false} EncodedSpells(value: Value, json: Json)
    ensures EncodeValue(value) == Ok(json) <==> Spells(value, json)
  {
    match value
    case Fallback(representation) =>
      if json.JObject? && MARKER in json.fields {
        EncodedSpells(representation, json.fields[MARKER]);
        assert json.fields.Keys == {MARKER} ==> json.fields == map[MARKER := json.fields[MARKER]];
      }
    case List(items) =>
      if json.JList? && |json.items| == |items| {
        forall i | 0 <= i < |items| { EncodedSpells(items[i], json.items[i]); }
        if Spells(value, json) { assert EncodeValue(value).value.items == json.items; }
      }
    case Object(fields) =>
      if json.JObject? && json.fields.Keys == fields.Keys {
        forall k | k in fields { EncodedSpells(fields[k], json.fields[k]); }
        if Spells(value, json) { assert EncodeValue(value).value.fields == json.fields; }
      }
    case _ =>
  }

  // ---- Inverses -------------------------------------------------------------------

  // Restoring what encoding wrote gives the value back, fallbacks at any depth included.
  lemma {:induction false} RestoreAfterEncode(value: Value)
    requires Encodable(value)
    ensures EncodeValue(value).Ok? && RestoreValue(EncodeValue(value).value) == Ok(value)
  {
    EncodeAccepts(value);
    var encoded := EncodeValue(value).value;
    match value
    case Fallback(representation) =>
      RestoreAfterEncode(representation);
      assert |encoded.fields| == 1 && encoded.fields[MARKER] == EncodeValue(representation).value;
    case List(items) =>
      forall i | 0 <= i < |items| ensures RestoreValue(encoded.items[i]) == Ok(items[i]) {
        EncodeAccepts(items[i]);
        RestoreAfterEncode(items[i]);
      }
      assert RestoreValue(encoded).value.items == items;
    case Object(fields) =>
      forall k | k in fields ensures RestoreValue(encoded.fields[k]) == Ok(fields[k]) {
        EncodeAccepts(fields[k]);
        RestoreAfterEncode(fields[k]);
      }
      assert encoded.fields.Keys == fields.Keys;
      assert RestoreValue(encoded).value.fields == fields;
    case _ =>
  }

  // Encoding what restoring read gives the recorded form back.
  lemma {:induction false} EncodeAfterRestore(json: Json)
    requires Restorable(json)
    ensures RestoreValue(json).Ok? && EncodeValue(RestoreValue(json).value) == Ok(json)
  {
    RestoreAccepts(json);
    var value := RestoreValue(json).value;
    match json
    case JList(items) =>
      forall i | 0 <= i < |items| ensures EncodeValue(value.items[i]) == Ok(items[i]) {
        RestoreAccepts(items[i]);
        EncodeAfterRestore(items[i]);
      }
      assert EncodeValue(value).value.items == items;
    case JObject(fields) =>
      if MARKER in fields {
        SingletonKeys(fields, MARKER);
        EncodeAfterRestore(fields[MARKER]);
        assert fields == map[MARKER := fields[MARKER]];
      } else {
        forall k | k in fields ensures EncodeValue(value.fields[k]) == Ok(fields[k]) {
          RestoreAccepts(fields[k]);
          EncodeAfterRestore(fields[k]);
        }
        assert EncodeValue(value).value.fields == fields;
      }
    case _ =>
  }

  // Reading back a tree gives the one value it spells.
  lemma {:induction false} RestoredIsSpelled(value: Value, json: Json)
    ensures RestoreValue(json) == Ok(value) <==> Spells(value, json)
  {
    hide EncodeValue, RestoreValue, Encodable, Restorable, Spells;
    EncodedSpells(value, json);
    EncodeAccepts(value);
    RestoreAccepts(json);
    if Encodable(value) { RestoreAfterEncode(value); }
    if Restorable(json) { EncodeAfterRestore(json); }
  }

  // Two argument mappings share a recorded form only if they are the same mapping.
  lemma {:induction false} EncodingIsInjective(a: Arguments, b: Arguments)
    requires Encode(a).Ok? && Encode(b).Ok? && Encode(a) == Encode(b)
    ensures a == b
  {
    EncodeAccepts(Object(a));
    EncodeAccepts(Object(b));
    RestoreAfterEncode(Object(a));
    RestoreAfterEncode(Object(b));
  }

  // The encodings are exactly the recorded forms that are accepted, and decoding is the
  // inverse of encoding in both directions.
  lemma {:induction false} RecordedFormsAreEncodings(data: Json)
    ensures FromRecorded(data).Ok? <==> exists arguments :: Encode(arguments) == Ok(data)
    ensures FromRecorded(data).Ok? ==> Decode(data).Ok? && Encode(Decode(data).value) == Ok(data)
    ensures forall arguments :: Encode(arguments) == Ok(data) ==> Decode(data) == Ok(arguments)
  {
    forall arguments | Encode(arguments) == Ok(data) ensures Decode(data) == Ok(arguments) {
      EncodeAccepts(Object(arguments));
      RestoreAfterEncode(Object(arguments));
      assert MARKER !in data.fields;
      assert RestoreValue(data) == Ok(Object(arguments));
    }
  }

  // A recorded form is refused for exactly two reasons: it is not a mapping of restorable
  // values, or a top-level argument carries the reserved name.
  lemma {:induction false} FromRecordedAccepts(data: Json)
    ensures FromRecorded(data).Ok? <==> data.JObject? && MARKER !in data.fields && Restorable(data)
  {
    if data.JObject? {
      forall k | k in data.fields { RestoreAccepts(data.fields[k]); }
      if MARKER !in data.fields && Restorable(data) {
        EncodeAfterRestore(data);
        assert RestoreValue(data).value.fields == Decode(data).value;
      }
    }
  }

  lemma {:induction false} ToCanonicalIsIdentity(value: Value)
    ensures ToCanonical(value).Ok? ==> ToCanonical(value).value == value
    ensures Encodable(value) ==> ToCanonical(value).Ok?
  {
    match value
    case List(items) =>
      forall i | 0 <= i < |items| { ToCanonicalIsIdentity(items[i]); }
      if ToCanonical(value).Ok? { assert ToCanonical(value).value.items == items; }
    case Object(fields) =>
      forall k | k in fields { ToCanonicalIsIdentity(fields[k]); }
      if ToCanonical(value).Ok? { assert ToCanonical(value).value.fields == fields; }
    case Fallback(_) => EncodeAccepts(value);
    case _ =>
  }

  // A recorded call passes through the canonicalizer unchanged: what a migration reads
  // back and returns keys the call exactly as before.
  lemma {:induction false} RecordedArgumentsAreStable(data: Json)
    requires FromRecorded(data).Ok?
    ensures Decode(data).Ok? && Canonicalize(Decode(data).value) == Ok(data)
  {
    var arguments := Decode(data).value;
    EncodeAccepts(Object(arguments));
    ToCanonicalIsIdentity(Object(arguments));
  }

  // On canonical values, canonicalizing refuses exactly what encoding refuses.
  lemma {:induction false} CanonicalizeIsEncode(arguments: Arguments)
    ensures Canonicalize(arguments) == Encode(arguments)
  {
    EncodeAccepts(Object(arguments));
    ToCanonicalIsIdentity(Object(arguments));
  }
}
