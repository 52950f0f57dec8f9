/** Decoded JSON values and the pydantic-style field coercions the Python
    services apply to them. The coercions themselves (what `UUID(...)`,
    `str`, `int` and `float` accept) belong to libraries outside the model and
    are parameters. */
module Json {
  import opened Wrappers

  /** A UUID, carried by its canonical text form (what `str(uuid)` prints). */
  datatype Uuid = Uuid(text: string)

  /** A value produced by `json.loads`. */
  datatype Json =
    | JNull
    | JBool(b: bool)
    | JNumber(n: real)
    | JString(s: string)
    | JArray(items: seq<Json>)
    | JObject(fields: map<string, Json>)

  /** How the model library coerces one JSON value to a field type; `None`
      means the value is rejected for that type. */
  datatype Coercions = Coercions(
    toUuid: Json -> Option<Uuid>,
    toStr: Json -> Option<string>,
    toInt: Json -> Option<int>,
    toFloat: Json -> Option<real>)

  /** Why one field failed validation. */
  datatype ErrorKind =
    | Missing                  // "field required"
    | WrongType                // the coercion for the field's type refused the value
    | Custom(message: string)  // a validator raised ValueError(message)

  /** One entry of a validation error report: where and why. */
  datatype FieldError = FieldError(loc: seq<string>, kind: ErrorKind)

  type Checked<T> = Result<T, seq<FieldError>>

  function Errors<T>(r: Checked<T>): seq<FieldError>
  {
    if r.Failure? then r.error else []
  }

  /** A required field: reported missing when absent, wrong-typed when the
      coercion refuses it. */
  function Field<T>(fields: map<string, Json>, name: string, coerce: Json -> Option<T>,
                    at: seq<string>): (r: Checked<T>)
    ensures r.Success? <==> name in fields && coerce(fields[name]).Some?
    ensures r.Success? ==> r.value == coerce(fields[name]).value
    ensures name !in fields ==> r == Failure([FieldError(at + [name], Missing)])
  {
    if name !in fields then Failure([FieldError(at + [name], Missing)])
    else match coerce(fields[name])
      case Some(v) => Success(v)
      case None => Failure([FieldError(at + [name], WrongType)])
  }

  /** A field with a default value that is used when the field is absent. */
  function FieldOr<T>(fields: map<string, Json>, name: string, coerce: Json -> Option<T>,
                      default: T, at: seq<string>): (r: Checked<T>)
    ensures name !in fields ==> r == Success(default)
    ensures name in fields ==> r == Field(fields, name, coerce, at)
  {
    if name !in fields then Success(default) else Field(fields, name, coerce, at)
  }

  /** A `List[float]`: a JSON array whose every item coerces to a float. */
  function FloatList(v: Json, c: Coercions): (r: Option<seq<real>>)
    ensures r.Some? <==> v.JArray? && forall i :: 0 <= i < |v.items| ==> c.toFloat(v.items[i]).Some?
    ensures r.Some? ==> |r.value| == |v.items|
    ensures r.Some? ==> forall i :: 0 <= i < |v.items| ==> Some(r.value[i]) == c.toFloat(v.items[i])
  {
    if v.JArray? && forall i :: 0 <= i < |v.items| ==> c.toFloat(v.items[i]).Some? then
      Some(seq(|v.items|, i requires 0 <= i < |v.items| => c.toFloat(v.items[i]).value))
    else None
  }

  /** A `Dict[str, float]`: a JSON object whose every value coerces to a float. */
  function FloatDict(v: Json, c: Coercions): (r: Option<map<string, real>>)
    ensures r.Some? <==> v.JObject? && forall k :: k in v.fields ==> c.toFloat(v.fields[k]).Some?
    ensures r.Some? ==> r.value.Keys == v.fields.Keys
    ensures r.Some? ==> forall k :: k in v.fields ==> Some(r.value[k]) == c.toFloat(v.fields[k])
  {
    if v.JObject? && forall k :: k in v.fields ==> c.toFloat(v.fields[k]).Some? then
      Some(map k | k in v.fields :: c.toFloat(v.fields[k]).value)
    else None
  }

  /** A `List[Dict[str, float]]`. */
  function FloatDictList(v: Json, c: Coercions): (r: Option<seq<map<string, real>>>)
    ensures r.Some? <==> v.JArray? && forall i :: 0 <= i < |v.items| ==> FloatDict(v.items[i], c).Some?
    ensures r.Some? ==> |r.value| == |v.items|
    ensures r.Some? ==> forall i :: 0 <= i < |v.items| ==> Some(r.value[i]) == FloatDict(v.items[i], c)
  {
    if v.JArray? && forall i :: 0 <= i < |v.items| ==> FloatDict(v.items[i], c).Some? then
      Some(seq(|v.items|, i requires 0 <= i < |v.items| => FloatDict(v.items[i], c).value))
    else None
  }

  /** A `List[List[float]]`. */
  function FloatListList(v: Json, c: Coercions): (r: Option<seq<seq<real>>>)
    ensures r.Some? <==> v.JArray? && forall i :: 0 <= i < |v.items| ==> FloatList(v.items[i], c).Some?
    ensures r.Some? ==> |r.value| == |v.items|
    ensures r.Some? ==> forall i :: 0 <= i < |v.items| ==> Some(r.value[i]) == FloatList(v.items[i], c)
  {
    if v.JArray? && forall i :: 0 <= i < |v.items| ==> FloatList(v.items[i], c).Some? then
      Some(seq(|v.items|, i requires 0 <= i < |v.items| => FloatList(v.items[i], c).value))
    else None
  }
}
