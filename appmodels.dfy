/** The request model of app/src/models/models.py: a model upload carries
    a schema whose every item names an allowed variable type and an integer
    index. */
module AppModels {
  import opened Wrappers
  import opened Text
  import opened Json
  import opened AppTensor

  /** `SchemaItem.validate_schema_item`: the type name is checked
      case-insensitively and kept as written. */
  function ValidateSchemaItem(v: string): (r: Result<string, string>)
    ensures r.Success? <==> Upper(v) in AllowedTypes
    ensures r.Success? ==> r.value == v
    ensures r.Failure? ==> r.error == "Invalid variable type " + v
  {
    if Upper(v) !in AllowedTypes then Failure("Invalid variable type " + v) else Success(v)
  }

  /** Accepting a type name does not depend on its letter case. */
  lemma SchemaItemCaseInsensitive(v: string)
    ensures ValidateSchemaItem(v).Success? <==> ValidateSchemaItem(Lower(v)).Success?
  {
    UpperOfLower(v);
  }

  /** A type name passes the item validator exactly when it passes
      `is_valid_model_schema`, and exactly when `validate_data_point` has a
      convertor for it. */
  lemma SchemaItemAgreesWithSchemaCheck(schema: seq<(string, string)>, casts: Casts)
    ensures IsValidModelSchema(schema) <==> forall i :: 0 <= i < |schema| ==> ValidateSchemaItem(schema[i].1).Success?
    ensures forall i :: 0 <= i < |schema| ==>
      (ValidateSchemaItem(schema[i].1).Success? <==> Convertor(Upper(schema[i].1), casts).Some?)
  {
  }

  /** The validity of one schema item as JSON: an object with a string
      `var_type` naming an allowed type and an integer `index`. */
  predicate ItemValid(j: Json, c: Coercions)
  {
    && j.JObject?
    && "var_type" in j.fields && c.toStr(j.fields["var_type"]).Some?
    && Upper(c.toStr(j.fields["var_type"]).value) in AllowedTypes
    && "index" in j.fields && c.toInt(j.fields["index"]).Some?
  }

  /** `SchemaItem(**j)`: var_type is coerced and validated, then index. */
  function ParseSchemaItem(j: Json, c: Coercions, at: seq<string>): (r: Checked<SchemaItem>)
    ensures r.Success? <==> ItemValid(j, c)
    ensures r.Success? ==> r.value == SchemaItem(c.toStr(j.fields["var_type"]).value, c.toInt(j.fields["index"]).value)
  {
    if !j.JObject? then Failure([FieldError(at, WrongType)])
    else
      var varType := Field(j.fields, "var_type", c.toStr, at);
      var checked: Checked<string> :=
        if varType.Failure? then varType
        else match ValidateSchemaItem(varType.value)
          case Success(v) => Success(v)
          case Failure(m) => Failure([FieldError(at + ["var_type"], Custom(m))]);
      var index := Field(j.fields, "index", c.toInt, at);
      if checked.Success? && index.Success? then Success(SchemaItem(checked.value, index.value))
      else Failure(Errors(checked) + Errors(index))
  }

  /** `Dict[str, SchemaItem]`: an object whose every value is a schema item. */
  function ParseModelSchema(j: Json, c: Coercions): (r: Checked<map<string, SchemaItem>>)
    ensures r.Success? <==> j.JObject? && forall k :: k in j.fields ==> ItemValid(j.fields[k], c)
    ensures r.Success? ==> r.value.Keys == j.fields.Keys
    ensures r.Success? ==> forall k :: k in r.value ==>
      r.value[k] == SchemaItem(c.toStr(j.fields[k].fields["var_type"]).value, c.toInt(j.fields[k].fields["index"]).value)
  {
    if !j.JObject? then Failure([FieldError(["model_schema"], WrongType)])
    else if forall k :: k in j.fields ==> ItemValid(j.fields[k], c) then
      Success(map k | k in j.fields :: ParseSchemaItem(j.fields[k], c, ["model_schema", k]).value)
    else Failure([FieldError(["model_schema"], WrongType)])
  }

  datatype UploadRequest = UploadRequest(
    schema: map<string, SchemaItem>,
    name: string,
    description: string,
    content: string)

  /** `ModelUploadRequest(**kwargs)`: the four fields, in declaration order. */
  function DecodeUploadRequest(kwargs: map<string, Json>, c: Coercions): (r: Checked<UploadRequest>)
    ensures r.Success? <==>
      && "model_schema" in kwargs && ParseModelSchema(kwargs["model_schema"], c).Success?
      && Field(kwargs, "model_name", c.toStr, []).Success?
      && Field(kwargs, "model_description", c.toStr, []).Success?
      && Field(kwargs, "model_content", c.toStr, []).Success?
    ensures r.Success? ==> r.value.schema == ParseModelSchema(kwargs["model_schema"], c).value
  {
    var schema := Field(kwargs, "model_schema", (j: Json) => ParseModelSchema(j, c).ToOption(), []);
    var name := Field(kwargs, "model_name", c.toStr, []);
    var description := Field(kwargs, "model_description", c.toStr, []);
    var content := Field(kwargs, "model_content", c.toStr, []);
    if schema.Success? && name.Success? && description.Success? && content.Success? then
      Success(UploadRequest(schema.value, name.value, description.value, content.value))
    else
      Failure(Errors(schema) + Errors(name) + Errors(description) + Errors(content))
  }

  /** A request that validates carries a schema on which
      `validate_data_point` has a convertor for every item, so its verdict
      depends only on which keys are present and whether their values cast. */
  lemma DecodedSchemaHasConvertors(kwargs: map<string, Json>, c: Coercions, casts: Casts, order: seq<string>)
    requires DecodeUploadRequest(kwargs, c).Success?
    requires forall i :: 0 <= i < |order| ==> order[i] in DecodeUploadRequest(kwargs, c).value.schema
    ensures var schema := DecodeUploadRequest(kwargs, c).value.schema;
      forall i :: 0 <= i < |order| ==> Convertor(Upper(schema[order[i]].varType), casts).Some?
  {
    var j := kwargs["model_schema"];
    var schema := DecodeUploadRequest(kwargs, c).value.schema;
    forall i | 0 <= i < |order| ensures Convertor(Upper(schema[order[i]].varType), casts).Some? {
      assert ItemValid(j.fields[order[i]], c);
    }
  }
}
