/** The request model of python/src/models/models.py: the upload's schema
    is checked with `is_valid_model_schema`. */
module PyModels {
  import opened Wrappers
  import opened Text
  import opened Json
  import AppTensor
  import PyTensor

  /** `ModelUploadRequest.validate_schema`. */
  function ValidateSchema(v: seq<(string, string)>): (r: Result<seq<(string, string)>, string>)
    ensures r.Success? <==> forall i :: 0 <= i < |v| ==> Upper(v[i].1) in AppTensor.AllowedTypes
    ensures r.Success? ==> r.value == v
    ensures r.Failure? ==> r.error == "Invalid model schema"
  {
    if !AppTensor.IsValidModelSchema(v) then Failure("Invalid model schema") else Success(v)
  }

  /** With no entries there is nothing to reject. */
  lemma EmptySchemaAccepted()
    ensures ValidateSchema([]) == Success([])
  {
  }

  /** On an accepted schema every type name has a convertor, so a data
      point is valid exactly when every key is present and its value casts
      to the named type. */
  lemma AcceptedSchemaDecidesByCasts(v: seq<(string, string)>, data: map<string, Json>, casts: AppTensor.Casts)
    requires ValidateSchema(v).Success?
    ensures PyTensor.DataPointValid(data, v, casts) <==>
      forall i :: 0 <= i < |v| ==>
        && v[i].0 in data
        && (if Upper(v[i].1) == "INT" then casts.toInt(data[v[i].0]) else casts.toFloat(data[v[i].0]))
  {
  }
}
