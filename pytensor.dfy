/** The input checks of python/src/logic/tensor.py: here a schema maps each
    input name straight to its type name, and the input vector is taken in
    the input's own key order. An ordered dictionary is a sequence of
    (key, value) pairs. */
module PyTensor {
  import opened Text
  import opened Json
  import AppTensor

  /** One schema entry is satisfied: the key is present, the type name has a
      convertor, and the value casts with it. */
  predicate EntryValid(data: map<string, Json>, entry: (string, string), casts: AppTensor.Casts)
  {
    var convertor := AppTensor.Convertor(Upper(entry.1), casts);
    entry.0 in data && convertor.Some? && convertor.value(data[entry.0])
  }

  predicate DataPointValid(data: map<string, Json>, schema: seq<(string, string)>, casts: AppTensor.Casts)
  {
    forall j :: 0 <= j < |schema| ==> EntryValid(data, schema[j], casts)
  }

  /** `validate_data_point`: False at the first failing entry. */
  method ValidateDataPoint(data: map<string, Json>, schema: seq<(string, string)>, casts: AppTensor.Casts) returns (ok: bool)
    ensures ok == DataPointValid(data, schema, casts)
  {
    var i := 0;
    while i < |schema|
      invariant 0 <= i <= |schema|
      invariant forall j :: 0 <= j < i ==> EntryValid(data, schema[j], casts)
    {
      var (key, dataType) := schema[i];
      if key !in data {
        return false;
      }
      var convertor := AppTensor.Convertor(Upper(dataType), casts);
      if convertor.None? || !convertor.value(data[key]) {
        return false;
      }
      i := i + 1;
    }
    return true;
  }

  /** The schema of this service read as the app's schema (type names with
      no index). */
  function AsItems(schema: seq<(string, string)>): (r: seq<(string, AppTensor.SchemaItem)>)
    ensures |r| == |schema|
    ensures forall j :: 0 <= j < |r| ==> r[j] == (schema[j].0, AppTensor.SchemaItem(schema[j].1, 0))
  {
    seq(|schema|, j requires 0 <= j < |schema| => (schema[j].0, AppTensor.SchemaItem(schema[j].1, 0)))
  }

  /** Both services decide a data point the same way: a missing key, an
      unknown type name or a value that does not cast rejects it. */
  lemma SameVerdictAsApp(data: map<string, Json>, schema: seq<(string, string)>, casts: AppTensor.Casts)
    ensures DataPointValid(data, schema, casts) == AppTensor.DataPointValid(data, AsItems(schema), casts)
  {
    var items := AsItems(schema);
    forall j | 0 <= j < |schema|
      ensures EntryValid(data, schema[j], casts) == AppTensor.EntryValid(data, items[j], casts)
    {
      assert items[j].1.varType == schema[j].1;
    }
  }

  /** The dictionary built from (key, value) pairs; a later pair wins. */
  function MapOf(d: seq<(string, Json)>): map<string, Json>
  {
    if d == [] then map[] else MapOf(d[..|d| - 1])[d[|d| - 1].0 := d[|d| - 1].1]
  }

  predicate DistinctKeys(d: seq<(string, Json)>)
  {
    forall i, j :: 0 <= i < j < |d| ==> d[i].0 != d[j].0
  }

  lemma {:induction false} MapOfLookup(d: seq<(string, Json)>, i: int)
    requires DistinctKeys(d)
    requires 0 <= i < |d|
    ensures d[i].0 in MapOf(d) && MapOf(d)[d[i].0] == d[i].1
  {
    var n := |d| - 1;
    if i < n {
      assert DistinctKeys(d[..n]);
      MapOfLookup(d[..n], i);
      assert d[..n][i] == d[i];
    }
  }

  /** `_format_input_vector`: the values of the input, in its insertion
      order; the schema plays no part. */
  function FormatInputVector(input: seq<(string, Json)>): (r: seq<Json>)
    ensures |r| == |input|
    ensures forall i :: 0 <= i < |input| ==> r[i] == input[i].1
  {
    seq(|input|, i requires 0 <= i < |input| => input[i].1)
  }

  /** The vector matches the app's index-ordered vector when the input's
      keys already come in the schema's index order. */
  lemma AgreesWithAppInIndexOrder(input: seq<(string, Json)>, cols: seq<AppTensor.Column>)
    requires DistinctKeys(input)
    requires |input| == |cols| && forall i :: 0 <= i < |input| ==> input[i].0 == cols[i].name
    ensures AppTensor.RowOf(FormatInputVector(input), cols, MapOf(input))
  {
    forall i | 0 <= i < |input| {
      MapOfLookup(input, i);
    }
  }
}
