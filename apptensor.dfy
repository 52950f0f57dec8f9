/** The schema and input checks of app/src/logic/tensor.py, and the ordering
    of input values by the schema's `index` before they reach the model.
    A schema is an ordered dictionary (Python keeps insertion order): a
    sequence of (name, item) pairs. Whether a value can be cast with `int`
    or `float` is given by `Casts`. */
module AppTensor {
  import opened Wrappers
  import opened Text
  import opened Json

  const AllowedTypes: seq<string> := ["INT", "FLOAT"]

  /** A stored schema entry: its variable type and its position index. */
  datatype SchemaItem = SchemaItem(varType: string, index: int)

  /** Whether `int(x)` and `float(x)` succeed on a value. */
  datatype Casts = Casts(toInt: Json -> bool, toFloat: Json -> bool)

  /** `is_valid_model_schema`: every type name, upper-cased, is allowed. */
  predicate IsValidModelSchema(schema: seq<(string, string)>): (ok: bool)
    ensures ok <==> forall i :: 0 <= i < |schema| ==> Upper(schema[i].1) == "INT" || Upper(schema[i].1) == "FLOAT"
  {
    forall i :: 0 <= i < |schema| ==> Upper(schema[i].1) in AllowedTypes
  }

  /** `TYPE_CONVERTORS.get(name)`: a cast for INT and FLOAT, None otherwise. */
  function Convertor(name: string, casts: Casts): (r: Option<Json -> bool>)
    ensures r.Some? <==> name in AllowedTypes
  {
    if name == "INT" then Some(casts.toInt)
    else if name == "FLOAT" then Some(casts.toFloat)
    else None
  }

  /** One schema entry is satisfied: the key is present and its value casts
      to the entry's type (calling a missing convertor raises, which the
      function reports as False). */
  predicate EntryValid(data: map<string, Json>, entry: (string, SchemaItem), casts: Casts)
  {
    var convertor := Convertor(Upper(entry.1.varType), casts);
    entry.0 in data && convertor.Some? && convertor.value(data[entry.0])
  }

  predicate DataPointValid(data: map<string, Json>, schema: seq<(string, SchemaItem)>, casts: Casts)
  {
    forall j :: 0 <= j < |schema| ==> EntryValid(data, schema[j], casts)
  }

  /** `validate_data_point`: the first failing schema entry makes it False. */
  method ValidateDataPoint(data: map<string, Json>, schema: seq<(string, SchemaItem)>, casts: Casts) returns (ok: bool)
    ensures ok == DataPointValid(data, schema, casts)
  {
    var i := 0;
    while i < |schema|
      invariant 0 <= i <= |schema|
      invariant forall j :: 0 <= j < i ==> EntryValid(data, schema[j], casts)
    {
      var (key, item) := schema[i];
      if key !in data {
        return false;
      }
      var convertor := Convertor(Upper(item.varType), casts);
      if convertor.None? || !convertor.value(data[key]) {
        return false;
      }
      i := i + 1;
    }
    return true;
  }

  /** A missing schema key, an unknown type name or a value that does not
      cast makes the data point invalid; keys of the data that the schema
      does not name play no part. */
  lemma DataPointValidExactly(data: map<string, Json>, schema: seq<(string, SchemaItem)>, casts: Casts)
    ensures DataPointValid(data, schema, casts) <==>
      forall j :: 0 <= j < |schema| ==>
        && schema[j].0 in data
        && Upper(schema[j].1.varType) in AllowedTypes
        && (if Upper(schema[j].1.varType) == "INT" then casts.toInt(data[schema[j].0]) else casts.toFloat(data[schema[j].0]))
  {
  }

  lemma ExtraKeysIgnored(data: map<string, Json>, extra: map<string, Json>, schema: seq<(string, SchemaItem)>, casts: Casts)
    requires forall j :: 0 <= j < |schema| ==> schema[j].0 !in extra
    ensures DataPointValid(data + extra, schema, casts) == DataPointValid(data, schema, casts)
  {
    forall j | 0 <= j < |schema|
      ensures EntryValid(data + extra, schema[j], casts) == EntryValid(data, schema[j], casts)
    {
      if schema[j].0 in data {
        assert (data + extra)[schema[j].0] == data[schema[j].0];
      }
    }
  }

  /** A flattened schema row: {'name': k, 'var_type': ..., 'index': ...}. */
  datatype Column = Column(name: string, varType: string, index: int)

  function Flatten(schema: seq<(string, SchemaItem)>): (r: seq<Column>)
    ensures |r| == |schema|
    ensures forall j :: 0 <= j < |r| ==> r[j] == Column(schema[j].0, schema[j].1.varType, schema[j].1.index)
  {
    seq(|schema|, j requires 0 <= j < |schema| => Column(schema[j].0, schema[j].1.varType, schema[j].1.index))
  }

  predicate SortedByIndex(s: seq<Column>)
  {
    forall i, j :: 0 <= i < j < |s| ==> s[i].index <= s[j].index
  }

  /** The rows of `s` with index `k`, in their order in `s`. */
  function WithIndex(s: seq<Column>, k: int): seq<Column>
  {
    if s == [] then [] else (if s[0].index == k then [s[0]] else []) + WithIndex(s[1..], k)
  }

  /** Insert `x` before the first row whose index is not smaller. */
  function Insert(x: Column, t: seq<Column>): (r: seq<Column>)
    ensures multiset(r) == multiset(t) + multiset{x}
  {
    if t == [] || x.index <= t[0].index then [x] + t
    else
      assert t == [t[0]] + t[1..];
      [t[0]] + Insert(x, t[1..])
  }

  /** `sorted(rows, key=lambda row: row['index'])`: a stable sort. */
  function SortByIndex(s: seq<Column>): (r: seq<Column>)
    ensures multiset(r) == multiset(s)
    ensures |r| == |s|
  {
    if s == [] then []
    else
      assert s == [s[0]] + s[1..];
      Insert(s[0], SortByIndex(s[1..]))
  }

  lemma ConsSorted(h: Column, r: seq<Column>)
    requires SortedByIndex(r)
    requires forall c :: c in r ==> h.index <= c.index
    ensures SortedByIndex([h] + r)
  {
    var s := [h] + r;
    forall i, j | 0 <= i < j < |s| ensures s[i].index <= s[j].index {
      assert s[j] == r[j - 1];
      if i == 0 {
        assert r[j - 1] in r;
      } else {
        assert s[i] == r[i - 1];
      }
    }
  }

  lemma {:induction false} InsertSorted(x: Column, t: seq<Column>)
    requires SortedByIndex(t)
    ensures SortedByIndex(Insert(x, t))
  {
    if t == [] || x.index <= t[0].index {
      if t != [] {
        forall c | c in t ensures x.index <= c.index {
          var m :| 0 <= m < |t| && t[m] == c;
        }
      }
      ConsSorted(x, t);
    } else {
      var tail := t[1..];
      assert SortedByIndex(tail) by {
        forall i, j | 0 <= i < j < |tail| ensures tail[i].index <= tail[j].index {
          assert tail[i] == t[i + 1] && tail[j] == t[j + 1];
        }
      }
      InsertSorted(x, tail);
      var r := Insert(x, tail);
      forall c | c in r ensures t[0].index <= c.index {
        assert c in multiset(r);
        if c != x {
          assert c in multiset(tail);
          var m :| 0 <= m < |tail| && tail[m] == c;
          assert t[m + 1] == c;
        }
      }
      ConsSorted(t[0], r);
    }
  }

  lemma {:induction false} InsertWithIndex(x: Column, t: seq<Column>, k: int)
    ensures WithIndex(Insert(x, t), k) == (if x.index == k then [x] else []) + WithIndex(t, k)
  {
    if t == [] || x.index <= t[0].index {
      assert ([x] + t)[1..] == t;
    } else {
      InsertWithIndex(x, t[1..], k);
      assert ([t[0]] + Insert(x, t[1..]))[1..] == Insert(x, t[1..]);
    }
  }

  /** The sort orders rows by ascending index and keeps rows with equal
      index in their original order; with the multiset equality this pins
      the result down completely. */
  lemma {:induction false} SortByIndexStable(s: seq<Column>)
    ensures SortedByIndex(SortByIndex(s))
    ensures forall k :: WithIndex(SortByIndex(s), k) == WithIndex(s, k)
  {
    if s != [] {
      SortByIndexStable(s[1..]);
      InsertSorted(s[0], SortByIndex(s[1..]));
      forall k ensures WithIndex(SortByIndex(s), k) == WithIndex(s, k) {
        InsertWithIndex(s[0], SortByIndex(s[1..]), k);
      }
    }
  }

  /** Every row's name is a key of `v`. */
  predicate AllNamed(cols: seq<Column>, v: map<string, Json>)
  {
    forall j :: 0 <= j < |cols| ==> cols[j].name in v
  }

  /** Every schema key is a key of `v`. */
  predicate AllKeys(schema: seq<(string, SchemaItem)>, v: map<string, Json>)
  {
    forall j :: 0 <= j < |schema| ==> schema[j].0 in v
  }

  /** `row` holds the value of each of `cols`' names, in order. */
  predicate RowOf(row: seq<Json>, cols: seq<Column>, v: map<string, Json>)
  {
    |row| == |cols| && forall j :: 0 <= j < |cols| ==> cols[j].name in v && row[j] == v[cols[j].name]
  }

  /** The inner loop of `_format_input_vector` and `sort_input_vector`:
      the value of each row's name, in row order; None where the lookup
      `v[var_name]` raises KeyError. */
  method SortInputVector(v: map<string, Json>, cols: seq<Column>) returns (row: Option<seq<Json>>)
    ensures row.Some? <==> AllNamed(cols, v)
    ensures row.Some? ==> RowOf(row.value, cols, v)
  {
    var values: seq<Json> := [];
    var i := 0;
    while i < |cols|
      invariant 0 <= i <= |cols|
      invariant |values| == i
      invariant forall j :: 0 <= j < i ==> cols[j].name in v && values[j] == v[cols[j].name]
    {
      if cols[i].name !in v {
        return None;
      }
      values := values + [v[cols[i].name]];
      i := i + 1;
    }
    return Some(values);
  }

  /** Sorting keeps the rows, so the sorted rows name exactly the schema's keys. */
  lemma SameNames(schema: seq<(string, SchemaItem)>, cols: seq<Column>, v: map<string, Json>)
    requires cols == SortByIndex(Flatten(schema))
    ensures AllNamed(cols, v) <==> AllKeys(schema, v)
  {
    var flat := Flatten(schema);
    if AllKeys(schema, v) {
      forall j | 0 <= j < |cols| ensures cols[j].name in v {
        assert cols[j] in multiset(flat);
        var i :| 0 <= i < |flat| && flat[i] == cols[j];
      }
    }
    if AllNamed(cols, v) {
      forall i | 0 <= i < |schema| ensures schema[i].0 in v {
        assert flat[i] in multiset(cols);
        var j :| 0 <= j < |cols| && cols[j] == flat[i];
      }
    }
  }

  /** `_format_input_vector`: one value per schema key, ordered by the
      schema's index (see SortByIndexStable); None when a key is missing. */
  method FormatInputVector(v: map<string, Json>, schema: seq<(string, SchemaItem)>) returns (row: Option<seq<Json>>)
    ensures row.Some? <==> AllKeys(schema, v)
    ensures row.Some? ==> |row.value| == |schema|
    ensures row.Some? ==> RowOf(row.value, SortByIndex(Flatten(schema)), v)
  {
    var cols := SortByIndex(Flatten(schema));
    SameNames(schema, cols, v);
    row := SortInputVector(v, cols);
  }

  /** `_format_input_vector_batch`: one row per input vector, each ordered
      as by FormatInputVector; None when any vector lacks a schema key. */
  method FormatInputVectorBatch(vs: seq<map<string, Json>>, schema: seq<(string, SchemaItem)>) returns (batch: Option<seq<seq<Json>>>)
    ensures batch.Some? <==> forall i :: 0 <= i < |vs| ==> AllKeys(schema, vs[i])
    ensures batch.Some? ==> |batch.value| == |vs|
    ensures batch.Some? ==> forall i :: 0 <= i < |vs| ==> RowOf(batch.value[i], SortByIndex(Flatten(schema)), vs[i])
  {
    var cols := SortByIndex(Flatten(schema));
    var rows: seq<seq<Json>> := [];
    var i := 0;
    while i < |vs|
      invariant 0 <= i <= |vs|
      invariant |rows| == i
      invariant forall k :: 0 <= k < i ==> AllKeys(schema, vs[k])
      invariant forall k :: 0 <= k < i ==> RowOf(rows[k], cols, vs[k])
    {
      SameNames(schema, cols, vs[i]);
      var row := SortInputVector(vs[i], cols);
      if row.None? {
        return None;
      }
      rows := rows + [row.value];
      i := i + 1;
    }
    return Some(rows);
  }

  /** `validate_csv_file` once the header row is parsed: `cols` is None when
      parsing fails. */
  function ValidateCsvHeader(cols: Option<seq<string>>, schemaKeys: set<string>): (ok: bool)
    ensures cols.None? ==> !ok
    ensures ok ==> (set c | c in cols.value) <= schemaKeys && |cols.value| == |schemaKeys|
  {
    cols.Some? && (forall c :: c in cols.value ==> c in schemaKeys) && |cols.value| == |schemaKeys|
  }

  predicate Distinct(s: seq<string>)
  {
    forall i, j :: 0 <= i < j < |s| ==> s[i] != s[j]
  }

  lemma {:induction false} DistinctCard(s: seq<string>)
    requires Distinct(s)
    ensures |set c | c in s| == |s|
  {
    if s != [] {
      DistinctCard(s[1..]);
      assert (set c | c in s) == (set c | c in s[1..]) + {s[0]};
      assert s[0] !in (set c | c in s[1..]);
    }
  }

  lemma SubsetSameCard(a: set<string>, b: set<string>)
    requires a <= b && |a| == |b|
    ensures a == b
  {
    assert |b - a| == |b| - |a|;
  }

  /** With distinct column names (the parser renames duplicates), the header
      is accepted exactly when its columns are the schema's keys. */
  lemma CsvHeaderIsSchemaKeys(cols: seq<string>, schemaKeys: set<string>)
    requires Distinct(cols)
    ensures ValidateCsvHeader(Some(cols), schemaKeys) <==> (set c | c in cols) == schemaKeys
  {
    DistinctCard(cols);
    if ValidateCsvHeader(Some(cols), schemaKeys) {
      SubsetSameCard((set c | c in cols), schemaKeys);
    }
  }
}
