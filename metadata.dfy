/** Model metadata kept by the Go service (pkg/api/utils.go): one JSON
    object per model, stored in the `tensor-trigger` bucket under
    `metadata/<model id>`, listing the ids of the model's files. What
    `json.Marshal` and `json.Unmarshal` produce and accept belongs to Go's
    library and is a parameter. */
module Metadata {
  import opened Wrappers
  import opened Text
  import opened Json
  import opened BlobStore

  /** `ModelMetadata` of pkg/api/service.go; `Created` is carried as its
      RFC 3339 text. */
  datatype ModelMetadata = ModelMetadata(
    modelName: string,
    modelDescription: string,
    modelId: Uuid,
    created: string,
    files: seq<Uuid>)

  /** `json.Marshal` and `json.Unmarshal` on `ModelMetadata`; `None` is a
      returned error. */
  datatype Codec = Codec(
    marshal: ModelMetadata -> Option<Bytes>,
    unmarshal: Bytes -> Option<ModelMetadata>)

  /** `ErrInvalidMetadata`. */
  const ErrInvalidMetadata: Error := Plain("Invalid model metadata: invalid JSON format")

  /** The bucket all metadata lives in. */
  const MetadataBucket: string := "tensor-trigger"

  /** The storage key of a model's metadata. */
  function MetadataKey(id: Uuid): (key: string)
    ensures |key| == 9 + |id.text|
    ensures key[..9] == "metadata/" && key[9..] == id.text
  {
    "metadata/" + id.text
  }

  /** Different models never share a metadata key. */
  lemma MetadataKeyInjective(a: Uuid, b: Uuid)
    requires MetadataKey(a) == MetadataKey(b)
    ensures a == b
  {
    assert a.text == MetadataKey(a)[9..];
  }

  /** The record with `fileId` appended to its files. */
  function WithFile(meta: ModelMetadata, fileId: Uuid): (r: ModelMetadata)
    ensures |r.files| == |meta.files| + 1
    ensures r.files[..|meta.files|] == meta.files && r.files[|meta.files|] == fileId
    ensures r.(files := meta.files) == meta
  {
    meta.(files := meta.files + [fileId])
  }

  /** What `addFileToMetadata` returns and leaves on the server. */
  function AddFileResult(store: Store, fileId: Uuid, meta: ModelMetadata, codec: Codec,
                         listFault: Option<Error>, putFault: Option<Error>): (r: (Option<Error>, Store))
  {
    match codec.marshal(WithFile(meta, fileId))
    case None => (Some(ErrInvalidMetadata), store)
    case Some(json) =>
      UploadResult(store, MetadataBucket, MetadataKey(meta.modelId), json, true, listFault, putFault)
  }

  /** `addFileToMetadata`: a record that fails to marshal gives
      `ErrInvalidMetadata` and nothing is uploaded; otherwise the updated
      record is uploaded with overwrite, so it succeeds exactly when the
      listing and the upload meet no fault, and then the model's key holds
      the marshalled record with the file appended. */
  lemma AddFileStores(store: Store, fileId: Uuid, meta: ModelMetadata, codec: Codec,
                      listFault: Option<Error>, putFault: Option<Error>)
    ensures codec.marshal(WithFile(meta, fileId)).None? ==>
      AddFileResult(store, fileId, meta, codec, listFault, putFault) == (Some(ErrInvalidMetadata), store)
    ensures AddFileResult(store, fileId, meta, codec, listFault, putFault).0.None? <==>
      codec.marshal(WithFile(meta, fileId)).Some? && listFault.None? && MetadataBucket in store && putFault.None?
    ensures var (e, after) := AddFileResult(store, fileId, meta, codec, listFault, putFault);
      e.None? ==> Lookup(after[MetadataBucket], MetadataKey(meta.modelId)) == codec.marshal(WithFile(meta, fileId))
    ensures var (e, after) := AddFileResult(store, fileId, meta, codec, listFault, putFault);
      e.Some? ==> after == store
  {
    var json := codec.marshal(WithFile(meta, fileId));
    if json.Some? {
      UploadStores(store, MetadataBucket, MetadataKey(meta.modelId), json.value, true, listFault, putFault);
      UploadErrors(store, MetadataBucket, MetadataKey(meta.modelId), json.value, true, listFault, putFault);
    }
  }

  /** `addFileToMetadata`. */
  method AddFileToMetadata(s3: Server, fileId: Uuid, meta: ModelMetadata, codec: Codec,
                           listFault: Option<Error>, putFault: Option<Error>) returns (err: Option<Error>)
    requires s3.Valid()
    modifies s3
    ensures s3.Valid()
    ensures (err, s3.buckets) == AddFileResult(old(s3.buckets), fileId, meta, codec, listFault, putFault)
  {
    var updated := meta.(files := meta.files + [fileId]);
    var key := MetadataKey(updated.modelId);
    var json := codec.marshal(updated);
    if json.None? {
      return Some(ErrInvalidMetadata);
    }
    err := UploadFile(s3, MetadataBucket, key, json.value, true, listFault, putFault);
    if err.Some? {
      return err;
    }
    return None;
  }

  /** What `getModelMetadata` returns. */
  function ModelMetadataOf(store: Store, modelId: Uuid, codec: Codec, fault: Option<Error>): (r: Result<ModelMetadata, Error>)
  {
    match DownloadResult(store, MetadataBucket, MetadataKey(modelId), fault)
    case Failure(e) => Failure(e)
    case Success(json) =>
      match codec.unmarshal(json)
      case None => Failure(ErrInvalidMetadata)
      case Some(m) => Success(m)
  }

  /** `getModelMetadata`: a download error passes through unchanged (a
      missing record is `ErrKeyDoesNotExist`); stored bytes that do not
      unmarshal give `ErrInvalidMetadata`. */
  lemma ModelMetadataErrors(store: Store, modelId: Uuid, codec: Codec, fault: Option<Error>)
    ensures DownloadResult(store, MetadataBucket, MetadataKey(modelId), fault).Failure? ==>
      ModelMetadataOf(store, modelId, codec, fault) ==
      Failure(DownloadResult(store, MetadataBucket, MetadataKey(modelId), fault).error)
    ensures fault.None? && MetadataBucket in store && Lookup(store[MetadataBucket], MetadataKey(modelId)).None? ==>
      ModelMetadataOf(store, modelId, codec, fault) == Failure(ErrKeyDoesNotExist)
    ensures ModelMetadataOf(store, modelId, codec, fault).Success? <==>
      DownloadResult(store, MetadataBucket, MetadataKey(modelId), fault).Success? &&
      codec.unmarshal(DownloadResult(store, MetadataBucket, MetadataKey(modelId), fault).value).Some?
    ensures (DownloadResult(store, MetadataBucket, MetadataKey(modelId), fault).Success? &&
             codec.unmarshal(DownloadResult(store, MetadataBucket, MetadataKey(modelId), fault).value).None?) ==>
      ModelMetadataOf(store, modelId, codec, fault) == Failure(ErrInvalidMetadata)
  {
  }

  /** `getModelMetadata`. */
  method GetModelMetadata(s3: Server, modelId: Uuid, codec: Codec, fault: Option<Error>) returns (r: Result<ModelMetadata, Error>)
    ensures r == ModelMetadataOf(s3.buckets, modelId, codec, fault)
  {
    var key := MetadataKey(modelId);
    var json, err := DownloadFileToBytes(s3, MetadataBucket, key, fault);
    if err.Some? {
      return Failure(err.value);
    }
    var meta := codec.unmarshal(json);
    if meta.None? {
      return Failure(ErrInvalidMetadata);
    }
    return Success(meta.value);
  }

  /** Reading back what was added: when `json.Unmarshal` inverts
      `json.Marshal` on the updated record, a successful
      `addFileToMetadata` followed by a fault-free `getModelMetadata` of the
      same model returns the record with the file appended. */
  lemma AddThenGet(store: Store, fileId: Uuid, meta: ModelMetadata, codec: Codec,
                   listFault: Option<Error>, putFault: Option<Error>)
    requires AddFileResult(store, fileId, meta, codec, listFault, putFault).0.None?
    requires codec.marshal(WithFile(meta, fileId)).Some? ==>
      codec.unmarshal(codec.marshal(WithFile(meta, fileId)).value) == Some(WithFile(meta, fileId))
    ensures ModelMetadataOf(AddFileResult(store, fileId, meta, codec, listFault, putFault).1, meta.modelId, codec, None)
      == Success(WithFile(meta, fileId))
  {
    var json := codec.marshal(WithFile(meta, fileId));
    AddFileStores(store, fileId, meta, codec, listFault, putFault);
    UploadThenDownload(store, MetadataBucket, MetadataKey(meta.modelId), json.value, true, listFault, putFault);
  }

  /** The records among `files` that unmarshal, in their order. */
  function Parsed(files: seq<Bytes>, unmarshal: Bytes -> Option<ModelMetadata>): seq<ModelMetadata>
  {
    if files == [] then []
    else
      var last := files[|files| - 1];
      Parsed(files[..|files| - 1], unmarshal) + (if unmarshal(last).Some? then [unmarshal(last).value] else [])
  }

  /** Filtering distributes over concatenation: the parsed records keep the
      order of their files. */
  lemma {:induction false} ParsedAppend(a: seq<Bytes>, b: seq<Bytes>, unmarshal: Bytes -> Option<ModelMetadata>)
    ensures Parsed(a + b, unmarshal) == Parsed(a, unmarshal) + Parsed(b, unmarshal)
    decreases |b|
  {
    if b == [] {
      assert a + b == a;
    } else {
      var b' := b[..|b| - 1];
      assert (a + b)[..|a + b| - 1] == a + b';
      assert (a + b)[|a + b| - 1] == b[|b| - 1];
      ParsedAppend(a, b', unmarshal);
    }
  }

  /** Exactly the files that unmarshal contribute a record: each record is
      the parse of some file, and each file that parses contributes its
      record; when every file parses nothing is dropped. */
  lemma {:induction false} ParsedExactly(files: seq<Bytes>, unmarshal: Bytes -> Option<ModelMetadata>)
    ensures forall m :: m in Parsed(files, unmarshal) ==> exists i :: 0 <= i < |files| && unmarshal(files[i]) == Some(m)
    ensures forall i :: 0 <= i < |files| && unmarshal(files[i]).Some? ==> unmarshal(files[i]).value in Parsed(files, unmarshal)
    ensures (forall i :: 0 <= i < |files| ==> unmarshal(files[i]).Some?) ==> |Parsed(files, unmarshal)| == |files|
    decreases |files|
  {
    if files != [] {
      var init := files[..|files| - 1];
      ParsedExactly(init, unmarshal);
      forall m | m in Parsed(files, unmarshal)
        ensures exists i :: 0 <= i < |files| && unmarshal(files[i]) == Some(m)
      {
        if m in Parsed(init, unmarshal) {
          var i :| 0 <= i < |init| && unmarshal(init[i]) == Some(m);
          assert files[i] == init[i];
        } else {
          assert unmarshal(files[|files| - 1]) == Some(m);
        }
      }
      forall i | 0 <= i < |files| && unmarshal(files[i]).Some?
        ensures unmarshal(files[i]).value in Parsed(files, unmarshal)
      {
        if i < |init| {
          assert files[i] == init[i];
        }
      }
      if forall i :: 0 <= i < |files| ==> unmarshal(files[i]).Some? {
        assert forall i :: 0 <= i < |init| ==> unmarshal(init[i]) == unmarshal(files[i]);
        assert unmarshal(files[|files| - 1]).Some?;
      }
    }
  }

  /** `getAllMetadataFiles`, given what the concurrent download of every
      object in the bucket returned: its error is passed on with no
      records; otherwise the files that do not unmarshal are skipped. */
  method GetAllMetadataFiles(files: seq<Bytes>, fetchErr: Option<Error>, codec: Codec)
    returns (models: seq<ModelMetadata>, err: Option<Error>)
    ensures fetchErr.Some? ==> models == [] && err == fetchErr
    ensures fetchErr.None? ==> err.None? && models == Parsed(files, codec.unmarshal)
  {
    models := [];
    if fetchErr.Some? {
      return models, fetchErr;
    }
    for i := 0 to |files|
      invariant models == Parsed(files[..i], codec.unmarshal)
    {
      assert files[..i + 1][..i] == files[..i];
      var model := codec.unmarshal(files[i]);
      if model.None? {
        continue;
      } else {
        models := models + [model.value];
      }
    }
    assert files[..|files|] == files;
    return models, None;
  }
}
