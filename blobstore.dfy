/** The S3 helpers of legacy/pkg/utils/s3.go (imported by the Go service as
    pkg/utils): creating buckets, listing a bucket's keys, checking a key,
    uploading with a no-overwrite guard and downloading, each with its error
    policy. The S3 server they talk to is a `Server` object whose state is a
    map from bucket name to the bucket's objects in listing order; every call
    into it takes an injected `fault`, the error the network or the service
    may return instead of answering. */
module BlobStore {
  import opened Wrappers
  import opened Text

  /** A Go `error` as these helpers see it: an `awserr.Error`, known by its
      code, or any other error (including the `errors.New` values), known by
      its text. */
  datatype Error = AwsError(code: string) | Plain(text: string)

  /** `ErrKeyAlreadyExists` and `ErrKeyDoesNotExist`. */
  const ErrKeyAlreadyExists: Error := Plain("Key already exists in specified bucket")
  const ErrKeyDoesNotExist: Error := Plain("Key does not exist in specified bucket")

  /** Error codes of the S3 API. */
  const NoSuchKey: string := "NoSuchKey"
  const NoSuchBucket: string := "NoSuchBucket"
  const BucketAlreadyExists: string := "BucketAlreadyExists"
  const BucketAlreadyOwnedByYou: string := "BucketAlreadyOwnedByYou"

  /** A stored object. */
  datatype Object = Object(key: string, data: Bytes)

  /** One entry of a `ListObjects` answer. */
  datatype Summary = Summary(key: string, size: nat)

  /** The server's state: each bucket's objects, in the order it lists them. */
  type Store = map<string, seq<Object>>

  function Keys(objects: seq<Object>): (keys: seq<string>)
    ensures |keys| == |objects|
    ensures forall i :: 0 <= i < |objects| ==> keys[i] == objects[i].key
  {
    seq(|objects|, i requires 0 <= i < |objects| => objects[i].key)
  }

  predicate Distinct(keys: seq<string>)
  {
    forall i, j :: 0 <= i < j < |keys| ==> keys[i] != keys[j]
  }

  lemma KeysCons(o: Object, rest: seq<Object>)
    ensures Keys([o] + rest) == [o.key] + Keys(rest)
  {
  }

  /** The data stored under `key`, if any. */
  function Lookup(objects: seq<Object>, key: string): (r: Option<Bytes>)
    ensures r.Some? <==> key in Keys(objects)
    ensures r.Some? ==> Object(key, r.value) in objects
  {
    if objects == [] then None
    else
      KeysCons(objects[0], objects[1..]);
      assert objects == [objects[0]] + objects[1..];
      if objects[0].key == key then Some(objects[0].data)
      else Lookup(objects[1..], key)
  }

  /** Storing `data` under `key`: an object with that key is replaced where
      it is listed, a new key is listed last. */
  function Put(objects: seq<Object>, key: string, data: Bytes): (r: seq<Object>)
    ensures Keys(r) == if key in Keys(objects) then Keys(objects) else Keys(objects) + [key]
  {
    if objects == [] then [Object(key, data)]
    else
      KeysCons(objects[0], objects[1..]);
      assert objects == [objects[0]] + objects[1..];
      if objects[0].key == key then
        KeysCons(Object(key, data), objects[1..]);
        [Object(key, data)] + objects[1..]
      else
        var rest := Put(objects[1..], key, data);
        KeysCons(objects[0], rest);
        [objects[0]] + rest
  }

  /** After storing, the key holds `data` and every other key what it held. */
  lemma {:induction false} PutLookup(objects: seq<Object>, key: string, data: Bytes, k: string)
    ensures Lookup(Put(objects, key, data), k) == if k == key then Some(data) else Lookup(objects, k)
  {
    if objects != [] && objects[0].key != key {
      PutLookup(objects[1..], key, data, k);
    }
  }

  /** Storing keeps a bucket's keys distinct. */
  lemma PutKeepsDistinct(objects: seq<Object>, key: string, data: Bytes)
    requires Distinct(Keys(objects))
    ensures Distinct(Keys(Put(objects, key, data)))
  {
    var ks := Keys(objects);
    if key !in ks {
      forall i, j | 0 <= i < j < |ks + [key]| ensures (ks + [key])[i] != (ks + [key])[j] {
        if j == |ks| {
          assert (ks + [key])[i] == ks[i];
        }
      }
    }
  }

  /** The server's answer to `CreateBucket`: the injected fault, or
      BucketAlreadyOwnedByYou for a bucket it already has; a new bucket is
      empty. */
  function CreateResult(store: Store, name: string, fault: Option<Error>): (r: (Option<Error>, Store))
    ensures r.0.None? <==> fault.None? && name !in store
    ensures r.0.None? ==> r.1 == store[name := []]
    ensures r.0.Some? ==> r.1 == store
  {
    if fault.Some? then (fault, store)
    else if name in store then (Some(AwsError(BucketAlreadyOwnedByYou)), store)
    else (None, store[name := []])
  }

  /** The most keys one `ListObjects` answer holds when the request sets no
      `MaxKeys`; a longer listing is cut and marked truncated. */
  const MaxKeys: nat := 1000

  /** The objects one `ListObjects` request without a marker returns: the
      bucket's first `MaxKeys` objects in listing order. */
  function FirstPage(objects: seq<Object>): (page: seq<Object>)
    ensures |page| <= MaxKeys && |page| <= |objects| && page == objects[..|page|]
    ensures |objects| <= MaxKeys ==> page == objects
    ensures |objects| > MaxKeys ==> |page| == MaxKeys
  {
    if |objects| <= MaxKeys then objects else objects[..MaxKeys]
  }

  /** The server's answer to `ListObjects`: the keys of the first page
      only. */
  function ListResult(store: Store, bucket: string, fault: Option<Error>): (r: Result<seq<string>, Error>)
    ensures r.Success? <==> fault.None? && bucket in store
    ensures r.Success? ==> |r.value| == if |store[bucket]| <= MaxKeys then |store[bucket]| else MaxKeys
    ensures r.Success? ==> r.value == Keys(store[bucket])[..|r.value|]
    ensures fault.Some? ==> r == Failure(fault.value)
  {
    if fault.Some? then Failure(fault.value)
    else if bucket !in store then Failure(AwsError(NoSuchBucket))
    else Success(Keys(FirstPage(store[bucket])))
  }

  /** The listing a complete existence check needs: every page of the
      bucket, that is all of its keys. */
  function ListAllResult(store: Store, bucket: string, fault: Option<Error>): (r: Result<seq<string>, Error>)
    ensures r.Success? <==> fault.None? && bucket in store
    ensures r.Success? ==> r.value == Keys(store[bucket])
    ensures fault.Some? ==> r == Failure(fault.value)
  {
    if fault.Some? then Failure(fault.value)
    else if bucket !in store then Failure(AwsError(NoSuchBucket))
    else Success(Keys(store[bucket]))
  }

  /** The server's answer to an upload of `data` under `key`. */
  function PutResult(store: Store, bucket: string, key: string, data: Bytes, fault: Option<Error>): (r: (Option<Error>, Store))
    ensures r.0.None? <==> fault.None? && bucket in store
    ensures r.0.None? ==> r.1 == store[bucket := Put(store[bucket], key, data)]
    ensures r.0.Some? ==> r.1 == store
  {
    if fault.Some? then (fault, store)
    else if bucket !in store then (Some(AwsError(NoSuchBucket)), store)
    else (None, store[bucket := Put(store[bucket], key, data)])
  }

  /** The server's answer to a download of `key`. */
  function GetResult(store: Store, bucket: string, key: string, fault: Option<Error>): (r: Result<Bytes, Error>)
    ensures r.Success? <==> fault.None? && bucket in store && Lookup(store[bucket], key).Some?
    ensures r.Success? ==> r.value == Lookup(store[bucket], key).value
    ensures fault.None? && bucket in store && Lookup(store[bucket], key).None? ==> r == Failure(AwsError(NoSuchKey))
  {
    if fault.Some? then Failure(fault.value)
    else if bucket !in store then Failure(AwsError(NoSuchBucket))
    else match Lookup(store[bucket], key)
      case Some(d) => Success(d)
      case None => Failure(AwsError(NoSuchKey))
  }

  /** The S3 server: its buckets, and the calls the helpers make. */
  class Server {
    var buckets: Store

    /** No bucket lists a key twice. */
    ghost predicate Valid()
      reads this
    {
      forall b :: b in buckets ==> Distinct(Keys(buckets[b]))
    }

    constructor ()
      ensures buckets == map[] && Valid()
    {
      buckets := map[];
    }

    method CreateBucket(name: string, fault: Option<Error>) returns (err: Option<Error>)
      requires Valid()
      modifies this
      ensures Valid()
      ensures (err, buckets) == CreateResult(old(buckets), name, fault)
    {
      err, buckets := CreateResult(buckets, name, fault).0, CreateResult(buckets, name, fault).1;
    }

    /** One `ListObjects` request with no marker: the summaries of the
        first page. */
    method ListObjects(bucket: string, fault: Option<Error>) returns (contents: seq<Summary>, err: Option<Error>)
      ensures ListResult(buckets, bucket, fault).Failure? ==>
        err == Some(ListResult(buckets, bucket, fault).error) && contents == []
      ensures ListResult(buckets, bucket, fault).Success? ==>
        err.None? && |contents| == |FirstPage(buckets[bucket])| &&
        (forall i :: 0 <= i < |contents| ==> contents[i] == Summary(buckets[bucket][i].key, |buckets[bucket][i].data|))
    {
      match ListResult(buckets, bucket, fault)
      case Failure(e) =>
        contents, err := [], Some(e);
      case Success(_) =>
        var objects := FirstPage(buckets[bucket]);
        contents := seq(|objects|, i requires 0 <= i < |objects| => Summary(objects[i].key, |objects[i].data|));
        err := None;
    }

    method PutObject(bucket: string, key: string, data: Bytes, fault: Option<Error>) returns (err: Option<Error>)
      requires Valid()
      modifies this
      ensures Valid()
      ensures (err, buckets) == PutResult(old(buckets), bucket, key, data, fault)
    {
      var r := PutResult(buckets, bucket, key, data, fault);
      if r.0.None? {
        PutKeepsDistinct(buckets[bucket], key, data);
      }
      err, buckets := r.0, r.1;
    }

    method GetObject(bucket: string, key: string, fault: Option<Error>) returns (data: Bytes, err: Option<Error>)
      ensures GetResult(buckets, bucket, key, fault).Success? ==>
        err.None? && data == GetResult(buckets, bucket, key, fault).value
      ensures GetResult(buckets, bucket, key, fault).Failure? ==>
        err == Some(GetResult(buckets, bucket, key, fault).error) && data == []
    {
      match GetResult(buckets, bucket, key, fault)
      case Success(d) =>
        data, err := d, None;
      case Failure(e) =>
        data, err := [], Some(e);
    }
  }

  /** The errors `CreateS3Buckets` skips: the bucket exists already. */
  predicate Skipped(e: Error)
  {
    e.AwsError? && (e.code == BucketAlreadyExists || e.code == BucketAlreadyOwnedByYou)
  }

  /** A fault that ends `CreateS3Buckets`. */
  predicate Fatal(fault: Option<Error>)
  {
    fault.Some? && !Skipped(fault.value)
  }

  /** What `CreateS3Buckets` returns and leaves on the server, creating the
      buckets in order until one fails with an error other than an
      already-exists one. */
  function CreateAll(store: Store, names: seq<string>, faults: seq<Option<Error>>): (r: (Option<Error>, Store))
    requires |faults| == |names|
    decreases |names|
  {
    if names == [] then (None, store)
    else
      var (e, next) := CreateResult(store, names[0], faults[0]);
      if e.Some? && !Skipped(e.value) then (e, next)
      else CreateAll(next, names[1..], faults[1..])
  }

  /** How many `CreateBucket` calls `CreateS3Buckets` makes: up to and
      including the first fatal one. */
  function Attempts(faults: seq<Option<Error>>): (n: nat)
    ensures n <= |faults|
    ensures forall j :: 0 <= j < n - 1 ==> !Fatal(faults[j])
    ensures faults != [] ==> n >= 1
    ensures 0 < n < |faults| ==> Fatal(faults[n - 1])
  {
    if faults == [] then 0
    else if Fatal(faults[0]) then 1
    else 1 + Attempts(faults[1..])
  }

  /** `CreateS3Buckets` fails exactly when some call fails with an error
      other than an already-exists one, and then returns the first such
      error unchanged. */
  lemma {:induction false} CreateAllError(store: Store, names: seq<string>, faults: seq<Option<Error>>)
    requires |faults| == |names|
    ensures CreateAll(store, names, faults).0.None? <==> forall i :: 0 <= i < |names| ==> !Fatal(faults[i])
    ensures CreateAll(store, names, faults).0.Some? ==>
      Attempts(faults) >= 1 && Fatal(faults[Attempts(faults) - 1]) &&
      CreateAll(store, names, faults).0 == faults[Attempts(faults) - 1]
    decreases |names|
  {
    if names != [] {
      var (e, next) := CreateResult(store, names[0], faults[0]);
      if !(e.Some? && !Skipped(e.value)) {
        CreateAllError(next, names[1..], faults[1..]);
        assert forall i :: 1 <= i < |names| ==> faults[i] == faults[1..][i - 1];
      }
    }
  }

  /** The buckets `CreateS3Buckets` leaves: the existing ones untouched, plus
      each new name among the attempted calls that met no fault; buckets after
      the first fatal error are never created. */
  lemma {:induction false} CreateAllBuckets(store: Store, names: seq<string>, faults: seq<Option<Error>>)
    requires |faults| == |names|
    ensures forall b :: b in store ==> b in CreateAll(store, names, faults).1 && CreateAll(store, names, faults).1[b] == store[b]
    ensures forall j :: 0 <= j < Attempts(faults) && faults[j].None? ==> names[j] in CreateAll(store, names, faults).1
    ensures forall b :: b in CreateAll(store, names, faults).1 && b !in store ==>
      CreateAll(store, names, faults).1[b] == [] &&
      exists j :: 0 <= j < Attempts(faults) && faults[j].None? && names[j] == b
    decreases |names|
  {
    if names != [] {
      var (e, next) := CreateResult(store, names[0], faults[0]);
      if !(e.Some? && !Skipped(e.value)) {
        CreateAllBuckets(next, names[1..], faults[1..]);
        var r := CreateAll(store, names, faults).1;
        assert r == CreateAll(next, names[1..], faults[1..]).1;
        assert Attempts(faults) == 1 + Attempts(faults[1..]);
        forall j | 0 <= j < Attempts(faults) && faults[j].None? ensures names[j] in r {
          if j > 0 {
            assert faults[1..][j - 1] == faults[j] && names[1..][j - 1] == names[j];
          }
        }
        forall b | b in r && b !in store
          ensures r[b] == [] && exists j :: 0 <= j < Attempts(faults) && faults[j].None? && names[j] == b
        {
          if b in next {
            assert b == names[0];
          } else {
            var j :| 0 <= j < Attempts(faults[1..]) && faults[1..][j].None? && names[1..][j] == b;
            assert faults[j + 1].None? && names[j + 1] == b;
          }
        }
      }
    }
  }

  /** `CreateS3Buckets`. */
  method CreateS3Buckets(s3: Server, names: seq<string>, faults: seq<Option<Error>>) returns (err: Option<Error>)
    requires |faults| == |names|
    requires s3.Valid()
    modifies s3
    ensures s3.Valid()
    ensures (err, s3.buckets) == CreateAll(old(s3.buckets), names, faults)
  {
    for i := 0 to |names|
      invariant s3.Valid()
      invariant CreateAll(old(s3.buckets), names, faults) == CreateAll(s3.buckets, names[i..], faults[i..])
    {
      assert names[i..][1..] == names[i + 1..] && faults[i..][1..] == faults[i + 1..];
      var e := s3.CreateBucket(names[i], faults[i]);
      if e.Some? {
        if e.value.AwsError? {
          if e.value.code == BucketAlreadyExists || e.value.code == BucketAlreadyOwnedByYou {
            continue;
          } else {
            return e;
          }
        } else {
          return e;
        }
      }
    }
    return None;
  }

  /** `ListBucketKeys`: the keys of the bucket's first page in listing
      order, or the listing error with no keys. */
  method ListBucketKeys(s3: Server, bucket: string, fault: Option<Error>) returns (keys: seq<string>, err: Option<Error>)
    requires s3.Valid()
    ensures ListResult(s3.buckets, bucket, fault).Failure? ==>
      keys == [] && err == Some(ListResult(s3.buckets, bucket, fault).error)
    ensures ListResult(s3.buckets, bucket, fault).Success? ==>
      err.None? && keys == ListResult(s3.buckets, bucket, fault).value
    ensures err.None? ==> Distinct(keys)
  {
    var contents, e := s3.ListObjects(bucket, fault);
    if e.Some? {
      return [], e;
    }
    ghost var page := FirstPage(s3.buckets[bucket]);
    keys := [];
    for i := 0 to |contents|
      invariant keys == Keys(page[..i])
    {
      assert Keys(page[..i + 1]) == Keys(page[..i]) + [contents[i].key];
      keys := keys + [contents[i].key];
    }
    assert page[..|contents|] == page;
    assert forall i :: 0 <= i < |keys| ==> keys[i] == Keys(s3.buckets[bucket])[i];
    return keys, None;
  }

  /** `KeyExistsInBucket`: whether the key is listed, or the listing error
      with false. */
  method KeyExistsInBucket(s3: Server, bucket: string, key: string, fault: Option<Error>) returns (found: bool, err: Option<Error>)
    requires s3.Valid()
    ensures ListResult(s3.buckets, bucket, fault).Failure? ==>
      !found && err == Some(ListResult(s3.buckets, bucket, fault).error)
    ensures ListResult(s3.buckets, bucket, fault).Success? ==>
      err.None? && (found <==> key in ListResult(s3.buckets, bucket, fault).value)
  {
    var keys, e := ListBucketKeys(s3, bucket, fault);
    if e.Some? {
      return false, e;
    }
    for i := 0 to |keys|
      invariant key !in keys[..i]
    {
      if key == keys[i] {
        return true, None;
      }
    }
    assert keys[..|keys|] == keys;
    return false, None;
  }

  /** The error mapping of the upload and download paths: NoSuchKey becomes
      `ErrKeyDoesNotExist`, every other error passes through. */
  function MapNoSuchKey(e: Error): (r: Error)
    ensures e == AwsError(NoSuchKey) ==> r == ErrKeyDoesNotExist
    ensures e != AwsError(NoSuchKey) ==> r == e
  {
    if e.AwsError? && e.code == NoSuchKey then ErrKeyDoesNotExist else e
  }

  /** What `UploadFile` returns and leaves on the server. */
  function UploadResult(store: Store, bucket: string, key: string, data: Bytes, overwrite: bool,
                        listFault: Option<Error>, putFault: Option<Error>): (r: (Option<Error>, Store))
  {
    match ListResult(store, bucket, listFault)
    case Failure(e) => (Some(e), store)
    case Success(keys) =>
      if key in keys && !overwrite then (Some(ErrKeyAlreadyExists), store)
      else
        var (e, next) := PutResult(store, bucket, key, data, putFault);
        if e.Some? then (Some(MapNoSuchKey(e.value)), next) else (None, next)
  }

  /** `UploadFile`'s error policy: the existence check's error comes first
      and nothing is uploaded; a listed key without overwrite gives
      `ErrKeyAlreadyExists` and nothing is uploaded; otherwise the upload is
      attempted, its NoSuchKey error becomes `ErrKeyDoesNotExist` and any
      other error passes through; a failed call changes nothing. */
  lemma UploadErrors(store: Store, bucket: string, key: string, data: Bytes, overwrite: bool,
                     listFault: Option<Error>, putFault: Option<Error>)
    ensures ListResult(store, bucket, listFault).Failure? ==>
      UploadResult(store, bucket, key, data, overwrite, listFault, putFault) ==
      (Some(ListResult(store, bucket, listFault).error), store)
    ensures ListResult(store, bucket, listFault).Success? && key in ListResult(store, bucket, listFault).value && !overwrite ==>
      UploadResult(store, bucket, key, data, overwrite, listFault, putFault) == (Some(ErrKeyAlreadyExists), store)
    ensures ListResult(store, bucket, listFault).Success? && (key !in ListResult(store, bucket, listFault).value || overwrite) && putFault.Some? ==>
      UploadResult(store, bucket, key, data, overwrite, listFault, putFault) == (Some(MapNoSuchKey(putFault.value)), store)
    ensures UploadResult(store, bucket, key, data, overwrite, listFault, putFault).0.Some? ==>
      UploadResult(store, bucket, key, data, overwrite, listFault, putFault).1 == store
  {
  }

  /** A successful `UploadFile` happens exactly when the listing succeeds, the
      key is not on the first page or overwrite was asked for, and the upload
      meets no fault; then the key holds `data` and no other key or bucket
      changes. */
  lemma UploadStores(store: Store, bucket: string, key: string, data: Bytes, overwrite: bool,
                     listFault: Option<Error>, putFault: Option<Error>)
    ensures UploadResult(store, bucket, key, data, overwrite, listFault, putFault).0.None? <==>
      listFault.None? && bucket in store && (key !in Keys(FirstPage(store[bucket])) || overwrite) && putFault.None?
    ensures var (e, after) := UploadResult(store, bucket, key, data, overwrite, listFault, putFault);
      e.None? ==>
        after.Keys == store.Keys &&
        Lookup(after[bucket], key) == Some(data) &&
        (forall k :: k != key ==> Lookup(after[bucket], k) == Lookup(store[bucket], k)) &&
        (forall b :: b in store && b != bucket ==> after[b] == store[b])
  {
    if UploadResult(store, bucket, key, data, overwrite, listFault, putFault).0.None? {
      PutLookup(store[bucket], key, data, key);
      forall k | k != key
        ensures Lookup(Put(store[bucket], key, data), k) == Lookup(store[bucket], k)
      {
        PutLookup(store[bucket], key, data, k);
      }
    }
  }

  /** On a bucket of at most `MaxKeys` objects the first page is the whole
      listing, so the guard refuses exactly the keys the bucket holds. */
  lemma SmallBucketGuardExact(store: Store, bucket: string, key: string)
    requires bucket in store && |store[bucket]| <= MaxKeys
    ensures ListResult(store, bucket, None).Success?
    ensures key in ListResult(store, bucket, None).value <==> Lookup(store[bucket], key).Some?
  {
  }

  /** As written, the no-overwrite guard sees only the first page: a key the
      bucket lists after its first `MaxKeys` objects is replaced although no
      overwrite was asked for. */
  lemma {:induction false} GuardMissesLaterPages(store: Store, bucket: string, key: string, data: Bytes, j: nat)
    requires bucket in store && Distinct(Keys(store[bucket]))
    requires MaxKeys <= j < |store[bucket]| && store[bucket][j].key == key
    ensures Lookup(store[bucket], key).Some?
    ensures UploadResult(store, bucket, key, data, false, None, None).0.None?
    ensures Lookup(UploadResult(store, bucket, key, data, false, None, None).1[bucket], key) == Some(data)
  {
    var ks := Keys(store[bucket]);
    assert ks[j] == key;
    var listed := ListResult(store, bucket, None).value;
    forall i | 0 <= i < |listed| ensures listed[i] != key {
      assert listed[i] == ks[i] && ks[i] != ks[j];
    }
    assert key !in listed && key in ks;
    var after := store[bucket := Put(store[bucket], key, data)];
    assert UploadResult(store, bucket, key, data, false, None, None) == (None, after);
    PutLookup(store[bucket], key, data, key);
  }

  /** What `UploadFile` would return and leave with an existence check that
      reads every page of the listing. */
  function UploadResultPaged(store: Store, bucket: string, key: string, data: Bytes, overwrite: bool,
                             listFault: Option<Error>, putFault: Option<Error>): (r: (Option<Error>, Store))
  {
    match ListAllResult(store, bucket, listFault)
    case Failure(e) => (Some(e), store)
    case Success(keys) =>
      if key in keys && !overwrite then (Some(ErrKeyAlreadyExists), store)
      else
        var (e, next) := PutResult(store, bucket, key, data, putFault);
        if e.Some? then (Some(MapNoSuchKey(e.value)), next) else (None, next)
  }

  /** With every page checked, an upload without overwrite never replaces a
      stored object: it succeeds only for a key the bucket does not hold, and
      a held key gives `ErrKeyAlreadyExists` with nothing changed. On a bucket
      of at most `MaxKeys` objects it agrees with `UploadFile` as written. */
  lemma PagedGuardNeverOverwrites(store: Store, bucket: string, key: string, data: Bytes, overwrite: bool,
                                  listFault: Option<Error>, putFault: Option<Error>)
    ensures UploadResultPaged(store, bucket, key, data, overwrite, listFault, putFault).0.None? <==>
      listFault.None? && bucket in store && (Lookup(store[bucket], key).None? || overwrite) && putFault.None?
    ensures listFault.None? && bucket in store && Lookup(store[bucket], key).Some? && !overwrite ==>
      UploadResultPaged(store, bucket, key, data, overwrite, listFault, putFault) == (Some(ErrKeyAlreadyExists), store)
    ensures bucket in store && |store[bucket]| <= MaxKeys ==>
      UploadResultPaged(store, bucket, key, data, overwrite, listFault, putFault) ==
      UploadResult(store, bucket, key, data, overwrite, listFault, putFault)
  {
  }

  /** `S3Uploader.UploadFile`. */
  method UploadFile(s3: Server, bucket: string, key: string, data: Bytes, overwrite: bool,
                    listFault: Option<Error>, putFault: Option<Error>) returns (err: Option<Error>)
    requires s3.Valid()
    modifies s3
    ensures s3.Valid()
    ensures (err, s3.buckets) == UploadResult(old(s3.buckets), bucket, key, data, overwrite, listFault, putFault)
  {
    var found, e := KeyExistsInBucket(s3, bucket, key, listFault);
    if e.Some? {
      return e;
    } else if found && !overwrite {
      return Some(ErrKeyAlreadyExists);
    }
    var putErr := s3.PutObject(bucket, key, data, putFault);
    if putErr.Some? {
      if putErr.value.AwsError? {
        if putErr.value.code == NoSuchKey {
          return Some(ErrKeyDoesNotExist);
        } else {
          return putErr;
        }
      } else {
        return putErr;
      }
    }
    return None;
  }

  /** What `DownloadFileToBytes` returns. */
  function DownloadResult(store: Store, bucket: string, key: string, fault: Option<Error>): (r: Result<Bytes, Error>)
    ensures r.Success? <==> fault.None? && bucket in store && Lookup(store[bucket], key).Some?
    ensures r.Success? ==> r.value == Lookup(store[bucket], key).value
    ensures fault.None? && bucket in store && Lookup(store[bucket], key).None? ==> r == Failure(ErrKeyDoesNotExist)
    ensures fault.Some? ==> r == Failure(MapNoSuchKey(fault.value))
  {
    match GetResult(store, bucket, key, fault)
    case Success(d) => Success(d)
    case Failure(e) => Failure(MapNoSuchKey(e))
  }

  /** `S3Downloader.DownloadFileToBytes`. */
  method DownloadFileToBytes(s3: Server, bucket: string, key: string, fault: Option<Error>) returns (data: Bytes, err: Option<Error>)
    ensures DownloadResult(s3.buckets, bucket, key, fault).Success? ==>
      err.None? && data == DownloadResult(s3.buckets, bucket, key, fault).value
    ensures DownloadResult(s3.buckets, bucket, key, fault).Failure? ==>
      data == [] && err == Some(DownloadResult(s3.buckets, bucket, key, fault).error)
  {
    var d, e := s3.GetObject(bucket, key, fault);
    if e.Some? {
      if e.value.AwsError? {
        if e.value.code == NoSuchKey {
          return [], Some(ErrKeyDoesNotExist);
        } else {
          return [], e;
        }
      } else {
        return [], e;
      }
    }
    return d, None;
  }

  /** Downloading what was uploaded: after a successful `UploadFile`, a
      download of the key without a fault returns the uploaded bytes. */
  lemma UploadThenDownload(store: Store, bucket: string, key: string, data: Bytes, overwrite: bool,
                           listFault: Option<Error>, putFault: Option<Error>)
    requires UploadResult(store, bucket, key, data, overwrite, listFault, putFault).0.None?
    ensures DownloadResult(UploadResult(store, bucket, key, data, overwrite, listFault, putFault).1, bucket, key, None)
      == Success(data)
  {
    UploadStores(store, bucket, key, data, overwrite, listFault, putFault);
  }
}
