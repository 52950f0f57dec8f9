/** The job worker of worker/src/worker.py: `message_handler`, driven by one
    broker message, and the exchange configuration `worker_factory` builds.
    Every collaborator call the handler makes (the job-state write, the
    inference, the blob upload, posting the acknowledgement) is recorded as
    an `Effect`, in call order; whether a call raises, and what the inference
    returns, is given by a `HandlerEnv`. */
module Worker {
  import opened Wrappers
  import opened Text
  import opened Json
  import Events
  import Rabbit

  /** The job states the handler writes. */
  const Running := 1
  const Succeeded := 2
  const Failed := 3

  /** The handler's own `TensorTriggerPayload`: a flat body. */
  datatype FlatPayload = FlatPayload(jobId: Uuid, modelId: Uuid, user: string)

  /** `TensorTriggerPayload(**payload)`: job_id, model_id and user are all
      read from the top level of the message. */
  function DecodeFlat(kwargs: map<string, Json>, c: Coercions): (r: Checked<FlatPayload>)
    ensures r.Success? <==>
      Events.HasUuid(kwargs, "job_id", c) && Events.HasUuid(kwargs, "model_id", c) && Events.HasStr(kwargs, "user", c)
    ensures r.Success? ==> Some(r.value.jobId) == c.toUuid(kwargs["job_id"])
    ensures r.Success? ==> Some(r.value.modelId) == c.toUuid(kwargs["model_id"])
    ensures r.Success? ==> Some(r.value.user) == c.toStr(kwargs["user"])
  {
    var jobId := Field(kwargs, "job_id", c.toUuid, []);
    var modelId := Field(kwargs, "model_id", c.toUuid, []);
    var user := Field(kwargs, "user", c.toStr, []);
    if jobId.Success? && modelId.Success? && user.Success? then
      Success(FlatPayload(jobId.value, modelId.value, user.value))
    else
      Failure(Errors(jobId) + Errors(modelId) + Errors(user))
  }

  /** One collaborator call made by the handler. */
  datatype Effect =
    | SetState(job: Uuid, state: int)             // update_job_state(PG_CREDENTIALS, job, state)
    | Infer(modelId: Uuid, jobId: Uuid, user: string)  // run_tensorflow_model(model_id, job_id, user)
    | Upload(path: string, data: Bytes)           // upload_s3_file(BytesIO(data), path)
    | PostAck                                     // ack_message(connection, channel, tag)

  /** The two exception classes the handler's except clauses tell apart:
      `DecodeError` is json.JSONDecodeError or pydantic's ValidationError,
      `OtherException` any other Exception. */
  datatype ExcClass = DecodeError | OtherException

  /** What `run_tensorflow_model` does: return results, return None, or raise. */
  datatype InferenceResult = Results(value: Json) | NoResults | InferenceRaised(exc: ExcClass)

  /** The collaborators. `loads` is json.loads (None: the body is not JSON);
      `dbFault(s)` is what `update_job_state(..., s)` raises, if anything;
      `uploadFault` and `ackFault` likewise for the upload and for posting
      the acknowledgement; `dumps` is json.dumps. */
  datatype HandlerEnv = HandlerEnv(
    loads: Bytes -> Option<Json>,
    coerce: Coercions,
    dumps: Json -> string,
    dbFault: int -> Option<ExcClass>,
    infer: (Uuid, Uuid, string) -> InferenceResult,
    uploadFault: Option<ExcClass>,
    ackFault: Option<ExcClass>)

  /** How one handler run ends: it returns, or an exception escapes the
      handler thread. `UnboundEvent` is the UnboundLocalError raised when an
      except clause reads `event` before it was assigned; `RaisedInExcept` is
      a collaborator's exception raised inside an except clause. */
  datatype Escape = UnboundEvent | RaisedInExcept(exc: ExcClass)

  datatype Outcome = Returned | Escaped(reason: Escape)

  /** The blob path of a job's output: the prefix and the job id, with no
      separator between them. */
  function OutputPath(job: Uuid): (p: string)
    ensures |p| == |"/tensor-trigger/output-data"| + |job.text|
    ensures p[..|"/tensor-trigger/output-data"|] == "/tensor-trigger/output-data"
    ensures p[|"/tensor-trigger/output-data"|..] == job.text
  {
    "/tensor-trigger/output-data" + job.text
  }

  /** The uploaded bytes: the UTF-8 encoding of json.dumps({'output': results}). */
  function OutputBytes(env: HandlerEnv, results: Json): Bytes
  {
    Utf8Encode(env.dumps(JObject(map["output" := results])))
  }

  /** With `json.dumps`'s default `ensure_ascii`, its text is ASCII, and the
      uploaded bytes are then that text's code points, one byte each. */
  lemma AsciiOutputBytes(env: HandlerEnv, results: Json)
    requires IsAscii(env.dumps(JObject(map["output" := results])))
    ensures var text := env.dumps(JObject(map["output" := results]));
      |OutputBytes(env, results)| == |text| &&
      forall i :: 0 <= i < |text| ==> OutputBytes(env, results)[i] == text[i] as int
  {
    Utf8EncodeAscii(env.dumps(JObject(map["output" := results])));
  }

  /** The try block after `event` is bound (lines 52-71): the calls made, and
      the exception class that ended it, if any. A call that raises is the
      last one recorded. */
  function Body(p: FlatPayload, env: HandlerEnv): (r: (seq<Effect>, Option<ExcClass>))
    ensures 1 <= |r.0| <= 5 && r.0[0] == SetState(p.jobId, Running)
    ensures r.1.None? ==> r.0[|r.0| - 1] == PostAck
  {
    var started := [SetState(p.jobId, Running)];
    if env.dbFault(Running).Some? then (started, env.dbFault(Running))
    else
      var ran := started + [Infer(p.modelId, p.jobId, p.user)];
      match env.infer(p.modelId, p.jobId, p.user)
      case InferenceRaised(x) => (ran, Some(x))
      case NoResults =>
        var failed := ran + [SetState(p.jobId, Failed)];
        if env.dbFault(Failed).Some? then (failed, env.dbFault(Failed))
        else (failed + [PostAck], env.ackFault)
      case Results(r) =>
        var uploaded := ran + [Upload(OutputPath(p.jobId), OutputBytes(env, r))];
        if env.uploadFault.Some? then (uploaded, env.uploadFault)
        else
          var succeeded := uploaded + [SetState(p.jobId, Succeeded)];
          if env.dbFault(Succeeded).Some? then (succeeded, env.dbFault(Succeeded))
          else (succeeded + [PostAck], env.ackFault)
  }

  /** The except clauses once `event` is bound (lines 73-80): both write
      state 3; only the decode/validation clause acknowledges. */
  function Except(t: seq<Effect>, p: FlatPayload, exc: ExcClass, env: HandlerEnv): (seq<Effect>, Outcome)
  {
    var failed := t + [SetState(p.jobId, Failed)];
    if env.dbFault(Failed).Some? then (failed, Escaped(RaisedInExcept(env.dbFault(Failed).value)))
    else if exc == OtherException then (failed, Returned)
    else if env.ackFault.Some? then (failed + [PostAck], Escaped(RaisedInExcept(env.ackFault.value)))
    else (failed + [PostAck], Returned)
  }

  /** The payload the handler binds to `event`, or None when json.loads, the
      `**` unpacking or validation raised before the assignment. */
  function Bound(msg: Bytes, env: HandlerEnv): Option<FlatPayload>
  {
    match env.loads(msg)
    case None => None
    case Some(j) =>
      if !j.JObject? then None
      else match DecodeFlat(j.fields, env.coerce)
        case Failure(_) => None
        case Success(p) => Some(p)
  }

  /** `message_handler` as written. */
  function Handle(msg: Bytes, env: HandlerEnv): (r: (seq<Effect>, Outcome))
    ensures r.0 == [] <==> Bound(msg, env).None?
    ensures Bound(msg, env).None? ==> r.1 == Escaped(UnboundEvent)
    ensures Bound(msg, env).Some? ==> r.0[0] == SetState(Bound(msg, env).value.jobId, Running)
  {
    match Bound(msg, env)
    case None => ([], Escaped(UnboundEvent))
    case Some(p) =>
      var (t, exc) := Body(p, env);
      if exc.None? then (t, Returned) else Except(t, p, exc.value, env)
  }

  /** The part of the try block after `event` is bound, call by call. */
  method RunJob(p: FlatPayload, env: HandlerEnv) returns (trace: seq<Effect>, raised: Option<ExcClass>)
    ensures (trace, raised) == Body(p, env)
  {
    trace := [SetState(p.jobId, Running)];
    raised := env.dbFault(Running);
    if raised.Some? { return; }
    trace := trace + [Infer(p.modelId, p.jobId, p.user)];
    var results := env.infer(p.modelId, p.jobId, p.user);
    if results.InferenceRaised? {
      raised := Some(results.exc);
      return;
    }
    if results.NoResults? {
      trace := trace + [SetState(p.jobId, Failed)];
      raised := env.dbFault(Failed);
      if raised.Some? { return; }
    } else {
      var data := Utf8Encode(env.dumps(JObject(map["output" := results.value])));
      trace := trace + [Upload("/tensor-trigger/output-data" + p.jobId.text, data)];
      raised := env.uploadFault;
      if raised.Some? { return; }
      trace := trace + [SetState(p.jobId, Succeeded)];
      raised := env.dbFault(Succeeded);
      if raised.Some? { return; }
    }
    trace := trace + [PostAck];
    raised := env.ackFault;
  }

  /** `message_handler(channel, msg, connection, tag)`: the try block, then
      whichever except clause matches the exception raised in it. */
  method MessageHandler(msg: Bytes, env: HandlerEnv) returns (trace: seq<Effect>, outcome: Outcome)
    ensures (trace, outcome) == Handle(msg, env)
  {
    trace := [];
    var event: Option<FlatPayload> := None;
    var raised: Option<ExcClass> := None;
    var payload := env.loads(msg);
    if payload.None? {
      raised := Some(DecodeError);
    } else if !payload.value.JObject? {
      raised := Some(OtherException);
    } else {
      var decoded := DecodeFlat(payload.value.fields, env.coerce);
      if decoded.Failure? {
        raised := Some(DecodeError);
      } else {
        event := Some(decoded.value);
        trace, raised := RunJob(decoded.value, env);
      }
    }
    if raised.None? {
      outcome := Returned;
      return;
    }
    // both except clauses start by reading event.job_id
    if event.None? {
      outcome := Escaped(UnboundEvent);
      return;
    }
    trace := trace + [SetState(event.value.jobId, Failed)];
    var fault := env.dbFault(Failed);
    if fault.Some? {
      outcome := Escaped(RaisedInExcept(fault.value));
      return;
    }
    if raised.value == DecodeError {
      trace := trace + [PostAck];
      fault := env.ackFault;
      if fault.Some? {
        outcome := Escaped(RaisedInExcept(fault.value));
        return;
      }
    }
    outcome := Returned;
  }

  /** How often `e` occurs in `t`. */
  function Count(t: seq<Effect>, e: Effect): nat
  {
    if t == [] then 0 else (if t[0] == e then 1 else 0) + Count(t[1..], e)
  }

  lemma {:induction false} CountAppend(a: seq<Effect>, b: seq<Effect>, e: Effect)
    ensures Count(a + b, e) == Count(a, e) + Count(b, e)
  {
    if a == [] {
      assert a + b == b;
    } else {
      assert (a + b)[0] == a[0];
      assert (a + b)[1..] == a[1..] + b;
      CountAppend(a[1..], b, e);
    }
  }

  lemma {:induction false} CountZero(t: seq<Effect>, e: Effect)
    ensures Count(t, e) == 0 <==> e !in t
  {
    if t != [] {
      CountZero(t[1..], e);
      assert t == [t[0]] + t[1..];
    }
  }

  /** The message was acknowledged: the ack callback was posted without
      raising. */
  predicate Acked(t: seq<Effect>, env: HandlerEnv)
  {
    PostAck in t && env.ackFault.None?
  }

  /** A trace whose only acknowledgement can be its last call holds one
      acknowledgement iff it holds any. */
  lemma CountAtMostLast(t: seq<Effect>)
    requires forall i :: 0 <= i < |t| - 1 ==> t[i] != PostAck
    ensures Count(t, PostAck) == (if PostAck in t then 1 else 0)
  {
    if t != [] {
      var k := |t| - 1;
      assert t == t[..k] + [t[k]];
      assert PostAck !in t[..k];
      CountAppend(t[..k], [t[k]], PostAck);
      CountZero(t[..k], PostAck);
      assert [t[k]][1..] == [];
    }
  }

  /** The try block starts with the RUNNING write, and calls the inference
      at most once, as its second call. */
  lemma BodyStart(p: FlatPayload, env: HandlerEnv)
    ensures var b := Body(p, env).0;
      && |b| >= 1
      && b[0] == SetState(p.jobId, Running)
      && (forall i :: 0 <= i < |b| && b[i].Infer? ==> i == 1 && b[i] == Infer(p.modelId, p.jobId, p.user))
  {
  }

  /** In the try block state 2 is written only as the fourth call, right
      after the upload of the results. */
  lemma BodyUpload(p: FlatPayload, env: HandlerEnv)
    ensures var b, r := Body(p, env).0, env.infer(p.modelId, p.jobId, p.user);
      forall i :: 0 <= i < |b| && b[i].SetState? && b[i].state == Succeeded ==>
        && r.Results?
        && i == 3
        && b[2] == Upload(OutputPath(p.jobId), OutputBytes(env, r.value))
  {
  }

  /** The try block acknowledges at most once, only as its last call, and
      always when nothing raised, right after a terminal state write. */
  lemma BodyAcks(p: FlatPayload, env: HandlerEnv)
    ensures var (b, exc) := Body(p, env);
      && (forall i :: 0 <= i < |b| - 1 ==> b[i] != PostAck)
      && Count(b, PostAck) == (if PostAck in b then 1 else 0)
      && (exc.None? ==>
            && |b| >= 2
            && b[|b| - 1] == PostAck
            && b[|b| - 2] in {SetState(p.jobId, Succeeded), SetState(p.jobId, Failed)})
  {
    var b := Body(p, env).0;
    assert forall i :: 0 <= i < |b| - 1 ==> b[i] != PostAck;
    CountAtMostLast(b);
  }

  /** The try block writes states only first and last (or last but one,
      before the acknowledgement), and a failing last write is what raised. */
  lemma BodyWrites(p: FlatPayload, env: HandlerEnv)
    ensures var (b, exc) := Body(p, env);
      && (forall i :: 0 < i < |b| && b[i].SetState? ==> i == |b| - 1 || (i == |b| - 2 && b[|b| - 1] == PostAck))
      && (exc.Some? && b[|b| - 1].SetState? ==> env.dbFault(b[|b| - 1].state).Some?)
  {
  }

  /** The except clauses only append a state-3 write and possibly the
      acknowledgement. */
  lemma ExceptAppends(t: seq<Effect>, p: FlatPayload, exc: ExcClass, env: HandlerEnv)
    ensures var r := Except(t, p, exc, env).0;
      && |t| < |r| <= |t| + 2
      && r[..|t|] == t
      && r[|t|] == SetState(p.jobId, Failed)
      && (|r| == |t| + 2 ==> r[|t| + 1] == PostAck)
  {
  }

  /** A decoded message's trace: the try block's calls, then what the except
      clause appends. */
  lemma HandleExtendsBody(msg: Bytes, env: HandlerEnv)
    requires Bound(msg, env).Some?
    ensures var t, p := Handle(msg, env).0, Bound(msg, env).value;
      var (b, exc) := Body(p, env);
      && |b| <= |t| <= |b| + 2
      && t[..|b|] == b
      && (exc.None? ==> t == b && Handle(msg, env).1 == Returned)
      && (forall i :: |b| <= i < |t| ==> t[i] == SetState(p.jobId, Failed) || t[i] == PostAck)
  {
    var p := Bound(msg, env).value;
    var (b, exc) := Body(p, env);
    if exc.Some? {
      ExceptAppends(b, p, exc.value, env);
    }
  }

  /** For a payload that decodes, job state 1 is written before the
      inference is called, and the inference is called only then. */
  lemma RunningBeforeInference(msg: Bytes, env: HandlerEnv)
    requires Bound(msg, env).Some?
    ensures var t, p := Handle(msg, env).0, Bound(msg, env).value;
      && t[0] == SetState(p.jobId, Running)
      && (forall i :: 0 <= i < |t| && t[i].Infer? ==> i == 1 && t[i] == Infer(p.modelId, p.jobId, p.user))
  {
    var t, p := Handle(msg, env).0, Bound(msg, env).value;
    var b := Body(p, env).0;
    BodyStart(p, env);
    HandleExtendsBody(msg, env);
    assert t[0] == t[..|b|][0];
    forall i | 0 <= i < |t| && t[i].Infer?
      ensures i == 1 && t[i] == Infer(p.modelId, p.jobId, p.user)
    {
      assert i < |b|;
      assert t[i] == t[..|b|][i];
    }
  }

  /** When the inference returns None, state 3 is written, nothing is
      uploaded and state 2 is never written. */
  lemma NoResultsFailsWithoutUpload(msg: Bytes, env: HandlerEnv)
    requires Bound(msg, env).Some?
    requires env.dbFault(Running).None?
    requires var p := Bound(msg, env).value; env.infer(p.modelId, p.jobId, p.user).NoResults?
    ensures var t, p := Handle(msg, env).0, Bound(msg, env).value;
      && SetState(p.jobId, Failed) in t
      && (forall i :: 0 <= i < |t| ==> !t[i].Upload? && t[i] != SetState(p.jobId, Succeeded))
  {
    var p := Bound(msg, env).value;
    assert Handle(msg, env).0[2] == SetState(p.jobId, Failed);
  }

  /** State 2 is only ever written right after the upload of the job's
      output to '/tensor-trigger/output-data' + job_id, whose bytes are the
      UTF-8 encoding of json.dumps({'output': results}). */
  lemma UploadBeforeSucceeded(msg: Bytes, env: HandlerEnv)
    ensures var t := Handle(msg, env).0;
      forall i :: 0 <= i < |t| && t[i].SetState? && t[i].state == Succeeded ==>
        && Bound(msg, env).Some?
        && var p := Bound(msg, env).value;
        && env.infer(p.modelId, p.jobId, p.user).Results?
        && i == 3
        && t[i - 1] == Upload(OutputPath(p.jobId), OutputBytes(env, env.infer(p.modelId, p.jobId, p.user).value))
  {
    if Bound(msg, env).Some? {
      var t, p := Handle(msg, env).0, Bound(msg, env).value;
      var b := Body(p, env).0;
      BodyUpload(p, env);
      HandleExtendsBody(msg, env);
      forall i | 0 <= i < |t| && t[i].SetState? && t[i].state == Succeeded
        ensures env.infer(p.modelId, p.jobId, p.user).Results? && i == 3
        ensures t[i - 1] == Upload(OutputPath(p.jobId), OutputBytes(env, env.infer(p.modelId, p.jobId, p.user).value))
      {
        assert i < |b|;
        assert t[i] == t[..|b|][i];
        assert t[2] == t[..|b|][2];
      }
    }
  }

  /** On the normal path (nothing raises) the acknowledgement is posted
      exactly once, as the last call, right after the terminal state write. */
  lemma AckOnceAfterTerminalState(msg: Bytes, env: HandlerEnv)
    requires Bound(msg, env).Some?
    requires Body(Bound(msg, env).value, env).1.None?
    ensures var (t, outcome) := Handle(msg, env);
      && outcome == Returned
      && |t| >= 2
      && t[|t| - 1] == PostAck
      && t[|t| - 2] in {SetState(Bound(msg, env).value.jobId, Succeeded), SetState(Bound(msg, env).value.jobId, Failed)}
      && Count(t, PostAck) == 1
  {
    HandleExtendsBody(msg, env);
    BodyAcks(Bound(msg, env).value, env);
  }

  /** As written: a body that is not JSON, not an object, or fails
      validation never reaches the state write or the acknowledgement; the
      except clause's read of the unbound `event` raises out of the handler. */
  lemma MalformedMessageEscapes(msg: Bytes, env: HandlerEnv)
    requires Bound(msg, env).None?
    ensures Handle(msg, env) == ([], Escaped(UnboundEvent))
    ensures !Acked(Handle(msg, env).0, env)
  {
  }

  /** As written: an exception other than a decode/validation error raised
      in the try block ends with a state-3 write and no acknowledgement. */
  lemma CatchAllNeverAcks(msg: Bytes, env: HandlerEnv)
    requires Bound(msg, env).Some?
    requires Body(Bound(msg, env).value, env).1 == Some(OtherException)
    ensures var t := Handle(msg, env).0;
      && t[|t| - 1] == SetState(Bound(msg, env).value.jobId, Failed)
      && !Acked(t, env)
  {
  }

  /** As written: when posting the acknowledgement raises after state 2 was
      written, the catch-all clause writes state 3 over the succeeded job. */
  lemma FailedWrittenAfterSucceeded(msg: Bytes, env: HandlerEnv)
    requires Bound(msg, env).Some?
    requires var p := Bound(msg, env).value; env.infer(p.modelId, p.jobId, p.user).Results?
    requires env.dbFault(Running).None? && env.dbFault(Succeeded).None? && env.dbFault(Failed).None?
    requires env.uploadFault.None? && env.ackFault == Some(OtherException)
    ensures var t, p := Handle(msg, env).0, Bound(msg, env).value;
      && |t| == 6
      && t[3] == SetState(p.jobId, Succeeded)
      && t[5] == SetState(p.jobId, Failed)
  {
  }

  /** The message the API publishes for a run request: the job id at the top
      level, the model id and user nested under `event`. */
  function PublishedRunMessage(jobId: string, modelId: string, user: string): map<string, Json>
  {
    map["job_id" := JString(jobId),
        "event_type" := JString("model_run"),
        "event" := JObject(map["model_id" := JString(modelId), "user" := JString(user)])]
  }

  /** As written: the flat payload never validates against a message the API
      publishes (model_id and user are not at its top level), so such a
      message is never processed nor acknowledged. */
  lemma PublishedMessageRejected(msg: Bytes, env: HandlerEnv, jobId: string, modelId: string, user: string)
    requires env.loads(msg) == Some(JObject(PublishedRunMessage(jobId, modelId, user)))
    ensures DecodeFlat(PublishedRunMessage(jobId, modelId, user), env.coerce).Failure?
    ensures Handle(msg, env) == ([], Escaped(UnboundEvent))
  {
  }

  // ---------------------------------------------------------------------
  // The handler as evidently intended: decode the published (nested)
  // message, record FAILED only for an identifiable job, never write a state
  // after a terminal state was recorded, and always acknowledge once.
  // ---------------------------------------------------------------------

  /** The fields the handler needs, read from the nested event. */
  function JobOf(p: Events.TriggerPayload): FlatPayload
  {
    match p.event
    case Run(e) => FlatPayload(p.jobId, e.modelId, e.user)
    case Train(e) => FlatPayload(p.jobId, e.modelId, e.user)
  }

  /** A state write of 2 or 3 that did not raise. */
  predicate IsTerminalWrite(e: Effect, env: HandlerEnv)
  {
    e.SetState? && e.state in {Succeeded, Failed} && env.dbFault(e.state).None?
  }

  predicate TerminalRecorded(t: seq<Effect>, env: HandlerEnv)
  {
    exists i :: 0 <= i < |t| && IsTerminalWrite(t[i], env)
  }

  /** No state is written after a terminal state was recorded. */
  predicate NoWriteAfterTerminal(t: seq<Effect>, env: HandlerEnv)
  {
    forall i, j :: 0 <= i < j < |t| && IsTerminalWrite(t[i], env) ==> !t[j].SetState?
  }

  /** After an exception in the job, whose failing call is the last one of
      `t`: write state 3 unless a terminal state was already recorded, then
      acknowledge unless that was already tried. */
  function Recover(t: seq<Effect>, job: Uuid, env: HandlerEnv): seq<Effect>
    requires t != []
  {
    t + (if TerminalRecorded(t[..|t| - 1], env) then [] else [SetState(job, Failed)])
      + (if PostAck in t then [] else [PostAck])
  }

  /** The job of a decoded message, recovering from any exception. */
  function ProcessCorrected(p: FlatPayload, env: HandlerEnv): (r: seq<Effect>)
    ensures |r| >= 1
  {
    var (t, exc) := Body(p, env);
    BodyStart(p, env);
    if exc.None? then t else Recover(t, p.jobId, env)
  }

  /** A message that does not decode: state 3 for its job when the job id is
      readable, then the acknowledgement. */
  function RejectCorrected(kwargs: map<string, Json>, c: Coercions): seq<Effect>
  {
    (if Events.HasUuid(kwargs, "job_id", c) then [SetState(c.toUuid(kwargs["job_id"]).value, Failed)] else [])
    + [PostAck]
  }

  function HandleCorrected(msg: Bytes, env: HandlerEnv): (r: seq<Effect>)
    ensures |r| >= 1
  {
    match env.loads(msg)
    case None => [PostAck]
    case Some(j) =>
      if !j.JObject? then [PostAck]
      else
        var d := Events.DecodeGuarded(j.fields, env.coerce);
        if d.Decoded? then ProcessCorrected(JobOf(d.payload), env)
        else RejectCorrected(j.fields, env.coerce)
  }

  /** Recovering from a trace that can only acknowledge as its last call
      acknowledges exactly once. */
  lemma RecoverAcksOnce(b: seq<Effect>, job: Uuid, env: HandlerEnv)
    requires b != []
    requires forall i :: 0 <= i < |b| - 1 ==> b[i] != PostAck
    ensures Count(Recover(b, job, env), PostAck) == 1
  {
    var k := |b| - 1;
    var w: seq<Effect> := if TerminalRecorded(b[..k], env) then [] else [SetState(job, Failed)];
    var a: seq<Effect> := if PostAck in b then [] else [PostAck];
    assert b + w + a == Recover(b, job, env);
    CountAtMostLast(b);
    CountAppend(b + w, a, PostAck);
    CountAppend(b, w, PostAck);
    CountZero(w, PostAck);
    CountZero(a, PostAck);
    assert [PostAck][1..] == [];
  }

  /** Recovering from a trace shaped like the try block's, ended by an
      exception, writes no state after a terminal one. */
  lemma RecoverNoWriteAfterTerminal(b: seq<Effect>, job: Uuid, env: HandlerEnv)
    requires b != [] && b[0].SetState? && b[0].state == Running
    requires forall i :: 0 <= i < |b| - 1 ==> b[i] != PostAck
    requires forall i :: 0 < i < |b| && b[i].SetState? ==> i == |b| - 1 || (i == |b| - 2 && b[|b| - 1] == PostAck)
    requires b[|b| - 1].SetState? ==> env.dbFault(b[|b| - 1].state).Some?
    ensures NoWriteAfterTerminal(Recover(b, job, env), env)
  {
    var k := |b| - 1;
    var w: seq<Effect> := if TerminalRecorded(b[..k], env) then [] else [SetState(job, Failed)];
    var a: seq<Effect> := if PostAck in b then [] else [PostAck];
    var t := b + w + a;
    assert t == Recover(b, job, env);
    forall i, j | 0 <= i < j < |t| && IsTerminalWrite(t[i], env)
      ensures !t[j].SetState?
    {
      if i < |b| {
        assert t[i] == b[i];
        assert i == k - 1 && b[k] == PostAck;
        assert b[..k][i] == b[i];
        assert TerminalRecorded(b[..k], env);
        assert t[k] == PostAck;
      }
    }
  }

  lemma ProcessCorrectedAcksOnce(p: FlatPayload, env: HandlerEnv)
    ensures Count(ProcessCorrected(p, env), PostAck) == 1
  {
    var (b, exc) := Body(p, env);
    BodyStart(p, env);
    BodyAcks(p, env);
    if exc.Some? {
      RecoverAcksOnce(b, p.jobId, env);
    }
  }

  lemma ProcessCorrectedNoWriteAfterTerminal(p: FlatPayload, env: HandlerEnv)
    ensures NoWriteAfterTerminal(ProcessCorrected(p, env), env)
  {
    var (b, exc) := Body(p, env);
    BodyStart(p, env);
    BodyAcks(p, env);
    BodyWrites(p, env);
    if exc.Some? {
      RecoverNoWriteAfterTerminal(b, p.jobId, env);
    }
  }

  lemma RejectCorrectedShape(kwargs: map<string, Json>, c: Coercions, env: HandlerEnv)
    ensures Count(RejectCorrected(kwargs, c), PostAck) == 1
    ensures NoWriteAfterTerminal(RejectCorrected(kwargs, c), env)
  {
    var w: seq<Effect> := if Events.HasUuid(kwargs, "job_id", c) then [SetState(c.toUuid(kwargs["job_id"]).value, Failed)] else [];
    CountAppend(w, [PostAck], PostAck);
    CountZero(w, PostAck);
    assert [PostAck][1..] == [];
  }

  /** Intended: every message is acknowledged exactly once. */
  lemma CorrectedAcksOnce(msg: Bytes, env: HandlerEnv)
    ensures Count(HandleCorrected(msg, env), PostAck) == 1
  {
    assert [PostAck][1..] == [];
    match env.loads(msg)
    case None =>
    case Some(j) =>
      if j.JObject? {
        var d := Events.DecodeGuarded(j.fields, env.coerce);
        if d.Decoded? {
          ProcessCorrectedAcksOnce(JobOf(d.payload), env);
        } else {
          RejectCorrectedShape(j.fields, env.coerce, env);
        }
      }
  }

  /** Intended: once a terminal state is recorded, no further state is
      written for the job. */
  lemma CorrectedNoWriteAfterTerminal(msg: Bytes, env: HandlerEnv)
    ensures NoWriteAfterTerminal(HandleCorrected(msg, env), env)
  {
    match env.loads(msg)
    case None =>
    case Some(j) =>
      if j.JObject? {
        var d := Events.DecodeGuarded(j.fields, env.coerce);
        if d.Decoded? {
          ProcessCorrectedNoWriteAfterTerminal(JobOf(d.payload), env);
        } else {
          RejectCorrectedShape(j.fields, env.coerce, env);
        }
      }
  }

  /** Intended: the message the API publishes is processed, starting with
      the RUNNING write for its job. */
  lemma CorrectedProcessesPublished(msg: Bytes, env: HandlerEnv, jobId: string, modelId: string, user: string)
    requires env.loads(msg) == Some(JObject(PublishedRunMessage(jobId, modelId, user)))
    requires env.coerce.toUuid(JString(jobId)).Some? && env.coerce.toUuid(JString(modelId)).Some?
    requires env.coerce.toStr(JString(user)).Some? && env.coerce.toStr(JString("model_run")) == Some("model_run")
    ensures var p := FlatPayload(env.coerce.toUuid(JString(jobId)).value, env.coerce.toUuid(JString(modelId)).value,
                                 env.coerce.toStr(JString(user)).value);
      && HandleCorrected(msg, env) == ProcessCorrected(p, env)
      && HandleCorrected(msg, env)[0] == SetState(p.jobId, Running)
      && (env.dbFault(Running).None? ==> HandleCorrected(msg, env)[1] == Infer(p.modelId, p.jobId, p.user))
  {
    var kwargs := PublishedRunMessage(jobId, modelId, user);
    var body := kwargs["event"];
    assert "input_vectors" !in body.fields;
    Events.RunOnlyBodyIsRun(body, env.coerce);
    assert Events.Decode(kwargs, env.coerce).Decoded?;
    var p := JobOf(Events.DecodeGuarded(kwargs, env.coerce).payload);
    assert p == FlatPayload(env.coerce.toUuid(JString(jobId)).value, env.coerce.toUuid(JString(modelId)).value,
                            env.coerce.toStr(JString(user)).value);
    BodyStart(p, env);
  }

  /** `worker_factory`: the listener configuration of the worker. The broker
      names are parameters because the worker's configuration module does
      not define them. */
  function WorkerConfig(brokerUrl: string, exchangeName: string, exchangeType: string, routingKey: string): (cfg: Rabbit.ExchangeConfig)
    ensures cfg.queueUrl == brokerUrl && cfg.exchangeName == exchangeName && cfg.exchangeType == exchangeType
    ensures cfg.queueName == routingKey && cfg.routingKeys == [Some(routingKey)]
    ensures !cfg.autoAck
    ensures !cfg.durable && cfg.prefetchCount == 1 && cfg.reconnectionInterval == 15
  {
    Rabbit.DefaultConfig(brokerUrl, exchangeName).(
      queueName := routingKey,
      exchangeType := exchangeType,
      routingKeys := [Some(routingKey)],
      autoAck := false)
  }

  /** The worker consumes with manual acknowledgement from a named queue
      called after its routing key, bound once with that key. */
  lemma WorkerSession(brokerUrl: string, exchangeName: string, exchangeType: string, routingKey: string, serverQueue: string)
    requires routingKey != ""
    ensures Rabbit.Plan(WorkerConfig(brokerUrl, exchangeName, exchangeType, routingKey), serverQueue) ==
      [ Rabbit.Connect(brokerUrl), Rabbit.OpenChannel,
        Rabbit.ExchangeDeclare(exchangeName, exchangeType, false),
        Rabbit.QueueDeclare(routingKey, false),
        Rabbit.QueueBind(exchangeName, routingKey, Some(routingKey)),
        Rabbit.BasicQos(1),
        Rabbit.BasicConsume(routingKey, false),
        Rabbit.StartConsuming ]
  {
    Rabbit.PlanShape(WorkerConfig(brokerUrl, exchangeName, exchangeType, routingKey), serverQueue);
  }
}
