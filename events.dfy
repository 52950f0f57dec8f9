/** The job event carried on the broker (worker/src/models/events.py): a
    tagged union whose tag `event_type` must name one of the two event
    classes, and whose body must be an instance of the class the tag names.
    Decoding follows the model library's rules: fields are validated in
    declaration order (job_id, event_type, event), a field's validator runs
    only when its value coerced, and the union tries its members left to
    right. */
module Events {
  import opened Wrappers
  import opened Json

  /** `epochs: int = 100`. */
  const DefaultEpochs := 100

  /** `ModelRunEvent`. */
  datatype RunEvent = RunEvent(modelId: Uuid, user: string)

  /** `ModelTrainEvent`. */
  datatype TrainEvent = TrainEvent(
    modelId: Uuid,
    user: string,
    epochs: int,
    inputVectors: seq<map<string, real>>,
    outputVectors: seq<seq<real>>)

  /** `Union[ModelTrainEvent, ModelRunEvent]`, in the order the union tries them. */
  datatype Event = Train(train: TrainEvent) | Run(run: RunEvent)

  /** The two classes `ALLOWED_EVENT_TYPES` maps to. */
  datatype EventClass = ModelRunEvent | ModelTrainEvent

  /** `TensorTriggerPayload` of the events module. */
  datatype TriggerPayload = TriggerPayload(jobId: Uuid, eventType: string, event: Event)

  /** What constructing the payload does: it returns a payload, raises a
      ValidationError listing the failed fields, or lets the KeyError raised
      inside `validate_event` escape. */
  datatype DecodeOutcome =
    | Decoded(payload: TriggerPayload)
    | Rejected(errors: seq<FieldError>)
    | LookupFailed

  /** `ALLOWED_EVENT_TYPES.get(name)`. */
  function AllowedEventType(name: string): (r: Option<EventClass>)
    ensures r == Some(ModelRunEvent) <==> name == "model_run"
    ensures r == Some(ModelTrainEvent) <==> name == "model_train"
    ensures r.None? <==> name != "model_run" && name != "model_train"
  {
    if name == "model_run" then Some(ModelRunEvent)
    else if name == "model_train" then Some(ModelTrainEvent)
    else None
  }

  function ClassOf(e: Event): EventClass
  {
    match e
    case Train(_) => ModelTrainEvent
    case Run(_) => ModelRunEvent
  }

  predicate HasUuid(fields: map<string, Json>, name: string, c: Coercions)
  {
    name in fields && c.toUuid(fields[name]).Some?
  }

  predicate HasStr(fields: map<string, Json>, name: string, c: Coercions)
  {
    name in fields && c.toStr(fields[name]).Some?
  }

  /** Validates a body as `ModelRunEvent`; extra fields are ignored. */
  function ParseRunEvent(v: Json, c: Coercions): (r: Checked<RunEvent>)
    ensures r.Success? <==> v.JObject? && HasUuid(v.fields, "model_id", c) && HasStr(v.fields, "user", c)
    ensures r.Success? ==> Some(r.value.modelId) == c.toUuid(v.fields["model_id"])
    ensures r.Success? ==> Some(r.value.user) == c.toStr(v.fields["user"])
  {
    if !v.JObject? then Failure([FieldError(["event"], WrongType)])
    else
      var modelId := Field(v.fields, "model_id", c.toUuid, ["event"]);
      var user := Field(v.fields, "user", c.toStr, ["event"]);
      if modelId.Success? && user.Success? then Success(RunEvent(modelId.value, user.value))
      else Failure(Errors(modelId) + Errors(user))
  }

  function InputVectors(fields: map<string, Json>, c: Coercions): (r: Checked<seq<map<string, real>>>)
    ensures r.Success? <==> "input_vectors" in fields && FloatDictList(fields["input_vectors"], c).Some?
    ensures "input_vectors" !in fields ==> r == Failure([FieldError(["event", "input_vectors"], Missing)])
    ensures r.Success? ==> r.value == FloatDictList(fields["input_vectors"], c).value
  {
    assert ["event"] + ["input_vectors"] == ["event", "input_vectors"];
    Field(fields, "input_vectors", (j: Json) => FloatDictList(j, c), ["event"])
  }

  function OutputVectors(fields: map<string, Json>, c: Coercions): (r: Checked<seq<seq<real>>>)
    ensures r.Success? <==> "output_vectors" in fields && FloatListList(fields["output_vectors"], c).Some?
    ensures "output_vectors" !in fields ==> r == Failure([FieldError(["event", "output_vectors"], Missing)])
    ensures r.Success? ==> r.value == FloatListList(fields["output_vectors"], c).value
  {
    assert ["event"] + ["output_vectors"] == ["event", "output_vectors"];
    Field(fields, "output_vectors", (j: Json) => FloatListList(j, c), ["event"])
  }

  /** Validates a body as `ModelTrainEvent`; `epochs` falls back to 100. */
  function ParseTrainEvent(v: Json, c: Coercions): (r: Checked<TrainEvent>)
    ensures r.Success? <==>
      && v.JObject?
      && HasUuid(v.fields, "model_id", c)
      && HasStr(v.fields, "user", c)
      && FieldOr(v.fields, "epochs", c.toInt, DefaultEpochs, ["event"]).Success?
      && InputVectors(v.fields, c).Success?
      && OutputVectors(v.fields, c).Success?
    ensures r.Success? ==> Some(r.value.modelId) == c.toUuid(v.fields["model_id"])
    ensures r.Success? ==> Some(r.value.user) == c.toStr(v.fields["user"])
    ensures r.Success? ==> r.value.epochs == FieldOr(v.fields, "epochs", c.toInt, DefaultEpochs, ["event"]).value
    ensures r.Success? ==> r.value.inputVectors == InputVectors(v.fields, c).value
    ensures r.Success? ==> r.value.outputVectors == OutputVectors(v.fields, c).value
  {
    if !v.JObject? then Failure([FieldError(["event"], WrongType)])
    else
      var modelId := Field(v.fields, "model_id", c.toUuid, ["event"]);
      var user := Field(v.fields, "user", c.toStr, ["event"]);
      var epochs := FieldOr(v.fields, "epochs", c.toInt, DefaultEpochs, ["event"]);
      var inputs := InputVectors(v.fields, c);
      var outputs := OutputVectors(v.fields, c);
      if modelId.Success? && user.Success? && epochs.Success? && inputs.Success? && outputs.Success? then
        Success(TrainEvent(modelId.value, user.value, epochs.value, inputs.value, outputs.value))
      else
        Failure(Errors(modelId) + Errors(user) + Errors(epochs) + Errors(inputs) + Errors(outputs))
  }

  /** The union: `ModelTrainEvent` first, then `ModelRunEvent`; when neither
      accepts the body, both members' errors are reported. */
  function ParseEvent(v: Json, c: Coercions): (r: Checked<Event>)
    ensures ParseTrainEvent(v, c).Success? ==> r == Success(Train(ParseTrainEvent(v, c).value))
    ensures ParseTrainEvent(v, c).Failure? && ParseRunEvent(v, c).Success? ==>
              r == Success(Run(ParseRunEvent(v, c).value))
    ensures r.Success? <==> ParseTrainEvent(v, c).Success? || ParseRunEvent(v, c).Success?
  {
    match ParseTrainEvent(v, c)
    case Success(t) => Success(Train(t))
    case Failure(trainErrors) =>
      match ParseRunEvent(v, c)
      case Success(e) => Success(Run(e))
      case Failure(runErrors) => Failure(trainErrors + runErrors)
  }

  /** `validate_event_type`: the coerced string must be a key of
      `ALLOWED_EVENT_TYPES`. */
  function ValidateEventType(kwargs: map<string, Json>, c: Coercions): (r: Checked<string>)
    ensures r.Success? <==> HasStr(kwargs, "event_type", c) &&
                            AllowedEventType(c.toStr(kwargs["event_type"]).value).Some?
    ensures r.Success? ==> Some(r.value) == c.toStr(kwargs["event_type"])
    ensures HasStr(kwargs, "event_type", c) && r.Failure? ==>
              var v := c.toStr(kwargs["event_type"]).value;
              r.error == [FieldError(["event_type"], Custom("Invalid event type " + v))]
  {
    match Field(kwargs, "event_type", c.toStr, [])
    case Failure(errs) => Failure(errs)
    case Success(v) =>
      if AllowedEventType(v).None? then Failure([FieldError(["event_type"], Custom("Invalid event type " + v))])
      else Success(v)
  }

  /** Payload construction. `guarded` selects how `validate_event` looks up
      the already validated `event_type`: unguarded (`values['event_type']`,
      as written) raises KeyError when that field failed; guarded leaves the
      failure to the event_type error already reported. */
  function DecodeWith(kwargs: map<string, Json>, c: Coercions, guarded: bool): (r: DecodeOutcome)
  {
    var jobId := Field(kwargs, "job_id", c.toUuid, []);
    var eventType := ValidateEventType(kwargs, c);
    if "event" !in kwargs then
      Rejected(Errors(jobId) + Errors(eventType) + [FieldError(["event"], Missing)])
    else
      match ParseEvent(kwargs["event"], c)
      case Failure(errs) => Rejected(Errors(jobId) + Errors(eventType) + errs)
      case Success(ev) =>
        if eventType.Failure? then
          if guarded then Rejected(Errors(jobId) + eventType.error) else LookupFailed
        else if Some(ClassOf(ev)) != AllowedEventType(eventType.value) then
          Rejected(Errors(jobId) + [FieldError(["event"], Custom("Event type mismatch"))])
        else if jobId.Failure? then
          Rejected(jobId.error)
        else
          Decoded(TriggerPayload(jobId.value, eventType.value, ev))
  }

  /** `TensorTriggerPayload(**kwargs)` as written. A payload is produced
      exactly when job_id is a UUID, event_type is an allowed name and the
      body parses as the class that name maps to. */
  function Decode(kwargs: map<string, Json>, c: Coercions): (r: DecodeOutcome)
    ensures r.Decoded? <==>
      && HasUuid(kwargs, "job_id", c)
      && ValidateEventType(kwargs, c).Success?
      && "event" in kwargs
      && ParseEvent(kwargs["event"], c).Success?
      && Some(ClassOf(ParseEvent(kwargs["event"], c).value)) == AllowedEventType(ValidateEventType(kwargs, c).value)
    ensures r.Decoded? ==> r.payload.eventType in {"model_run", "model_train"}
    ensures r.Decoded? ==> Some(ClassOf(r.payload.event)) == AllowedEventType(r.payload.eventType)
    ensures r.Decoded? ==> Some(r.payload.jobId) == c.toUuid(kwargs["job_id"])
    ensures r.Decoded? ==> r.payload.eventType == ValidateEventType(kwargs, c).value
    ensures r.Decoded? ==> r.payload.event == ParseEvent(kwargs["event"], c).value
    ensures r.LookupFailed? <==>
      ValidateEventType(kwargs, c).Failure? && "event" in kwargs && ParseEvent(kwargs["event"], c).Success?
  {
    DecodeWith(kwargs, c, false)
  }

  /** Payload construction with the `event_type` lookup guarded: every
      failure is reported as a validation error and never escapes. */
  function DecodeGuarded(kwargs: map<string, Json>, c: Coercions): (r: DecodeOutcome)
    ensures !r.LookupFailed?
    ensures !Decode(kwargs, c).LookupFailed? ==> r == Decode(kwargs, c)
    ensures Decode(kwargs, c).LookupFailed? ==> r.Rejected?
    ensures Decode(kwargs, c).LookupFailed? ==>
              forall e :: e in ValidateEventType(kwargs, c).error ==> e in r.errors
  {
    DecodeWith(kwargs, c, true)
  }

  /** An event_type outside `ALLOWED_EVENT_TYPES` is reported as
      "Invalid event type <v>" whenever the body itself does not validate. */
  lemma InvalidEventTypeReported(kwargs: map<string, Json>, c: Coercions)
    requires HasStr(kwargs, "event_type", c)
    requires AllowedEventType(c.toStr(kwargs["event_type"]).value).None?
    requires "event" !in kwargs || ParseEvent(kwargs["event"], c).Failure?
    ensures Decode(kwargs, c).Rejected?
    ensures FieldError(["event_type"], Custom("Invalid event type " + c.toStr(kwargs["event_type"]).value))
              in Decode(kwargs, c).errors
  {
    var eventType := ValidateEventType(kwargs, c);
    var jobId := Field(kwargs, "job_id", c.toUuid, []);
    assert eventType.error[0] in Errors(jobId) + eventType.error;
  }

  /** When event_type was rejected but the body validates, `validate_event`
      reads the missing `values['event_type']` and the KeyError escapes the
      constructor instead of a validation error being reported. */
  lemma InvalidEventTypeEscapes(kwargs: map<string, Json>, c: Coercions)
    requires !HasStr(kwargs, "event_type", c) ||
             AllowedEventType(c.toStr(kwargs["event_type"]).value).None?
    requires "event" in kwargs && ParseEvent(kwargs["event"], c).Success?
    ensures Decode(kwargs, c) == LookupFailed
    ensures DecodeGuarded(kwargs, c).Rejected?
  {
  }

  /** A body that validates as the class the other tag names is rejected
      with "Event type mismatch". */
  lemma MismatchReported(kwargs: map<string, Json>, c: Coercions)
    requires ValidateEventType(kwargs, c).Success?
    requires "event" in kwargs && ParseEvent(kwargs["event"], c).Success?
    requires Some(ClassOf(ParseEvent(kwargs["event"], c).value)) != AllowedEventType(ValidateEventType(kwargs, c).value)
    ensures Decode(kwargs, c).Rejected?
    ensures FieldError(["event"], Custom("Event type mismatch")) in Decode(kwargs, c).errors
  {
    var jobId := Field(kwargs, "job_id", c.toUuid, []);
    var mismatch := FieldError(["event"], Custom("Event type mismatch"));
    assert mismatch in Errors(jobId) + [mismatch];
  }

  /** A body carrying model_id, user, input_vectors and output_vectors is a
      train event, since the union tries `ModelTrainEvent` first; a missing
      `epochs` becomes 100. */
  lemma TrainShapedBodyIsTrain(v: Json, c: Coercions)
    requires v.JObject?
    requires HasUuid(v.fields, "model_id", c) && HasStr(v.fields, "user", c)
    requires "epochs" !in v.fields || c.toInt(v.fields["epochs"]).Some?
    requires "input_vectors" in v.fields && FloatDictList(v.fields["input_vectors"], c).Some?
    requires "output_vectors" in v.fields && FloatListList(v.fields["output_vectors"], c).Some?
    ensures ParseEvent(v, c).Success? && ParseEvent(v, c).value.Train?
    ensures ParseEvent(v, c).value.train.epochs ==
              if "epochs" in v.fields then c.toInt(v.fields["epochs"]).value else DefaultEpochs
    ensures ParseEvent(v, c).value.train.inputVectors == FloatDictList(v.fields["input_vectors"], c).value
    ensures ParseEvent(v, c).value.train.outputVectors == FloatListList(v.fields["output_vectors"], c).value
  {
  }

  /** A body with model_id and user but no input_vectors is a run event. */
  lemma RunOnlyBodyIsRun(v: Json, c: Coercions)
    requires v.JObject?
    requires HasUuid(v.fields, "model_id", c) && HasStr(v.fields, "user", c)
    requires "input_vectors" !in v.fields || "output_vectors" !in v.fields
    ensures ParseEvent(v, c) == Success(Run(RunEvent(c.toUuid(v.fields["model_id"]).value,
                                                     c.toStr(v.fields["user"]).value)))
  {
  }

  /** input_vectors and output_vectors are required of a train event: each
      one that is absent is reported as missing. */
  lemma TrainRequiresVectors(v: Json, c: Coercions)
    requires v.JObject?
    requires "input_vectors" !in v.fields || "output_vectors" !in v.fields
    ensures ParseTrainEvent(v, c).Failure?
    ensures "input_vectors" !in v.fields ==>
              FieldError(["event", "input_vectors"], Missing) in ParseTrainEvent(v, c).error
    ensures "output_vectors" !in v.fields ==>
              FieldError(["event", "output_vectors"], Missing) in ParseTrainEvent(v, c).error
  {
    var f := v.fields;
    var modelId := Field(f, "model_id", c.toUuid, ["event"]);
    var user := Field(f, "user", c.toStr, ["event"]);
    var epochs := FieldOr(f, "epochs", c.toInt, DefaultEpochs, ["event"]);
    var inputs := InputVectors(f, c);
    var outputs := OutputVectors(f, c);
    var all := Errors(modelId) + Errors(user) + Errors(epochs) + Errors(inputs) + Errors(outputs);
    assert ParseTrainEvent(v, c) == Failure(all);
    if "input_vectors" !in f {
      assert inputs.error[0] in all;
    }
    if "output_vectors" !in f {
      assert outputs.error[0] in all;
    }
  }
}
