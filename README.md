# tensor-trigger, modelled in Dafny

tensor-trigger is a small platform for running TensorFlow models. It has
three parts:

- a Python API (`app/`, with an older variant in `python/`) that accepts
  model uploads and run requests;
- a Go API (`pkg/api`, `legacy/pkg/utils`) that keeps model files and model
  metadata in an S3 bucket;
- a Python worker (`worker/`) that consumes job events from a RabbitMQ
  exchange. For each event it records the job's state, runs the model,
  uploads the output and acknowledges the message.

This project models the worker's job handling and broker listener, the event
schema, the API helpers that validate schemas, data points and base64 data
URLs, the settings lookup, and the Go S3 and metadata helpers. It then proves
what each one promises. One Dafny module stands for each source file:

| module | file | source |
|---|---|---|
| `Worker` | worker.dfy | worker/src/worker.py |
| `Events` | events.dfy | worker/src/models/events.py |
| `Rabbit` | rabbit.dfy | worker/src/logic/rabbit.py |
| `AppTensor` | apptensor.dfy | app/src/logic/tensor.py |
| `PyTensor` | pytensor.dfy | python/src/logic/tensor.py |
| `AppUtils` | apputils.dfy | app/src/utils.py |
| `Base64` | base64.dfy | the `base64` codec `app/src/utils.py` calls |
| `AppModels` | appmodels.dfy | app/src/models/models.py |
| `PyModels` | pymodels.dfy | python/src/models/models.py |
| `Config` | config.dfy | app/src/config.py and worker/src/config.py |
| `BlobStore` | blobstore.dfy | legacy/pkg/utils/s3.go |
| `Metadata` | metadata.dfy | pkg/api/utils.go |

`Wrappers` (Option, Result), `Text` (ASCII case mapping, UTF-8) and `Json`
(decoded JSON values and field coercions) are shared by the modules above.

Code that calls collaborators outside the model takes them as parameters, in
three forms:

- function-valued fields of a small datatype: `HandlerEnv` (json.loads, the
  job-state writes, the inference, the upload, the ack), `Coercions`,
  `Casts` and `Codec`;
- fault parameters: the error a broker or S3 call, the job-state write of
  a given state, the upload or the ack raises instead of answering;
- a `Server` object: the S3 server the Go helpers update in place.

The worker's `message_handler` is modelled twice:

- a method (`Worker.MessageHandler`) that issues the calls in source order
  and records them as a trace of `Effect`s;
- a function (`Worker.Handle`) that specifies that trace.

The method is proved equal to the function. The lemmas then state the
ordering properties over the function.

The broker listener (`listen_on_exchange`) runs over a sequence of
connections, each given as an `Attempt`. A connection ends in one of three
ways:

- `start_consuming` returns, and the loop reconnects at once;
- a transport error, after which the listener sleeps and reconnects if it
  handles errors, and re-raises otherwise;
- any other exception, which escapes.

The Go helpers' S3 server answers `ListObjects` with one page of at most
1000 keys, as S3 does when the request names no marker.

Where the code and its evident intent disagree, the model follows the code.
The except clauses (worker/src/worker.py:73-80) are meant to mark the job
FAILED and, for a message that fails to decode, to acknowledge it. The
handler as written does neither for a message that fails to decode, and
never acknowledges in the catch-all: see "Findings". The message the API
publishes (app/src/routers/tensor.py:143-145, with model_id and user nested
under `event`) is rejected by the worker's flat payload class.

## Model

| member | source | states |
|---|---|---|
| Text.Upper | app/src/config.py:27 | `str.upper()` on ASCII: the same length, each letter upper-cased |
| Text.Lower | app/src/config.py:34 | `str.lower()` on ASCII: the same length, each letter lower-cased |
| Text.UpperOfLower | app/src/config.py:27 | upper-casing forgets the case the text was written in |
| Text.Utf8Char | worker/src/worker.py:65 | one to four bytes per character; one byte, equal to the code point, exactly for ASCII |
| Text.Utf8Encode | worker/src/worker.py:65 | the encoding is at least as long as the text |
| Worker.AsciiOutputBytes | worker/src/worker.py:61-67 | when `json.dumps` emits ASCII (its default), the uploaded output is one byte per character of its text, equal to the code point |
| Text.Utf8EncodeAscii | worker/src/worker.py:61-65 | on ASCII text (what `json.dumps` emits) the encoding is one byte per character, equal to its code point |
| Json.Field | worker/src/models/events.py:12-13 | a required field succeeds iff present and coercible, with the coerced value; absent, it is reported missing at its location |
| Json.FieldOr | worker/src/models/events.py:20 | an absent defaulted field takes its default; a present one is checked as a required one |
| Json.FloatList | worker/src/models/events.py:22 | `List[float]`: accepted iff an array whose every item coerces; the items in order |
| Json.FloatDict | worker/src/models/events.py:21 | `Dict[str, float]`: accepted iff an object whose every value coerces; the same keys |
| Json.FloatDictList | worker/src/models/events.py:21 | `List[Dict[str, float]]`: accepted iff every item is a float dict; item i is the float dict parsed from item i |
| Json.FloatListList | worker/src/models/events.py:22 | `List[List[float]]`: accepted iff every item is a float list; item i is the float list parsed from item i |
| Events.AllowedEventType | worker/src/models/events.py:25-28 | exactly `model_run` and `model_train` are allowed, mapped to the run and train classes |
| Events.ParseRunEvent | worker/src/models/events.py:10-13 | a run event is accepted iff model_id is a UUID and user a string; extra fields are ignored |
| Events.InputVectors | worker/src/models/events.py:21 | input_vectors is required and must be a list of float dicts; the value is that parsed list |
| Events.OutputVectors | worker/src/models/events.py:22 | output_vectors is required and must be a list of float lists; the value is that parsed list |
| Events.ParseTrainEvent | worker/src/models/events.py:16-22 | a train event is accepted iff the body is an object whose model_id is a UUID, user a string, epochs an int or absent and both vector lists check; it then carries exactly those values, a missing epochs becoming 100 |
| Events.ParseEvent | worker/src/models/events.py:34 | the union tries the train class first, then the run class; it fails iff both do |
| Events.ValidateEventType | worker/src/models/events.py:36-40 | event_type is accepted iff it is a key of ALLOWED_EVENT_TYPES; otherwise "Invalid event type " + v |
| Events.Decode | worker/src/models/events.py:30-48 | a payload is produced iff job_id is a UUID, event_type is allowed and the body parses as the class it names; it then carries that event_type and that parsed body |
| Events.DecodeGuarded | worker/src/models/events.py:42-48 | with the event_type lookup guarded, nothing escapes; the result equals the unguarded one wherever that does not escape, and keeps the event_type error |
| Events.InvalidEventTypeReported | worker/src/models/events.py:36-40 | a disallowed event_type with a body that fails is reported with "Invalid event type " + v |
| Events.InvalidEventTypeEscapes | worker/src/models/events.py:42-45 | a disallowed event_type with a body that parses makes `values['event_type']` raise KeyError out of the constructor |
| Events.MismatchReported | worker/src/models/events.py:45-47 | a body of the other class than the tag names is rejected with "Event type mismatch" |
| Events.TrainShapedBodyIsTrain | worker/src/models/events.py:16-22 | a body with model_id, user and both vector lists decodes as a train event with those vectors; epochs defaults to 100 |
| Events.RunOnlyBodyIsRun | worker/src/models/events.py:10-13 | a body with model_id and user but without a vector list decodes as a run event |
| Events.TrainRequiresVectors | worker/src/models/events.py:21-22 | a train body without input_vectors or output_vectors fails, each absent list reported missing |
| Worker.DecodeFlat | worker/src/worker.py:24-28 | the handler's payload is accepted iff job_id and model_id are UUIDs and user a string, all at the top level |
| Worker.OutputPath | worker/src/worker.py:67 | the upload path is '/tensor-trigger/output-data' followed directly by the job id |
| Worker.RunJob | worker/src/worker.py:52-71 | the try block's calls, in order, and the exception that ended them, equal the specification `Body` |
| Worker.MessageHandler | worker/src/worker.py:46-80 | the handler's calls and outcome equal the specification `Handle` |
| Worker.Body | worker/src/worker.py:52-71 | the try block makes one to five calls, the first the RUNNING write for the job; when nothing raises, the last is the ack |
| Worker.BodyStart | worker/src/worker.py:53-55 | the try block starts with the RUNNING write and calls the inference at most once, as its second call |
| Worker.BodyUpload | worker/src/worker.py:67-70 | the try block writes state 2 only as its fourth call, right after the upload |
| Worker.BodyAcks | worker/src/worker.py:71 | the try block acks at most once, only last, and always when nothing raised, right after a terminal write |
| Worker.BodyWrites | worker/src/worker.py:52-71 | the try block writes a state only first and last (or just before the ack); a failing last write is what raised |
| Worker.ExceptAppends | worker/src/worker.py:73-80 | an except clause appends only a state-3 write and, for decode errors, the ack |
| Worker.Handle | worker/src/worker.py:46-80 | the handler makes no call exactly when the message does not decode, and then the unbound `event` escapes; otherwise its first call is the RUNNING write for the decoded job |
| Worker.HandleExtendsBody | worker/src/worker.py:46-80 | a decoded message's trace is the try block's trace extended by the except clause |
| Worker.RunningBeforeInference | worker/src/worker.py:50-55 | for a payload that decodes, state 1 is written before the inference, which is called only after it |
| Worker.NoResultsFailsWithoutUpload | worker/src/worker.py:56-58 | when inference returns None, state 3 is written, nothing is uploaded and state 2 is never written |
| Worker.UploadBeforeSucceeded | worker/src/worker.py:61-70 | state 2 is written only right after uploading the UTF-8 of json.dumps({'output': results}) to the job's path |
| Worker.AckOnceAfterTerminalState | worker/src/worker.py:71 | on the normal path the ack is posted exactly once, last, right after the terminal state write |
| Worker.MalformedMessageEscapes | worker/src/worker.py:48-50 | as written: a message that does not decode makes no call at all and escapes through the unbound `event` |
| Worker.CatchAllNeverAcks | worker/src/worker.py:78-80 | as written: any other exception ends with a state-3 write and no ack |
| Worker.FailedWrittenAfterSucceeded | worker/src/worker.py:70-80 | as written: when posting the ack raises after state 2, state 3 is written over the succeeded job |
| Worker.PublishedMessageRejected | worker/src/worker.py:24-28 | as written: the nested message the API publishes never decodes, so it is neither processed nor acknowledged |
| Worker.ProcessCorrected | worker/src/worker.py:52-80 | the corrected job processing makes at least one call |
| Worker.HandleCorrected | worker/src/worker.py:46-80 | the corrected handler makes at least one call |
| Worker.RecoverAcksOnce | worker/src/worker.py:71-80 | recovering from a trace that can ack only last acks exactly once |
| Worker.RecoverNoWriteAfterTerminal | worker/src/worker.py:78-80 | recovering after an exception writes no state after a recorded terminal one |
| Worker.ProcessCorrectedAcksOnce | worker/src/worker.py:52-80 | the corrected job processing acks exactly once |
| Worker.ProcessCorrectedNoWriteAfterTerminal | worker/src/worker.py:52-80 | the corrected job processing writes nothing after a terminal state |
| Worker.RejectCorrectedShape | worker/src/worker.py:73-76 | a corrected rejection writes state 3 only when job_id is readable, then acks once |
| Worker.CorrectedAcksOnce | worker/src/worker.py:46-80 | intended: every message is acknowledged exactly once |
| Worker.CorrectedNoWriteAfterTerminal | worker/src/worker.py:46-80 | intended: no state is written after a terminal state was recorded |
| Worker.CorrectedProcessesPublished | worker/src/worker.py:24-28 | intended: the published nested message is processed exactly as the flat payload of its job_id, model_id and user would be: the RUNNING write for its job, then the inference for its model, job and user |
| Worker.WorkerConfig | worker/src/worker.py:94-101 | the worker's exchange settings: the broker URL, exchange name and type given, a queue named after the routing key and bound with that key alone, manual acknowledgement, and the defaults for the rest (not durable, prefetch 1, reconnect after 15 seconds) |
| Worker.WorkerSession | worker/src/worker.py:94-101 | the worker consumes with manual ack from a queue named after its routing key, bound once with that key |
| Rabbit.DefaultConfig | worker/src/logic/rabbit.py:43-51 | the defaults: an unnamed queue, a fanout exchange, one binding with no routing key, not durable, prefetch 1, reconnect after 15 seconds, auto-ack on |
| Rabbit.Binds | worker/src/logic/rabbit.py:128-131 | one queue_bind per routing key, in list order |
| Rabbit.Plan | worker/src/logic/rabbit.py:109-140 | a connection issues the exchange and queue declarations, one bind per key and three more commands |
| Rabbit.BindsAt | worker/src/logic/rabbit.py:128-131 | the k-th bind uses the k-th routing key, the configured exchange and the bound queue |
| Rabbit.PlanElements | worker/src/logic/rabbit.py:109-140 | the command at each position of a connection's setup |
| Rabbit.PlanShape | worker/src/logic/rabbit.py:109-140 | the setup's order: declare exchange, declare queue, bind per key, qos, consume with the auto-ack mode; nothing else binds |
| Rabbit.UnnamedQueueIsExclusive | worker/src/logic/rabbit.py:117-124 | the queue is exclusive iff unnamed, and used under the server's name iff unnamed |
| Rabbit.DefaultPlan | worker/src/logic/rabbit.py:43-51 | the defaults give a server-named exclusive queue on a fanout exchange, bound once with no key, prefetch 1, auto-ack on |
| Rabbit.Issue | worker/src/logic/rabbit.py:109-140 | issuing a command extends the issued prefix of the plan by one; it raises iff it is the one the broker fails |
| Rabbit.RunSession | worker/src/logic/rabbit.py:109-140 | one connection issues its plan in order, up to and including the command that raises |
| Rabbit.Listen | worker/src/logic/rabbit.py:107-149 | the listener is still running after the given connections iff every one of them ended with `start_consuming` returning or with a transport error it handles |
| Rabbit.ListenStep | worker/src/logic/rabbit.py:107-149 | one turn of the loop: the connection's commands, then at once the next connection after `start_consuming` returns, a sleep first after a handled transport error, or the escaping exception |
| Rabbit.ListenRaisesFirstUnhandled | worker/src/logic/rabbit.py:107-149 | the listener raises the exception of the first connection that ends in one it does not handle |
| Rabbit.SessionPrefix | worker/src/logic/rabbit.py:109-140 | the listener's commands begin with the first connection's setup, as far as it got |
| Rabbit.PlanStartsConnected | worker/src/logic/rabbit.py:109 | every connection's commands begin with opening the connection to the queue URL |
| Rabbit.PlanNeverSleeps | worker/src/logic/rabbit.py:109-140 | a connection's setup contains no sleep |
| Rabbit.ListenOnExchange | worker/src/logic/rabbit.py:107-149 | the reconnect loop's commands and its ending equal the specification `Listen` |
| Rabbit.ConsumingReturnedReconnects | worker/src/logic/rabbit.py:107-140 | when `start_consuming` returns, the whole setup is followed at once by the next `Connect`, with no sleep, and the listener ends as the rest of it does |
| Rabbit.ReconnectRepeatsSetup | worker/src/logic/rabbit.py:143-149 | after a handled transport error the listener's commands are the failed connection's setup up to the failing command, one sleep of the configured interval, then the next connection's setup from `Connect` as far as it gets |
| Rabbit.UnhandledTransportErrorRethrows | worker/src/logic/rabbit.py:143-145 | without error handling the first transport error ends the listener after one connection |
| Rabbit.OtherErrorEscapes | worker/src/logic/rabbit.py:107-143 | any other exception escapes even when errors are handled, with no sleep |
| Rabbit.AckMessage | worker/src/logic/rabbit.py:54-67 | the ack is only posted to the connection as a callback; the channel is untouched |
| Rabbit.RunPendingAck | worker/src/logic/rabbit.py:59-63 | the posted callback acks the tag iff the channel is open, and otherwise only warns |
| AppTensor.IsValidModelSchema | app/src/logic/tensor.py:17-33 | a schema is valid iff every type name upper-cases to INT or FLOAT |
| AppTensor.Convertor | app/src/logic/tensor.py:36-39 | a convertor exists exactly for INT and FLOAT |
| AppTensor.ValidateDataPoint | app/src/logic/tensor.py:53-67 | True iff every schema entry's key is present and its value casts to the entry's type |
| AppTensor.DataPointValidExactly | app/src/logic/tensor.py:53-67 | a missing key, an unknown type name or a failing cast makes the data point invalid, and nothing else does |
| AppTensor.ExtraKeysIgnored | app/src/logic/tensor.py:53-55 | keys the schema does not name play no part in the verdict |
| AppTensor.Flatten | app/src/logic/tensor.py:149-150 | one row per schema entry, carrying its name, type and index, in schema order |
| AppTensor.Insert | app/src/logic/tensor.py:153 | insertion adds exactly the one row |
| AppTensor.SortByIndex | app/src/logic/tensor.py:153 | the sort is a permutation of the rows |
| AppTensor.InsertSorted | app/src/logic/tensor.py:153 | inserting into rows sorted by index keeps them sorted |
| AppTensor.InsertWithIndex | app/src/logic/tensor.py:153 | inserting keeps the relative order of rows with equal index |
| AppTensor.SortByIndexStable | app/src/logic/tensor.py:153 | the sort orders by ascending index and is stable |
| AppTensor.SortInputVector | app/src/logic/tensor.py:156-159 | the value of each sorted row's name in row order, or None when a name is missing |
| AppTensor.SameNames | app/src/logic/tensor.py:149-159 | the sorted rows name exactly the schema's keys |
| AppTensor.FormatInputVector | app/src/logic/tensor.py:149-163 | one value per schema key, ordered by index; None when the input lacks a key |
| AppTensor.FormatInputVectorBatch | app/src/logic/tensor.py:203-220 | one index-ordered row per input vector; None when any vector lacks a key |
| AppTensor.ValidateCsvHeader | app/src/logic/tensor.py:262-273 | a file that does not parse is rejected; an accepted header names only schema keys and as many columns as the schema has keys |
| AppTensor.CsvHeaderIsSchemaKeys | app/src/logic/tensor.py:265-269 | with distinct column names, the header is accepted iff its columns are exactly the schema's keys |
| PyTensor.ValidateDataPoint | python/src/logic/tensor.py:51-64 | True iff every schema key is present and its value casts to the named type |
| PyTensor.AsItems | python/src/logic/tensor.py:51 | this service's schema read as the app's: the same keys and type names |
| PyTensor.SameVerdictAsApp | python/src/logic/tensor.py:51-64 | both services decide a data point the same way |
| PyTensor.FormatInputVector | python/src/logic/tensor.py:92-93 | the input's values in insertion order; the schema plays no part |
| PyTensor.AgreesWithAppInIndexOrder | python/src/logic/tensor.py:92-93 | the vector equals the app's index-ordered one when the input's keys already come in index order |
| AppModels.ValidateSchemaItem | app/src/models/models.py:15-19 | a type name is accepted iff its upper case is allowed, kept as written; else "Invalid variable type " + v |
| AppModels.SchemaItemCaseInsensitive | app/src/models/models.py:17 | acceptance does not depend on letter case |
| AppModels.SchemaItemAgreesWithSchemaCheck | app/src/models/models.py:17 | the item validator, is_valid_model_schema and the convertor table accept the same type names |
| AppModels.ParseSchemaItem | app/src/models/models.py:10-19 | a schema item is accepted iff var_type is an allowed string and index an integer |
| AppModels.ParseModelSchema | app/src/models/models.py:24 | a schema is accepted iff an object whose every value is a schema item |
| AppModels.DecodeUploadRequest | app/src/models/models.py:22-27 | an upload request is accepted iff its four fields check |
| AppModels.DecodedSchemaHasConvertors | app/src/models/models.py:22-27 | on an accepted request's schema the data-point verdict depends only on presence and casts |
| PyModels.ValidateSchema | python/src/models/models.py:17-21 | accepted iff is_valid_model_schema holds; else "Invalid model schema" |
| PyModels.EmptySchemaAccepted | python/src/models/models.py:17-21 | an empty schema is accepted |
| PyModels.AcceptedSchemaDecidesByCasts | python/src/models/models.py:17-21 | on an accepted schema a data point is valid iff every key is present and its value casts |
| AppUtils.FirstLine | app/src/utils.py:15 | the text up to the first line break, which `.` does not cross |
| AppUtils.LastMarker | app/src/utils.py:15 | the last ";base64," of the text, where the greedy `(.*)` stops |
| AppUtils.MarkersOfPrefix | app/src/utils.py:15 | dropping a last character loses no marker unless the text ends with one |
| AppUtils.MatchDataUrl | app/src/utils.py:15 | a match needs "data:" at the start and a marker on the first line; the first line after "data:" is then the MIME type, the marker and the data, with no marker later in it |
| AppUtils.ParseBase64File | app/src/utils.py:59-78 | as written: no match raises IndexError; data that does not decode raises InvalidBase64FileException; otherwise the matched MIME type, the size estimate of the matched data and the decoded bytes |
| AppUtils.FileSize | app/src/utils.py:81-91 | the estimate is three quarters of the text's length less at most two |
| AppUtils.GenerateBase64File | app/src/utils.py:114-127 | a data URL: "data:", the MIME type, ";base64,", then text that decodes back to the bytes, four characters per started group of three |
| AppUtils.NotADataUrlRaisesIndexError | app/src/utils.py:69-78 | as written: text that is not a data URL escapes as IndexError |
| AppUtils.ParseBase64FileCorrected | app/src/utils.py:59-78 | intended: every rejection is InvalidBase64FileException; accepted text gives the same result |
| AppUtils.PaddedLength | app/src/utils.py:91 | for padded base64 text of n bytes, three per quarter less the trailing padding is n |
| AppUtils.FileSizeOf | app/src/utils.py:91 | the size estimate is n for text of 4*ceil(n/3) characters carrying n bytes' padding |
| AppUtils.FileSizeOfEncoding | app/src/utils.py:91 | for the base64 encoding of n bytes the estimate is exactly n |
| AppUtils.GeneratedMarker | app/src/utils.py:127 | in a generated data URL the last marker is the generator's own |
| AppUtils.MatchFramed | app/src/utils.py:15 | the regex splits a generated data URL into its MIME type and data |
| AppUtils.DataUrlRoundTrip | app/src/utils.py:114-127 | parsing a generated data URL gives back its MIME type and bytes, with the byte count as size |
| AppUtils.HeaderGet | app/src/utils.py:46 | the value of the first header whose name matches ignoring case |
| AppUtils.GetUser | app/src/utils.py:45-50 | the user header's value; its absence is 403 "Forbidden" iff raise_if_none, else None |
| AppUtils.JsonResponseWithMessage | app/src/utils.py:29-30 | the status is the code and the body repeats it with the message |
| Base64.CharOf | app/src/utils.py:126 | no sextet encodes as the pad character |
| Base64.IndexOf | app/src/utils.py:106 | a character's sextet, if any, encodes back to the character |
| Base64.IndexOfCharOf | app/src/utils.py:106 | every sextet decodes back from its character |
| Base64.Encode | app/src/utils.py:126 | four characters per started group of three bytes |
| Base64.Decode | app/src/utils.py:106 | decoded text has four characters per started group of three bytes; the empty text is no bytes |
| Base64.GroupRoundTrip | app/src/utils.py:106 | a full group decodes to its three bytes |
| Base64.TailRoundTrip | app/src/utils.py:106 | a padded tail decodes to its one or two bytes |
| Base64.OneByteRoundTrip | app/src/utils.py:106 | one trailing byte, encoded with two pads, decodes back to itself |
| Base64.TwoBytesRoundTrip | app/src/utils.py:106 | two trailing bytes, encoded with one pad, decode back to themselves |
| Base64.EncodeAlphabetOrPad | app/src/utils.py:126 | encoded text uses only the alphabet and '=' |
| Base64.EncodeEnding | app/src/utils.py:126 | the encoding ends with the padding n bytes call for |
| Base64.DecodeEncode | app/src/utils.py:106 | decoding an encoding gives back the bytes |
| Base64.GroupInverse | app/src/utils.py:106 | a decodable group is the encoding of what it decodes to |
| Base64.LastInverse | app/src/utils.py:106 | a decodable last group is the encoding of what it decodes to |
| Base64.OnePadInverse | app/src/utils.py:106 | a decodable quantum ending in "==" decodes to one byte and is the encoding of that byte |
| Base64.TwoPadInverse | app/src/utils.py:106 | a decodable quantum ending in one '=' decodes to two bytes and is the encoding of those bytes |
| Base64.EncodeDecode | app/src/utils.py:106 | decodable text is the encoding of what it decodes to |
| Config.OverrideValue | app/src/config.py:15-37 | unset gives the default; set, the value has the default's type; a bool is True iff the lower-cased text is in TRUE_CONVERSIONS; only an int default can fail, with ValueError |
| Config.OverrideLog | app/src/config.py:28-34 | no record iff the variable is unset |
| Config.KeyCaseIgnored | worker/src/config.py:27 | the setting does not depend on the case the key is written in |
| Config.SecretNotLogged | app/src/config.py:29 | a secret value never reaches the log: it shows as five asterisks |
| Config.LevelOf | app/src/config.py:39-47 | a known level name maps to its number, any other to DEBUG (10) |
| Config.LogLevel | app/src/config.py:47 | the configured level is always one of the five logging levels |
| Config.LogLevelCases | app/src/config.py:47 | unset gives INFO; a set, known name gives its own level (ERROR gives 40); an unknown or lower-case name gives DEBUG; the level is always one of the five |
| BlobStore.CreateResult | legacy/pkg/utils/s3.go:39 | the server creates an empty bucket iff no fault and the name is new; an existing name is BucketAlreadyOwnedByYou; a failure changes nothing |
| BlobStore.FirstPage | legacy/pkg/utils/s3.go:66-70 | one `ListObjects` request without a marker returns the bucket's first objects in listing order, at most 1000 of them, and all of them when there are no more |
| BlobStore.ListResult | legacy/pkg/utils/s3.go:70 | a listing succeeds iff no fault and the bucket exists, giving the first page's keys in order (all keys up to 1000, exactly 1000 beyond); a fault is returned as is |
| BlobStore.ListAllResult | legacy/pkg/utils/s3.go:83-96 | the listing a complete existence check needs: every key of the bucket |
| BlobStore.PutResult | legacy/pkg/utils/s3.go:159 | an upload succeeds iff no fault and the bucket exists, and then stores the data under the key; a failure changes nothing |
| BlobStore.GetResult | legacy/pkg/utils/s3.go:236 | a download succeeds iff no fault and the key is stored, with its bytes; a missing key is NoSuchKey |
| BlobStore.Server.constructor | legacy/pkg/utils/s3.go:32 | the S3 service the helpers open; fresh, it holds no buckets |
| BlobStore.Server.CreateBucket | legacy/pkg/utils/s3.go:39 | the call's error and new state equal `CreateResult`, keeping every bucket's keys distinct |
| BlobStore.Server.ListObjects | legacy/pkg/utils/s3.go:70-80 | the summaries name the first page's keys in order with their sizes, or the `ListResult` error |
| BlobStore.Server.PutObject | legacy/pkg/utils/s3.go:159 | the call's error and new state equal `PutResult`, keeping every bucket's keys distinct |
| BlobStore.Server.GetObject | legacy/pkg/utils/s3.go:236 | the bytes or the error of `GetResult` |
| BlobStore.Lookup | legacy/pkg/utils/s3.go:90-95 | a key is found iff it is listed, with the data stored under it |
| BlobStore.Put | legacy/pkg/utils/s3.go:153-159 | storing keeps the listing, or lists a new key last |
| BlobStore.PutLookup | legacy/pkg/utils/s3.go:153-159 | after storing, the key holds the data and every other key what it held |
| BlobStore.PutKeepsDistinct | legacy/pkg/utils/s3.go:153-159 | storing keeps a bucket's keys distinct |
| BlobStore.Attempts | legacy/pkg/utils/s3.go:33-56 | bucket creation is attempted up to and including the first fatal error |
| BlobStore.CreateAllError | legacy/pkg/utils/s3.go:39-53 | creation fails iff some call fails other than already-exists/owned, returning the first such error unchanged |
| BlobStore.CreateAllBuckets | legacy/pkg/utils/s3.go:33-56 | existing buckets are untouched; exactly the attempted new names without fault are created |
| BlobStore.CreateS3Buckets | legacy/pkg/utils/s3.go:29-57 | the loop's error and new server state equal the specification `CreateAll` |
| BlobStore.ListBucketKeys | legacy/pkg/utils/s3.go:61-81 | the keys of the first page in listing order, distinct; on a listing error, no keys and that error |
| BlobStore.KeyExistsInBucket | legacy/pkg/utils/s3.go:83-96 | true iff the key is on the first page of the listing; a listing error gives false and that error |
| BlobStore.MapNoSuchKey | legacy/pkg/utils/s3.go:159-172 | NoSuchKey becomes ErrKeyDoesNotExist; any other error passes through |
| BlobStore.UploadErrors | legacy/pkg/utils/s3.go:139-172 | an existence-check error comes first; a listed key without overwrite gives ErrKeyAlreadyExists; upload errors are mapped; a failure changes nothing |
| BlobStore.UploadStores | legacy/pkg/utils/s3.go:147-174 | the upload succeeds iff listing works, the key is not on the first page or overwrite is set, and the put meets no fault; then the key holds the data and nothing else changes |
| BlobStore.UploadFile | legacy/pkg/utils/s3.go:139-175 | the error and new server state equal the specification `UploadResult` |
| BlobStore.SmallBucketGuardExact | legacy/pkg/utils/s3.go:83-96 | on a bucket of at most 1000 objects the guard refuses exactly the keys the bucket holds |
| BlobStore.GuardMissesLaterPages | legacy/pkg/utils/s3.go:83-96 | a stored key listed after the first 1000 objects is replaced by an upload without overwrite |
| BlobStore.PagedGuardNeverOverwrites | legacy/pkg/utils/s3.go:139-175 | with every page checked, an upload without overwrite succeeds only for a key the bucket does not hold, a held key gives ErrKeyAlreadyExists with nothing changed, and on buckets of at most 1000 objects it agrees with `UploadFile` |
| BlobStore.DownloadResult | legacy/pkg/utils/s3.go:236-251 | success iff the key is stored, with its bytes; a missing key is ErrKeyDoesNotExist; faults are mapped |
| BlobStore.DownloadFileToBytes | legacy/pkg/utils/s3.go:226-252 | returns the specification `DownloadResult`'s bytes or error, with no bytes on error |
| BlobStore.UploadThenDownload | legacy/pkg/utils/s3.go:139-252 | after a successful upload a fault-free download returns the uploaded bytes |
| Metadata.MetadataKey | pkg/api/utils.go:27 | the key is "metadata/" followed by the model id |
| Metadata.MetadataKeyInjective | pkg/api/utils.go:27 | different models never share a metadata key |
| Metadata.WithFile | pkg/api/utils.go:24 | the file id is appended last, earlier ids kept in order, other fields unchanged |
| Metadata.AddFileStores | pkg/api/utils.go:20-40 | a marshal failure gives ErrInvalidMetadata with no upload; otherwise success iff listing and upload meet no fault, and then the model's key holds the updated record |
| Metadata.AddFileToMetadata | pkg/api/utils.go:20-40 | the error and new server state equal the specification `AddFileResult` |
| Metadata.ModelMetadataErrors | pkg/api/utils.go:43-60 | download errors pass through unchanged (a missing record is ErrKeyDoesNotExist); unparsable bytes give ErrInvalidMetadata |
| Metadata.GetModelMetadata | pkg/api/utils.go:43-60 | the result equals the specification `ModelMetadataOf` |
| Metadata.AddThenGet | pkg/api/utils.go:20-60 | after a successful add, reading the model's metadata gives the record with the file appended |
| Metadata.ParsedAppend | pkg/api/utils.go:75-83 | filtering distributes over concatenation: records keep their files' order |
| Metadata.ParsedExactly | pkg/api/utils.go:75-83 | exactly the files that parse contribute a record; none is dropped when all parse |
| Metadata.GetAllMetadataFiles | pkg/api/utils.go:63-85 | a fetch error gives no records and that error; otherwise the parseable files' records, in order |

## Left out

- Thread-per-message dispatch (`on_message`, `WORKER_THREADS`) is not modelled, because its point is concurrency. The handler is modelled for one message.
- The goroutine fan-out of `GetAllObjectsInBucketAsync` is concurrent with an unsynchronised `append`, so it is not modelled. `Metadata.GetAllMetadataFiles` takes its result as parameters.
- `DownloadFileToDisk` and the gin middlewares are not modelled, because they are file and HTTP plumbing.
- TensorFlow, h5py, numpy and pandas are outside the model: inference is an abstract function and `reshape` is not modelled. The CSV header comes as an already parsed column list.
- Postgres writes and the boto3 upload appear only as recorded calls. The broker publisher, HTTP clients, routers and entry points are not modelled.
- Logging is not modelled, except for the setting-override records, whose hiding of secrets is a stated property. `time.sleep` is a recorded `Sleep` step.
- What `json.loads`, `json.dumps`, `json.Marshal`, `json.Unmarshal`, `int(x)`, `float(x)` and the UUID parser accept is a parameter.
- JSON numbers are `real`s, so JSON `1` and `1.0` are the same value. Python keeps int and float apart (pydantic's str coercion gives "1" or "1.0", `json.dumps` prints them differently), and `json.loads` accepts NaN and Infinity. The coercions and `dumps` are parameters, so no stated property depends on it.
- JSON objects are maps, so their key order is lost. Where order matters (the schema, the input vector of python/src/logic/tensor.py) the model uses sequences of pairs.
- Case mapping covers ASCII letters only. Python's full Unicode `upper()` and `lower()` are not modelled.
- Base64.Decode: the model's decoder is strict. It accepts only canonical padded base64 (section 4 of RFC 4648). The leniency of Python's non-strict `b64decode` is not modelled: it drops non-alphabet characters, ignores data after padding, ignores non-zero unused bits before the padding (`QR==` gives `A`; the model rejects it) and skips a '=' that comes too early in a quantum.
- Pydantic's error records carry location and kind only, not its message texts. The one exception is the validators' own messages.
- Events.ParseRunEvent, Events.ParseTrainEvent, Json.FloatDict, AppModels.ParseSchemaItem and AppModels.ParseModelSchema: pydantic v1 turns a non-object into a mapping with `dict(value)` (a JSON array of key-value pairs is accepted as an object). That coercion is not modelled: only a JSON object is accepted where a model or a dict is expected.
- AppModels.ParseModelSchema: a failing schema is reported as one WrongType record at `model_schema`. The per-item records pydantic gives (the item's location and, for a bad type name, the validator's "Invalid variable type" message at `model_schema`, key, `var_type`) are not kept.
- `SchemaItem` attribute errors on a non-string `var_type` are not modelled. Coercion to str happens before the validator.
- Worker.Handle: a fault is fixed per kind of call, not per call. `dbFault` depends only on the state written, and the upload and the ack each have one fault. So when the try block's state-3 write (worker/src/worker.py:58) raises, the except clause's state-3 write (worker/src/worker.py:75 or 80) raises too. A transient database error followed by a successful write in the except clause (trace [1, inference, 3, 3], the handler returning normally) is not modelled.
- Worker.WorkerConfig: the broker URL, exchange and routing key are parameters, because worker/src/config.py does not define the names worker/src/worker.py imports.
- Rabbit.Plan: the `with pika.BlockingConnection(...)` block (worker/src/logic/rabbit.py:109) closes the connection when it is left. That close, and any error it raises, is not modelled: a session's trace ends with the last command issued.
- Rabbit.RunSession: the "last issued command is the failing one" property is not a separate clause. It follows from the prefix clause.
- Metadata.GetModelMetadata: on an unmarshal error Go returns a partly filled struct; the model returns only the error. On a download error it returns the zero struct; the model again returns only the error.
- BlobStore: Go compares `errors.New` values by identity; the model compares errors by text. The real server's listing order (lexicographic) is not modelled: the model lists keys in first-upload order. Faults are injected per call; partial uploads are not modelled.
- BlobStore.ListResult: the first page is the first 1000 keys in the model's listing order, not the lexicographically first 1000 the real server returns. `IsTruncated`, markers and a request's own `MaxKeys` are not modelled, because the Go code never sets or reads them.
- Config: the module-level logging setup and the API-only settings of app/src/config.py (broker and exchange names) are not modelled.

## Findings

| source | as written | input that shows it | evidently intended | confidence | as-written member | corrected member |
|---|---|---|---|---|---|---|
| worker/src/worker.py:73-76 | the except clause reads `event.job_id`, but `event` is unbound when `json.loads` or validation failed, so the handler raises before any state write or ack | the body `not json` | the malformed message is acknowledged, and its job is marked failed when job_id is readable | high (not executed) | Worker.MalformedMessageEscapes | Worker.CorrectedAcksOnce |
| worker/src/worker.py:78-80 | the catch-all clause writes state 3 and never acks. If posting the ack raises after state 2, the job that succeeded is marked failed | inference returns results, then `ack_message` raises | every message is acked exactly once, and no state is written after a terminal one | high (not executed) | Worker.CatchAllNeverAcks, Worker.FailedWrittenAfterSucceeded | Worker.CorrectedNoWriteAfterTerminal |
| worker/src/worker.py:24-28 | the handler validates a flat payload with top-level model_id and user. The API publishes them nested under `event` (app/src/routers/tensor.py:143-145) | `{"job_id": j, "event_type": "model_run", "event": {"model_id": m, "user": u}}` | the handler decodes the nested event schema of worker/src/models/events.py | high (not executed) | Worker.PublishedMessageRejected | Worker.CorrectedProcessesPublished |
| worker/src/models/events.py:45 | `values['event_type']` raises KeyError when event_type failed validation, so the KeyError escapes instead of a validation error | event_type "bogus" with a valid run body | the rejected event_type is reported as a validation error | medium (not executed) | Events.InvalidEventTypeEscapes | Events.DecodeGuarded |
| app/src/utils.py:69-78 | a text that is not a data URL makes `findall(...)[0]` raise IndexError, which `except ValueError` does not catch | the text `hello` | every malformed upload is reported as InvalidBase64FileException | high (not executed) | AppUtils.NotADataUrlRaisesIndexError | AppUtils.ParseBase64FileCorrected |
| legacy/pkg/utils/s3.go:61-96 | `KeyExistsInBucket` reads one `ListObjects` answer and never asks for the next page; S3 returns at most 1000 keys per answer, so a key stored after the first 1000 is not seen and `UploadFile` with overwrite false replaces it | a bucket of 1001 objects and an upload, without overwrite, of the key listed last | a key the bucket holds is never overwritten unless overwrite is set | medium (not executed) | BlobStore.GuardMissesLaterPages | BlobStore.PagedGuardNeverOverwrites |
