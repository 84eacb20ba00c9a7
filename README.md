# Incremental OAI-PMH harvest pipeline, modelled in Dafny

This project models the harvest pipeline of an OAI-PMH 2.0 adaptor (`run.py`).
The adaptor reads a high watermark and fetches the records changed since it
(the datestamp-bounded selective harvest of section 2.7.1 of the OAI-PMH 2.0
protocol). It skips records already stored as `Success` and caps each run at
`EPRINTS_FLOW_LIMIT` records. Each remaining record goes through these steps:

- its files are copied into the object store;
- a message is generated from the record;
- the message is round-tripped through JSON and validated;
- it is published on the primary stream, or decorated with an error code and
  published on the invalid stream.

An outcome row is then written for the record, and the watermark moves to the
record's datestamp. At the end, a poison pill is published and the validator
is shut down.

Modules, one per component:

- `Wrappers`, `JsonValues`, `Types`: the Option/Result values, a JSON value
  with a codec, records, outcomes, stream payloads, the `World` state, and
  `Env`. `Env` holds the external clients as functions of their inputs. Each
  client returns a value or the text of the exception it raised.
- `Config`: `_parse_env_vars`.
- `Decoration`: `_decorate_message_with_error`.
- `Relocation`: `_push_files_to_s3`, as a loop method proved equal to the
  function `Relocate`, plus lemmas about that function.
- `Processing`: `_record_success_filter`, plus the gates of `_process_record`
  as a pure function (`Gates`, `Attempt`).
- `Driver`: the lazily filtered, capped loop of `main` (`Harvest`),
  `_shutdown` (`ShutdownEffect`), and a whole run including the `__main__`
  guard (`Run`).
- `Adaptor`: the class `Adaptor`, which holds the state that the source
  changes in place. Its methods follow the source step by step.
  `ProcessRecord` updates the locals `message`/`status`/`reason`/`errCode`
  through nested blocks. `HarvestRecords` is the `for` loop over
  `islice(filter(...))`. Each method is proved equal to the pure function
  above.

Two behaviours are settled by the code, and may differ from what a reader
would assume:

- A failure of message generation itself gets `GENERR009`, the catch-all code.
  One might expect `GENERR007`, the code for an invalid JSON message, to cover
  it. Only a failed JSON round trip gets `GENERR007`.
- An unhandled error is caught by the `__main__` guard: it is logged,
  shutdown runs, and the process ends with exit status 0. One might expect a
  crash to exit non-zero.
  Only the configuration check exits non-zero, through `sys.exit(1)`.
  `SystemExit` is not an `Exception`, so no shutdown runs on that path.

The filter is evaluated lazily, one record at a time, so it sees the outcomes
written by earlier records of the same run. `HarvestMatchesEagerFilter` shows
that this equals "filter the whole stream, then take the limit" when
identifiers are distinct. When an identifier repeats, a later copy of a
record that just succeeded is skipped.

## Model

| member | source | states |
|---|---|---|
| `Config.ParseEnvVars` | run.py:228-237 | succeeds exactly when every required name is present and non-empty, then maps exactly those names to their environment values; otherwise fails (exit 1) with exactly the set of missing or empty names |
| `Decoration.AddErrorHeader` | run.py:217-225 | succeeds exactly when the message is an object whose `messageHeader`, if present, is an object; then `messageHeader` exists (created empty if missing), `errorCode` is the code, `errorMessage` is the encoded reason, and every other top-level and header key is kept |
| `Decoration.DecorateMessageWithError` | run.py:204-225 | a `None` message and a message that does not decode are returned unchanged; it raises exactly when the decoded message cannot take a header |
| `Decoration.DecoratedMessageCarriesError` | run.py:204-225 | when the codec reads back the document it wrote for this decorated message, that message decodes to an object whose header carries the error code and the JSON-encoded reason, with all other keys preserved |
| `Relocation.Relocate` | run.py:177-201 | definition of the relocation loop as a function over the identifier list; its properties are the rows `PushFilesToS3`, `RelocateTouchesOnlyFileUrls`, `RelocateDownloadsFileUrls`, `RelocateLocations` and `RelocateFailsIffRaises` |
| `Relocation.PushFilesToS3` | run.py:177-201 | the loop makes exactly the calls, and returns exactly the locations or the escaping exception, that `Relocate` defines |
| `Relocation.RelocateTouchesOnlyFileUrls` | run.py:183-198 | every download and upload is for a value starting with `http://` or `https://`, each upload sends the file that its URL's download produced, and every removal is of a path that a file-URL download produced |
| `Relocation.RelocateDownloadsFileUrls` | run.py:183-198 | the URLs downloaded are the file URLs in input order, each once: all of them when none raised; after an exception, exactly those up to and including the first file URL whose download, upload or removal raises; plain-text values are never downloaded |
| `Relocation.RelocateLocations` | run.py:190-201 | on success, the locations are the uploads of the file URLs whose download returned a file, in input order; a `None` download is skipped; there are never more locations than file URLs |
| `Relocation.RelocateFailsIffRaises` | run.py:190-198 | relocation raises exactly when some file URL's download, upload or removal raises; a `None` download or a `FileNotFoundError` on removal never makes it fail |
| `Processing.RecordSuccessFilter` | run.py:109-126 | definition: keeps a record unless its identifier is stored as `Success`, so an absent outcome or a `Failure` keeps it; its role in the loop is stated by `FilterAfterAttempt`, `HarvestOnlyUnsucceeded` and `HarvestMatchesEagerFilter` |
| `Processing.Attempt` | run.py:129-174 | definition of one record attempt; its properties are the rows `GateErrorCodes` to `FilterAfterAttempt`, and `Adaptor.Adaptor.ProcessRecord` is proved equal to it |
| `Processing.StoredMessage` | run.py:168 | the stored message is the message itself when present and non-empty, and `-` otherwise |
| `Processing.GateErrorCodes` | run.py:132-161 | a failed JSON round trip gives `GENERR007`; a failed validation gives `GENERR001`; a missing identifier field, a relocation error, a generation error or a failed primary publish gives `GENERR009`; each rejection carries the latest message built (none before generation, the generated text for a failed round trip, the re-encoded text for validation and publish) and the failing step's exception text |
| `Processing.PublishedIffAllGatesPass` | run.py:133-155 | a message is published exactly when generation, the round trip, validation and the primary publish all succeed; the message published is the re-encoded one |
| `Processing.AttemptRecordsOutcome` | run.py:157-174 | when nothing escapes: exactly one outcome is written, for this identifier, overwriting the earlier one; its status is `Success` with reason `-` exactly when the message was published, and otherwise `Failure` with the exception text and, as message, the decorated message (or `-` when it is empty or absent); the watermark is then the record's datestamp |
| `Processing.FailureWithoutMessageStoresPlaceholder` | run.py:157-171 | a record that fails before any message exists (missing identifier field, relocation or generation) escapes exactly when putting `None` on the invalid stream raises; when nothing escapes, `None` is appended to the invalid stream, the primary stream is unchanged, and the record is stored as `Failure` with message `-` and the exception text |
| `Processing.AttemptRoutesMessage` | run.py:155-163 | when nothing escapes: on success the message is appended once to the primary stream and the invalid stream is unchanged; on failure the primary stream is unchanged and exactly one decorated message is appended to the invalid stream |
| `Processing.AttemptEscapesIff` | run.py:157-163 | an attempt escapes exactly when the message was rejected and then decorating it or putting it on the invalid stream raised; every other attempt writes its outcome |
| `Processing.AttemptEscapeChangesNothing` | run.py:162-174 | when decoration or the invalid publish raises, no outcome is written, the watermark does not move, and no stream changes |
| `Processing.AttemptFrame` | run.py:166-171 | an attempt changes no other identifier's outcome and removes none |
| `Processing.FilterAfterAttempt` | run.py:109-126 | after an attempt, the filter skips a record with the same identifier exactly when the attempt succeeded; a failed record is retried |
| `Driver.ShutdownEffect` | run.py:255-260 | the poison pill is appended only when the queue client exists, and the validator is shut down only when it exists; nothing else changes |
| `Driver.Harvest` | run.py:63-69 | definition of the lazily filtered, capped loop; its properties are the `Harvest...` rows below, and `Adaptor.Adaptor.HarvestRecords` is proved equal to it |
| `Driver.HarvestBoundedAndOrdered` | run.py:65-69 | at most `flow_limit` records are attempted, as a subsequence of the source's order; an escaping exception ends the loop on the record that raised it: attempting the last record tried against the final state raises that same exception and changes nothing |
| `Driver.HarvestOnlyUnsucceeded` | run.py:109-126 | no record whose identifier was stored as `Success` when the run began is attempted |
| `Driver.HarvestMatchesEagerFilter` | run.py:65 | with distinct identifiers, the records attempted are a prefix of "filter against the starting table, then take `flow_limit`", and all of it when nothing escapes |
| `Driver.HarvestWatermark` | run.py:67-69 | with no attempt nothing changes; otherwise the watermark ends at the last attempted datestamp; after an escape it is at the datestamp of the record before the one that raised |
| `Driver.HarvestRecordsEveryAttempt` | run.py:67-69 | when nothing escapes, the stored identifiers are the earlier ones plus those attempted, and the outcomes of identifiers not attempted are unchanged |
| `Driver.HarvestPublishesOncePerAttempt` | run.py:67-69 | when nothing escapes, both streams only grow, by exactly one message per attempted record in total |
| `Driver.Run` | run.py:33-72 | definition of a whole run, including the `__main__` guard of run.py:263-268; its properties are the `Run...` rows below, and `Adaptor.Adaptor.RunAdaptor` is proved equal to it |
| `Driver.RunExitStatus` | run.py:263-268 | the exit status is non-zero exactly when a required variable is missing or empty, and that path changes nothing |
| `Driver.RunShutsDown` | run.py:255-268 | once past the configuration check, shutdown runs on the normal path and on every escaping path: the primary stream ends with the poison pill and the validator is shut down once; if a client constructor raised, only the clients already built are shut down |
| `Driver.RunBootstrapsWatermark` | run.py:53-69 | the harvest starts from the stored watermark, or from `now` stored first when there is none; with no record attempted the watermark stays there; on a finished run it ends at the last attempted datestamp |
| `Driver.RunWatermarkAfterEscape` | run.py:65-69 | a run that attempted records either finished or crashed; after a crash the watermark is at the datestamp of the record before the one that raised, or at the start when the first record raised |
| `Driver.RunRespectsFlowLimit` | run.py:60-69 | a limit that `int()` rejects, a negative limit and one above `sys.maxsize` each end the run with an unhandled error before any record is attempted: `int()`'s own error, `islice`'s "Stop argument" `ValueError` for -1 and for a limit outside the range of a C `Py_ssize_t` in either direction (CPython turns the overflow into this error rather than clipping), and its "Indices" `ValueError` from -sys.maxsize-1 to -2; otherwise at most the limit is attempted; the records attempted are a subsequence of those fetched from the start time, and none was stored as `Success` |
| `Driver.RunWatermarkNeverMovesBack` | run.py:53-69 | when the source returns only records stamped at or after the start time, a run leaves a watermark no earlier than its start, hence no earlier than the watermark it found stored |
| `Driver.RunOverEmptySource` | run.py:62-72 | with an empty source, however the run ends, nothing is attempted, no outcome or invalid message is written, only the poison pill is published, and the watermark stays at the start |
| `Adaptor.Adaptor.ProcessRecord` | run.py:129-174 | the step-by-step procedure leaves the state and the escaping exception exactly as `Attempt` defines |
| `Adaptor.Adaptor.HarvestRecords` | run.py:65-69 | the loop leaves the state, the records attempted and the escaping exception exactly as `Harvest` defines |
| `Adaptor.Adaptor.Shutdown` | run.py:255-260 | the new state is `ShutdownEffect` of the old one |
| `Adaptor.Adaptor.RunAdaptor` | run.py:33-72 | the state and the run's ending are exactly those that `Run` defines |

## Left out

- Client construction, global handle assignment and logging setup are left
  out. A failed constructor is a parameter that names which client raised.
  Logging itself is not modelled.
- The download, object store, key-value store, stream, message generator,
  validator and `json` clients are oracles: total functions of their
  arguments. Two calls with the same argument give the same answer. Timeouts
  and retries inside these clients are not modelled.
- Reads of the key-value store (`fetch_high_watermark`, run.py:55, and
  `fetch_processed_status`, run.py:113, called inside the lazy filter), the
  record fetch and the iteration over its result (run.py:63, 67), and
  `message_validator.shutdown()` (run.py:260) never raise in the model. In the
  source an exception from any of them escapes to the `__main__` guard, so
  `RunShutsDown` covers fewer escaping paths than the source has, and a raising
  validator shutdown is not captured.
- Writes to the watermark and processed-records tables, and the poison-pill
  publish, always succeed in the model. In the source, an exception from them
  escapes the same way as an exception from the invalid-stream publish.
  Because of this, the model does not capture a second `_shutdown` run by the
  `__main__` guard after the first one raised.
- `datetime.now()` is the parameter `now`. `int()` of the flow-limit text is
  the oracle `parseInt`. The record source is a finite sequence, so an
  unbounded source that never yields a record that passes the filter is not
  modelled.
- Each record has a `metadata` map. A record whose `metadata` is missing is
  not modelled. A missing `identifier` field is modelled: it raises a
  `KeyError`, which gives `GENERR009`.
- JSON objects are maps, so the key order that `json.dumps` writes is not
  captured.
- The TypeError raised when a decoded message, or its header, is not an
  object is modelled with one fixed text. Python's wording varies with the
  value's type.
- The poison pill is a separate payload value, `PoisonPill`. What it encodes
  to on the stream is not modelled.
