/** The entities of the harvest pipeline and the collaborators it calls. */
module Types {
  import opened Wrappers
  import opened JsonValues

  /** An instant: the harvest start time or an OAI-PMH record datestamp. */
  type Timestamp = int

  /** A harvested record: `header.identifier`, `header.datestamp` and the
      metadata fields, each an ordered list of strings. */
  datatype Record = Record(identifier: string, datestamp: Timestamp, metadata: map<string, seq<string>>)

  /** The processing status stored per record identifier. */
  datatype Status = Success | Failure

  /** One row of the processed-records table: message, status and reason. */
  datatype Outcome = Outcome(message: string, status: Status, reason: string)

  /** What goes onto the primary stream: a message or the shutdown marker. */
  datatype Payload = Message(text: string) | PoisonPill

  /** The result of removing a downloaded file: removed, already gone
      (`FileNotFoundError`), or any other failure, which propagates. */
  datatype Removal = Removed | FileNotFound | RemoveFailed(error: string)

  /** The external collaborators, as functions of their inputs.
      - download: the local path, `None` when the download did not succeed, `Err` when it raised;
      - upload: `push_to_bucket(key, path)`, the object's location;
      - remove: `os.remove(path)`;
      - generate: `generate_metadata_create(record, locations)`;
      - validate / publish / publishInvalid: `None` on success, `Some(text)` when they raised;
      - fetch: `fetch_records_from(start)`, the records in the source's order;
      - parseInt: `int(text)`. */
  datatype Env = Env(
    download: string -> Result<Option<string>, string>,
    upload: (string, string) -> Result<string, string>,
    remove: string -> Removal,
    generate: (Record, seq<string>) -> Result<string, string>,
    codec: Codec,
    validate: string -> Option<string>,
    publish: string -> Option<string>,
    publishInvalid: Option<string> -> Option<string>,
    fetch: Timestamp -> seq<Record>,
    parseInt: string -> Result<int, string>)

  /** The state the adaptor changes: the high watermark, the processed-records
      table, the primary and invalid streams, and the number of times the
      validator was shut down. */
  datatype World = World(
    watermark: Option<Timestamp>,
    outcomes: map<string, Outcome>,
    primary: seq<Payload>,
    invalid: seq<Option<string>>,
    validatorShutdowns: nat)
}
