/** One record through the pipeline (`_process_record`) and the filter that
    decides whether it is attempted at all (`_record_success_filter`). */
module Processing {
  import opened Wrappers
  import opened JsonValues
  import opened Types
  import opened Decoration
  import opened Relocation

  /** The error codes attached to failed messages. */
  datatype ErrorCode = GenErr001 | GenErr007 | GenErr009 {
    function Text(): string {
      match this
      case GenErr001 => "GENERR001"
      case GenErr007 => "GENERR007"
      case GenErr009 => "GENERR009"
    }
  }

  /** The reason stored for a record that succeeded. */
  const NoReason := "-"

  /** The text of the KeyError raised when a record has no `identifier` metadata field. */
  const MissingIdentifierError := "'identifier'"

  /** `_record_success_filter`: a record is kept unless the stored status for its
      identifier is Success. */
  predicate RecordSuccessFilter(outcomes: map<string, Outcome>, record: Record) {
    !(record.identifier in outcomes && outcomes[record.identifier].status == Success)
  }

  /** The values of the record's `identifier` metadata field. */
  function MetadataIdentifiers(record: Record): Result<seq<string>, string> {
    if "identifier" in record.metadata then Ok(record.metadata["identifier"]) else Err(MissingIdentifierError)
  }

  /** The message as generated from the record and its relocated files. */
  function Generated(env: Env, record: Record): Result<string, string> {
    match MetadataIdentifiers(record)
    case Err(e) => Err(e)
    case Ok(ids) =>
      match Relocate(env, ids).locations
      case Err(e) => Err(e)
      case Ok(locations) => env.generate(record, locations)
  }

  /** Where a record ends after the gates: published on the primary stream, or
      rejected with the message as it stood, the error code and the reason. */
  datatype GateResult =
    | Published(message: string)
    | Rejected(lastMessage: Option<string>, code: ErrorCode, reason: string)

  /** The gates, each with its own result: relocation and generation, the JSON
      round trip, validation, and publication on the primary stream. */
  function Gates(env: Env, record: Record): GateResult {
    match Generated(env, record)
    case Err(e) => Rejected(None, GenErr009, e)
    case Ok(generated) =>
      match env.codec.parse(generated)
      case Err(e) => Rejected(Some(generated), GenErr007, e)
      case Ok(doc) =>
        var canonical := env.codec.dump(doc);
        match env.validate(canonical)
        case Some(e) => Rejected(Some(canonical), GenErr001, e)
        case None =>
          match env.publish(canonical)
          case Some(e) => Rejected(Some(canonical), GenErr009, e)
          case None => Published(canonical)
  }

  /** The message stored in the processed-records table: `-` when there is none
      or it is empty. */
  function StoredMessage(message: Option<string>): (stored: string)
    ensures stored == "-" <==> message.None? || message.value == "" || message.value == "-"
    ensures message.Some? && message.value != "" ==> stored == message.value
  {
    if message.Some? && |message.value| > 0 then message.value else "-"
  }

  /** Writes the record's outcome, then moves the watermark to its datestamp. */
  function Commit(w: World, record: Record, message: Option<string>, status: Status, reason: string): World {
    w.(outcomes := w.outcomes[record.identifier := Outcome(StoredMessage(message), status, reason)])
     .(watermark := Some(record.datestamp))
  }

  /** The state after an attempt, and the exception that escaped it, if any. */
  datatype Step = Step(world: World, escaped: Option<string>)

  /** One record attempt. A rejected message is decorated and sent to the invalid
      stream; if decorating it or sending it raises, that exception escapes and
      nothing is recorded. */
  function Attempt(w: World, env: Env, record: Record): Step {
    match Gates(env, record)
    case Published(m) =>
      Step(Commit(w.(primary := w.primary + [Message(m)]), record, Some(m), Success, NoReason), None)
    case Rejected(m, code, reason) =>
      match DecorateMessageWithError(env.codec, m, code.Text(), reason)
      case Err(e) => Step(w, Some(e))
      case Ok(decorated) =>
        match env.publishInvalid(decorated)
        case Some(e) => Step(w, Some(e))
        case None => Step(Commit(w.(invalid := w.invalid + [decorated]), record, decorated, Failure, reason), None)
  }

  // ----- Lemmas -----

  /** Error codes: a failed JSON round trip is GENERR007, a failed validation is
      GENERR001, and every other failure (missing identifier field, relocation,
      generation, publication) is GENERR009. The reason is the text of the
      failing step, and the message is the latest one built. */
  lemma GateErrorCodes(env: Env, record: Record)
    ensures Gates(env, record).Rejected? && Gates(env, record).code == GenErr007 <==>
      Generated(env, record).Ok? && env.codec.parse(Generated(env, record).value).Err?
    ensures Gates(env, record).Rejected? && Gates(env, record).code == GenErr001 <==>
      && Generated(env, record).Ok?
      && env.codec.parse(Generated(env, record).value).Ok?
      && env.validate(env.codec.dump(env.codec.parse(Generated(env, record).value).value)).Some?
    ensures Generated(env, record).Err? ==>
      Gates(env, record) == Rejected(None, GenErr009, Generated(env, record).error)
    ensures Generated(env, record).Ok? && env.codec.parse(Generated(env, record).value).Err? ==>
      Gates(env, record) == Rejected(Some(Generated(env, record).value), GenErr007, env.codec.parse(Generated(env, record).value).error)
    ensures Generated(env, record).Ok? && env.codec.parse(Generated(env, record).value).Ok? ==>
      var canonical := env.codec.dump(env.codec.parse(Generated(env, record).value).value);
      && (env.validate(canonical).Some? ==>
            Gates(env, record) == Rejected(Some(canonical), GenErr001, env.validate(canonical).value))
      && (env.validate(canonical).None? && env.publish(canonical).Some? ==>
            Gates(env, record) == Rejected(Some(canonical), GenErr009, env.publish(canonical).value))
  {
  }

  /** A message is published exactly when every gate passes, and what is
      published is the re-encoded, validated message. */
  lemma PublishedIffAllGatesPass(env: Env, record: Record)
    ensures Gates(env, record).Published? <==>
      && Generated(env, record).Ok?
      && env.codec.parse(Generated(env, record).value).Ok?
      && var canonical := env.codec.dump(env.codec.parse(Generated(env, record).value).value);
      && env.validate(canonical).None?
      && env.publish(canonical).None?
    ensures Gates(env, record).Published? ==>
      Gates(env, record).message == env.codec.dump(env.codec.parse(Generated(env, record).value).value)
  {
  }

  /** After an attempt that did not raise: exactly one outcome is written, for
      this identifier, overwriting any earlier one; its status is Success with
      reason `-` exactly when the message was published, otherwise Failure with
      the failing step's text; and the watermark is the record's datestamp. */
  lemma AttemptRecordsOutcome(w: World, env: Env, record: Record)
    ensures var s := Attempt(w, env, record);
      s.escaped.None? ==>
        && s.world.watermark == Some(record.datestamp)
        && s.world.outcomes.Keys == w.outcomes.Keys + {record.identifier}
        && (forall id :: id in w.outcomes && id != record.identifier ==> s.world.outcomes[id] == w.outcomes[id])
        && var o := s.world.outcomes[record.identifier];
        && (o.status == Success <==> Gates(env, record).Published?)
        && (o.status == Success ==> o.reason == NoReason && o.message == StoredMessage(Some(Gates(env, record).message)))
        && (o.status == Failure ==> o.reason == Gates(env, record).reason)
        && (o.status == Failure ==>
              var g := Gates(env, record);
              o.message == StoredMessage(DecorateMessageWithError(env.codec, g.lastMessage, g.code.Text(), g.reason).value))
        && s.world.validatorShutdowns == w.validatorShutdowns
  {
  }

  /** When an attempt escapes: exactly when the message was rejected and then
      either decorating it or putting it on the invalid stream raised. Every
      other attempt writes its outcome. */
  lemma AttemptEscapesIff(w: World, env: Env, record: Record)
    ensures var g := Gates(env, record);
      Attempt(w, env, record).escaped.Some? <==>
        && g.Rejected?
        && var d := DecorateMessageWithError(env.codec, g.lastMessage, g.code.Text(), g.reason);
        && (d.Err? || env.publishInvalid(d.value).Some?)
  {
  }

  /** A record that fails before a message exists (missing identifier field,
      relocation or generation) sends `None` to the invalid stream. It escapes
      exactly when that publish raises; otherwise it is stored as Failure with
      message `-` and the failing step's text. */
  lemma FailureWithoutMessageStoresPlaceholder(w: World, env: Env, record: Record)
    requires Generated(env, record).Err?
    ensures var s := Attempt(w, env, record);
      && (s.escaped.None? <==> env.publishInvalid(None).None?)
      && (s.escaped.None? ==>
            && record.identifier in s.world.outcomes
            && s.world.outcomes[record.identifier] == Outcome("-", Failure, Generated(env, record).error)
            && s.world.invalid == w.invalid + [None]
            && s.world.primary == w.primary)
  {
  }

  /** Routing: a published message is appended once to the primary stream and
      nothing goes to the invalid stream; a rejected one adds nothing to the
      primary stream and exactly one decorated message to the invalid stream. */
  lemma AttemptRoutesMessage(w: World, env: Env, record: Record)
    ensures var s := Attempt(w, env, record);
      s.escaped.None? ==>
        if Gates(env, record).Published? then
          && s.world.primary == w.primary + [Message(Gates(env, record).message)]
          && s.world.invalid == w.invalid
        else
          && s.world.primary == w.primary
          && var g := Gates(env, record);
          && s.world.invalid == w.invalid + [DecorateMessageWithError(env.codec, g.lastMessage, g.code.Text(), g.reason).value]
  {
  }

  /** An exception that escapes the attempt leaves every stored value and both
      streams as they were: no outcome is written and the watermark does not
      move, so the record is fetched again by the next run. */
  lemma AttemptEscapeChangesNothing(w: World, env: Env, record: Record)
    ensures Attempt(w, env, record).escaped.Some? ==>
      && Attempt(w, env, record).world == w
      && Gates(env, record).Rejected?
  {
  }

  /** The outcomes of other identifiers are never touched by an attempt. */
  lemma AttemptFrame(w: World, env: Env, record: Record)
    ensures var o := Attempt(w, env, record).world.outcomes;
      && o.Keys <= w.outcomes.Keys + {record.identifier}
      && w.outcomes.Keys <= o.Keys
      && forall id :: id in w.outcomes && id != record.identifier ==> o[id] == w.outcomes[id]
  {
  }

  /** Skip and retry: after an attempt that did not raise, a record with the
      same identifier is skipped by the filter exactly when this attempt
      published its message; a failed record is retried. */
  lemma FilterAfterAttempt(w: World, env: Env, record: Record, later: Record)
    requires later.identifier == record.identifier
    ensures Attempt(w, env, record).escaped.None? ==>
      (RecordSuccessFilter(Attempt(w, env, record).world.outcomes, later) <==> Gates(env, record).Rejected?)
  {
  }
}
