/** Adding an error header to a message that failed processing. */
module Decoration {
  import opened Wrappers
  import opened JsonValues

  const MessageHeaderKey := "messageHeader"
  const ErrorCodeKey := "errorCode"
  const ErrorMessageKey := "errorMessage"

  /** The TypeError raised when the decoded message, or its existing header,
      is not a JSON object and so cannot be indexed by key. */
  const NotAnObjectError := "TypeError: message is not a JSON object"

  /** Whether a decoded message can take an error header: it is an object, and
      its `messageHeader`, when present, is an object too. */
  predicate CanTakeHeader(doc: Json) {
    doc.JObject? && (MessageHeaderKey in doc.members ==> doc.members[MessageHeaderKey].JObject?)
  }

  /** The header of a decorated message: `messageHeader` (created empty when it
      was missing) with `errorCode` and `errorMessage` set. */
  function AddErrorHeader(doc: Json, code: string, encodedReason: string): (r: Result<Json, string>)
    ensures r.Ok? <==> CanTakeHeader(doc)
    ensures r.Err? ==> r.error == NotAnObjectError
    ensures r.Ok? ==> r.value.JObject? && r.value.members.Keys == doc.members.Keys + {MessageHeaderKey}
    ensures r.Ok? ==> forall k :: k in doc.members && k != MessageHeaderKey ==> r.value.members[k] == doc.members[k]
    ensures r.Ok? ==>
      var header := r.value.members[MessageHeaderKey];
      && header.JObject?
      && ErrorCodeKey in header.members && header.members[ErrorCodeKey] == JString(code)
      && ErrorMessageKey in header.members && header.members[ErrorMessageKey] == JString(encodedReason)
    ensures r.Ok? && MessageHeaderKey in doc.members ==>
      var before := doc.members[MessageHeaderKey].members;
      var after := r.value.members[MessageHeaderKey].members;
      && after.Keys == before.Keys + {ErrorCodeKey, ErrorMessageKey}
      && forall k :: k in before && k != ErrorCodeKey && k != ErrorMessageKey ==> after[k] == before[k]
    ensures r.Ok? && MessageHeaderKey !in doc.members ==>
      r.value.members[MessageHeaderKey].members.Keys == {ErrorCodeKey, ErrorMessageKey}
  {
    match doc
    case JObject(members) =>
      var header := if MessageHeaderKey in members then members[MessageHeaderKey] else JObject(map[]);
      (match header
       case JObject(fields) =>
         var decorated := fields[ErrorCodeKey := JString(code)][ErrorMessageKey := JString(encodedReason)];
         Ok(JObject(members[MessageHeaderKey := JObject(decorated)]))
       case _ => Err(NotAnObjectError))
    case _ => Err(NotAnObjectError)
  }

  /** `_decorate_message_with_error`: decodes the message, adds the error header
      and encodes it again. A message that is `None` or does not decode is
      returned unchanged. `Err` is the TypeError that escapes when the decoded
      message cannot take a header. The reason is stored JSON-encoded, as the
      text `json.dumps(reason)`. */
  function DecorateMessageWithError(codec: Codec, message: Option<string>, code: string, reason: string): (r: Result<Option<string>, string>)
    ensures message.None? ==> r == Ok(None)
    ensures message.Some? && codec.parse(message.value).Err? ==> r == Ok(message)
    ensures r.Err? <==> message.Some? && codec.parse(message.value).Ok? && !CanTakeHeader(codec.parse(message.value).value)
    ensures r.Ok? ==> (r.value.None? <==> message.None?)
  {
    match message
    case None => Ok(None)
    case Some(text) =>
      match codec.parse(text)
      case Err(_) => Ok(message)
      case Ok(doc) =>
        match AddErrorHeader(doc, code, codec.dump(JString(reason)))
        case Ok(decorated) => Ok(Some(codec.dump(decorated)))
        case Err(e) => Err(e)
  }

  /** When the codec decodes the decorated document it encoded back to that
      document, the decorated message decodes to the original object with
      `messageHeader.errorCode` equal to the code,
      `messageHeader.errorMessage` equal to the encoded reason, and every
      other top-level key as it was. */
  lemma DecoratedMessageCarriesError(codec: Codec, text: string, code: string, reason: string)
    requires codec.parse(text).Ok? && CanTakeHeader(codec.parse(text).value)
    requires var decorated := AddErrorHeader(codec.parse(text).value, code, codec.dump(JString(reason))).value;
      codec.parse(codec.dump(decorated)) == Ok(decorated)
    ensures var r := DecorateMessageWithError(codec, Some(text), code, reason);
      && r.Ok? && r.value.Some?
      && var back := codec.parse(r.value.value);
      && back.Ok? && back.value.JObject?
      && var original := codec.parse(text).value.members;
      && (forall k :: k in original && k != MessageHeaderKey ==> k in back.value.members && back.value.members[k] == original[k])
      && MessageHeaderKey in back.value.members
      && var header := back.value.members[MessageHeaderKey];
      && header.JObject?
      && ErrorCodeKey in header.members && header.members[ErrorCodeKey] == JString(code)
      && ErrorMessageKey in header.members && header.members[ErrorMessageKey] == JString(codec.dump(JString(reason)))
  {
  }
}
