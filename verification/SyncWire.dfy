/** The JSON shape of one pulled event: how the server builds it (newSyncEvent) and
    what the client's decoder accepts (SyncEvent.UnmarshalJSONFrom). */
module SyncWire {
  import opened Prelude
  import opened EventIds
  import Base64

  /** A domain event as the journal returns it; occurredAt is already formatted. */
  datatype Event = Event(
    id: EventId,
    typ: string,
    streamType: string,
    streamId: string,
    version: nat,
    schemaVersion: string,
    occurredAt: string,
    encoding: string,
    payload: seq<Byte>)

  datatype SyncEvent = SyncEvent(
    eventId: EventId,
    typ: string,
    streamType: string,
    streamId: string,
    version: nat,
    schemaVersion: string,
    occurredAt: string,
    payloadEncoding: string,
    payload: seq<Byte>,
    payloadB64: string)

  const JSON := "json"
  const OPAQUE := "opaque"

  /** Whether bytes are one valid JSON value: jsontext.Value.IsValid, a library call. */
  type JsonCheck = seq<Byte> -> bool

  function ToWire(evt: Event, isJson: JsonCheck): SyncEvent {
    var inline := evt.encoding == JSON && isJson(evt.payload);
    SyncEvent(
      evt.id, evt.typ, evt.streamType, evt.streamId, evt.version, evt.schemaVersion, evt.occurredAt,
      if evt.encoding == JSON && !inline then OPAQUE else evt.encoding,
      if inline then evt.payload else [],
      if inline then "" else Base64.Encode(evt.payload))
  }

  method NewSyncEvent(evt: Event, isJson: JsonCheck) returns (out: SyncEvent)
    ensures out == ToWire(evt, isJson)
  {
    out := SyncEvent(evt.id, evt.typ, evt.streamType, evt.streamId, evt.version, evt.schemaVersion,
                     evt.occurredAt, evt.encoding, [], "");
    if evt.encoding == JSON && isJson(evt.payload) {
      out := out.(payload := evt.payload);
      return;
    }
    out := out.(payloadB64 := Base64.Encode(evt.payload));
    if evt.encoding == JSON {
      out := out.(payloadEncoding := OPAQUE);
    }
  }

  // ---------- between the record and the decoder ----------

  /** What the JSON encoder writes for an inline value: insignificant white space goes and string
      escapes are normalised. A library call. */
  type JsonRewrite = seq<Byte> -> seq<Byte>

  datatype JsonLibrary = JsonLibrary(isValid: JsonCheck, rewrite: JsonRewrite)

  /** The empty text is not JSON, and JSON is not rewritten to the empty text. */
  ghost predicate Lawful(json: JsonLibrary) {
    !json.isValid([]) && forall p :: json.isValid(p) ==> json.rewrite(p) != []
  }

  const EMPTY_OBJECT: seq<Byte> := ['{' as int, '}' as int]
  const EMPTY_ARRAY: seq<Byte> := ['[' as int, ']' as int]
  const EMPTY_STRING: seq<Byte> := ['"' as int, '"' as int]
  const NULL_VALUE: seq<Byte> := ['n' as int, 'u' as int, 'l' as int, 'l' as int]

  /** The values a field tagged omitempty is left out for. */
  const OMITTED: set<seq<Byte>> := {EMPTY_OBJECT, EMPTY_ARRAY, EMPTY_STRING, NULL_VALUE}

  /** The record as it arrives: marshalled, with empty fields left out, and read again. */
  function Encoded(e: SyncEvent, rewrite: JsonRewrite): SyncEvent {
    if e.payload == [] then e
    else e.(payload := if rewrite(e.payload) in OMITTED then [] else rewrite(e.payload))
  }

  /** What a client receives for an event. */
  function Delivered(evt: Event, json: JsonLibrary): SyncEvent {
    Encoded(ToWire(evt, json.isValid), json.rewrite)
  }

  predicate Inline(evt: Event, json: JsonLibrary) {
    evt.encoding == JSON && json.isValid(evt.payload)
  }

  datatype DecodeVerdict = Accepted | BothSet | NeitherSet | InlineNotJson | JsonNotInline

  /** The exclusive-or the decoder enforces after the plain JSON decode. */
  function CheckDecoded(e: SyncEvent): DecodeVerdict {
    var inline := |e.payload| > 0;
    var b64 := e.payloadB64 != "";
    if inline && b64 then BothSet
    else if !inline && !b64 then NeitherSet
    else if inline && e.payloadEncoding != JSON then InlineNotJson
    else if !inline && e.payloadEncoding == JSON then JsonNotInline
    else Accepted
  }

  /** What a client that passed the decode check reads the payload bytes from. */
  function DeliveredBytes(e: SyncEvent): Option<seq<Byte>> {
    if |e.payload| > 0 then Some(e.payload) else Base64.Decode(e.payloadB64)
  }

  /** Everything but the payload is the event's own. */
  predicate SameMetadata(out: SyncEvent, evt: Event) {
    && out.eventId == evt.id && out.typ == evt.typ
    && out.streamType == evt.streamType && out.streamId == evt.streamId
    && out.version == evt.version && out.schemaVersion == evt.schemaVersion
    && out.occurredAt == evt.occurredAt
  }

  /** The record itself holds exactly the event's bytes, and is honest about them: "json" is
      claimed exactly for bytes that are stamped JSON and are JSON. */
  lemma RecordIsFaithful(evt: Event, isJson: JsonCheck)
    ensures var out := ToWire(evt, isJson);
            && (CheckDecoded(out) == if evt.payload == [] then NeitherSet else Accepted)
            && DeliveredBytes(out) == Some(evt.payload)
            && (out.payloadEncoding == "json" <==> evt.encoding == "json" && isJson(evt.payload))
            && (out.payloadEncoding != evt.encoding ==>
                  evt.encoding == "json" && !isJson(evt.payload) && out.payloadEncoding == "opaque")
            && SameMetadata(out, evt)
  {
    Base64.RoundTrip(evt.payload);
    Base64.OnlyEmptyEncodesToEmpty(evt.payload);
  }

  /** The event has a payload, and not one that the encoder leaves out. */
  predicate Survives(evt: Event, json: JsonLibrary) {
    evt.payload != [] && !(Inline(evt, json) && json.rewrite(evt.payload) in OMITTED)
  }

  /** Over the wire: the decoder accepts what arrives exactly for an event with a payload that is
      not written inline as {}, [], "" or null; what it then reads is the original payload, of
      inline JSON as the encoder rewrites it. Anything else arrives with neither field set. */
  lemma WireRoundTrip(evt: Event, json: JsonLibrary)
    requires Lawful(json)
    ensures CheckDecoded(Delivered(evt, json)) == if Survives(evt, json) then Accepted else NeitherSet
    ensures Survives(evt, json) ==>
              DeliveredBytes(Delivered(evt, json))
              == Some(if Inline(evt, json) then json.rewrite(evt.payload) else evt.payload)
    ensures Delivered(evt, json).payloadEncoding == JSON <==> Inline(evt, json)
    ensures SameMetadata(Delivered(evt, json), evt)
  {
    RecordIsFaithful(evt, json.isValid);
  }

  /** The original bytes come back exactly if the event survives and the encoder leaves them be. */
  lemma BytesComeBackIff(evt: Event, json: JsonLibrary)
    requires Lawful(json)
    ensures CheckDecoded(Delivered(evt, json)) == Accepted && DeliveredBytes(Delivered(evt, json)) == Some(evt.payload)
       <==> Survives(evt, json) && (Inline(evt, json) ==> json.rewrite(evt.payload) == evt.payload)
  {
    WireRoundTrip(evt, json);
  }

  /** An event whose payload is the JSON object {} is one of those that do not arrive: the server
      sends it without any payload, and its own decoder refuses it as corrupt. */
  lemma EmptyObjectIsLost(evt: Event, json: JsonLibrary)
    requires Lawful(json) && json.isValid(EMPTY_OBJECT) && json.rewrite(EMPTY_OBJECT) == EMPTY_OBJECT
    requires evt.encoding == JSON && evt.payload == EMPTY_OBJECT
    ensures CheckDecoded(ToWire(evt, json.isValid)) == Accepted
    ensures CheckDecoded(Delivered(evt, json)) == NeitherSet
  {
    RecordIsFaithful(evt, json.isValid);
    WireRoundTrip(evt, json);
    assert EMPTY_OBJECT in OMITTED;
  }

  /** The text an inline payload leaves in the message. */
  function InlineText(p: seq<Byte>, rewrite: JsonRewrite): seq<Byte> {
    if rewrite(p) in OMITTED then [] else rewrite(p)
  }

  /** Two events that differ at most in their payload look the same to a client exactly if the
      payloads are the same or both inline with the same text, as {} and [] are. */
  lemma SameOnTheWireIff(a: Event, b: Event, json: JsonLibrary)
    requires Lawful(json) && b == a.(payload := b.payload)
    ensures Delivered(a, json) == Delivered(b, json)
       <==> a.payload == b.payload
            || (Inline(a, json) && Inline(b, json)
                && InlineText(a.payload, json.rewrite) == InlineText(b.payload, json.rewrite))
  {
    Base64.RoundTrip(a.payload);
    Base64.RoundTrip(b.payload);
  }
}
