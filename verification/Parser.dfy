/** Validation of one payload (parser.rs `parse_event`), the gate in front of duplicate suppression. */
module Parser {
  import opened Model
  import JsonDepth

  const MAX_PAYLOAD_BYTES: nat := 32 * 1024
  const MAX_JSON_DEPTH: nat := 16

  datatype Field = EventId | TargetUserId | ContentTitle | ContentMessage

  datatype ParseError = Empty | TooLarge(size: nat) | TooDeep | Json | MissingField(field: Field)

  function NonBlank(lib: Libraries, v: Option<string>): Option<string> {
    if v.Some? && !lib.isBlank(v.value) then v else None
  }

  function OrDefault<T>(v: Option<T>, default: T): T {
    if v.Some? then v.value else default
  }

  function ParseImage(lib: Libraries, wire: Option<WireImage>): Option<ImageRef> {
    if wire.None? then None else
    var url := NonBlank(lib, wire.value.url);
    if url.None? then None else
    var valid := lib.validateUrl(url.value);
    if valid.None? then None else
    var square := wire.value.shape.Some? && lib.lower(wire.value.shape.value) == "square";
    Some(ImageRef(valid.value, if square then Square else Circle))
  }

  function ParsePriority(lib: Libraries, wire: Option<string>): Priority {
    if wire.None? then Normal
    else if lib.lower(wire.value) == "critical" then Critical
    else if lib.lower(wire.value) == "important" then Important
    else Normal
  }

  const NO_CONTENT: WireContent := WireContent(None, None, None, None)
  const NO_ACTION: WireAction := WireAction(None, None)
  const NO_CLASSIFICATION: WireClassification := WireClassification(None, None, None, None)
  const NO_TIMESTAMPS: WireTimestamps := WireTimestamps(None, None)

  function ParseWire(lib: Libraries, wire: WireEvent, receivedAt: int, stamp: nat): Result<Notification, ParseError> {
    var eventId := NonBlank(lib, wire.eventId);
    if eventId.None? then Err(MissingField(EventId)) else
    var userId := NonBlank(lib, wire.targetUserId);
    if userId.None? then Err(MissingField(TargetUserId)) else
    var content := OrDefault(wire.content, NO_CONTENT);
    var title := NonBlank(lib, content.title);
    if title.None? then Err(MissingField(ContentTitle)) else
    var message := NonBlank(lib, content.message);
    if message.None? then Err(MissingField(ContentMessage)) else
    var kind := OrDefault(NonBlank(lib, wire.notificationType), "unknown");
    var classification := OrDefault(wire.classification, NO_CLASSIFICATION);
    var action := OrDefault(wire.action, NO_ACTION);
    var timestamps := OrDefault(wire.timestamps, NO_TIMESTAMPS);
    Ok(Notification(
         stamp, eventId.value, userId.value, title.value, message.value,
         NonBlank(lib, content.secondaryText),
         NonBlank(lib, action.caption),
         NonBlank(lib, action.url),
         ParseImage(lib, content.image),
         ParsePriority(lib, classification.priority),
         OrDefault(NonBlank(lib, classification.aggregationKey), kind),
         OrDefault(NonBlank(lib, classification.deduplicationKey), eventId.value),
         classification.isReplaceable == Some(true),
         timestamps.producerCreatedAt,
         timestamps.serverPublishedAt,
         receivedAt))
  }

  function ParseEvent(lib: Libraries, evt: ReceivedEvent): Result<Notification, ParseError> {
    if evt.payload == [] then Err(Empty)
    else if |evt.payload| > MAX_PAYLOAD_BYTES then Err(TooLarge(|evt.payload|))
    else if JsonDepth.ExceedsDepth(evt.payload, MAX_JSON_DEPTH) then Err(TooDeep)
    else
      var wire := lib.decode(evt.payload);
      if wire.None? then Err(Json) else ParseWire(lib, wire.value, evt.receivedAt, evt.stamp)
  }

  /** A field that must be present and not blank. */
  predicate Present(lib: Libraries, v: Option<string>) {
    v.Some? && !lib.isBlank(v.value)
  }

  /** The required field of that name, wherever it is nested. */
  function FieldOf(wire: WireEvent, f: Field): Option<string> {
    match f
    case EventId => wire.eventId
    case TargetUserId => wire.targetUserId
    case ContentTitle => if wire.content.Some? then wire.content.value.title else None
    case ContentMessage => if wire.content.Some? then wire.content.value.message else None
  }

  /** The aggregation key of an event that names none: its type. */
  function DefaultKey(lib: Libraries, wire: WireEvent): string {
    if Present(lib, wire.notificationType) then wire.notificationType.value else "unknown"
  }

  /** An optional text is kept exactly when it is there and not blank. */
  predicate KeptIfPresent(lib: Libraries, kept: Option<string>, wire: Option<string>) {
    if Present(lib, wire) then kept == wire else kept == None
  }

  /** An image is kept exactly when its URL is there and valid; it is square exactly when the event says so. */
  predicate CarriesImage(lib: Libraries, wire: Option<WireImage>, image: Option<ImageRef>) {
    && (image.Some? <==> wire.Some? && Present(lib, wire.value.url) && lib.validateUrl(wire.value.url.value).Some?)
    && (image.Some? ==>
          && lib.validateUrl(wire.value.url.value) == Some(image.value.url)
          && (image.value.shape == Square <==> wire.value.shape.Some? && lib.lower(wire.value.shape.value) == "square"))
  }

  /** Each field of `n` comes from its own place in the wire event. */
  ghost predicate Carries(lib: Libraries, wire: WireEvent, n: Notification) {
    && FieldOf(wire, EventId) == Some(n.eventId) && FieldOf(wire, TargetUserId) == Some(n.userId)
    && FieldOf(wire, ContentTitle) == Some(n.title) && FieldOf(wire, ContentMessage) == Some(n.message)
    && KeptIfPresent(lib, n.secondaryText, if wire.content.Some? then wire.content.value.secondaryText else None)
    && KeptIfPresent(lib, n.actionLabel, if wire.action.Some? then wire.action.value.caption else None)
    && KeptIfPresent(lib, n.actionUrl, if wire.action.Some? then wire.action.value.url else None)
    && CarriesImage(lib, if wire.content.Some? then wire.content.value.image else None, n.image)
    && (match wire.timestamps
        case None => n.producerCreatedAt == None && n.serverPublishedAt == None
        case Some(t) => n.producerCreatedAt == t.producerCreatedAt && n.serverPublishedAt == t.serverPublishedAt)
    && (match wire.classification
        case None =>
          && !n.isReplaceable && n.priority == Normal
          && n.deduplicationKey == n.eventId && n.aggregationKey == DefaultKey(lib, wire)
        case Some(c) =>
          && (n.isReplaceable <==> c.isReplaceable == Some(true))
          && (n.priority == Critical <==> c.priority.Some? && lib.lower(c.priority.value) == "critical")
          && (n.priority == Important <==> c.priority.Some? && lib.lower(c.priority.value) == "important")
          && (if Present(lib, c.deduplicationKey) then Some(n.deduplicationKey) == c.deduplicationKey
              else n.deduplicationKey == n.eventId)
          && (if Present(lib, c.aggregationKey) then Some(n.aggregationKey) == c.aggregationKey
              else n.aggregationKey == DefaultKey(lib, wire)))
  }

  /** A rejection names a fault the payload has, and no earlier field is missing. */
  lemma RejectionNamesTheFault(lib: Libraries, evt: ReceivedEvent)
    requires ParseEvent(lib, evt).Err?
    ensures match ParseEvent(lib, evt).error
      case Empty => evt.payload == []
      case TooLarge(size) => size == |evt.payload| > 32_768
      case TooDeep => 0 < |evt.payload| <= 32_768 && JsonDepth.ExceedsDepth(evt.payload, 16)
      case Json => !JsonDepth.ExceedsDepth(evt.payload, 16) && lib.decode(evt.payload).None?
      case MissingField(f) =>
        && lib.decode(evt.payload).Some?
        && !Present(lib, FieldOf(lib.decode(evt.payload).value, f))
        && forall g :: Before(g, f) ==> Present(lib, FieldOf(lib.decode(evt.payload).value, g))
  {
  }

  /** The order in which missing fields are reported. */
  predicate Before(g: Field, f: Field) {
    Rank(g) < Rank(f)
  }

  function Rank(f: Field): nat {
    match f
    case EventId => 0
    case TargetUserId => 1
    case ContentTitle => 2
    case ContentMessage => 3
  }

  /**
   A payload gets through exactly when it is non-empty, within the size and depth
   limits, decodable, and has the four required fields. What gets through carries
   each field from its own place in the event, the stamp and reception time of its
   message, and non-blank routing keys.
   */
  lemma ParsedExactly(lib: Libraries, evt: ReceivedEvent)
    requires !lib.isBlank("unknown")
    ensures ParseEvent(lib, evt).Ok? <==>
      && 0 < |evt.payload| <= 32_768
      && !JsonDepth.ExceedsDepth(evt.payload, 16)
      && lib.decode(evt.payload).Some?
      && var wire := lib.decode(evt.payload).value;
         && Present(lib, wire.eventId) && Present(lib, wire.targetUserId)
         && wire.content.Some? && Present(lib, wire.content.value.title) && Present(lib, wire.content.value.message)
    ensures ParseEvent(lib, evt).Ok? ==>
      var n := ParseEvent(lib, evt).value;
      && n.stamp == evt.stamp && n.receivedAt == evt.receivedAt
      && Carries(lib, lib.decode(evt.payload).value, n)
      && !lib.isBlank(n.eventId) && !lib.isBlank(n.deduplicationKey) && !lib.isBlank(n.aggregationKey)
  {
  }
}
