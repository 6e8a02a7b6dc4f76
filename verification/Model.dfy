/**
 The records that travel through the agent: the raw message, the decoded wire
 event, the validated notification, the toast and the acknowledgement.
 Instants are integers; `u64` sequence numbers are natural numbers.
 */
module Model {

  datatype Option<+T> = None | Some(value: T)

  datatype Result<+T, +E> = Ok(value: T) | Err(error: E)

  newtype Byte = b: int | 0 <= b < 256

  datatype Priority = Normal | Important | Critical

  datatype ImageShape = Circle | Square

  datatype ImageRef = ImageRef(url: string, shape: ImageShape)

  /** A validated event. `stamp` is the arrival stamp of the subscribe loop. */
  datatype Notification = Notification(
    stamp: nat,
    eventId: string,
    userId: string,
    title: string,
    message: string,
    secondaryText: Option<string>,
    actionLabel: Option<string>,
    actionUrl: Option<string>,
    image: Option<ImageRef>,
    priority: Priority,
    aggregationKey: string,
    deduplicationKey: string,
    isReplaceable: bool,
    producerCreatedAt: Option<int>,
    serverPublishedAt: Option<int>,
    receivedAt: int)

  datatype ToastRequest = ToastRequest(
    title: string,
    message: string,
    attribution: Option<string>,
    actionLabel: Option<string>,
    actionUrl: Option<string>,
    image: Option<ImageRef>,
    sources: seq<Notification>)

  /** What the subscribe loop hands to the intake queue. */
  datatype ReceivedEvent = ReceivedEvent(payload: seq<Byte>, receivedAt: int, stamp: nat)

  datatype AckStatus = ObservedByAgent | SubmittedToWindows

  datatype AckPayload = AckPayload(
    eventId: string,
    deviceId: string,
    agentReceivedAt: int,
    toastSubmittedAt: Option<int>,
    status: AckStatus)

  /** Buckets are keyed by aggregation key and priority. */
  datatype Key = Key(aggregationKey: string, priority: Priority)

  function KeyOf(n: Notification): Key {
    Key(n.aggregationKey, n.priority)
  }

  /** The event names the aggregation key and has the priority of `k`. */
  predicate BelongsTo(n: Notification, k: Key) {
    n.aggregationKey == k.aggregationKey && n.priority == k.priority
  }

  /** The events name the same aggregation key and have the same priority. */
  predicate Together(a: Notification, b: Notification) {
    a.aggregationKey == b.aggregationKey && a.priority == b.priority
  }

  datatype WireImage = WireImage(url: Option<string>, shape: Option<string>)

  datatype WireContent = WireContent(
    title: Option<string>,
    message: Option<string>,
    secondaryText: Option<string>,
    image: Option<WireImage>)

  datatype WireAction = WireAction(caption: Option<string>, url: Option<string>)

  datatype WireClassification = WireClassification(
    priority: Option<string>,
    aggregationKey: Option<string>,
    deduplicationKey: Option<string>,
    isReplaceable: Option<bool>)

  datatype WireTimestamps = WireTimestamps(producerCreatedAt: Option<int>, serverPublishedAt: Option<int>)

  datatype WireEvent = WireEvent(
    eventId: Option<string>,
    notificationType: Option<string>,
    targetUserId: Option<string>,
    content: Option<WireContent>,
    action: Option<WireAction>,
    classification: Option<WireClassification>,
    timestamps: Option<WireTimestamps>)

  /**
   The library calls the agent depends on, as arbitrary functions: JSON
   decoding, grapheme segmentation, URL validation, lower-casing and the blank
   test. Every theorem holds for all choices of them.
   */
  datatype Libraries = Libraries(
    decode: seq<Byte> -> Option<WireEvent>,
    clusters: string -> seq<string>,
    validateUrl: string -> Option<string>,
    lower: string -> string,
    isBlank: string -> bool)
}
