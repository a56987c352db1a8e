/** The two shapes of an `obs_st` message. Both carry the observation rows
    and expose the first row decoded; only the status shape has a `status`
    member, and that member's presence is what tells them apart. */
module ObsStMessages {
  import opened Wrappers
  import opened Numeric
  import opened JsonValues
  import opened Records
  import opened ObservationDecoder
  import ObservationProperties

  /** `List<List<double?>>`: the list and each row may be null. */
  type Rows = Nullable<seq<Nullable<Slots>>>

  datatype StatusMessage = StatusMessage(
    status: Nullable<Status>,
    deviceId: int32,
    messageType: Nullable<string>,
    source: Nullable<string>,
    summary: Nullable<Summary>,
    observations: Rows)

  datatype SummaryMessage = SummaryMessage(
    summary: Nullable<Summary>,
    serialNumber: Nullable<string>,
    hubSerialNumber: Nullable<string>,
    messageType: Nullable<string>,
    source: Nullable<string>,
    observations: Rows,
    deviceId: int32,
    firmwareRevision: int32)

  /** `new Observation(Observations[0])`: throws when the list is null or
      empty, or when the first row is null (the constructor then indexes a
      null list); otherwise it is the decode of the first row. */
  function FirstOf(observations: Rows): (r: Result<Observation>)
    ensures observations.Null? ==> r == Failure(NullReference)
    ensures observations.NonNull? && |observations.value| == 0 ==> r == Failure(IndexOutOfRange(0))
    ensures observations.NonNull? && |observations.value| > 0 ==>
      r == match observations.value[0]
           case Null => Failure(NullReference)
           case NonNull(row) => Decode(row)
  {
    var row :- ItemAt(observations, 0);
    match row
    case Null => Failure(NullReference)
    case NonNull(slots) => Decode(slots)
  }

  /** The message has a first row and that row is a well-formed array. */
  predicate HasDecodableFirst(observations: Rows) {
    && observations.NonNull? && |observations.value| > 0
    && observations.value[0].NonNull? && WellFormed(observations.value[0].value)
  }

  /** `StatusMessage.FirstObservation`: defined exactly when the first row
      exists and is well-formed, and then it is that row decoded. */
  function StatusFirstObservation(m: StatusMessage): (r: Result<Observation>)
    ensures r.Success? <==> HasDecodableFirst(m.observations)
    ensures r.Success? ==> Decode(m.observations.value[0].value) == r
  {
    ObservationProperties.DecodeSucceedsIff(if m.observations.NonNull? && |m.observations.value| > 0
      && m.observations.value[0].NonNull? then m.observations.value[0].value else []);
    FirstOf(m.observations)
  }

  /** `SummaryMessage.FirstObservation`, the same accessor on the other shape. */
  function SummaryFirstObservation(m: SummaryMessage): (r: Result<Observation>)
    ensures r.Success? <==> HasDecodableFirst(m.observations)
    ensures r.Success? ==> Decode(m.observations.value[0].value) == r
  {
    ObservationProperties.DecodeSucceedsIff(if m.observations.NonNull? && |m.observations.value| > 0
      && m.observations.value[0].NonNull? then m.observations.value[0].value else []);
    FirstOf(m.observations)
  }

  /** Rows after the first never influence the first observation. */
  lemma FirstOfIgnoresLaterRows(first: Nullable<Slots>, later: seq<Nullable<Slots>>, other: seq<Nullable<Slots>>)
    ensures FirstOf(NonNull([first] + later)) == FirstOf(NonNull([first] + other))
  {
  }

  /** Every member a `StatusMessage` binds fits its property. */
  predicate StatusMessageFits(m: Members) {
    && ReadStatus(m, "status").Success?
    && ReadInt32(m, "device_id").Success?
    && ReadString(m, "type").Success?
    && ReadString(m, "source").Success?
    && ReadSummary(m, "summary").Success?
    && ReadNumberRows(m, "obs").Success?
  }

  /** `JsonSerializer.Deserialize<StatusMessage>(text)`: it binds exactly
      when the document is an object whose members all fit, and then each
      property holds its member's value. */
  function DecodeStatusMessage(j: Json): (r: Result<StatusMessage>)
    ensures r.Success? <==> j.JObject? && StatusMessageFits(j.members)
    ensures j.JObject? && HasValue(j.members, "status") && !j.members["status"].JObject? ==>
      r == Failure(SchemaMismatch("status"))
    ensures r.Success? ==> (r.value.status.NonNull? <==> HasValue(j.members, "status"))
    ensures r.Success? ==> ReadStatus(j.members, "status") == Success(r.value.status)
    ensures r.Success? ==> IntBinds(j.members, "device_id", r.value.deviceId)
    ensures r.Success? ==> StringBinds(j.members, "type", r.value.messageType)
    ensures r.Success? ==> StringBinds(j.members, "source", r.value.source)
    ensures r.Success? ==> ReadSummary(j.members, "summary") == Success(r.value.summary)
    ensures r.Success? ==> ReadNumberRows(j.members, "obs") == Success(r.value.observations)
  {
    var m :- AsObject(j);
    var status :- ReadStatus(m, "status");
    var deviceId :- ReadInt32(m, "device_id");
    var messageType :- ReadString(m, "type");
    var source :- ReadString(m, "source");
    var summary :- ReadSummary(m, "summary");
    var observations :- ReadNumberRows(m, "obs");
    Success(StatusMessage(status, deviceId, messageType, source, summary, observations))
  }

  /** A frame without a `status` value still binds as a status message
      whenever its other members fit, and its status is then null. */
  lemma MissingStatusIsNull(m: Members)
    requires !HasValue(m, "status")
    ensures DecodeStatusMessage(JObject(m)).Success? <==> StatusMessageFits(m - {"status"})
    ensures DecodeStatusMessage(JObject(m)).Success? ==>
      DecodeStatusMessage(JObject(m)).value.status == Null
  {
  }

  /** Every member a `SummaryMessage` binds fits its property. */
  predicate SummaryMessageFits(m: Members) {
    && ReadSummary(m, "summary").Success?
    && ReadString(m, "serial_number").Success?
    && ReadString(m, "hub_sn").Success?
    && ReadString(m, "type").Success?
    && ReadString(m, "source").Success?
    && ReadNumberRows(m, "obs").Success?
    && ReadInt32(m, "device_id").Success?
    && ReadInt32(m, "firmware_revision").Success?
  }

  /** `JsonSerializer.Deserialize<SummaryMessage>(text)`: it binds exactly
      when the document is an object whose members all fit, and then each
      property holds its member's value. */
  function DecodeSummaryMessage(j: Json): (r: Result<SummaryMessage>)
    ensures r.Success? <==> j.JObject? && SummaryMessageFits(j.members)
    ensures r.Success? ==> ReadSummary(j.members, "summary") == Success(r.value.summary)
    ensures r.Success? ==> StringBinds(j.members, "serial_number", r.value.serialNumber)
    ensures r.Success? ==> StringBinds(j.members, "hub_sn", r.value.hubSerialNumber)
    ensures r.Success? ==> StringBinds(j.members, "type", r.value.messageType)
    ensures r.Success? ==> StringBinds(j.members, "source", r.value.source)
    ensures r.Success? ==> ReadNumberRows(j.members, "obs") == Success(r.value.observations)
    ensures r.Success? ==> IntBinds(j.members, "device_id", r.value.deviceId)
    ensures r.Success? ==> IntBinds(j.members, "firmware_revision", r.value.firmwareRevision)
  {
    var m :- AsObject(j);
    var summary :- ReadSummary(m, "summary");
    var serialNumber :- ReadString(m, "serial_number");
    var hubSerialNumber :- ReadString(m, "hub_sn");
    var messageType :- ReadString(m, "type");
    var source :- ReadString(m, "source");
    var observations :- ReadNumberRows(m, "obs");
    var deviceId :- ReadInt32(m, "device_id");
    var firmwareRevision :- ReadInt32(m, "firmware_revision");
    Success(SummaryMessage(summary, serialNumber, hubSerialNumber, messageType, source,
      observations, deviceId, firmwareRevision))
  }

  /** The summary shape has no status property: a `status` member is ignored
      whatever it holds, so the summary shape carries no status at all. */
  lemma SummaryIgnoresStatus(m: Members)
    ensures DecodeSummaryMessage(JObject(m)) == DecodeSummaryMessage(JObject(m - {"status"}))
  {
  }
}
