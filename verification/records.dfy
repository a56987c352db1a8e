/** The plain records embedded in or answering the feed's messages: the
    status of an `obs_st` status message, the daily summary, and the
    acknowledgement of a listen command. They carry no logic of their own
    beyond being bound from JSON. */
module Records {
  import opened Wrappers
  import opened Numeric
  import opened JsonValues

  datatype Status = Status(statusCode: int32, statusMessage: Nullable<string>)

  datatype Summary = Summary(
    pressureTrend: Nullable<string>,
    oneHourLightningStrikeCount: int32,
    threeHourLightningStrikeCount: int32,
    oneHourPrecipitationTotal: real,
    lastLightningStrikeDistance: int32,
    lastLightningStrikeEpoch: int32,
    localPrecipitationAccumulationForYesterday: real,
    finalLocalPrecipitationAccumulationForYesterday: real,
    precipitationAnalysisTypeForYesterday: int32,
    feelsLike: real,
    heatIndex: real,
    windChill: real)

  datatype Acknowledgement = Acknowledgement(messageType: Nullable<string>, id: Nullable<string>)

  /** A `Status` bound from an object's members: the code is the
      `status_code` number (0 when missing) and the message the
      `status_message` text (null when missing or null). */
  function StatusFromMembers(m: Members): (r: Result<Status>)
    ensures r.Success? <==> ReadInt32(m, "status_code").Success? && ReadString(m, "status_message").Success?
    ensures r.Success? ==> IntBinds(m, "status_code", r.value.statusCode)
    ensures r.Success? ==> StringBinds(m, "status_message", r.value.statusMessage)
  {
    var code :- ReadInt32(m, "status_code");
    var message :- ReadString(m, "status_message");
    Success(Status(code, message))
  }

  /** A `Status` property: null exactly when the member is missing or null;
      an object member binds as a status, anything else is refused. */
  function ReadStatus(m: Members, key: string): (r: Result<Nullable<Status>>)
    ensures r.Success? <==>
      !HasValue(m, key) || (m[key].JObject? && StatusFromMembers(m[key].members).Success?)
    ensures r.Success? ==> (r.value.NonNull? <==> HasValue(m, key))
    ensures r.Success? && r.value.NonNull? ==>
      && IntBinds(m[key].members, "status_code", r.value.value.statusCode)
      && StringBinds(m[key].members, "status_message", r.value.value.statusMessage)
    ensures HasValue(m, key) && !m[key].JObject? ==> r == Failure(SchemaMismatch(key))
    ensures !HasValue(m, key) ==> r == Success(Null)
  {
    if !HasValue(m, key) then Success(Null)
    else if m[key].JObject? then
      var status :- StatusFromMembers(m[key].members);
      Success(NonNull(status))
    else Failure(SchemaMismatch(key))
  }

  /** Every member of a `Summary` fits its property. */
  predicate SummaryFits(m: Members) {
    && ReadString(m, "pressure_trend").Success?
    && ReadInt32(m, "strike_count_1h").Success?
    && ReadInt32(m, "strike_count_3h").Success?
    && ReadDouble(m, "precip_total_1h").Success?
    && ReadInt32(m, "strike_last_dist").Success?
    && ReadInt32(m, "strike_last_epoch").Success?
    && ReadDouble(m, "precip_accum_local_yesterday").Success?
    && ReadDouble(m, "precip_accum_local_yesterday_final").Success?
    && ReadInt32(m, "precip_analysis_type_yesterday").Success?
    && ReadDouble(m, "feels_like").Success?
    && ReadDouble(m, "heat_index").Success?
    && ReadDouble(m, "wind_chill").Success?
  }

  /** s holds, property by property, what binding the members gives. */
  predicate SummaryBinds(m: Members, s: Summary) {
    && StringBinds(m, "pressure_trend", s.pressureTrend)
    && IntBinds(m, "strike_count_1h", s.oneHourLightningStrikeCount)
    && IntBinds(m, "strike_count_3h", s.threeHourLightningStrikeCount)
    && DoubleBinds(m, "precip_total_1h", s.oneHourPrecipitationTotal)
    && IntBinds(m, "strike_last_dist", s.lastLightningStrikeDistance)
    && IntBinds(m, "strike_last_epoch", s.lastLightningStrikeEpoch)
    && DoubleBinds(m, "precip_accum_local_yesterday", s.localPrecipitationAccumulationForYesterday)
    && DoubleBinds(m, "precip_accum_local_yesterday_final", s.finalLocalPrecipitationAccumulationForYesterday)
    && IntBinds(m, "precip_analysis_type_yesterday", s.precipitationAnalysisTypeForYesterday)
    && DoubleBinds(m, "feels_like", s.feelsLike)
    && DoubleBinds(m, "heat_index", s.heatIndex)
    && DoubleBinds(m, "wind_chill", s.windChill)
  }

  /** A `Summary` bound from an object's members: it binds exactly when
      every member fits its property, and then holds each member's value. */
  function SummaryFromMembers(m: Members): (r: Result<Summary>)
    ensures r.Success? <==> SummaryFits(m)
    ensures r.Success? ==> SummaryBinds(m, r.value)
  {
    var pressureTrend :- ReadString(m, "pressure_trend");
    var strikeCount1h :- ReadInt32(m, "strike_count_1h");
    var strikeCount3h :- ReadInt32(m, "strike_count_3h");
    var precipTotal1h :- ReadDouble(m, "precip_total_1h");
    var strikeLastDist :- ReadInt32(m, "strike_last_dist");
    var strikeLastEpoch :- ReadInt32(m, "strike_last_epoch");
    var precipYesterday :- ReadDouble(m, "precip_accum_local_yesterday");
    var precipYesterdayFinal :- ReadDouble(m, "precip_accum_local_yesterday_final");
    var analysisYesterday :- ReadInt32(m, "precip_analysis_type_yesterday");
    var feelsLike :- ReadDouble(m, "feels_like");
    var heatIndex :- ReadDouble(m, "heat_index");
    var windChill :- ReadDouble(m, "wind_chill");
    Success(Summary(pressureTrend, strikeCount1h, strikeCount3h, precipTotal1h, strikeLastDist,
      strikeLastEpoch, precipYesterday, precipYesterdayFinal, analysisYesterday, feelsLike,
      heatIndex, windChill))
  }

  /** A `Summary` property: null exactly when the member is missing or null;
      an object member binds as a summary, anything else is refused. */
  function ReadSummary(m: Members, key: string): (r: Result<Nullable<Summary>>)
    ensures r.Success? <==> !HasValue(m, key) || (m[key].JObject? && SummaryFits(m[key].members))
    ensures r.Success? ==> (r.value.NonNull? <==> HasValue(m, key))
    ensures r.Success? && r.value.NonNull? ==> SummaryBinds(m[key].members, r.value.value)
    ensures HasValue(m, key) && !m[key].JObject? ==> r == Failure(SchemaMismatch(key))
  {
    if !HasValue(m, key) then Success(Null)
    else if m[key].JObject? then
      var summary :- SummaryFromMembers(m[key].members);
      Success(NonNull(summary))
    else Failure(SchemaMismatch(key))
  }

  /** `JsonSerializer.Deserialize<Acknowledgement>(text)`. */
  function DecodeAcknowledgement(j: Json): (r: Result<Acknowledgement>)
    ensures r.Success? <==>
      j.JObject? && ReadString(j.members, "type").Success? && ReadString(j.members, "id").Success?
    ensures r.Success? ==> StringBinds(j.members, "type", r.value.messageType)
    ensures r.Success? ==> StringBinds(j.members, "id", r.value.id)
  {
    var m :- AsObject(j);
    var messageType :- ReadString(m, "type");
    var id :- ReadString(m, "id");
    Success(Acknowledgement(messageType, id))
  }
}
