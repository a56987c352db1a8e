/** The two documented `obs_st` frames, decoded. */
module ObsStSamples {
  import opened Wrappers
  import opened Numeric
  import opened JsonValues
  import opened Records
  import opened ObservationDecoder
  import opened ObsStMessages

  /** The JSON cells a row of slots is written as: null or a number each. */
  predicate WrittenAs(cells: seq<Json>, slots: Slots) {
    && |cells| == |slots|
    && forall i :: 0 <= i < |cells| ==>
         cells[i] == if slots[i].Null? then JNull else JNumber(slots[i].value)
  }

  /** Binding a written-out row gives the row back. */
  lemma WrittenRowBinds(key: string, cells: seq<Json>, slots: Slots)
    requires WrittenAs(cells, slots)
    ensures NumberRow(key)(JArray(cells)) == Success(NonNull(slots))
  {
    NumberRowOfCells(key, cells);
    var row := NumberRow(key)(JArray(cells)).value.value;
    assert row == slots;
  }

  /** A member holding a single row binds to that one row. */
  lemma SingleRowBinds(m: Members, key: string, row: Json, slots: Slots)
    requires key in m && m[key] == JArray([row])
    requires NumberRow(key)(row) == Success(NonNull(slots))
    ensures ReadNumberRows(m, key) == Success(NonNull([NonNull(slots)]))
  {
    assert forall i :: 0 <= i < |m[key].items| ==> NumberRow(key)(m[key].items[i]).Success?;
    var rows := ReadNumberRows(m, key).value.value;
    assert rows[0] == NonNull(slots);
    assert rows == [NonNull(slots)];
  }

  /** The summary both documented frames carry. */
  const SampleSummary: Json := JObject(map[
    "pressure_trend" := JString("steady"),
    "strike_count_1h" := JNumber(6.0),
    "strike_count_3h" := JNumber(6.0),
    "precip_total_1h" := JNumber(0.0),
    "strike_last_dist" := JNumber(37.0),
    "strike_last_epoch" := JNumber(1597160656.0),
    "precip_accum_local_yesterday" := JNumber(0.0),
    "precip_accum_local_yesterday_final" := JNumber(0.0),
    "precip_analysis_type_yesterday" := JNumber(1.0),
    "feels_like" := JNumber(26.2),
    "heat_index" := JNumber(26.2),
    "wind_chill" := JNumber(26.2)])

  const StatusSlots: Slots := [
    NonNull(1597160656.0), NonNull(0.54), NonNull(1.07), NonNull(1.61), NonNull(32.0),
    NonNull(3.0), NonNull(993.6), NonNull(26.2), NonNull(84.0), NonNull(49154.0),
    NonNull(3.54), NonNull(410.0), NonNull(0.0), NonNull(0.0), NonNull(37.0), NonNull(1.0),
    NonNull(2.61), NonNull(1.0), NonNull(2.307425), Null, Null, NonNull(0.0)]

  const StatusRow: seq<Json> := [
    JNumber(1597160656.0), JNumber(0.54), JNumber(1.07), JNumber(1.61), JNumber(32.0),
    JNumber(3.0), JNumber(993.6), JNumber(26.2), JNumber(84.0), JNumber(49154.0), JNumber(3.54),
    JNumber(410.0), JNumber(0.0), JNumber(0.0), JNumber(37.0), JNumber(1.0), JNumber(2.61),
    JNumber(1.0), JNumber(2.307425), JNull, JNull, JNumber(0.0)]

  /** The status-shaped example frame, from the "cache" source. */
  const StatusFrame: Json := JObject(map[
    "status" := JObject(map["status_code" := JNumber(0.0), "status_message" := JString("SUCCESS")]),
    "device_id" := JNumber(79424.0),
    "type" := JString("obs_st"),
    "source" := JString("cache"),
    "summary" := SampleSummary,
    "obs" := JArray([JArray(StatusRow)])])

  const SummarySlots: Slots := [
    NonNull(1597160716.0), NonNull(0.49), NonNull(0.98), NonNull(1.43), NonNull(40.0),
    NonNull(3.0), NonNull(993.6), NonNull(26.2), NonNull(84.0), NonNull(49795.0),
    NonNull(3.57), NonNull(415.0), NonNull(0.0), NonNull(0.0), NonNull(0.0), NonNull(0.0),
    NonNull(2.61), NonNull(1.0), NonNull(2.307425), Null, Null, NonNull(0.0)]

  const SummaryRow: seq<Json> := [
    JNumber(1597160716.0), JNumber(0.49), JNumber(0.98), JNumber(1.43), JNumber(40.0),
    JNumber(3.0), JNumber(993.6), JNumber(26.2), JNumber(84.0), JNumber(49795.0), JNumber(3.57),
    JNumber(415.0), JNumber(0.0), JNumber(0.0), JNumber(0.0), JNumber(0.0), JNumber(2.61),
    JNumber(1.0), JNumber(2.307425), JNull, JNull, JNumber(0.0)]

  /** The summary-shaped example frame, from the "mqtt" source. */
  const SummaryFrame: Json := JObject(map[
    "summary" := SampleSummary,
    "serial_number" := JString("ST-00012575"),
    "hub_sn" := JString("HB-00028109"),
    "type" := JString("obs_st"),
    "source" := JString("mqtt"),
    "obs" := JArray([JArray(SummaryRow)]),
    "device_id" := JNumber(79424.0),
    "firmware_revision" := JNumber(134.0)])

  lemma SampleSummaryDecodes()
    ensures ReadSummary(map["summary" := SampleSummary], "summary").Success?
  {
  }

  lemma StatusSlotsDecode()
    ensures Decode(StatusSlots).Success?
    ensures var obs := Decode(StatusSlots).value;
      && obs.windLull == 1597160656.0 && obs.airTemperature == 26.2
      && obs.relativeHumidity == 84 && obs.averageStrikeDistance == 37 && obs.strikeCount == 1
  {
  }

  lemma SummarySlotsDecode()
    ensures Decode(SummarySlots).Success?
    ensures var obs := Decode(SummarySlots).value;
      && obs.epoch == 1597160716 && obs.windDirection == 40
      && obs.averageStrikeDistance == 0 && obs.strikeCount == 0
  {
  }

  lemma StatusFrameReads()
    ensures var m := StatusFrame.members;
      && ReadStatus(m, "status") == Success(NonNull(Status(0, NonNull("SUCCESS"))))
      && ReadInt32(m, "device_id") == Success(79424)
      && ReadString(m, "type") == Success(NonNull("obs_st"))
      && ReadString(m, "source") == Success(NonNull("cache"))
  {
  }

  lemma StatusRowWritten()
    ensures WrittenAs(StatusRow, StatusSlots)
  {
  }

  lemma StatusFrameRows()
    ensures ReadNumberRows(StatusFrame.members, "obs") == Success(NonNull([NonNull(StatusSlots)]))
  {
    var m := StatusFrame.members;
    assert "obs" in m && m["obs"] == JArray([JArray(StatusRow)]);
    StatusRowWritten();
    WrittenRowBinds("obs", StatusRow, StatusSlots);
    SingleRowBinds(m, "obs", JArray(StatusRow), StatusSlots);
  }

  lemma SampleStatusMessage()
    ensures DecodeStatusMessage(StatusFrame).Success?
    ensures var msg := DecodeStatusMessage(StatusFrame).value;
      && msg.status == NonNull(Status(0, NonNull("SUCCESS")))
      && msg.deviceId == 79424
      && msg.source == NonNull("cache")
      && StatusFirstObservation(msg).Success?
      && var obs := StatusFirstObservation(msg).value;
         && obs.windLull == 1597160656.0
         && obs.airTemperature == 26.2
         && obs.relativeHumidity == 84
         && obs.averageStrikeDistance == 37
         && obs.strikeCount == 1
  {
    var m := StatusFrame.members;
    assert "summary" in m;
    SampleSummaryDecodes();
    assert ReadSummary(m, "summary") == ReadSummary(map["summary" := SampleSummary], "summary");
    StatusFrameReads();
    StatusFrameRows();
    StatusSlotsDecode();
  }

  lemma SummaryFrameReads()
    ensures var m := SummaryFrame.members;
      && ReadString(m, "serial_number") == Success(NonNull("ST-00012575"))
      && ReadString(m, "hub_sn") == Success(NonNull("HB-00028109"))
      && ReadString(m, "type") == Success(NonNull("obs_st"))
      && ReadString(m, "source") == Success(NonNull("mqtt"))
      && ReadInt32(m, "device_id") == Success(79424)
      && ReadInt32(m, "firmware_revision") == Success(134)
  {
  }

  lemma SummaryRowWritten()
    ensures WrittenAs(SummaryRow, SummarySlots)
  {
  }

  lemma SummaryFrameRows()
    ensures ReadNumberRows(SummaryFrame.members, "obs") == Success(NonNull([NonNull(SummarySlots)]))
  {
    var m := SummaryFrame.members;
    assert "obs" in m && m["obs"] == JArray([JArray(SummaryRow)]);
    SummaryRowWritten();
    WrittenRowBinds("obs", SummaryRow, SummarySlots);
    SingleRowBinds(m, "obs", JArray(SummaryRow), SummarySlots);
  }

  lemma SampleSummaryMessage()
    ensures DecodeSummaryMessage(SummaryFrame).Success?
    ensures var msg := DecodeSummaryMessage(SummaryFrame).value;
      && msg.serialNumber == NonNull("ST-00012575")
      && msg.hubSerialNumber == NonNull("HB-00028109")
      && msg.deviceId == 79424
      && msg.firmwareRevision == 134
      && msg.source == NonNull("mqtt")
      && SummaryFirstObservation(msg).Success?
      && var obs := SummaryFirstObservation(msg).value;
         && obs.epoch == 1597160716
         && obs.windDirection == 40
         && obs.averageStrikeDistance == 0
         && obs.strikeCount == 0
  {
    var m := SummaryFrame.members;
    assert "summary" in m;
    SampleSummaryDecodes();
    assert ReadSummary(m, "summary") == ReadSummary(map["summary" := SampleSummary], "summary");
    SummaryFrameReads();
    SummaryFrameRows();
    SummarySlotsDecode();
  }
}
