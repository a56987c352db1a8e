/** The `evt_precip` message: the start of rain, its `evt` array holding
    only the epoch of the event. */
module RainStart {
  import opened Wrappers
  import opened Numeric
  import opened Time
  import opened JsonValues

  datatype RainStartEvent = RainStartEvent(
    deviceId: int32,
    source: Nullable<string>,
    serialNumber: Nullable<string>,
    messageType: Nullable<string>,
    hubSerialNumber: Nullable<string>,
    evt: Nullable<seq<int32>>)

  /** The time rain started: element 0 as Unix seconds. The elements are
      32-bit, so the conversion neither rounds nor leaves the supported
      range; the only failures are a null or empty array. */
  function OccuredAt(e: RainStartEvent): (r: Result<Instant>)
    ensures r.Success? <==> e.evt.NonNull? && |e.evt.value| >= 1
    ensures r.Success? ==> r.value == UnixTime(e.evt.value[0] as int)
    ensures r.Success? ==> FromUnixTimeSeconds(e.evt.value[0] as int) == r
    ensures e.evt.Null? ==> r == Failure(NullReference)
    ensures e.evt == NonNull([]) ==> r == Failure(IndexOutOfRange(0))
  {
    var epoch :- ItemAt(e.evt, 0);
    Success(FromEpoch(epoch))
  }

  /** Elements after the first are ignored. */
  lemma OccuredAtIgnoresLater(e: RainStartEvent, first: int32, later: seq<int32>)
    requires e.evt == NonNull([first] + later)
    ensures OccuredAt(e) == OccuredAt(e.(evt := NonNull([first])))
  {
  }

  /** Every member a `RainStartEvent` binds fits its property. */
  predicate RainStartFits(m: Members) {
    && ReadInt32(m, "device_id").Success?
    && ReadString(m, "source").Success?
    && ReadString(m, "serial_number").Success?
    && ReadString(m, "type").Success?
    && ReadString(m, "hub_sn").Success?
    && ReadInt32List(m, "evt").Success?
  }

  /** `JsonSerializer.Deserialize<RainStartEvent>(text)`: it binds exactly
      when the document is an object whose members all fit, and then each
      property holds its member's value. */
  function DecodeRainStartEvent(j: Json): (r: Result<RainStartEvent>)
    ensures r.Success? <==> j.JObject? && RainStartFits(j.members)
    ensures r.Success? ==> IntBinds(j.members, "device_id", r.value.deviceId)
    ensures r.Success? ==> StringBinds(j.members, "source", r.value.source)
    ensures r.Success? ==> StringBinds(j.members, "serial_number", r.value.serialNumber)
    ensures r.Success? ==> StringBinds(j.members, "type", r.value.messageType)
    ensures r.Success? ==> StringBinds(j.members, "hub_sn", r.value.hubSerialNumber)
    ensures r.Success? ==> ReadInt32List(j.members, "evt") == Success(r.value.evt)
    ensures r.Success? ==> (r.value.evt.NonNull? <==> HasValue(j.members, "evt"))
  {
    var m :- AsObject(j);
    var deviceId :- ReadInt32(m, "device_id");
    var source :- ReadString(m, "source");
    var serialNumber :- ReadString(m, "serial_number");
    var messageType :- ReadString(m, "type");
    var hubSerialNumber :- ReadString(m, "hub_sn");
    var evt :- ReadInt32List(m, "evt");
    Success(RainStartEvent(deviceId, source, serialNumber, messageType, hubSerialNumber, evt))
  }

  /** The rain start of the documented example, "evt": [1597166429]. */
  const SampleFrame: Json := JObject(map[
    "type" := JString("evt_precip"),
    "evt" := JArray([JNumber(1597166429.0)])])

  lemma SampleRainStart()
    ensures DecodeRainStartEvent(SampleFrame).Success?
    ensures OccuredAt(DecodeRainStartEvent(SampleFrame).value) == Success(UnixTime(1597166429))
  {
  }
}
