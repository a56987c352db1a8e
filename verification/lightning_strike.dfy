/** The `evt_strike` message and the values derived from its `evt` array
    [epoch, distance, energy, unknown]. Each derived value is one read of
    the array and throws when the array is null or too short. */
module LightningStrike {
  import opened Wrappers
  import opened Numeric
  import opened Time
  import opened JsonValues

  datatype LightningStrikeEvent = LightningStrikeEvent(
    serialNumber: Nullable<string>,
    messageType: Nullable<string>,
    hubSerialNumber: Nullable<string>,
    evt: Nullable<seq<int32>>,
    source: Nullable<string>,
    deviceId: int32)

  /** The array holds at least n values. */
  predicate HasAtLeast(e: LightningStrikeEvent, n: nat) {
    e.evt.NonNull? && |e.evt.value| >= n
  }

  /** The time of the strike: element 0 as Unix seconds. */
  function OccuredAt(e: LightningStrikeEvent): (r: Result<Instant>)
    ensures r.Success? <==> HasAtLeast(e, 1)
    ensures r.Success? ==> r.value == UnixTime(e.evt.value[0] as int)
    ensures r.Success? ==> FromUnixTimeSeconds(e.evt.value[0] as int) == r
    ensures e.evt.Null? ==> r == Failure(NullReference)
    ensures e.evt == NonNull([]) ==> r == Failure(IndexOutOfRange(0))
  {
    var epoch :- ItemAt(e.evt, 0);
    Success(FromEpoch(epoch))
  }

  /** The distance of the strike: element 1. */
  function Distance(e: LightningStrikeEvent): (r: Result<int32>)
    ensures r.Success? <==> HasAtLeast(e, 2)
    ensures r.Success? ==> r.value == e.evt.value[1]
    ensures e.evt.Null? ==> r == Failure(NullReference)
    ensures e.evt.NonNull? && !r.Success? ==> r == Failure(IndexOutOfRange(1))
  {
    ItemAt(e.evt, 1)
  }

  /** The energy of the strike: element 2; it may be negative. */
  function Energy(e: LightningStrikeEvent): (r: Result<int32>)
    ensures r.Success? <==> HasAtLeast(e, 3)
    ensures r.Success? ==> r.value == e.evt.value[2]
    ensures e.evt.Null? ==> r == Failure(NullReference)
    ensures e.evt.NonNull? && !r.Success? ==> r == Failure(IndexOutOfRange(2))
  {
    ItemAt(e.evt, 2)
  }

  /** The fourth, unexplained value: element 3. */
  function Unknown(e: LightningStrikeEvent): (r: Result<int32>)
    ensures r.Success? <==> HasAtLeast(e, 4)
    ensures r.Success? ==> r.value == e.evt.value[3]
    ensures e.evt.Null? ==> r == Failure(NullReference)
    ensures e.evt.NonNull? && !r.Success? ==> r == Failure(IndexOutOfRange(3))
  {
    ItemAt(e.evt, 3)
  }

  /** The time depends on element 0 alone, not on the other fields or elements. */
  lemma OccuredAtDependsOnFirstOnly(e: LightningStrikeEvent, e': LightningStrikeEvent)
    requires HasAtLeast(e, 1) && HasAtLeast(e', 1)
    requires e.evt.value[0] == e'.evt.value[0]
    ensures OccuredAt(e) == OccuredAt(e')
  {
  }

  /** The accessors agree with the array: a full array is exactly its
      epoch, distance, energy and unknown value, in that order. */
  lemma AccessorsCoverArray(e: LightningStrikeEvent)
    requires e.evt.NonNull? && |e.evt.value| == 4
    ensures e.evt.value == [OccuredAt(e).value.seconds as int32, Distance(e).value,
                            Energy(e).value, Unknown(e).value]
  {
  }

  /** Every member a `LightningStrikeEvent` binds fits its property. */
  predicate StrikeFits(m: Members) {
    && ReadString(m, "serial_number").Success?
    && ReadString(m, "type").Success?
    && ReadString(m, "hub_sn").Success?
    && ReadInt32List(m, "evt").Success?
    && ReadString(m, "source").Success?
    && ReadInt32(m, "device_id").Success?
  }

  /** `JsonSerializer.Deserialize<LightningStrikeEvent>(text)`: it binds
      exactly when the document is an object whose members all fit, and then
      each property holds its member's value. */
  function DecodeLightningStrikeEvent(j: Json): (r: Result<LightningStrikeEvent>)
    ensures r.Success? <==> j.JObject? && StrikeFits(j.members)
    ensures r.Success? ==> StringBinds(j.members, "serial_number", r.value.serialNumber)
    ensures r.Success? ==> StringBinds(j.members, "type", r.value.messageType)
    ensures r.Success? ==> StringBinds(j.members, "hub_sn", r.value.hubSerialNumber)
    ensures r.Success? ==> ReadInt32List(j.members, "evt") == Success(r.value.evt)
    ensures r.Success? ==> (r.value.evt.NonNull? <==> HasValue(j.members, "evt"))
    ensures r.Success? ==> StringBinds(j.members, "source", r.value.source)
    ensures r.Success? ==> IntBinds(j.members, "device_id", r.value.deviceId)
  {
    var m :- AsObject(j);
    var serialNumber :- ReadString(m, "serial_number");
    var messageType :- ReadString(m, "type");
    var hubSerialNumber :- ReadString(m, "hub_sn");
    var evt :- ReadInt32List(m, "evt");
    var source :- ReadString(m, "source");
    var deviceId :- ReadInt32(m, "device_id");
    Success(LightningStrikeEvent(serialNumber, messageType, hubSerialNumber, evt, source, deviceId))
  }

  /** The strike of the documented example, "evt": [1597165492, 42, -1714, 1]. */
  const SampleFrame: Json := JObject(map[
    "type" := JString("evt_strike"),
    "evt" := JArray([JNumber(1597165492.0), JNumber(42.0), JNumber(-1714.0), JNumber(1.0)]),
    "device_id" := JNumber(1.0)])

  lemma SampleStrike()
    ensures DecodeLightningStrikeEvent(SampleFrame).Success?
    ensures var e := DecodeLightningStrikeEvent(SampleFrame).value;
      && OccuredAt(e) == Success(UnixTime(1597165492))
      && Distance(e) == Success(42)
      && Energy(e) == Success(-1714)
      && Unknown(e) == Success(1)
  {
    var m := SampleFrame.members;
    assert "evt" in m && "type" in m && "device_id" in m;
    assert "serial_number" !in m && "hub_sn" !in m && "source" !in m;
    var items := m["evt"].items;
    assert forall i :: 0 <= i < |items| ==> Int32Item("evt")(items[i]).Success?;
  }
}
