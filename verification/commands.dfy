/** The listen commands the client sends: `listen_start` and `listen_stop`
    for the device, `listen_start_events` and `listen_stop_events` for the
    station. Each carries its target id as a number and again as decimal
    text in `id`, which the feed echoes in its acknowledgement. */
module Commands {
  import opened Wrappers
  import opened Numeric
  import opened JsonValues
  import opened Decimal
  import opened Records
  import opened Text
  import opened Routing

  datatype CommandType = ListenStart | ListenStop | ListenStartEvents | ListenStopEvents

  function TypeName(k: CommandType): string {
    match k
    case ListenStart => "listen_start"
    case ListenStop => "listen_stop"
    case ListenStartEvents => "listen_start_events"
    case ListenStopEvents => "listen_stop_events"
  }

  /** The two `_events` commands address the station; the others the device. */
  predicate ForStation(k: CommandType) {
    k.ListenStartEvents? || k.ListenStopEvents?
  }

  /** The member that carries the target id. */
  function TargetKey(k: CommandType): string {
    if ForStation(k) then "station_id" else "device_id"
  }

  /** The anonymous record a command is built from. */
  datatype Command = Command(kind: CommandType, target: int32, id: string)

  /** A command for target: its `id` is the target's decimal text, the
      text the ack handler compares with, in canonical form, so parsing the
      id gives the target back. */
  function ListenCommand(kind: CommandType, target: int32): (c: Command)
    ensures c.kind == kind && c.target == target
    ensures c.id == IntToDecimal(target as int) && Canonical(c.id)
    ensures ParseDecimal(c.id) == Success(target as int)
  {
    ParseRendered(target as int);
    Command(kind, target, IntToDecimal(target as int))
  }

  /** Two commands of the same kind share an id exactly when they share a target. */
  lemma IdIdentifiesTarget(kind: CommandType, a: int32, b: int32)
    ensures ListenCommand(kind, a).id == ListenCommand(kind, b).id <==> a == b
  {
  }

  /** The JSON document the serialiser writes for c: exactly the members
      `type`, `id` and the target member, which is `station_id` for the two
      `_events` commands and `device_id` for the others. */
  function ToJson(c: Command): (j: Json)
    ensures j.JObject?
    ensures j.members.Keys == {"type", "id", if ForStation(c.kind) then "station_id" else "device_id"}
    ensures j.members["type"] == JString(TypeName(c.kind))
    ensures j.members["id"] == JString(c.id)
    ensures ForStation(c.kind) ==> j.members["station_id"] == JNumber(c.target as real)
    ensures !ForStation(c.kind) ==> j.members["device_id"] == JNumber(c.target as real)
  {
    JObject(map[
      "type" := JString(TypeName(c.kind)),
      TargetKey(c.kind) := JNumber(c.target as real),
      "id" := JString(c.id)])
  }

  /** The command type a type name denotes; any other name is refused. */
  function KindOf(name: string): (r: Result<CommandType>)
    ensures r.Success? ==> TypeName(r.value) == name
    ensures r.Failure? ==> forall k :: TypeName(k) != name
  {
    if name == "listen_start" then Success(ListenStart)
    else if name == "listen_stop" then Success(ListenStop)
    else if name == "listen_start_events" then Success(ListenStartEvents)
    else if name == "listen_stop_events" then Success(ListenStopEvents)
    else Failure(FormatError)
  }

  /** How a receiver reads a command document: the type name picks the kind
      and with it the member holding the target. */
  function FromJson(j: Json): (r: Result<Command>)
    ensures r.Success? ==> j.JObject? && "type" in j.members && "id" in j.members
    ensures r.Success? ==> j.members["type"] == JString(TypeName(r.value.kind))
    ensures r.Success? ==> j.members["id"] == JString(r.value.id)
  {
    var m :- AsObject(j);
    var name :- ReadString(m, "type");
    if name.Null? then Failure(SchemaMismatch("type"))
    else
      var kind :- KindOf(name.value);
      var target :- ReadInt32(m, TargetKey(kind));
      var id :- ReadString(m, "id");
      if id.Null? then Failure(SchemaMismatch("id"))
      else Success(Command(kind, target, id.value))
  }

  /** Writing a command and reading it back gives the command. */
  lemma FromToJson(c: Command)
    ensures FromJson(ToJson(c)) == Success(c)
  {
  }

  /** The device-side command and the station-side command of one phase. */
  predicate IsDeviceCommand(c: Command, deviceId: int32) {
    (c.kind == ListenStart || c.kind == ListenStop) && c == ListenCommand(c.kind, deviceId)
  }

  /** The station command that follows a device command. */
  function StationFollowUp(c: Command, stationId: int32): Command {
    ListenCommand(if c.kind == ListenStart then ListenStartEvents else ListenStopEvents, stationId)
  }

  /** On every (re)connection: start listening for the device, then for
      the station. */
  function OnReconnect(sent: seq<Command>, deviceId: int32, stationId: int32): (r: seq<Command>)
    ensures |r| == |sent| + 2 && r[..|sent|] == sent
    ensures IsDeviceCommand(r[|sent|], deviceId) && r[|sent|].kind == ListenStart
    ensures r[|sent| + 1] == StationFollowUp(r[|sent|], stationId)
    ensures r[|sent| + 1].kind == ListenStartEvents
  {
    sent + [ListenCommand(ListenStart, deviceId)] + [ListenCommand(ListenStartEvents, stationId)]
  }

  /** On exit: stop listening for the device, then for the station. */
  function OnExit(sent: seq<Command>, deviceId: int32, stationId: int32): (r: seq<Command>)
    ensures |r| == |sent| + 2 && r[..|sent|] == sent
    ensures IsDeviceCommand(r[|sent|], deviceId) && r[|sent|].kind == ListenStop
    ensures r[|sent| + 1] == StationFollowUp(r[|sent|], stationId)
    ensures r[|sent| + 1].kind == ListenStopEvents
  {
    sent + [ListenCommand(ListenStop, deviceId)] + [ListenCommand(ListenStopEvents, stationId)]
  }

  /** The points of a session at which commands go out. */
  datatype SessionEvent = Reconnected | Exited

  /** a and b are the two commands one session event sends: the device
      command first, starting listening on a reconnection and stopping on
      exit, then the station command of the same phase. */
  predicate SentFor(e: SessionEvent, a: Command, b: Command, deviceId: int32, stationId: int32) {
    && a == ListenCommand(if e.Reconnected? then ListenStart else ListenStop, deviceId)
    && b == ListenCommand(if e.Reconnected? then ListenStartEvents else ListenStopEvents, stationId)
  }

  /** log holds, two by two, the commands of events in order. */
  predicate LogOf(log: seq<Command>, events: seq<SessionEvent>, deviceId: int32, stationId: int32) {
    && |log| == 2 * |events|
    && forall i :: 0 <= i < |events| ==> SentFor(events[i], log[2 * i], log[2 * i + 1], deviceId, stationId)
  }

  /** Appending the commands of one more event extends the log. */
  lemma AppendEvent(before: seq<Command>, events: seq<SessionEvent>, log: seq<Command>, deviceId: int32, stationId: int32)
    requires |events| > 0 && LogOf(before, events[..|events| - 1], deviceId, stationId)
    requires |log| == |before| + 2 && log[..|before|] == before
    requires SentFor(events[|events| - 1], log[|before|], log[|before| + 1], deviceId, stationId)
    ensures LogOf(log, events, deviceId, stationId)
  {
  }

  /** Everything sent during a session, in order: the commands of each
      event, two by two. */
  function Sent(events: seq<SessionEvent>, deviceId: int32, stationId: int32): (r: seq<Command>)
    ensures LogOf(r, events, deviceId, stationId)
    decreases |events|
  {
    if |events| == 0 then []
    else
      var before := Sent(events[..|events| - 1], deviceId, stationId);
      var r := match events[|events| - 1]
        case Reconnected => OnReconnect(before, deviceId, stationId)
        case Exited => OnExit(before, deviceId, stationId);
      AppendEvent(before, events, r, deviceId, stationId);
      r
  }

  /** a is a device command and b the station command of the same phase. */
  predicate IsPair(a: Command, b: Command, deviceId: int32, stationId: int32) {
    IsDeviceCommand(a, deviceId) && b == StationFollowUp(a, stationId)
  }

  /** The log is a run of pairs: a device command at each even position,
      followed at once by the station command of the same phase. */
  predicate DeviceBeforeStation(log: seq<Command>, deviceId: int32, stationId: int32) {
    && |log| % 2 == 0
    && forall i :: 0 <= i < |log| && i % 2 == 0 ==> IsPair(log[i], log[i + 1], deviceId, stationId)
  }

  /** Appending a device command and its station follow-up keeps the log paired. */
  lemma AppendPair(before: seq<Command>, log: seq<Command>, deviceId: int32, stationId: int32)
    requires DeviceBeforeStation(before, deviceId, stationId)
    requires |log| == |before| + 2 && log[..|before|] == before
    requires IsPair(log[|before|], log[|before| + 1], deviceId, stationId)
    ensures DeviceBeforeStation(log, deviceId, stationId)
  {
  }

  /** Whatever the sequence of reconnections and exits, every station command
      goes out right after the matching device command. */
  lemma {:induction false} SentDeviceBeforeStation(events: seq<SessionEvent>, deviceId: int32, stationId: int32)
    ensures |Sent(events, deviceId, stationId)| == 2 * |events|
    ensures DeviceBeforeStation(Sent(events, deviceId, stationId), deviceId, stationId)
    decreases |events|
  {
    if |events| > 0 {
      var before := Sent(events[..|events| - 1], deviceId, stationId);
      SentDeviceBeforeStation(events[..|events| - 1], deviceId, stationId);
      AppendPair(before, Sent(events, deviceId, stationId), deviceId, stationId);
    }
  }

  /** The acknowledgement the feed sends for c: type "ack" and c's id. */
  function AckFor(c: Command): Json {
    JObject(map["type" := JString("ack"), "id" := JString(c.id)])
  }

  /** The acknowledgement of either station command is logged as the station's. */
  lemma StationAckIsStation(kind: CommandType, stationId: int32)
    requires ForStation(kind)
    ensures AckLabelOf(AckFor(ListenCommand(kind, stationId)), stationId) == Success(Station)
  {
  }

  /** The acknowledgement of a device command is logged as the device's
      exactly when the device id differs from the station id: the labels
      can only be confused when the two ids coincide. */
  lemma DeviceAckIsDevice(kind: CommandType, deviceId: int32, stationId: int32)
    requires !ForStation(kind)
    ensures AckLabelOf(AckFor(ListenCommand(kind, deviceId)), stationId) == Success(Device)
        <==> deviceId != stationId
  {
    var m := AckFor(ListenCommand(kind, deviceId)).members;
    assert "type" in m && "id" in m;
    RenderInjective(deviceId as int, stationId as int);
  }

  /** The acknowledgement frame reaches the ack handler. */
  lemma AckReachesAckHandler(c: Command, text: string)
    requires text == "{\"type\":\"ack\",\"id\":\"" + c.id + "\"}"
    ensures Ack in Route(Frame(NonNull(text), AckFor(c)))
  {
    assert OccursAt(text, Quoted("ack"), 8);
  }
}
