/** Frame routing in detailed mode: every handler watches the same stream of
    frames and takes a frame when its text is not null and contains the
    handler's tag in double quotes. Nothing makes the handlers exclusive,
    so one frame can reach several of them. */
module Routing {
  import opened Wrappers
  import opened Numeric
  import opened Time
  import opened JsonValues
  import opened Text
  import opened Decimal
  import opened Records
  import opened ObsStMessages
  import LightningStrike
  import RainStart

  /** The message types a handler is subscribed for. */
  datatype Tag =
    | ConnectionOpened
    | Ack
    | ObsSt
    | EvtStrike
    | EvtPrecip
    | EvtStationOnline
    | EvtStationOffline

  /** The tag as it appears in a frame's "type" member. */
  function TagName(t: Tag): string {
    match t
    case ConnectionOpened => "connection_opened"
    case Ack => "ack"
    case ObsSt => "obs_st"
    case EvtStrike => "evt_strike"
    case EvtPrecip => "evt_precip"
    case EvtStationOnline => "evt_station_online"
    case EvtStationOffline => "evt_station_offline"
  }

  /** Distinct tags have distinct names. */
  lemma TagNameInjective(t: Tag, u: Tag)
    ensures TagName(t) == TagName(u) <==> t == u
  {
  }

  function Quoted(s: string): string {
    "\"" + s + "\""
  }

  /** A received websocket frame: its text (null for a binary frame) and the
      JSON document that text holds. */
  datatype Frame = Frame(text: Nullable<string>, json: Json)

  /** The filter in front of the handler for t: the frame's text is not
      null and holds the quoted tag at some position. */
  predicate Accepts(t: Tag, f: Frame)
    ensures Accepts(t, f) <==>
      f.text.NonNull? && exists i :: OccursAt(f.text.value, Quoted(TagName(t)), i)
  {
    f.text.NonNull? && Contains(f.text.value, Quoted(TagName(t)))
  }

  /** The handlers in the order they are subscribed. */
  const Subscriptions: seq<Tag> :=
    [ConnectionOpened, Ack, ObsSt, EvtStrike, EvtPrecip, EvtStationOnline, EvtStationOffline]

  predicate NoDuplicates(tags: seq<Tag>) {
    forall i, j :: 0 <= i < j < |tags| ==> tags[i] != tags[j]
  }

  /** The handlers among tags that take f, in subscription order. */
  function RouteAmong(tags: seq<Tag>, f: Frame): (r: seq<Tag>)
    ensures forall t :: t in r <==> t in tags && Accepts(t, f)
    ensures |r| <= |tags|
    ensures NoDuplicates(tags) ==> NoDuplicates(r)
    ensures f.text.Null? ==> r == []
  {
    if |tags| == 0 then []
    else
      var rest := RouteAmong(tags[1..], f);
      assert forall t :: t in tags <==> t == tags[0] || t in tags[1..];
      if Accepts(tags[0], f) then [tags[0]] + rest else rest
  }

  /** Every tag has a subscribed handler. */
  lemma EveryTagSubscribed()
    ensures forall t: Tag :: t in Subscriptions
  {
    forall t: Tag ensures t in Subscriptions {
      match t
      case ConnectionOpened => assert Subscriptions[0] == t;
      case Ack => assert Subscriptions[1] == t;
      case ObsSt => assert Subscriptions[2] == t;
      case EvtStrike => assert Subscriptions[3] == t;
      case EvtPrecip => assert Subscriptions[4] == t;
      case EvtStationOnline => assert Subscriptions[5] == t;
      case EvtStationOffline => assert Subscriptions[6] == t;
    }
  }

  /** Every subscribed handler that takes f, each once; a frame with null
      text reaches none. */
  function Route(f: Frame): (r: seq<Tag>)
    ensures forall t :: t in r <==> Accepts(t, f)
    ensures NoDuplicates(r)
    ensures f.text.Null? ==> r == []
  {
    var r := RouteAmong(Subscriptions, f);
    EveryTagSubscribed();
    r
  }

  /** A frame reaches the handler for t exactly when its text holds the
      quoted tag somewhere. */
  lemma ReachesIffQuotedTag(f: Frame, t: Tag)
    ensures t in Route(f) <==> f.text.NonNull? && exists i :: OccursAt(f.text.value, Quoted(TagName(t)), i)
  {
  }

  /** Routing is not exclusive: a frame holding two quoted tags reaches both
      handlers, here an acknowledgement whose text also mentions "obs_st". */
  lemma RoutingNotExclusive()
    ensures var f := Frame(NonNull("{\"type\":\"ack\",\"id\":\"obs_st\"}"), JNull);
      Ack in Route(f) && ObsSt in Route(f)
  {
    var text := "{\"type\":\"ack\",\"id\":\"obs_st\"}";
    assert OccursAt(text, Quoted("ack"), 8);
    assert OccursAt(text, Quoted("obs_st"), 19);
  }

  /** How an acknowledgement is logged. */
  datatype AckLabel = Station | Device

  /** The ack handler: deserialise the acknowledgement and compare its id
      with the station id's decimal text; a missing or null id throws. */
  function AckLabelOf(j: Json, stationId: int32): (r: Result<AckLabel>)
    ensures r.Success? <==>
      DecodeAcknowledgement(j).Success? && DecodeAcknowledgement(j).value.id.NonNull?
    ensures r.Success? ==>
      (r.value == Station <==> j.members["id"] == JString(IntToDecimal(stationId as int)))
    ensures DecodeAcknowledgement(j).Success? && !HasValue(j.members, "id") ==>
      r == Failure(NullReference)
  {
    var ack :- DecodeAcknowledgement(j);
    match ack.id
    case Null => Failure(NullReference)
    case NonNull(id) => Success(if id == IntToDecimal(stationId as int) then Station else Device)
  }

  /** How an `obs_st` frame is logged, from the untyped view of the frame. */
  datatype ObsStLabel = StatusLabel | SummaryLabel

  /** The label the `obs_st` handler logs before any typed decode: any
      object frame gets one, Status exactly when a status value is present,
      whether or not the typed decodes that follow succeed. */
  function ObsStLabelOf(j: Json): (r: Result<ObsStLabel>)
    ensures r.Success? <==> j.JObject?
    ensures r.Success? ==> (r.value == StatusLabel <==> HasValue(j.members, "status"))
  {
    var m :- AsObject(j);
    Success(if HasValue(m, "status") then StatusLabel else SummaryLabel)
  }

  /** What the `obs_st` handler ends with: the frame read as a status
      message and, only when that left the status null, as a summary message. */
  datatype ObsStHandled = ObsStHandled(
    kind: ObsStLabel,
    asStatus: StatusMessage,
    asSummary: Nullable<SummaryMessage>)

  /** The `obs_st` handler: label the frame by whether a status value is
      present, read it as a status message, and read it as a summary
      message when the status came out null. */
  function HandleObsSt(j: Json): (r: Result<ObsStHandled>)
    ensures r.Success? <==>
      && DecodeStatusMessage(j).Success?
      && (DecodeStatusMessage(j).value.status.NonNull? || DecodeSummaryMessage(j).Success?)
    ensures r.Success? ==> j.JObject?
    ensures r.Success? ==> ObsStLabelOf(j) == Success(r.value.kind)
    ensures r.Success? ==> (r.value.kind == StatusLabel <==> HasValue(j.members, "status"))
    ensures r.Success? ==> (r.value.kind == StatusLabel <==> r.value.asStatus.status.NonNull?)
    ensures r.Success? ==> (r.value.asSummary.NonNull? <==> r.value.asStatus.status.Null?)
    ensures r.Success? ==> DecodeStatusMessage(j) == Success(r.value.asStatus)
    ensures r.Success? && r.value.asSummary.NonNull? ==>
      DecodeSummaryMessage(j) == Success(r.value.asSummary.value)
    ensures DecodeStatusMessage(j).Failure? ==> r.Failure?
  {
    var kind :- ObsStLabelOf(j);
    var asStatus :- DecodeStatusMessage(j);
    if asStatus.status.NonNull? then
      Success(ObsStHandled(kind, asStatus, Null))
    else
      var asSummary :- DecodeSummaryMessage(j);
      Success(ObsStHandled(kind, asStatus, NonNull(asSummary)))
  }

  /** The `evt_strike` handler: the time of the strike it logs. */
  function HandleStrike(j: Json): (r: Result<Instant>)
    ensures r.Success? <==>
      && LightningStrike.DecodeLightningStrikeEvent(j).Success?
      && LightningStrike.HasAtLeast(LightningStrike.DecodeLightningStrikeEvent(j).value, 1)
    ensures r.Success? ==>
      r.value == UnixTime(LightningStrike.DecodeLightningStrikeEvent(j).value.evt.value[0] as int)
  {
    var e :- LightningStrike.DecodeLightningStrikeEvent(j);
    LightningStrike.OccuredAt(e)
  }

  /** The `evt_precip` handler: the time rain started, which it logs. */
  function HandlePrecip(j: Json): (r: Result<Instant>)
    ensures r.Success? <==>
      && RainStart.DecodeRainStartEvent(j).Success?
      && RainStart.DecodeRainStartEvent(j).value.evt.NonNull?
      && |RainStart.DecodeRainStartEvent(j).value.evt.value| >= 1
    ensures r.Success? ==>
      r.value == UnixTime(RainStart.DecodeRainStartEvent(j).value.evt.value[0] as int)
  {
    var e :- RainStart.DecodeRainStartEvent(j);
    RainStart.OccuredAt(e)
  }
}
