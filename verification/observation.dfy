/** The `obs_st` observation: a 22-slot positional array of nullable numbers
    unpacked into named fields.

    The decoder reads the slots in the order of the C# constructor
    `Observation(List<double?>)`,
    0, 0, 2, 3, ..., 21, and the first read that throws decides the error.
    Slot 1 (the wind lull the feed actually sends) is never read: the wind
    lull is taken from slot 0, the epoch. The model keeps that as written. */
module ObservationDecoder {
  import opened Wrappers
  import opened Numeric
  import opened Time

  /** One raw observation array as it arrives: `List<double?>`. */
  type Slots = seq<Nullable<real>>

  /** Number of slots the decoder reads up to (indices 0..21). */
  const SlotCount: nat := 22

  /** Precipitation type. A C# enum cast never rejects a code, so codes other
      than 0, 1 and 2 are kept as unnamed values. */
  datatype Precipitation = None | Rain | Hail | Unnamed(code: int32) {

    /** Unnamed values only carry codes that have no name. */
    predicate Valid() {
      Unnamed? ==> code !in {0, 1, 2}
    }

    /** The underlying integer of the enum value. */
    function Code(): int32 {
      match this
      case None => 0
      case Rain => 1
      case Hail => 2
      case Unnamed(c) => c
    }
  }

  /** The enum value a code is cast to: `(Precipitation)code`. */
  function PrecipitationOf(c: int32): (p: Precipitation)
    ensures p.Valid() && p.Code() == c
    ensures p == Precipitation.None <==> c == 0
    ensures p == Precipitation.Rain <==> c == 1
    ensures p == Precipitation.Hail <==> c == 2
  {
    if c == 0 then Precipitation.None
    else if c == 1 then Precipitation.Rain
    else if c == 2 then Precipitation.Hail
    else Precipitation.Unnamed(c)
  }

  /** Casting a valid value's code back yields that value. */
  lemma PrecipitationCodeRoundTrip(p: Precipitation)
    requires p.Valid()
    ensures PrecipitationOf(p.Code()) == p
  {
  }

  /** Precipitation analysis type; the same pass-through for unnamed codes. */
  datatype PrecipitationAnalysis =
    | None
    | RainCheckWithUserDisplayOn
    | RainCheckWithUserDisplayOff
    | Unnamed(code: int32)
  {
    predicate Valid() {
      Unnamed? ==> code !in {0, 1, 2}
    }

    function Code(): int32 {
      match this
      case None => 0
      case RainCheckWithUserDisplayOn => 1
      case RainCheckWithUserDisplayOff => 2
      case Unnamed(c) => c
    }
  }

  /** The enum value a code is cast to: `(PrecipitationAnalysis)code`. */
  function PrecipitationAnalysisOf(c: int32): (p: PrecipitationAnalysis)
    ensures p.Valid() && p.Code() == c
    ensures p == PrecipitationAnalysis.None <==> c == 0
    ensures p == PrecipitationAnalysis.RainCheckWithUserDisplayOn <==> c == 1
    ensures p == PrecipitationAnalysis.RainCheckWithUserDisplayOff <==> c == 2
  {
    if c == 0 then PrecipitationAnalysis.None
    else if c == 1 then PrecipitationAnalysis.RainCheckWithUserDisplayOn
    else if c == 2 then PrecipitationAnalysis.RainCheckWithUserDisplayOff
    else PrecipitationAnalysis.Unnamed(c)
  }

  lemma PrecipitationAnalysisCodeRoundTrip(p: PrecipitationAnalysis)
    requires p.Valid()
    ensures PrecipitationAnalysisOf(p.Code()) == p
  {
  }

  /** A decoded observation; units as the station reports them. */
  datatype Observation = Observation(
    epoch: int32,                         // seconds, UTC
    windLull: real,                       // m/s
    windAvg: real,                        // m/s
    windGust: real,                       // m/s
    windDirection: int32,                 // degrees
    windSampleInterval: int32,            // seconds
    pressure: real,                       // mb
    airTemperature: real,                 // C
    relativeHumidity: int32,              // %
    illuminance: int32,                   // lux
    uv: real,                             // index
    solarRadiation: int32,                // W/m^2
    rainAccumulation: real,               // mm
    precipitationType: Precipitation,
    averageStrikeDistance: int32,         // km
    strikeCount: int32,
    battery: real,                        // volts
    reportInterval: int32,                // minutes
    localDayRainAccumulation: real,       // mm
    rainAccumulationFinal: real,          // mm
    localDayRainAccumulationFinal: real,  // mm
    precipitationAnalysisType: PrecipitationAnalysis)
  {
    predicate Valid() {
      precipitationType.Valid() && precipitationAnalysisType.Valid()
    }
  }

  /** The slots read through an `(int)` or enum cast, which throw on null. */
  predicate IsCastSlot(i: int) {
    i == 0 || i == 4 || i == 5 || i == 8 || i == 9 || i == 11 || i == 13
    || i == 14 || i == 15 || i == 17 || i == 21
  }

  /** The slots read as `double`, with null replaced by 0. */
  predicate IsFloatSlot(i: int) {
    0 <= i < SlotCount as int && i != 1 && !IsCastSlot(i)
  }

  /** A present value whose truncation fits a 32-bit int. */
  predicate Castable(v: Nullable<real>) {
    v.NonNull? && InInt32Range(Trunc(v.value))
  }

  /** Reading slot i does not throw: the slot exists, and a cast slot is
      also castable. */
  predicate SlotSound(o: Slots, i: nat) {
    i < |o| && (IsCastSlot(i) ==> Castable(o[i]))
  }

  /** Every read of a slot below k succeeds (slot 1 is never read). */
  predicate SoundBelow(o: Slots, k: nat) {
    && (0 < k ==> SlotSound(o, 0))
    && (2 < k ==> SlotSound(o, 2))
    && (3 < k ==> SlotSound(o, 3))
    && (4 < k ==> SlotSound(o, 4))
    && (5 < k ==> SlotSound(o, 5))
    && (6 < k ==> SlotSound(o, 6))
    && (7 < k ==> SlotSound(o, 7))
    && (8 < k ==> SlotSound(o, 8))
    && (9 < k ==> SlotSound(o, 9))
    && (10 < k ==> SlotSound(o, 10))
    && (11 < k ==> SlotSound(o, 11))
    && (12 < k ==> SlotSound(o, 12))
    && (13 < k ==> SlotSound(o, 13))
    && (14 < k ==> SlotSound(o, 14))
    && (15 < k ==> SlotSound(o, 15))
    && (16 < k ==> SlotSound(o, 16))
    && (17 < k ==> SlotSound(o, 17))
    && (18 < k ==> SlotSound(o, 18))
    && (19 < k ==> SlotSound(o, 19))
    && (20 < k ==> SlotSound(o, 20))
    && (21 < k ==> SlotSound(o, 21))
  }

  /** The arrays the decoder accepts. */
  predicate WellFormed(o: Slots) {
    SoundBelow(o, SlotCount)
  }

  /** e is the exception the first failing read of o throws. */
  predicate IsFirstFault(o: Slots, e: Error) {
    match e
    case IndexOutOfRange(k) =>
      0 <= k < SlotCount && k != 1 && |o| <= k && SoundBelow(o, k)
    case NullValue(k) =>
      0 <= k < |o| && k < SlotCount && IsCastSlot(k) && o[k].Null? && SoundBelow(o, k)
    case CastOverflow(k) =>
      0 <= k < |o| && k < SlotCount && IsCastSlot(k) && o[k].NonNull? && !Castable(o[k])
      && SoundBelow(o, k)
    case _ => false
  }

  /** `observation[slot] ?? 0`. */
  function ReadFloat(o: Slots, slot: nat): (r: Result<real>)
    ensures r.Success? <==> slot < |o|
    ensures r.Success? ==> r.value == o[slot].OrElse(0.0)
    ensures r.Failure? ==> r.error == IndexOutOfRange(slot)
  {
    if slot < |o| then Success(o[slot].OrElse(0.0)) else Failure(IndexOutOfRange(slot))
  }

  /** `(int)observation[slot]`. */
  function ReadInt(o: Slots, slot: nat): (r: Result<int32>)
    ensures r.Success? <==> slot < |o| && Castable(o[slot])
    ensures r.Success? ==> r.value as int == Trunc(o[slot].value)
    ensures r.Failure? && slot >= |o| ==> r.error == IndexOutOfRange(slot)
    ensures r.Failure? && slot < |o| && o[slot].Null? ==> r.error == NullValue(slot)
    ensures r.Failure? && slot < |o| && o[slot].NonNull? ==> r.error == CastOverflow(slot)
  {
    if slot < |o| then CastToInt32(o[slot], slot) else Failure(IndexOutOfRange(slot))
  }

  /** Slots 0 to 5: epoch, wind lull (read from slot 0), wind average, gust,
      direction and sample interval. */
  function ReadWind(o: Slots): (r: Result<(int32, real, real, real, int32, int32)>)
    ensures r.Success? <==> SoundBelow(o, 6)
    ensures r.Success? ==>
      && r.value.0 as int == Trunc(o[0].value) && r.value.1 == o[0].value
      && r.value.2 == o[2].OrElse(0.0) && r.value.3 == o[3].OrElse(0.0)
      && r.value.4 as int == Trunc(o[4].value) && r.value.5 as int == Trunc(o[5].value)
    ensures r.Failure? ==> IsFirstFault(o, r.error) && r.error.index < 6
  {
    var epoch :- ReadInt(o, 0);
    // The wind lull re-reads slot 0, which the line above has just read.
    var windLull := o[0].OrElse(0.0);
    var windAvg :- ReadFloat(o, 2);
    var windGust :- ReadFloat(o, 3);
    var windDirection :- ReadInt(o, 4);
    var windSampleInterval :- ReadInt(o, 5);
    Success((epoch, windLull, windAvg, windGust, windDirection, windSampleInterval))
  }

  /** Slots 6 to 11: pressure, air temperature, relative humidity,
      illuminance, UV and solar radiation. */
  function ReadAtmosphere(o: Slots): (r: Result<(real, real, int32, int32, real, int32)>)
    requires SoundBelow(o, 6)
    ensures r.Success? <==> SoundBelow(o, 12)
    ensures r.Success? ==>
      && r.value.0 == o[6].OrElse(0.0) && r.value.1 == o[7].OrElse(0.0)
      && r.value.2 as int == Trunc(o[8].value) && r.value.3 as int == Trunc(o[9].value)
      && r.value.4 == o[10].OrElse(0.0) && r.value.5 as int == Trunc(o[11].value)
    ensures r.Failure? ==> IsFirstFault(o, r.error) && 6 <= r.error.index < 12
  {
    var pressure :- ReadFloat(o, 6);
    var airTemperature :- ReadFloat(o, 7);
    var relativeHumidity :- ReadInt(o, 8);
    var illuminance :- ReadInt(o, 9);
    var uv :- ReadFloat(o, 10);
    var solarRadiation :- ReadInt(o, 11);
    Success((pressure, airTemperature, relativeHumidity, illuminance, uv, solarRadiation))
  }

  /** Slots 12 to 17: rain accumulation, precipitation type, average strike
      distance, strike count, battery and report interval. */
  function ReadRainAndLightning(o: Slots): (r: Result<(real, int32, int32, int32, real, int32)>)
    requires SoundBelow(o, 12)
    ensures r.Success? <==> SoundBelow(o, 18)
    ensures r.Success? ==>
      && r.value.0 == o[12].OrElse(0.0) && r.value.1 as int == Trunc(o[13].value)
      && r.value.2 as int == Trunc(o[14].value) && r.value.3 as int == Trunc(o[15].value)
      && r.value.4 == o[16].OrElse(0.0) && r.value.5 as int == Trunc(o[17].value)
    ensures r.Failure? ==> IsFirstFault(o, r.error) && 12 <= r.error.index < 18
  {
    var rainAccumulation :- ReadFloat(o, 12);
    var precipitationType :- ReadInt(o, 13);
    var averageStrikeDistance :- ReadInt(o, 14);
    var strikeCount :- ReadInt(o, 15);
    var battery :- ReadFloat(o, 16);
    var reportInterval :- ReadInt(o, 17);
    Success((rainAccumulation, precipitationType, averageStrikeDistance, strikeCount, battery, reportInterval))
  }

  /** Slots 18 to 21: the local-day and final rain accumulations and the
      precipitation analysis type. */
  function ReadRainCheck(o: Slots): (r: Result<(real, real, real, int32)>)
    requires SoundBelow(o, 18)
    ensures r.Success? <==> SoundBelow(o, SlotCount)
    ensures r.Success? ==>
      && r.value.0 == o[18].OrElse(0.0) && r.value.1 == o[19].OrElse(0.0)
      && r.value.2 == o[20].OrElse(0.0) && r.value.3 as int == Trunc(o[21].value)
    ensures r.Failure? ==> IsFirstFault(o, r.error) && 18 <= r.error.index < SlotCount
  {
    var localDayRainAccumulation :- ReadFloat(o, 18);
    var rainAccumulationFinal :- ReadFloat(o, 19);
    var localDayRainAccumulationFinal :- ReadFloat(o, 20);
    var precipitationAnalysisType :- ReadInt(o, 21);
    Success((localDayRainAccumulation, rainAccumulationFinal, localDayRainAccumulationFinal, precipitationAnalysisType))
  }

  /** `new Observation(observation)`: the statements of the constructor in
      order, grouped in four phases. A success is a well-formed array; a
      failure is what the first failing read throws. */
  function Decode(o: Slots): (r: Result<Observation>)
    ensures r.Success? ==> WellFormed(o) && r.value.Valid()
    ensures r.Failure? ==> IsFirstFault(o, r.error)
  {
    var (epoch, windLull, windAvg, windGust, windDirection, windSampleInterval) :- ReadWind(o);
    var (pressure, airTemperature, relativeHumidity, illuminance, uv, solarRadiation) :- ReadAtmosphere(o);
    var (rainAccumulation, precipitationType, averageStrikeDistance, strikeCount, battery, reportInterval)
      :- ReadRainAndLightning(o);
    var (localDayRainAccumulation, rainAccumulationFinal, localDayRainAccumulationFinal, precipitationAnalysisType)
      :- ReadRainCheck(o);
    Success(Observation(
      epoch, windLull, windAvg, windGust, windDirection, windSampleInterval,
      pressure, airTemperature, relativeHumidity, illuminance, uv, solarRadiation,
      rainAccumulation, PrecipitationOf(precipitationType), averageStrikeDistance,
      strikeCount, battery, reportInterval, localDayRainAccumulation,
      rainAccumulationFinal, localDayRainAccumulationFinal,
      PrecipitationAnalysisOf(precipitationAnalysisType)))
  }

  /** The time the observation was taken: its epoch as Unix seconds. */
  function OccuredAt(obs: Observation): (t: Instant)
    ensures t.seconds == obs.epoch as int
  {
    FromEpoch(obs.epoch)
  }
}
