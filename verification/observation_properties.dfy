/** What the observation decoder promises, slot by slot, and its inverse. */
module ObservationProperties {
  import opened Wrappers
  import opened Numeric
  import opened Time
  import opened ObservationDecoder

  /** The accepted arrays, stated without reference to the reading order:
      at least 22 slots, and every integer or enum slot present and within
      the 32-bit range once truncated. */
  lemma WellFormedMeans(o: Slots)
    ensures WellFormed(o) <==>
      |o| >= SlotCount && forall i :: 0 <= i < SlotCount && IsCastSlot(i) ==> Castable(o[i])
  {
  }

  /** The decoder accepts exactly the well-formed arrays. */
  lemma DecodeSucceedsIff(o: Slots)
    ensures Decode(o).Success? <==> WellFormed(o)
  {
  }

  /** An array shorter than 22 slots is always refused. */
  lemma ShortArrayFails(o: Slots)
    requires |o| < SlotCount
    ensures Decode(o).Failure?
  {
  }

  /** An index error is what a too-short array with sound leading slots
      throws, and only such an array: the index is the first missing read,
      |o|, except that a one-slot array fails at index 2 because slot 1 is
      never read. A short array whose present slots are not all sound fails
      earlier, at its first unsound slot. */
  lemma MissingSlotReported(o: Slots, k: int)
    ensures Decode(o) == Failure(IndexOutOfRange(k)) <==>
      |o| < SlotCount && SoundBelow(o, |o|) && k == if |o| == 1 then 2 else |o|
    ensures |o| < SlotCount && !SoundBelow(o, |o|) ==>
      && Decode(o).Failure? && !Decode(o).error.IndexOutOfRange?
      && Decode(o).error.index < |o| && !SlotSound(o, Decode(o).error.index)
  {
  }

  /** The inverse direction: an observation laid back out as a 22-slot array,
      one slot per field in the order of the feed. */
  function Encode(obs: Observation): (o: Slots)
    ensures |o| == SlotCount
    ensures forall i :: 0 <= i < |o| ==> o[i].NonNull?
  {
    [ NonNull(obs.epoch as real), NonNull(obs.windLull), NonNull(obs.windAvg),
      NonNull(obs.windGust), NonNull(obs.windDirection as real),
      NonNull(obs.windSampleInterval as real), NonNull(obs.pressure),
      NonNull(obs.airTemperature), NonNull(obs.relativeHumidity as real),
      NonNull(obs.illuminance as real), NonNull(obs.uv),
      NonNull(obs.solarRadiation as real), NonNull(obs.rainAccumulation),
      NonNull(obs.precipitationType.Code() as real),
      NonNull(obs.averageStrikeDistance as real), NonNull(obs.strikeCount as real),
      NonNull(obs.battery), NonNull(obs.reportInterval as real),
      NonNull(obs.localDayRainAccumulation), NonNull(obs.rainAccumulationFinal),
      NonNull(obs.localDayRainAccumulationFinal),
      NonNull(obs.precipitationAnalysisType.Code() as real) ]
  }

  /** What each slot becomes: a decoded observation, laid back out, holds the
      truncation of every integer and enum slot, every other read slot with
      null replaced by 0, and in slot 1 the raw value of slot 0. */
  lemma DecodedSlots(o: Slots)
    requires Decode(o).Success?
    ensures var e := Encode(Decode(o).value);
      && (forall i :: 0 <= i < SlotCount && IsCastSlot(i) ==> e[i] == NonNull(Trunc(o[i].value) as real))
      && (forall i :: IsFloatSlot(i) ==> e[i] == NonNull(o[i].OrElse(0.0)))
      && e[1] == NonNull(o[0].value)
    ensures var obs := Decode(o).value;
      && obs.epoch as int == Trunc(o[0].value) && obs.windLull == o[0].value
      && obs.windAvg == o[2].OrElse(0.0) && obs.windGust == o[3].OrElse(0.0)
      && obs.windDirection as int == Trunc(o[4].value)
      && obs.windSampleInterval as int == Trunc(o[5].value)
      && obs.pressure == o[6].OrElse(0.0) && obs.airTemperature == o[7].OrElse(0.0)
      && obs.relativeHumidity as int == Trunc(o[8].value)
      && obs.illuminance as int == Trunc(o[9].value)
      && obs.uv == o[10].OrElse(0.0) && obs.solarRadiation as int == Trunc(o[11].value)
      && obs.rainAccumulation == o[12].OrElse(0.0)
      && obs.precipitationType.Code() as int == Trunc(o[13].value)
      && obs.averageStrikeDistance as int == Trunc(o[14].value)
      && obs.strikeCount as int == Trunc(o[15].value)
      && obs.battery == o[16].OrElse(0.0) && obs.reportInterval as int == Trunc(o[17].value)
      && obs.localDayRainAccumulation == o[18].OrElse(0.0)
      && obs.rainAccumulationFinal == o[19].OrElse(0.0)
      && obs.localDayRainAccumulationFinal == o[20].OrElse(0.0)
      && obs.precipitationAnalysisType.Code() as int == Trunc(o[21].value)
  {
  }

  /** The wind-lull quirk: the wind lull is slot 0 itself, the epoch value,
      never the wind lull the feed sends in slot 1; since slot 0 must be
      castable for the decode to succeed, it truncates to the epoch. */
  lemma WindLullIsEpochSlot(o: Slots)
    requires Decode(o).Success?
    ensures Decode(o).value.windLull == o[0].value
    ensures Trunc(Decode(o).value.windLull) == Decode(o).value.epoch as int
  {
  }

  /** Slot 1 never influences the result, neither a success nor an error. */
  lemma IgnoresSlot1(o: Slots, v: Nullable<real>)
    requires |o| > 1
    ensures Decode(o[1 := v]) == Decode(o)
  {
  }

  /** Slots past index 21 never influence the result. */
  lemma IgnoresTail(o: Slots, extra: Slots)
    requires |o| >= SlotCount
    ensures Decode(o + extra) == Decode(o)
  {
  }

  /** A whole number within the 32-bit range is read back unchanged. */
  lemma ReadIntOfWhole(o: Slots, slot: nat, n: int32)
    requires slot < |o| && o[slot] == NonNull(n as real)
    ensures ReadInt(o, slot) == Success(n)
  {
    TruncOfWhole(n as int);
  }

  lemma EncodeReadWind(obs: Observation)
    ensures ReadWind(Encode(obs)) == Success((obs.epoch, obs.epoch as real, obs.windAvg,
      obs.windGust, obs.windDirection, obs.windSampleInterval))
  {
    var e := Encode(obs);
    ReadIntOfWhole(e, 0, obs.epoch);
    ReadIntOfWhole(e, 4, obs.windDirection);
    ReadIntOfWhole(e, 5, obs.windSampleInterval);
  }

  lemma EncodeReadAtmosphere(obs: Observation)
    requires SoundBelow(Encode(obs), 6)
    ensures ReadAtmosphere(Encode(obs)) == Success((obs.pressure, obs.airTemperature,
      obs.relativeHumidity, obs.illuminance, obs.uv, obs.solarRadiation))
  {
    var e := Encode(obs);
    ReadIntOfWhole(e, 8, obs.relativeHumidity);
    ReadIntOfWhole(e, 9, obs.illuminance);
    ReadIntOfWhole(e, 11, obs.solarRadiation);
  }

  lemma EncodeReadRainAndLightning(obs: Observation)
    requires SoundBelow(Encode(obs), 12)
    ensures ReadRainAndLightning(Encode(obs)) == Success((obs.rainAccumulation,
      obs.precipitationType.Code(), obs.averageStrikeDistance, obs.strikeCount, obs.battery,
      obs.reportInterval))
  {
    var e := Encode(obs);
    ReadIntOfWhole(e, 13, obs.precipitationType.Code());
    ReadIntOfWhole(e, 14, obs.averageStrikeDistance);
    ReadIntOfWhole(e, 15, obs.strikeCount);
    ReadIntOfWhole(e, 17, obs.reportInterval);
  }

  lemma EncodeReadRainCheck(obs: Observation)
    requires SoundBelow(Encode(obs), 18)
    ensures ReadRainCheck(Encode(obs)) == Success((obs.localDayRainAccumulation,
      obs.rainAccumulationFinal, obs.localDayRainAccumulationFinal,
      obs.precipitationAnalysisType.Code()))
  {
    ReadIntOfWhole(Encode(obs), 21, obs.precipitationAnalysisType.Code());
  }

  /** Decoding a laid-out observation gives it back, except that the wind
      lull comes back as the epoch. */
  lemma DecodeEncode(obs: Observation)
    requires obs.Valid()
    ensures Decode(Encode(obs)) == Success(obs.(windLull := obs.epoch as real))
  {
    PrecipitationCodeRoundTrip(obs.precipitationType);
    PrecipitationAnalysisCodeRoundTrip(obs.precipitationAnalysisType);
    EncodeReadWind(obs);
    EncodeReadAtmosphere(obs);
    EncodeReadRainAndLightning(obs);
    EncodeReadRainCheck(obs);
  }

  /** Hence the decoder is a left inverse of the layout exactly on the
      observations whose wind lull equals their epoch. */
  lemma DecodeEncodeExact(obs: Observation)
    requires obs.Valid()
    ensures Decode(Encode(obs)) == Success(obs) <==> obs.windLull == obs.epoch as real
  {
    DecodeEncode(obs);
  }

  /** The time of a decoded observation is slot 0, truncated, as Unix seconds. */
  lemma OccuredAtIsSlot0(o: Slots)
    requires Decode(o).Success?
    ensures OccuredAt(Decode(o).value) == UnixTime(Trunc(o[0].value))
  {
  }

  /** The time of a decoded observation depends on slot 0 alone. */
  lemma OccuredAtDependsOnSlot0Only(o: Slots, o': Slots)
    requires Decode(o).Success? && Decode(o').Success?
    requires o[0] == o'[0]
    ensures OccuredAt(Decode(o).value) == OccuredAt(Decode(o').value)
  {
  }

  /** The example array that documents the observation layout. */
  const SampleSlots: Slots := [
    NonNull(1597160776.0), NonNull(1.03), NonNull(1.48), NonNull(1.92), NonNull(27.0),
    NonNull(3.0), NonNull(993.6), NonNull(26.3), NonNull(84.0), NonNull(50991.0),
    NonNull(3.63), NonNull(425.0), NonNull(0.0), NonNull(0.0), NonNull(35.0), NonNull(1.0),
    NonNull(2.61), NonNull(1.0), NonNull(2.307425), Null, Null, NonNull(0.0)]

  lemma SampleDecodes()
    ensures Decode(SampleSlots).Success?
    ensures var obs := Decode(SampleSlots).value;
      && obs.epoch == 1597160776 && obs.airTemperature == 26.3
      && obs.relativeHumidity == 84 && obs.illuminance == 50991
      && obs.solarRadiation == 425 && obs.precipitationType == Precipitation.None
      && obs.rainAccumulationFinal == 0.0 && obs.localDayRainAccumulationFinal == 0.0
      && obs.windLull == 1597160776.0
  {
  }
}
