# WeatherFlow websocket decoding, modelled in Dafny

A model of the message-decoding layer of a .NET client for the WeatherFlow
Smart Weather websocket feed. The feed sends JSON frames that share a `type`
discriminator. The model covers five things:

- **The observation decoder.** `new Observation(List<double?>)` unpacks the
  22-slot `obs_st` array into named fields. It casts integer and enum slots
  and defaults null float slots to 0. It reads wind lull from slot 0, not
  slot 1.
- **The event records.** `evt_strike` and `evt_precip` have derived
  accessors: `OccuredAt`, `Distance`, `Energy` and `Unknown` are indexed
  reads of the `evt` array.
- **The two `obs_st` shapes.** A status message and a summary message each
  expose `FirstObservation`, the decode of `obs[0]`.
- **Routing in detailed mode.** Each handler takes a frame whose text is not
  null and contains its quoted tag. An `obs_st` frame is labelled Status or
  Summary, and an acknowledgement is labelled station or device by its `id`.
- **The four listen commands.** `listen_start`, `listen_stop`,
  `listen_start_events` and `listen_stop_events` carry the target id as a
  number and as decimal text. On each reconnection and on exit, the device
  command is sent before the station command.

How the model represents the C# program:

- A C# `null` is `Wrappers.Nullable`.
- "Returns a value or throws" is `Wrappers.Result`, with one `Error` per
  cause.
- `double` is `real`.
- `int` is the newtype `Numeric.int32`.
- `(int)` is truncation toward zero (`Numeric.Trunc`).
- A parsed frame is its text plus a `JsonValues.Json` document.

Deserialisation binds a record from the document by these rules:

- a missing member leaves the default: null, or 0 for a number;
- JSON null gives null to a reference or nullable property;
- a value of the wrong kind throws (`SchemaMismatch`).

Three behaviours of the code are kept exactly as written:

- Wind lull is read from slot 0, the epoch, and never from slot 1. The
  lemmas `WindLullIsEpochSlot`, `IgnoresSlot1` and `DecodeEncode` state this.
- An `obs_st` frame is always read as a status message first. It is read as
  a summary message only when that status came out null. The presence of
  `status` is not used to choose the shape up front.
- A frame goes to a handler when its text contains the quoted tag. Its
  `type` member plays no part, so one frame can reach several handlers.

The derived accessors (`OccuredAt`, `Distance`, `Energy`, `Unknown`,
`FirstObservation`) are pure functions of their record, so they cannot
change the record's array or its other fields.

Modules, leaves first:

- `Wrappers`, `Numeric`, `Time`, `Decimal`, `Text` and `JsonValues` hold the
  shared vocabulary;
- `ObservationDecoder` and `ObservationProperties` cover the observation
  decoder;
- `Records`, `ObsStMessages` and `ObsStSamples` cover the plain records and
  the `obs_st` shapes;
- `LightningStrike` and `RainStart` cover the event records;
- `Routing` covers frame routing and the handlers;
- `Commands` covers the outbound commands and ack correlation.

## Model

| member | source | states |
|---|---|---|
| Wrappers.ItemAt | DotNetWeatherFlowTempestAPIWebsocketExample/LightningStrikeEvent.cs:66-81 | Indexing a list succeeds exactly when the list is non-null and the index is in range, and then gives that element. A null list throws a null reference error. An index past the end throws an out-of-range error naming the index. |
| Wrappers.MapAll | DotNetWeatherFlowTempestAPIWebsocketExample/StatusMessage.cs:59-60 | Binding a JSON array element by element succeeds exactly when every element binds. The result then has the same length, with each element's binding in order. A failure is the error of the first element that fails; every element before it binds. |
| Numeric.Trunc | DotNetWeatherFlowTempestAPIWebsocketExample/Observation.cs:20 | The `(int)` cast of a double rounds toward zero. It is the largest integer at or below a non-negative value, and the smallest at or above a negative one. |
| Numeric.TruncOfWhole | DotNetWeatherFlowTempestAPIWebsocketExample/Observation.cs:24 | Casting a whole number leaves it unchanged. |
| Numeric.CastToInt32 | DotNetWeatherFlowTempestAPIWebsocketExample/Observation.cs:24 | Casting a `double?` slot succeeds exactly when it is non-null and its truncation fits 32 bits, and then gives that truncation. A null slot throws a null-value error naming the slot. |
| Time.FromUnixTimeSeconds | DotNetWeatherFlowTempestAPIWebsocketExample/RainStartEvent.cs:62 | A Unix time converts exactly when it lies in the years 1 to 9999, and keeps its seconds. Otherwise it throws an out-of-range error. |
| Time.FromEpoch | DotNetWeatherFlowTempestAPIWebsocketExample/RainStartEvent.cs:54-62 | Every 32-bit epoch is inside the supported range, so converting it never throws and never rounds. |
| ObservationDecoder.PrecipitationOf | DotNetWeatherFlowTempestAPIWebsocketExample/Observation.cs:163-168 | Codes 0, 1 and 2 give None, Rain and Hail, each in both directions. Any other code passes through unrejected and keeps its value. |
| ObservationDecoder.PrecipitationCodeRoundTrip | DotNetWeatherFlowTempestAPIWebsocketExample/Observation.cs:163-168 | Reading a precipitation value's code back gives the value. |
| ObservationDecoder.PrecipitationAnalysisOf | DotNetWeatherFlowTempestAPIWebsocketExample/Observation.cs:173-178 | Codes 0, 1 and 2 give None, RainCheckWithUserDisplayOn and RainCheckWithUserDisplayOff, each in both directions. Other codes pass through unrejected. |
| ObservationDecoder.PrecipitationAnalysisCodeRoundTrip | DotNetWeatherFlowTempestAPIWebsocketExample/Observation.cs:173-178 | Reading an analysis type's code back gives the type. |
| ObservationDecoder.ReadFloat | DotNetWeatherFlowTempestAPIWebsocketExample/Observation.cs:22 | A float slot reads as its value, or as 0 when null. It throws only when the list is too short. |
| ObservationDecoder.ReadInt | DotNetWeatherFlowTempestAPIWebsocketExample/Observation.cs:24 | An integer slot reads as the truncation of its value. A missing slot, a null slot and an out-of-range value each throw their own error naming the slot. |
| ObservationDecoder.ReadWind | DotNetWeatherFlowTempestAPIWebsocketExample/Observation.cs:20-25 | Reading slots 0 to 5 succeeds exactly when those reads are sound. The epoch, direction and sample interval are then the truncations of slots 0, 4 and 5. The wind lull is slot 0 itself. Average and gust are slots 2 and 3, or 0 where null. A failure is the first read that fails, at a slot below 6. |
| ObservationDecoder.ReadAtmosphere | DotNetWeatherFlowTempestAPIWebsocketExample/Observation.cs:26-31 | Given sound slots 0 to 5, reading slots 6 to 11 succeeds exactly when those reads are sound. Humidity, illuminance and solar radiation are then the truncations of slots 8, 9 and 11. Pressure, temperature and UV are slots 6, 7 and 10, or 0 where null. A failure is the first read that fails, at a slot from 6 to 11. |
| ObservationDecoder.ReadRainAndLightning | DotNetWeatherFlowTempestAPIWebsocketExample/Observation.cs:32-37 | Given sound slots below 12, reading slots 12 to 17 succeeds exactly when those reads are sound. The precipitation code, strike distance, strike count and report interval are then the truncations of slots 13, 14, 15 and 17. Rain accumulation and battery are slots 12 and 16, or 0 where null. A failure is the first read that fails, at a slot from 12 to 17. |
| ObservationDecoder.ReadRainCheck | DotNetWeatherFlowTempestAPIWebsocketExample/Observation.cs:38-41 | Given sound slots below 18, reading slots 18 to 21 succeeds exactly when those reads are sound. The analysis code is then the truncation of slot 21. The three accumulations are slots 18 to 20, or 0 where null. A failure is the first read that fails, at a slot from 18 to 21. |
| ObservationDecoder.Decode | DotNetWeatherFlowTempestAPIWebsocketExample/Observation.cs:18-42 | A decoded array is well-formed: 22 slots, every cast slot present and in range. Both enums come out as proper values. A failure is exactly the exception of the first failing statement of the constructor. |
| ObservationDecoder.OccuredAt | DotNetWeatherFlowTempestAPIWebsocketExample/Observation.cs:52 | The time of an observation is its epoch read as Unix seconds. |
| ObservationProperties.WellFormedMeans | DotNetWeatherFlowTempestAPIWebsocketExample/Observation.cs:18-42 | An array is well-formed exactly when it has at least 22 slots and each integer or enum slot (0, 4, 5, 8, 9, 11, 13, 14, 15, 17, 21) is non-null and castable. |
| ObservationProperties.DecodeSucceedsIff | DotNetWeatherFlowTempestAPIWebsocketExample/Observation.cs:18-42 | The decode succeeds if and only if the array is well-formed. |
| ObservationProperties.ShortArrayFails | DotNetWeatherFlowTempestAPIWebsocketExample/Observation.cs:18-41 | An array of fewer than 22 slots always fails. |
| ObservationProperties.MissingSlotReported | DotNetWeatherFlowTempestAPIWebsocketExample/Observation.cs:20-41 | The decode throws an index error exactly when the array is shorter than 22 slots and its present slots are sound. The index is then the first missing read: the array's length, or 2 for a one-slot array, because slot 1 is never read. A short array with an unsound present slot fails earlier, with a null or overflow error at that slot. |
| ObservationProperties.DecodedSlots | DotNetWeatherFlowTempestAPIWebsocketExample/Observation.cs:20-41 | After a successful decode, each field is stated from its slot. Epoch, direction, sample interval, humidity, illuminance, solar radiation, strike distance, strike count, report interval and both enum codes are the truncations of their slots. The wind lull is slot 0. Every other field is its slot, or 0 where null. The same holds slot by slot for the array laid back out. |
| ObservationProperties.WindLullIsEpochSlot | DotNetWeatherFlowTempestAPIWebsocketExample/Observation.cs:20-21 | The decoded wind lull is the value of slot 0, and it truncates to the epoch. |
| ObservationProperties.IgnoresSlot1 | DotNetWeatherFlowTempestAPIWebsocketExample/Observation.cs:20-22 | Changing slot 1 to anything, null included, never changes the decode's result or error. |
| ObservationProperties.IgnoresTail | DotNetWeatherFlowTempestAPIWebsocketExample/Observation.cs:18-41 | Slots past index 21 never change the decode's result or error. |
| ObservationProperties.Encode | DotNetWeatherFlowTempestAPIWebsocketExample/Observation.cs:18-41 | The inverse layout, used for the round trip: a 22-slot array with every slot present, each field in its feed slot. The wind lull goes to slot 1, which the constructor never reads. That is why `DecodeEncode` recovers it only as the epoch. |
| ObservationProperties.DecodeEncode | DotNetWeatherFlowTempestAPIWebsocketExample/Observation.cs:18-41 | Laying an observation out and decoding it gives the observation back, except that the wind lull becomes the epoch. |
| ObservationProperties.DecodeEncodeExact | DotNetWeatherFlowTempestAPIWebsocketExample/Observation.cs:20-21 | The round trip is exact if and only if the wind lull already equals the epoch. |
| ObservationProperties.OccuredAtIsSlot0 | DotNetWeatherFlowTempestAPIWebsocketExample/Observation.cs:47-52 | A decoded observation's time is the truncation of slot 0 as Unix seconds. |
| ObservationProperties.OccuredAtDependsOnSlot0Only | DotNetWeatherFlowTempestAPIWebsocketExample/Observation.cs:52 | Two decoded arrays that agree on slot 0 have the same time, whatever their other slots hold. |
| ObservationProperties.SampleDecodes | DotNetWeatherFlowTempestAPIWebsocketExample/Observation.cs:11 | The documented array decodes with: epoch 1597160776; air temperature 26.3; humidity 84; illuminance 50991; solar radiation 425; precipitation None; both final accumulations 0 (from nulls). |
| JsonValues.AsObject | DotNetWeatherFlowTempestAPIWebsocketExample/Program.cs:163 | A document binds to a record only when it is an object. The JSON literal null gives a null record, whose use throws a null reference error. |
| JsonValues.ReadString | DotNetWeatherFlowTempestAPIWebsocketExample/StatusMessage.cs:35-36 | A string property is null exactly when the member is missing or null. Otherwise it is the member's text, and any other kind throws naming the member. |
| JsonValues.ReadInt32 | DotNetWeatherFlowTempestAPIWebsocketExample/StatusMessage.cs:25-26 | An int property is 0 when the member is missing. Otherwise it is the member's number, which must be a whole number within 32 bits, or the read throws naming the member. A JSON null throws too. |
| JsonValues.ReadDouble | DotNetWeatherFlowTempestAPIWebsocketExample/Summary.cs:34-35 | A double property is 0 when the member is missing. Otherwise it is the member's number, and any other kind throws. |
| JsonValues.ReadInt32List | DotNetWeatherFlowTempestAPIWebsocketExample/LightningStrikeEvent.cs:45-46 | A `List<int>` is null exactly when the member is missing or null. It binds exactly when every item is a whole 32-bit number. It then has one element per array item, each equal to that item's number. |
| JsonValues.ReadNumberRows | DotNetWeatherFlowTempestAPIWebsocketExample/StatusMessage.cs:59-60 | A `List<List<double?>>` is null exactly when the member is missing or null. Otherwise it has one row per array item, each that item bound as a row. |
| JsonValues.NumberRowOfCells | DotNetWeatherFlowTempestAPIWebsocketExample/StatusMessage.cs:57-60 | A row of numbers and nulls binds to the same-length row of present and absent values. |
| Records.StatusFromMembers | DotNetWeatherFlowTempestAPIWebsocketExample/Status.cs:19-29 | A status binds exactly when its code and message both bind. Its code is then the `status_code` number, or 0 when missing. Its message is the `status_message` text, or null when missing or null. |
| Records.ReadStatus | DotNetWeatherFlowTempestAPIWebsocketExample/StatusMessage.cs:19-20 | The status is null exactly when the `status` member is missing or null. An object member binds exactly when its code and message do, and the status then holds them. A non-object status throws naming the member. |
| Records.SummaryFromMembers | DotNetWeatherFlowTempestAPIWebsocketExample/Summary.cs:16-83 | A summary binds exactly when each of its twelve members fits its property. Each property then holds its member's value: the text or null for the trend, the number or 0 for the counts and amounts. |
| Records.ReadSummary | DotNetWeatherFlowTempestAPIWebsocketExample/StatusMessage.cs:50-51 | The summary is null exactly when the member is missing or null. An object member binds exactly when each of its twelve members fits its property, and each property then holds its member's value. A non-object summary throws. |
| Records.DecodeAcknowledgement | DotNetWeatherFlowTempestAPIWebsocketExample/Acknowledgement.cs:13-20 | An acknowledgement binds exactly when the document is an object whose `type` and `id` bind. Each of its type and id is then null exactly when the member is missing or null, and otherwise the member's text. |
| ObsStMessages.FirstOf | DotNetWeatherFlowTempestAPIWebsocketExample/StatusMessage.cs:65 | `new Observation(Observations[0])`: a null list and a null first row throw a null reference error. An empty list throws an out-of-range error at 0. Otherwise it is the decode of the first row. |
| ObsStMessages.StatusFirstObservation | DotNetWeatherFlowTempestAPIWebsocketExample/StatusMessage.cs:65 | The first observation exists if and only if the first row exists and is well-formed. It is then that row decoded. |
| ObsStMessages.SummaryFirstObservation | DotNetWeatherFlowTempestAPIWebsocketExample/SummaryMessage.cs:76 | The same for the summary shape: it exists if and only if the first row exists and is well-formed, and is then that row decoded. |
| ObsStMessages.FirstOfIgnoresLaterRows | DotNetWeatherFlowTempestAPIWebsocketExample/StatusMessage.cs:65 | Rows after the first never change the first observation. |
| ObsStMessages.DecodeStatusMessage | DotNetWeatherFlowTempestAPIWebsocketExample/StatusMessage.cs:14-60 | A status message binds exactly when the document is an object whose `status`, `device_id`, `type`, `source`, `summary` and `obs` members all fit. Each property then holds its member's value. The status is non-null exactly when the frame has a non-null `status`. |
| ObsStMessages.MissingStatusIsNull | DotNetWeatherFlowTempestAPIWebsocketExample/StatusMessage.cs:19-20 | A frame with no `status` value binds as a status message whenever its other members fit, and its status is then null. |
| ObsStMessages.DecodeSummaryMessage | DotNetWeatherFlowTempestAPIWebsocketExample/SummaryMessage.cs:14-71 | A summary message binds exactly when the document is an object whose eight mapped members all fit. Each property then holds its member's value, with missing strings null and missing numbers 0. |
| ObsStMessages.SummaryIgnoresStatus | DotNetWeatherFlowTempestAPIWebsocketExample/SummaryMessage.cs:14-71 | The summary shape has no status: removing a `status` member, whatever it holds, never changes the decode. |
| ObsStSamples.WrittenRowBinds | DotNetWeatherFlowTempestAPIWebsocketExample/StatusMessage.cs:59-60 | A row of slots written out as JSON binds back to the same slots. |
| ObsStSamples.SingleRowBinds | DotNetWeatherFlowTempestAPIWebsocketExample/StatusMessage.cs:57-60 | An `obs` member holding one row binds to a one-row list. |
| ObsStSamples.SampleSummaryDecodes | DotNetWeatherFlowTempestAPIWebsocketExample/StatusMessage.cs:12 | The documented summary object binds. |
| ObsStSamples.StatusSlotsDecode | DotNetWeatherFlowTempestAPIWebsocketExample/StatusMessage.cs:57 | The documented status row decodes with: wind lull 1597160656 (the slot-0 value, not 0.54); air temperature 26.2; humidity 84; strike distance 37; strike count 1. |
| ObsStSamples.SummarySlotsDecode | DotNetWeatherFlowTempestAPIWebsocketExample/SummaryMessage.cs:12 | The documented summary row decodes with: epoch 1597160716; wind direction 40; strike distance 0; strike count 0. |
| ObsStSamples.StatusFrameReads | DotNetWeatherFlowTempestAPIWebsocketExample/StatusMessage.cs:12 | In the documented status frame: status (0, "SUCCESS"); device id 79424; type "obs_st"; source "cache". |
| ObsStSamples.StatusRowWritten | DotNetWeatherFlowTempestAPIWebsocketExample/StatusMessage.cs:57 | The documented status row is the JSON form of the expected slots. |
| ObsStSamples.StatusFrameRows | DotNetWeatherFlowTempestAPIWebsocketExample/StatusMessage.cs:57 | The documented status frame's `obs` binds to exactly its one row. |
| ObsStSamples.SampleStatusMessage | DotNetWeatherFlowTempestAPIWebsocketExample/StatusMessage.cs:12 | The documented status frame decodes to: status (0, "SUCCESS"); device 79424; source "cache". Its first observation has wind lull 1597160656, air temperature 26.2, humidity 84, strike distance 37 and strike count 1. |
| ObsStSamples.SummaryFrameReads | DotNetWeatherFlowTempestAPIWebsocketExample/SummaryMessage.cs:12 | In the documented summary frame: serial "ST-00012575"; hub "HB-00028109"; type "obs_st"; source "mqtt"; device 79424; firmware 134. |
| ObsStSamples.SummaryRowWritten | DotNetWeatherFlowTempestAPIWebsocketExample/SummaryMessage.cs:12 | The documented summary row is the JSON form of the expected slots. |
| ObsStSamples.SummaryFrameRows | DotNetWeatherFlowTempestAPIWebsocketExample/SummaryMessage.cs:12 | The documented summary frame's `obs` binds to exactly its one row. |
| ObsStSamples.SampleSummaryMessage | DotNetWeatherFlowTempestAPIWebsocketExample/SummaryMessage.cs:12 | The documented summary frame decodes to: serial "ST-00012575"; hub "HB-00028109"; device 79424; firmware 134; source "mqtt". Its first observation has epoch 1597160716, wind direction 40, strike distance 0 and strike count 0. |
| LightningStrike.OccuredAt | DotNetWeatherFlowTempestAPIWebsocketExample/LightningStrikeEvent.cs:66 | The strike time exists exactly when the array has at least one element, and is element 0 as Unix seconds, as `FromUnixTimeSeconds` gives it. A null array throws a null reference error, and an empty one an out-of-range error at 0. |
| LightningStrike.Distance | DotNetWeatherFlowTempestAPIWebsocketExample/LightningStrikeEvent.cs:71 | The distance exists exactly when the array has at least two elements, and is element 1. A null array throws a null reference error, and a shorter one an out-of-range error at 1. |
| LightningStrike.Energy | DotNetWeatherFlowTempestAPIWebsocketExample/LightningStrikeEvent.cs:76 | The energy exists exactly when the array has at least three elements, and is element 2. A null array throws a null reference error, and a shorter one an out-of-range error at 2. |
| LightningStrike.Unknown | DotNetWeatherFlowTempestAPIWebsocketExample/LightningStrikeEvent.cs:81 | The fourth value exists exactly when the array has at least four elements, and is element 3. A null array throws a null reference error, and a shorter one an out-of-range error at 3. |
| LightningStrike.OccuredAtDependsOnFirstOnly | DotNetWeatherFlowTempestAPIWebsocketExample/LightningStrikeEvent.cs:66 | Two strikes whose arrays agree on element 0 have the same time. |
| LightningStrike.AccessorsCoverArray | DotNetWeatherFlowTempestAPIWebsocketExample/LightningStrikeEvent.cs:66-81 | A four-element array is exactly its time, distance, energy and unknown value, in that order. |
| LightningStrike.DecodeLightningStrikeEvent | DotNetWeatherFlowTempestAPIWebsocketExample/LightningStrikeEvent.cs:15-61 | A strike binds exactly when the document is an object whose six mapped members all fit. Each property then holds its member's value. The array is `evt` bound as a `List<int>`, and is null exactly when `evt` is missing or null. |
| LightningStrike.SampleStrike | DotNetWeatherFlowTempestAPIWebsocketExample/LightningStrikeEvent.cs:39-43 | For `evt` [1597165492, 42, -1714, 1]: time 1597165492; distance 42; energy -1714 (a negative energy is kept); unknown 1. |
| RainStart.OccuredAt | DotNetWeatherFlowTempestAPIWebsocketExample/RainStartEvent.cs:62 | The start time exists exactly when the array is non-null and non-empty, and is element 0 as Unix seconds with no rounding. A null array throws a null reference error. An empty array throws an out-of-range error at 0. |
| RainStart.OccuredAtIgnoresLater | DotNetWeatherFlowTempestAPIWebsocketExample/RainStartEvent.cs:62 | Elements after the first never change the start time. |
| RainStart.DecodeRainStartEvent | DotNetWeatherFlowTempestAPIWebsocketExample/RainStartEvent.cs:15-57 | A rain start binds exactly when the document is an object whose six mapped members all fit. Each property then holds its member's value. The array is `evt` bound as a `List<int>`, and is null exactly when `evt` is missing or null. |
| RainStart.SampleRainStart | DotNetWeatherFlowTempestAPIWebsocketExample/RainStartEvent.cs:54-62 | For `evt` [1597166429], the start time is Unix time 1597166429. |
| Text.Contains | DotNetWeatherFlowTempestAPIWebsocketExample/Program.cs:147 | `string.Contains` holds exactly when the pattern occurs at some position of the text. |
| Text.ContainsInContext | DotNetWeatherFlowTempestAPIWebsocketExample/Program.cs:157 | Text placed before and after an occurrence keeps it. |
| Decimal.NatToDecimal | DotNetWeatherFlowTempestAPIWebsocketExample/Program.cs:109 | The decimal text of a natural number is non-empty and all digits, with no leading zero unless the number is 0. |
| Decimal.IntToDecimal | DotNetWeatherFlowTempestAPIWebsocketExample/Program.cs:109 | `int.ToString()` is non-empty. It starts with "-" exactly for negative numbers, and is otherwise all digits. It is canonical: no leading zero, and zero is "0", never "-0". |
| Decimal.ParseDecimal | DotNetWeatherFlowTempestAPIWebsocketExample/Program.cs:109 | The inverse of `ToString`, used to state what an id carries: it succeeds exactly on an optional "-" followed by one or more digits. |
| Decimal.DigitsOfNat | DotNetWeatherFlowTempestAPIWebsocketExample/Program.cs:109 | The digits of a natural number's text add up to the number. |
| Decimal.ParseRendered | DotNetWeatherFlowTempestAPIWebsocketExample/Program.cs:109 | Parsing the decimal text of any integer gives the integer back. |
| Decimal.RenderInjective | DotNetWeatherFlowTempestAPIWebsocketExample/Program.cs:165 | Two integers have the same decimal text if and only if they are equal. |
| Routing.TagNameInjective | DotNetWeatherFlowTempestAPIWebsocketExample/Program.cs:145-245 | The seven handler tags are distinct. |
| Routing.Accepts | DotNetWeatherFlowTempestAPIWebsocketExample/Program.cs:146-147 | The filter in front of each handler takes a frame exactly when its text is non-null and the quoted tag occurs at some position of it. |
| Routing.EveryTagSubscribed | DotNetWeatherFlowTempestAPIWebsocketExample/Program.cs:145-245 | Every tag has a subscribed handler. |
| Routing.RouteAmong | DotNetWeatherFlowTempestAPIWebsocketExample/Program.cs:145-245 | Among a list of handlers, a frame reaches exactly those whose filter takes it. A list without repeats gives a result without repeats, and null text reaches none. |
| Routing.Route | DotNetWeatherFlowTempestAPIWebsocketExample/Program.cs:145-245 | A frame reaches the handler for a tag if and only if its text is non-null and contains the quoted tag. Each handler is reached at most once, and a frame with null text reaches none. |
| Routing.ReachesIffQuotedTag | DotNetWeatherFlowTempestAPIWebsocketExample/Program.cs:155-157 | A frame reaches a handler if and only if the quoted tag occurs at some position of its non-null text. |
| Routing.RoutingNotExclusive | DotNetWeatherFlowTempestAPIWebsocketExample/Program.cs:155-171 | Routing is not exclusive: an acknowledgement whose text also holds "obs_st" reaches both the ack handler and the `obs_st` handler. |
| Routing.AckLabelOf | DotNetWeatherFlowTempestAPIWebsocketExample/Program.cs:163-166 | An ack is labelled only when it binds with a non-null id. A missing or null id throws a null reference error. The label is station if and only if the id is the decimal text of the station id, and device otherwise. |
| Routing.ObsStLabelOf | DotNetWeatherFlowTempestAPIWebsocketExample/Program.cs:179-183 | Every object frame gets a label before any typed decode, whether or not those decodes later throw. The label is Status exactly when a `status` value is present. A non-object document gets none. |
| Routing.HandleObsSt | DotNetWeatherFlowTempestAPIWebsocketExample/Program.cs:179-198 | Handling an `obs_st` frame succeeds exactly when the status decode succeeds, and, if that status is null, the summary decode succeeds too. Its label is the one `ObsStLabelOf` logs first, so it agrees with the typed status. The summary decode is used exactly when the typed status is null. |
| Routing.HandleStrike | DotNetWeatherFlowTempestAPIWebsocketExample/Program.cs:209-211 | The strike handler logs a time exactly when the frame binds with a non-empty array, and the time is element 0. |
| Routing.HandlePrecip | DotNetWeatherFlowTempestAPIWebsocketExample/Program.cs:222-224 | The rain handler logs a time exactly when the frame binds with a non-null, non-empty array, and the time is element 0. |
| Commands.ListenCommand | DotNetWeatherFlowTempestAPIWebsocketExample/Program.cs:105-119 | A listen command carries its kind and target. Its id is the target's canonical decimal text, the same text the ack handler compares with, and parsing it gives the target back. |
| Commands.IdIdentifiesTarget | DotNetWeatherFlowTempestAPIWebsocketExample/Program.cs:105-119 | Two commands of one kind have the same id if and only if they have the same target. |
| Commands.KindOf | DotNetWeatherFlowTempestAPIWebsocketExample/Program.cs:107 | A type name is read back as the command type of that name. A name no command type has is refused. |
| Commands.FromJson | DotNetWeatherFlowTempestAPIWebsocketExample/Program.cs:252-258 | The receiver-side reader of a command document, used only as the inverse of `ToJson` for the round trip. The command read has the document's type name and id. |
| Commands.ToJson | DotNetWeatherFlowTempestAPIWebsocketExample/Program.cs:105-119 | The document written for a command has exactly three members: `type` with the command's type name, `id` with its id, and the target. The target is `station_id` for the two `_events` commands and `device_id` for the others. |
| Commands.FromToJson | DotNetWeatherFlowTempestAPIWebsocketExample/Program.cs:112 | A command written as the document the serialiser produces reads back as the same command. |
| Commands.OnReconnect | DotNetWeatherFlowTempestAPIWebsocketExample/Program.cs:101-122 | On reconnection, two commands are appended and everything sent before is kept. The first is `listen_start` for the device; the second is `listen_start_events` for the station. |
| Commands.OnExit | DotNetWeatherFlowTempestAPIWebsocketExample/Program.cs:252-268 | On exit, two commands are appended and everything sent before is kept. The first is `listen_stop` for the device; the second is `listen_stop_events` for the station. |
| Commands.AppendPair | DotNetWeatherFlowTempestAPIWebsocketExample/Program.cs:252-268 | Appending a device command followed by its station command keeps the sent log paired. |
| Commands.AppendEvent | DotNetWeatherFlowTempestAPIWebsocketExample/Program.cs:101-268 | Appending the two commands of one more reconnection or exit extends the sent log event by event. |
| Commands.Sent | DotNetWeatherFlowTempestAPIWebsocketExample/Program.cs:101-268 | With each event's two sends taken as one step (see "Left out"), the log has two commands per event, in event order. A reconnection sends `listen_start` for the device and then `listen_start_events` for the station. An exit sends `listen_stop` and then `listen_stop_events`. |
| Commands.SentDeviceBeforeStation | DotNetWeatherFlowTempestAPIWebsocketExample/Program.cs:101-268 | With each event's two sends taken as one step, after any sequence of reconnections and exits the log has two commands per event. At each even position is a device command, and right after it is the station command of the same phase. |
| Commands.StationAckIsStation | DotNetWeatherFlowTempestAPIWebsocketExample/Program.cs:114-165 | The acknowledgement echoing a station command's id is labelled station. |
| Commands.DeviceAckIsDevice | DotNetWeatherFlowTempestAPIWebsocketExample/Program.cs:105-165 | The acknowledgement echoing a device command's id is labelled device if and only if the device id differs from the station id. |
| Commands.AckReachesAckHandler | DotNetWeatherFlowTempestAPIWebsocketExample/Program.cs:155-157 | The acknowledgement frame for a command reaches the ack handler. |

## Left out

- Configuration loading, environment detection, user secrets and dependency
  injection (Program.cs:47-89) are not modelled. The station and device ids
  are parameters instead.
- The websocket transport (Program.cs:92-124, 248) is not modelled: the
  client, its reconnection timeout, `Start` and `Send`. Sending is modelled
  as appending a command to the sent log (`Commands.Sent`).
- Commands.Sent: each reconnection's or exit's two sends are treated as
  one atomic step. In the program, the reconnection handler runs on the
  websocket client's thread and the exit sends run on the main thread, with
  no lock between them. `Start` is not awaited, either. So an early exit can
  interleave with a reconnection's pair, and a log such as `listen_start,
  listen_stop, listen_start_events, listen_stop_events` is possible. Within
  one event the device command still precedes the station command; the
  strict pairing that `SentDeviceBeforeStation` proves holds only for
  sessions whose sends do not interleave.
- The Rx scheduling (`ObserveOn`, `Synchronize`) is not modelled. Routing is
  a pure function of one frame. The order in which handlers run, and their
  interleaving across threads, are not modelled.
- Console input and output are not modelled: the key-wait loop and the log
  lines. The "simple" mode (Program.cs:130-135) is left out because it only
  prints each frame. The `connection_opened`, `evt_station_online` and
  `evt_station_offline` handlers only print, so only their routing is
  modelled.
- JSON text parsing and writing are not modelled. A frame carries its text
  (used for routing) and the document that text holds (used for binding).
  The model does not check that the two agree. A command is modelled as the
  document the serialiser writes; the text layout is not modelled.
- The untyped `dynamic` view of an `obs_st` frame is modelled only through
  its `status` test. A present status that is not JSON null counts as
  non-null.
- Which error a failed binding reports is the model's own choice.
  Properties are read in declaration order and the first misfit is
  reported, so `DecodeStatusMessage` names `status` even when an earlier
  member of the document is also wrong. System.Text.Json instead throws at
  the first misfit in document order, and a JSON object has no member order
  here. What agrees with the source is *whether* binding throws: each
  decoder succeeds exactly when every member fits.
- Binding treats every number as a mathematical real. IEEE-754 rounding of
  `double` is not modelled.
- JsonValues.ReadInt32: accepts any JSON number whose value is a whole
  32-bit integer. System.Text.Json also refuses an `int` member written with
  a fraction or an exponent (`84.0`, `1e2`). The document here holds values,
  not number text, so that case is not modelled.
- JsonValues.ReadInt32List: the same for each item of a `List<int>`. An
  item written `84.0` binds here, though System.Text.Json refuses it.
- Decimal.IntToDecimal: uses "-" as the negative sign. `int.ToString()`
  uses the current culture's negative sign, so under a culture with another
  sign a negative id is written differently. Only negative ids are
  affected.
- Numeric.CastToInt32: a cast whose truncated value falls outside 32 bits
  is modelled as an error (`CastOverflow`). In C# the result is unspecified,
  so no particular wrapped value is promised.
- Time.FromUnixTimeSeconds: keeps only the seconds. The calendar breakdown
  into a `DateTime` is not modelled.
- Summary.cs, Status.cs and Acknowledgement.cs are plain records. They
  appear only as datatypes bound from JSON.
