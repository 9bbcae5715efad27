# Smart greenhouse decision engine: a Dafny model

This project models the decision core of a greenhouse monitor. Sensor
readings report temperature, humidity, soil moisture and light. Each
crop has an ordered list of growth stages, and each stage has its own
tolerance bands. The system switches three actuators (pump, fan, light)
on or off.

The model covers three parts:

- **The rule engine** (`server/decisionEngine.ts`), module `DecisionEngine`:
  - The growth-stage walk over the stage list.
  - The three threshold rules: soil moisture drives the pump; temperature then humidity drives the fan; a fixed light threshold of 5000 drives the light.
  - The change detector.
- **The `decision.makeDecision` mutation** (`server/routers.ts`), module `DecisionStep`. It is a pure step over an abstract store that holds greenhouses, latest readings, crops, actuator rows and an append-only decision log. It covers:
  - the configuration checks and their early returns;
  - the day count since planting;
  - the engine call;
  - the actuator writes, which happen only in AUTO mode and only when the state differs;
  - the three log entries.
- **The pure parts of the device router** (`server/routers/esp32.ts`), module `Esp32`:
  - ingestion range validation and the timestamp fallback;
  - the inclusive time-range filter;
  - the min/max/average statistics;
  - the fold from actuator rows to device commands.

`Schema` holds the database row types (`drizzle/schema.ts`). `Wrappers` holds `Option` and `Result`.

Modelling conventions:

- Sensor temperature is the stored integer: degrees Celsius × 100. The engine's `temperature / 100` is `Celsius`, an exact real division, and the rule bodies and `ReasonHolds` compare over reals through it. The rule contracts state the same comparisons over integers: `temperature / 100 > tempMax` is `temperature > 100 * tempMax`.
- Stage thresholds and durations are integers, as in all the crop data.
- Reasons are structured values, not strings. A reason records which comparison fired, the numbers it cites, and the crop and stage where the message names them.
- The clock (`Date.now()`) is a `now` parameter. Ids assigned by the database are a parameter too.
- The greenhouse lookup in `makeDecision` goes through the user-id keyed lookup with the greenhouse id, as the code does.

Points where the code may surprise a reader; the model follows the code:

- The fan and pump bands are inclusive at both ends. A value equal to a bound is "within range".
- A `selectedCropId` of 0 counts as "not configured", because 0 is falsy.
- A crop with an empty stage list makes the engine throw (`undefined.name`). The throw happens before any actuator or log write. `DecisionStep.MakeDecision` models it as the outcome `StageResolutionFailed` and leaves the store unchanged.
- `getOrCreateActuator` inserts a missing actuator row with state 0 even in MANUAL mode. So the MANUAL-mode guarantee is "existing actuators are unchanged, and new rows start at 0".

## Model

| member | source | states |
|---|---|---|
| DecisionEngine.Walk | server/decisionEngine.ts:30-42 | The walk from stage k on, with `acc` the days consumed so far. It returns the first stage whose end lies beyond day d, with that stage's start. If it returns none, every remaining stage has ended by day d. |
| DecisionEngine.CalculateGrowthStage | server/decisionEngine.ts:26-49 | If stage i is the first stage not yet ended on day d, the result is stage i with `daysInStage = d - prefix(i)`. If every stage has ended, the result is the last stage with `daysInStage = d`, unclamped. `stageName` is the stage's name. The stage list must be non-empty. |
| DecisionEngine.StageContainingDay | server/decisionEngine.ts:30-42 | For every day `0 <= d < total duration` there is a stage i with `prefix(i) <= d < prefix(i+1)`, and the resolver returns exactly that stage and offset. |
| DecisionEngine.GrowthStageWithinSchedule | server/decisionEngine.ts:30-42 | With non-negative durations, any stage i with `prefix(i) <= d < prefix(i+1)` is the resolved stage, with `daysInStage = d - prefix(i)`. This makes the containing stage unique. |
| DecisionEngine.GrowthStageAfterSchedule | server/decisionEngine.ts:31-48 | With non-negative durations, a day at or past the total duration resolves to the last stage, with `daysInStage == d`. |
| DecisionEngine.PrefixMonotone | server/decisionEngine.ts:35-41 | With non-negative durations, the accumulated day count never decreases along the walk. |
| DecisionEngine.PumpDecision | server/decisionEngine.ts:72-81 | The pump is ON iff soil moisture is below the stage minimum. The reason is fixed by a three-way split. Below the minimum gives below-min citing `soilMoistureMin`. Otherwise, above the maximum gives above-max citing `soilMoistureMax`. Otherwise the reason is within range. Every reason names the crop, the stage and the observed moisture. |
| DecisionEngine.FanDecision | server/decisionEngine.ts:87-102 | The fan is ON iff the temperature exceeds the stage maximum or the humidity exceeds its maximum. The branches are checked in order, and each reason cites the observed value and the stage's own bound. A temperature over the maximum gives temperature-over-max, whatever the humidity. Otherwise a humidity over the maximum gives humidity-over-max. Otherwise a temperature below the minimum gives temperature-below-min, and only then a humidity below the minimum gives humidity-below-min. Being below a minimum never switches the fan ON. "Optimal" is reported iff both values lie inside their bands, and it names crop and stage. |
| DecisionEngine.LightDecision | server/decisionEngine.ts:104-116 | The light is ON iff the light level is below the fixed threshold 5000. The reason cites the level, and a low-light reason cites that threshold. |
| DecisionEngine.MakeDecisions | server/decisionEngine.ts:54-125 | Against the resolved stage: the pump, fan and light are ON exactly under their rules. `growthStage` is the resolved stage's name. `daysSincePlanting` is echoed. Every reason is true and matches its action. Each of the three decisions is the one its rule gives for the crop, the resolved stage and the reading, so the rule contracts above carry over in full. |
| DecisionEngine.PumpDependsOnlyOnMoisture | server/decisionEngine.ts:72-81 | Two readings with the same soil moisture get the same pump decision. |
| DecisionEngine.LightIgnoresCropAndStage | server/decisionEngine.ts:108-116 | The light decision is the same for any crops, days and other sensor values, given the same light level. |
| DecisionEngine.HasActionChanged | server/decisionEngine.ts:130-136 | With no previous action it is always true. Otherwise it is true iff the previous action differs from the new one. |
| DecisionEngine.MaizeSchedule | server/decisionEngine.test.ts:6-57 | The Maize fixture's stages end on days 14, 34, 59 and 79, and its durations are non-negative. |
| DecisionEngine.MaizeStageExamples | server/decisionEngine.test.ts:59-85 | For Maize: day 5 is Initial/5, day 20 is Development/6, day 47 is Mid/13, day 80 is Late. |
| DecisionEngine.MaizeDecisionExamples | server/decisionEngine.test.ts:88-198 | The decisions the tests expect for Maize at day 47 (Mid). 22% moisture turns the pump ON with a reason naming Maize, Mid, 22 and 60. 85% turns it OFF. 36.0 °C turns the fan ON against max 35. 95% humidity turns the fan ON against max 90. Light 2000 turns the light ON. Light 8000 turns it OFF. |
| DecisionStep.DaysSincePlanting | server/routers.ts:191-193 | The whole number of days from planting to now, rounded down: `days * 86400000 <= now - plantingDate < (days + 1) * 86400000`. |
| DecisionStep.Snapshot | server/routers.ts:214-219 | The logged temperature is the stored value divided by 100. Humidity, soil moisture and light are copied verbatim. |
| DecisionStep.ApplyOne | server/routers.ts:199-220 | One loop iteration. It writes exactly when the mode is AUTO and the stored state, or 0 for a new row, differs from the decided state. Afterwards the row holds the decided state in AUTO mode and the prior state in MANUAL mode. A row left unwritten is unchanged. Other rows are unchanged. Exactly one log entry is appended. |
| DecisionStep.ApplyAllActuators | server/routers.ts:197-206 | After the PUMP, FAN, LIGHT loop, all three rows of the greenhouse exist. Each holds its decided state in AUTO mode and its prior state in MANUAL mode. Rows of other greenhouses are unchanged. In MANUAL mode no existing row changes. |
| DecisionStep.ApplyAllWrites | server/routers.ts:197-205 | The loop writes exactly the actuators that need a write, in PUMP, FAN, LIGHT order. An actuator needs a write when the mode is AUTO and its stored state differs. |
| DecisionStep.MakeDecision | server/routers.ts:176-227 | Each early return corresponds to its cause: "not configured" means a missing greenhouse, crop id or planting date; then "no sensor data"; then "crop not found"; then the empty-stage throw. None of them changes the store. A decided run reports `floor((now - plantingDate) / day)` and passes that same count to the engine. Its growth stage is the resolved stage's name. Greenhouses, readings and crops are unchanged. |
| DecisionStep.DecidedRunUsesEngine | server/routers.ts:186-195 | A decided run's decisions are the engine's decisions for the greenhouse's crop, its latest reading and the computed day count. |
| DecisionStep.AutoModeAppliesDecisions | server/routers.ts:197-205 | In AUTO mode, after the run, each of PUMP, FAN and LIGHT exists and has state 1 iff its decision is ON, and 0 otherwise. |
| DecisionStep.ManualModeKeepsActuators | server/routers.ts:200-205 | In MANUAL mode nothing is written and no existing actuator changes. The only new rows belong to this greenhouse and have state 0. |
| DecisionStep.OtherGreenhousesUntouched | server/routers.ts:200-205 | Actuator rows of other greenhouses are never modified. |
| DecisionStep.WritesOnlyOnChange | server/routers.ts:201-205 | An actuator is written iff the mode is AUTO and its stored state differs from the decided state. |
| DecisionStep.RerunWritesNothing | server/routers.ts:191-205 | Running the mutation again at the same instant on the resulting store decides the same and writes nothing. |
| DecisionStep.LogsThreeEntries | server/routers.ts:197-221 | Exactly three entries are appended after the old log, for PUMP, FAN and LIGHT in that order. Each carries its decision's action and reason, the crop name, the resolved growth stage and the sensor snapshot. |
| DecisionStep.WriteGateIsChangeDetector | server/routers.ts:201-203 | For a stored 0/1 state, the loop's "state differs" test is the engine's change detector applied to the stored action. |
| Esp32.Violations | server/routers/esp32.ts:12-19 | A field is flagged iff it lies outside its inclusive range: temperature [-50, 60], humidity [0, 100], soil moisture [0, 100], light [0, 100000]. |
| Esp32.StoredTimestamp | server/routers/esp32.ts:46 | The supplied timestamp is used when present and non-zero. An absent timestamp or 0 falls back to now. |
| Esp32.IngestSensorData | server/routers/esp32.ts:26-53 | A payload is accepted iff all four values are in range. A rejection lists exactly the out-of-range fields. An accepted reading goes to greenhouse 1 with the values as received (temperature not scaled) and the fallback timestamp. |
| Esp32.IngestSensorDataScaled | server/routers/esp32.ts:40-46 | The corrected ingestion accepts and rejects the same payloads. The stored temperature reads back as the reported degrees. |
| Esp32.IngestedHeatNeverVentilates | server/routers/esp32.ts:40-46 | As written, an accepted reading never trips the fan's temperature-over-max rule for a stage whose maximum is at least 1 °C. |
| Esp32.ScaledIngestVentilatesWhenHot | server/routers/esp32.ts:40-46 | With the corrected ingestion, the fan's temperature rule fires iff the reported temperature exceeds the stage maximum. |
| Esp32.HotDayIngestExample | server/routers/esp32.ts:40-46 | A 36 °C report for Maize in Mid (max 35) leaves the fan OFF as written. The corrected ingestion turns it ON with the temperature-over-max reason. |
| Esp32.ReadingsInRange | server/routers/esp32.ts:112-116 | A reading is in the result iff it is in the input and `startTime <= timestamp <= endTime`, both ends inclusive. |
| Esp32.ReadingsInRangeCounts | server/routers/esp32.ts:112-116 | Each reading inside the window appears as often as in the input. Readings outside it do not appear. |
| Esp32.ReadingsInRangeKeepsOrder | server/routers/esp32.ts:104-116 | The result is a subsequence of the input. A newest-first input gives a newest-first result. |
| Esp32.MinOf | server/routers/esp32.ts:164 | The minimum occurs in the list and is at most every element. |
| Esp32.MaxOf | server/routers/esp32.ts:165 | The maximum occurs in the list and is at least every element. |
| Esp32.SumBounds | server/routers/esp32.ts:166 | If every value lies between lo and hi, the sum lies between `n * lo` and `n * hi`. |
| Esp32.MeanBetween | server/routers/esp32.ts:166 | The mean of values between lo and hi lies between lo and hi. |
| Esp32.CalculateStats | server/routers/esp32.ts:163-167 | Min and max occur in the list and bound every value. avg times the count is the sum, so avg is the exact mean. `min <= avg <= max`. |
| Esp32.GetAggregatedStats | server/routers/esp32.ts:140-176 | The count is the number of readings, capped at the newest 1000. With no readings, every field's min, max and avg are 0. Otherwise, for each field over the newest `count` readings: min and max occur among that field's values and bound them all, and avg times `count` is their sum. |
| Esp32.GetActuatorCommands | server/routers/esp32.ts:196-216 | Each command is ON iff the last row of greenhouse 1 with its type has state 1. It is OFF when there is no such row. |
| Esp32.LastRowOf | server/routers/esp32.ts:210-214 | The row found is the last row of greenhouse 1 with the given type. No such row means none exists. |
| Esp32.UnrelatedRowKeepsCommand | server/routers/esp32.ts:210-214 | A row of another type or another greenhouse leaves a command unchanged. |

## Left out

- Database access and the RPC layer: the drizzle/mysql queries, `getDb` and its "Database not available" errors, the try/catch that rewraps failures, authentication, and the other procedures in `server/routers.ts`. The store is an abstract map, and the SQL `where`/`orderBy`/`limit` become the shape of the inputs.
- `JSON.parse` of the crop's stage list: the engine takes decoded stages. Malformed JSON is a parser failure and is not modelled.
- Reason text formatting (template strings and `toFixed(1)`): reasons are structured values.
- The stage field `kc` is carried but never read, as in the engine.
- The `period` parameter of the statistics query, which the code never uses except to echo it back.
- The JavaScript float average: it is an exact real `sum / count`. `temperature / 100` is exact real division. The day count `Math.floor(ms / 86400000)` is integer floor division.
- Ingestion payloads are integers. The validator also accepts fractional numbers, which the integer column then rounds. `NaN` timestamps are not modelled. `deviceId` is never used by the code.
- `getLatestReadings` (a bare query with `limit(100)`) is not modelled: it has no logic beyond the query.
- The React pages and the seeding/data-preparation scripts. The Maize stage table is used only as a test fixture.
- Concurrency between simultaneous mutations is not modelled: each run is one atomic step.
- Duplicate actuator rows are not modelled. The store keys actuators by greenhouse and type, so there is at most one row per pair. The schema (`drizzle/schema.ts:80-87`) has no such unique key. The code keeps that shape in practice: `getOrCreateActuator` inserts a row only when none exists (`server/db.ts:195-225`). With duplicates, `getOrCreateActuator` reads an arbitrary one of an unordered `limit(1)`, while the device's command fold lets the last row win (`server/routers/esp32.ts:210-214`), so an AUTO run could update a row the device never reads.
- DecisionStep.MakeDecision: its own contract states the outcome classification, the day count and the frame. The actuator, write and log guarantees are stated by the lemmas that follow it, not repeated in its ensures.

## Findings

| source | as written | input that shows it | evidently intended | confidence | as-written member | corrected member |
|---|---|---|---|---|---|---|
| server/routers/esp32.ts:42 | The temperature a device sends, in degrees Celsius and validated to [-50, 60], is stored unscaled. The readers that display or decide on it divide the column by 100: the engine (`server/decisionEngine.ts:63`), the latest-reading query (`server/routers.ts:85`), the decision-log snapshot (`server/routers.ts:215`), the dashboard (`client/src/pages/Dashboard.tsx:165`) and the analytics chart (`client/src/pages/Analytics.tsx:62`). The analytics stats cards print the aggregate unscaled (`client/src/pages/Analytics.tsx:146-149`). The schema comment and the sensor seed script store Celsius × 100. | A payload of 36 °C, 65 % humidity, for Maize at day 47 (Mid, max 35 °C): the engine reads 0.36 °C and the fan stays OFF | Store `temperature * 100`, so the engine compares 36 °C with 35 °C and switches the fan ON | high; not executed | Esp32.IngestSensorData, Esp32.IngestedHeatNeverVentilates, Esp32.HotDayIngestExample | Esp32.IngestSensorDataScaled, Esp32.ScaledIngestVentilatesWhenHot |
