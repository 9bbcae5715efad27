/**
 * The rule-based actuator decision engine (server/decisionEngine.ts):
 * growth-stage resolution over a crop's ordered stage list, the three
 * threshold rule sets (soil moisture -> pump, temperature/humidity -> fan,
 * light level -> light), and the change detector.
 */
module DecisionEngine {
  import opened Wrappers
  import opened Schema

  /** One growth stage. Temperatures are whole degrees Celsius, humidity and soil moisture percentages. */
  datatype CropStage = CropStage(
    name: string,
    duration: int,
    kc: real,
    tempMin: int,
    tempMax: int,
    humidityMin: int,
    humidityMax: int,
    soilMoistureMin: int,
    soilMoistureMax: int)

  /** A crop with its stage list already decoded. */
  datatype Crop = Crop(id: int, name: string, scientificName: Option<string>, stages: seq<CropStage>)

  datatype Action = On | Off

  /**
   * Why a rule chose its action: which comparison fired and the numbers it cites.
   * Temperatures in reasons are the stored scaled value (Celsius times 100).
   */
  datatype Reason =
    | SoilBelowMin(crop: string, stage: string, value: int, threshold: int)
    | SoilAboveMax(crop: string, stage: string, value: int, threshold: int)
    | SoilWithinRange(crop: string, stage: string, value: int)
    | TempAboveMax(value: int, threshold: int)
    | HumidityAboveMax(value: int, threshold: int)
    | TempBelowMin(value: int, threshold: int)
    | HumidityBelowMin(value: int, threshold: int)
    | ConditionsOptimal(crop: string, stage: string)
    | LightLow(value: int, threshold: int)
    | LightAdequate(value: int)

  datatype Decision = Decision(action: Action, reason: Reason)

  datatype DecisionResult = DecisionResult(
    pump: Decision,
    fan: Decision,
    light: Decision,
    growthStage: string,
    daysSincePlanting: int)

  datatype StageResolution = StageResolution(stage: CropStage, stageName: string, daysInStage: int)

  /** The fixed light threshold, in the raw unit of `lightLevel`. */
  const LightThreshold: int := 5000

  /** A stored scaled temperature in degrees Celsius. */
  function Celsius(temperature: int): real
  {
    temperature as real / 100.0
  }

  // ---------------------------------------------------------------- stages

  /** Days consumed by the first `i` stages. */
  function Prefix(stages: seq<CropStage>, i: nat): int
    requires i <= |stages|
  {
    if i == 0 then 0 else Prefix(stages, i - 1) + stages[i - 1].duration
  }

  /** The first day after stage `i`. */
  function StageEnd(stages: seq<CropStage>, i: nat): int
    requires i < |stages|
  {
    Prefix(stages, i + 1)
  }

  function TotalDuration(stages: seq<CropStage>): int
  {
    Prefix(stages, |stages|)
  }

  predicate NonNegativeDurations(stages: seq<CropStage>)
  {
    forall i :: 0 <= i < |stages| ==> stages[i].duration >= 0
  }

  /** Stage `i` is the first stage that has not ended by day `d`. */
  predicate FirstOpenStage(stages: seq<CropStage>, i: nat, d: int)
    requires i < |stages|
  {
    && d < StageEnd(stages, i)
    && forall j :: 0 <= j < i ==> StageEnd(stages, j) <= d
  }

  /** Every stage has ended by day `d`. */
  predicate ScheduleExhausted(stages: seq<CropStage>, d: int)
  {
    forall j :: 0 <= j < |stages| ==> StageEnd(stages, j) <= d
  }

  datatype StageMatch = StageMatch(index: nat, start: int)

  /** The stage walk from stage `k` on, `acc` being the days the first `k` stages consume. */
  function Walk(stages: seq<CropStage>, d: int, k: nat, acc: int): (m: Option<StageMatch>)
    requires k <= |stages| && acc == Prefix(stages, k)
    decreases |stages| - k
    ensures m.Some? ==>
              && k <= m.value.index < |stages|
              && m.value.start == Prefix(stages, m.value.index)
              && d < StageEnd(stages, m.value.index)
              && forall j :: k <= j < m.value.index ==> StageEnd(stages, j) <= d
    ensures m.None? ==> forall j :: k <= j < |stages| ==> StageEnd(stages, j) <= d
  {
    if k == |stages| then None
    else
      var stageEnd := acc + stages[k].duration;
      if d < stageEnd then Some(StageMatch(k, acc))
      else Walk(stages, d, k + 1, stageEnd)
  }

  /**
   * The stage day `d` falls into: the first stage not yet ended, with the days
   * spent in it; past the end of the schedule, the last stage with `d` itself
   * as the (unclamped) day count.
   */
  function CalculateGrowthStage(stages: seq<CropStage>, d: int): (r: StageResolution)
    requires |stages| > 0
    ensures r.stageName == r.stage.name
    ensures forall i {:trigger FirstOpenStage(stages, i, d)} :: 0 <= i < |stages| && FirstOpenStage(stages, i, d) ==>
              r.stage == stages[i] && r.daysInStage == d - Prefix(stages, i)
    ensures ScheduleExhausted(stages, d) ==>
              r.stage == stages[|stages| - 1] && r.daysInStage == d
  {
    match Walk(stages, d, 0, 0)
    case Some(m) => StageResolution(stages[m.index], stages[m.index].name, d - m.start)
    case None =>
      var last := stages[|stages| - 1];
      StageResolution(last, last.name, d)
  }

  lemma {:induction false} PrefixMonotone(stages: seq<CropStage>, i: nat, j: nat)
    requires NonNegativeDurations(stages) && i <= j <= |stages|
    ensures Prefix(stages, i) <= Prefix(stages, j)
    decreases j - i
  {
    if i < j {
      PrefixMonotone(stages, i, j - 1);
    }
  }

  /** Every day of the schedule lies in some stage's range, and the resolver returns that stage. */
  lemma StageContainingDay(stages: seq<CropStage>, d: int) returns (i: nat)
    requires 0 <= d < TotalDuration(stages)
    ensures i < |stages| && Prefix(stages, i) <= d < Prefix(stages, i + 1)
    ensures |stages| > 0
    ensures CalculateGrowthStage(stages, d) == StageResolution(stages[i], stages[i].name, d - Prefix(stages, i))
  {
    if |stages| == 0 {
      assert false;
    }
    var m := Walk(stages, d, 0, 0);
    assert StageEnd(stages, |stages| - 1) == TotalDuration(stages);
    assert m.Some?;
    i := m.value.index;
    if i > 0 {
      assert StageEnd(stages, i - 1) <= d;
    }
    assert FirstOpenStage(stages, i, d);
  }

  /** With non-negative durations the stage range containing day `d` is unique and is the one resolved. */
  lemma GrowthStageWithinSchedule(stages: seq<CropStage>, d: int, i: nat)
    requires NonNegativeDurations(stages)
    requires i < |stages| && Prefix(stages, i) <= d < Prefix(stages, i + 1)
    ensures CalculateGrowthStage(stages, d) == StageResolution(stages[i], stages[i].name, d - Prefix(stages, i))
  {
    forall j | 0 <= j < i
      ensures StageEnd(stages, j) <= d
    {
      PrefixMonotone(stages, j + 1, i);
    }
    assert FirstOpenStage(stages, i, d);
  }

  /** Past the end of the schedule the last stage is kept and the day count is not clamped. */
  lemma GrowthStageAfterSchedule(stages: seq<CropStage>, d: int)
    requires |stages| > 0 && NonNegativeDurations(stages)
    requires d >= TotalDuration(stages)
    ensures CalculateGrowthStage(stages, d).stage == stages[|stages| - 1]
    ensures CalculateGrowthStage(stages, d).daysInStage == d
  {
    forall j | 0 <= j < |stages|
      ensures StageEnd(stages, j) <= d
    {
      PrefixMonotone(stages, j + 1, |stages|);
    }
    assert ScheduleExhausted(stages, d);
  }

  // ---------------------------------------------------------------- rules

  /** The action a reason stands for: only a low value or an exceeded maximum switches on. */
  function ActionOf(reason: Reason): Action
  {
    match reason
    case SoilBelowMin(_, _, _, _) => On
    case TempAboveMax(_, _) => On
    case HumidityAboveMax(_, _) => On
    case LightLow(_, _) => On
    case _ => Off
  }

  /** The comparison a reason cites is true. */
  predicate ReasonHolds(reason: Reason)
  {
    match reason
    case SoilBelowMin(_, _, v, t) => v < t
    case SoilAboveMax(_, _, v, t) => v > t
    case SoilWithinRange(_, _, _) => true
    case TempAboveMax(v, t) => Celsius(v) > t as real
    case HumidityAboveMax(v, t) => v > t
    case TempBelowMin(v, t) => Celsius(v) < t as real
    case HumidityBelowMin(v, t) => v < t
    case ConditionsOptimal(_, _) => true
    case LightLow(v, t) => v < t
    case LightAdequate(_) => true
  }

  /** The decision's action agrees with its reason and the reason is true. */
  predicate Explained(d: Decision)
  {
    d.action == ActionOf(d.reason) && ReasonHolds(d.reason)
  }

  predicate IsPumpReason(reason: Reason)
  {
    reason.SoilBelowMin? || reason.SoilAboveMax? || reason.SoilWithinRange?
  }

  predicate IsFanReason(reason: Reason)
  {
    || reason.TempAboveMax? || reason.HumidityAboveMax?
    || reason.TempBelowMin? || reason.HumidityBelowMin? || reason.ConditionsOptimal?
  }

  /** Soil moisture drives the pump: below the stage minimum waters, otherwise not. */
  function PumpDecision(cropName: string, stageName: string, stage: CropStage, soilMoisture: int): (r: Decision)
    ensures r.action == On <==> soilMoisture < stage.soilMoistureMin
    ensures Explained(r) && IsPumpReason(r.reason)
    ensures r.reason.crop == cropName && r.reason.stage == stageName
    ensures r.reason.value == soilMoisture
    ensures soilMoisture < stage.soilMoistureMin ==>
              r.reason == SoilBelowMin(cropName, stageName, soilMoisture, stage.soilMoistureMin)
    ensures stage.soilMoistureMin <= soilMoisture && soilMoisture > stage.soilMoistureMax ==>
              r.reason == SoilAboveMax(cropName, stageName, soilMoisture, stage.soilMoistureMax)
    ensures stage.soilMoistureMin <= soilMoisture <= stage.soilMoistureMax ==>
              r.reason == SoilWithinRange(cropName, stageName, soilMoisture)
  {
    if soilMoisture < stage.soilMoistureMin then
      Decision(On, SoilBelowMin(cropName, stageName, soilMoisture, stage.soilMoistureMin))
    else if soilMoisture > stage.soilMoistureMax then
      Decision(Off, SoilAboveMax(cropName, stageName, soilMoisture, stage.soilMoistureMax))
    else
      Decision(Off, SoilWithinRange(cropName, stageName, soilMoisture))
  }

  /**
   * Temperature and humidity drive the fan; a maximum exceeded ventilates,
   * a minimum undershot is only reported. `temperature` is scaled by 100.
   */
  function FanDecision(cropName: string, stageName: string, stage: CropStage, temperature: int, humidity: int): (r: Decision)
    ensures r.action == On <==> temperature > 100 * stage.tempMax || humidity > stage.humidityMax
    ensures temperature > 100 * stage.tempMax ==> r.reason == TempAboveMax(temperature, stage.tempMax)
    ensures temperature <= 100 * stage.tempMax && humidity > stage.humidityMax ==>
              r.reason == HumidityAboveMax(humidity, stage.humidityMax)
    ensures r.reason == TempBelowMin(temperature, stage.tempMin) <==>
              && temperature <= 100 * stage.tempMax && humidity <= stage.humidityMax
              && temperature < 100 * stage.tempMin
    ensures r.reason == HumidityBelowMin(humidity, stage.humidityMin) <==>
              && temperature <= 100 * stage.tempMax && humidity <= stage.humidityMax
              && temperature >= 100 * stage.tempMin && humidity < stage.humidityMin
    ensures Explained(r) && IsFanReason(r.reason)
    ensures r.reason.ConditionsOptimal? <==>
              && 100 * stage.tempMin <= temperature <= 100 * stage.tempMax
              && stage.humidityMin <= humidity <= stage.humidityMax
    ensures r.reason.ConditionsOptimal? ==> r.reason.crop == cropName && r.reason.stage == stageName
  {
    var tempCelsius := Celsius(temperature);
    if tempCelsius > stage.tempMax as real then
      Decision(On, TempAboveMax(temperature, stage.tempMax))
    else if humidity > stage.humidityMax then
      Decision(On, HumidityAboveMax(humidity, stage.humidityMax))
    else if tempCelsius < stage.tempMin as real then
      Decision(Off, TempBelowMin(temperature, stage.tempMin))
    else if humidity < stage.humidityMin then
      Decision(Off, HumidityBelowMin(humidity, stage.humidityMin))
    else
      Decision(Off, ConditionsOptimal(cropName, stageName))
  }

  /** The light follows a fixed threshold, whatever the crop or stage. */
  function LightDecision(lightLevel: int): (r: Decision)
    ensures r.action == On <==> lightLevel < LightThreshold
    ensures Explained(r) && (r.reason.LightLow? || r.reason.LightAdequate?)
    ensures r.reason.value == lightLevel
    ensures r.reason.LightLow? ==> r.reason.threshold == LightThreshold
  {
    if lightLevel < LightThreshold then
      Decision(On, LightLow(lightLevel, LightThreshold))
    else
      Decision(Off, LightAdequate(lightLevel))
  }

  /** The stage a crop is in on day `d`. */
  function StageOn(crop: Crop, d: int): CropStage
    requires |crop.stages| > 0
  {
    CalculateGrowthStage(crop.stages, d).stage
  }

  /** All three rules applied to the stage the crop is in on day `d`. */
  function MakeDecisions(crop: Crop, reading: SensorReading, d: int): (r: DecisionResult)
    requires |crop.stages| > 0
    ensures r.daysSincePlanting == d
    ensures r.growthStage == StageOn(crop, d).name
    ensures r.pump.action == On <==> reading.soilMoisture < StageOn(crop, d).soilMoistureMin
    ensures r.fan.action == On <==>
              reading.temperature > 100 * StageOn(crop, d).tempMax || reading.humidity > StageOn(crop, d).humidityMax
    ensures r.light.action == On <==> reading.lightLevel < LightThreshold
    ensures Explained(r.pump) && Explained(r.fan) && Explained(r.light)
    ensures IsPumpReason(r.pump.reason) && r.pump.reason.crop == crop.name && r.pump.reason.stage == r.growthStage
    ensures r.pump == PumpDecision(crop.name, r.growthStage, StageOn(crop, d), reading.soilMoisture)
    ensures r.fan == FanDecision(crop.name, r.growthStage, StageOn(crop, d), reading.temperature, reading.humidity)
    ensures r.light == LightDecision(reading.lightLevel)
  {
    var resolved := CalculateGrowthStage(crop.stages, d);
    DecisionResult(
      PumpDecision(crop.name, resolved.stageName, resolved.stage, reading.soilMoisture),
      FanDecision(crop.name, resolved.stageName, resolved.stage, reading.temperature, reading.humidity),
      LightDecision(reading.lightLevel),
      resolved.stageName,
      d)
  }

  /** The pump decision reads nothing of the reading but its soil moisture. */
  lemma PumpDependsOnlyOnMoisture(crop: Crop, a: SensorReading, b: SensorReading, d: int)
    requires |crop.stages| > 0 && a.soilMoisture == b.soilMoisture
    ensures MakeDecisions(crop, a, d).pump == MakeDecisions(crop, b, d).pump
  {
  }

  /** The light decision reads nothing but the light level: not the crop, the stage or the other sensors. */
  lemma LightIgnoresCropAndStage(c1: Crop, c2: Crop, a: SensorReading, b: SensorReading, d1: int, d2: int)
    requires |c1.stages| > 0 && |c2.stages| > 0 && a.lightLevel == b.lightLevel
    ensures MakeDecisions(c1, a, d1).light == MakeDecisions(c2, b, d2).light
  {
  }

  // ---------------------------------------------------------------- change detection

  /** Whether a new action differs from the stored one; no stored action always counts as a change. */
  function HasActionChanged(previous: Option<Action>, next: Action): (changed: bool)
    ensures previous.None? ==> changed
    ensures previous.Some? ==> (changed <==> previous.value != next)
  {
    match previous
    case None => true
    case Some(p) => p != next
  }

  // ---------------------------------------------------------------- the Maize fixture

  /** The four-stage Maize schedule the engine's tests use. */
  const MaizeStages: seq<CropStage> := [
    CropStage("Initial", 14, 0.3, 15, 30, 40, 80, 40, 100),
    CropStage("Development", 20, 0.6, 18, 32, 45, 85, 50, 100),
    CropStage("Mid", 25, 1.0, 20, 35, 50, 90, 60, 100),
    CropStage("Late", 20, 0.7, 18, 33, 40, 80, 40, 80)
  ]

  const Maize: Crop := Crop(1, "Maize", Some("Zea mays"), MaizeStages)

  /** The Maize stages end on days 14, 34, 59 and 79. */
  lemma MaizeSchedule()
    ensures NonNegativeDurations(MaizeStages)
    ensures Prefix(MaizeStages, 0) == 0 && Prefix(MaizeStages, 1) == 14 && Prefix(MaizeStages, 2) == 34
    ensures Prefix(MaizeStages, 3) == 59 && Prefix(MaizeStages, 4) == 79
  {
    assert Prefix(MaizeStages, 1) == 14;
    assert Prefix(MaizeStages, 2) == 34;
    assert Prefix(MaizeStages, 3) == 59;
  }

  /** Day 5 is day 5 of Initial, day 20 day 6 of Development, day 47 day 13 of Mid, day 80 in Late. */
  lemma MaizeStageExamples()
    ensures CalculateGrowthStage(MaizeStages, 5).stageName == "Initial"
    ensures CalculateGrowthStage(MaizeStages, 5).daysInStage == 5
    ensures CalculateGrowthStage(MaizeStages, 20).stageName == "Development"
    ensures CalculateGrowthStage(MaizeStages, 20).daysInStage == 6
    ensures CalculateGrowthStage(MaizeStages, 47).stageName == "Mid"
    ensures CalculateGrowthStage(MaizeStages, 47).daysInStage == 13
    ensures CalculateGrowthStage(MaizeStages, 80).stageName == "Late"
  {
    MaizeSchedule();
    GrowthStageWithinSchedule(MaizeStages, 5, 0);
    GrowthStageWithinSchedule(MaizeStages, 20, 1);
    GrowthStageWithinSchedule(MaizeStages, 47, 2);
    GrowthStageAfterSchedule(MaizeStages, 80);
  }

  /** The decisions the tests expect for Maize in its Mid stage (day 47). */
  lemma MaizeDecisionExamples()
    ensures var r := MakeDecisions(Maize, SensorReading(1, 1, 2500, 65, 22, 8000, 0), 47);
            && r.pump == Decision(On, SoilBelowMin("Maize", "Mid", 22, 60))
            && r.growthStage == "Mid"
    ensures MakeDecisions(Maize, SensorReading(1, 1, 2500, 65, 85, 8000, 0), 47).pump.action == Off
    ensures MakeDecisions(Maize, SensorReading(1, 1, 3600, 65, 70, 8000, 0), 47).fan == Decision(On, TempAboveMax(3600, 35))
    ensures MakeDecisions(Maize, SensorReading(1, 1, 2500, 95, 70, 8000, 0), 47).fan == Decision(On, HumidityAboveMax(95, 90))
    ensures MakeDecisions(Maize, SensorReading(1, 1, 2500, 65, 70, 2000, 0), 47).light == Decision(On, LightLow(2000, 5000))
    ensures MakeDecisions(Maize, SensorReading(1, 1, 2500, 65, 70, 8000, 0), 47).light.action == Off
  {
    MaizeSchedule();
    GrowthStageWithinSchedule(MaizeStages, 47, 2);
  }
}
