/**
 * The `decision.makeDecision` mutation (server/routers.ts) as a pure step over
 * an abstract store: configuration checks with early returns, the day count
 * since planting, the engine call, the conditional actuator writes and the
 * three decision-log entries.
 */
module DecisionStep {
  import opened Wrappers
  import opened Schema
  import opened DecisionEngine

  /** Milliseconds in a day: 1000 * 60 * 60 * 24. */
  const MsPerDay: int := 86_400_000

  /** The actuators in the order the mutation visits them. */
  const ActuatorOrder: seq<ActuatorType> := [Pump, Fan, Light]

  /** The sensor values copied into a log entry; temperature in degrees Celsius. */
  datatype SensorSnapshot = SensorSnapshot(temperature: real, humidity: int, soilMoisture: int, lightLevel: int)

  datatype DecisionLog = DecisionLog(
    greenhouseId: int,
    actuatorType: ActuatorType,
    action: Action,
    reason: Reason,
    cropName: string,
    growthStage: string,
    sensorValues: SensorSnapshot,
    timestamp: int)

  /**
   * The database as seen by the mutation. Greenhouses are found through the
   * user-id lookup, readings are the latest per greenhouse, actuators are keyed
   * by greenhouse and type, and the decision log is append-only.
   */
  datatype Store = Store(
    greenhousesByUser: map<int, Greenhouse>,
    latestReadings: map<int, SensorReading>,
    crops: map<int, Crop>,
    actuators: map<(int, ActuatorType), Actuator>,
    log: seq<DecisionLog>)

  /** The `{ success: false, error }` answers. */
  datatype ConfigError = NotConfigured | NoSensorData | CropNotFound

  datatype Outcome =
    | Rejected(error: ConfigError)
      /** The engine throws on a crop without stages; nothing has been written by then. */
    | StageResolutionFailed
    | Decided(decisions: DecisionResult, daysSincePlanting: int)

  /** The outcome, the store afterwards, and the actuators whose state was written, in order. */
  datatype StepResult = StepResult(outcome: Outcome, store: Store, writes: seq<ActuatorType>)

  /** Whole days from planting to now, rounded down (Math.floor of the millisecond difference over a day). */
  function DaysSincePlanting(now: int, plantingDate: int): (days: int)
    ensures days * MsPerDay <= now - plantingDate < (days + 1) * MsPerDay
  {
    (now - plantingDate) / MsPerDay
  }

  /** The state value stored for an action. */
  function StateOf(action: Action): (state: int)
    ensures state == 1 || state == 0
    ensures state == 1 <==> action == On
  {
    if action == On then 1 else 0
  }

  function DecisionFor(decisions: DecisionResult, t: ActuatorType): Decision
  {
    match t
    case Pump => decisions.pump
    case Fan => decisions.fan
    case Light => decisions.light
  }

  /** The state read for an actuator: its stored state, or 0 for the row getOrCreateActuator inserts. */
  function PriorState(actuators: map<(int, ActuatorType), Actuator>, greenhouseId: int, t: ActuatorType): int
  {
    if (greenhouseId, t) in actuators then actuators[(greenhouseId, t)].state else 0
  }

  function Snapshot(reading: SensorReading): (s: SensorSnapshot)
    ensures s.temperature * 100.0 == reading.temperature as real
    ensures s.humidity == reading.humidity && s.soilMoisture == reading.soilMoisture
    ensures s.lightLevel == reading.lightLevel
  {
    SensorSnapshot(Celsius(reading.temperature), reading.humidity, reading.soilMoisture, reading.lightLevel)
  }

  /** A `selectedCropId` is usable only when present and non-zero (zero is falsy). */
  predicate HasCrop(g: Greenhouse)
  {
    g.selectedCropId.Some? && g.selectedCropId.value != 0
  }

  predicate Configured(store: Store, greenhouseId: int)
  {
    && greenhouseId in store.greenhousesByUser
    && HasCrop(store.greenhousesByUser[greenhouseId])
    && store.greenhousesByUser[greenhouseId].plantingDate.Some?
  }

  datatype Applied = Applied(store: Store, wrote: bool)

  /**
   * One iteration of the actuator loop: fetch or create the actuator, write its
   * state in AUTO mode when it differs, and append one log entry.
   */
  function ApplyOne(store: Store, greenhouseId: int, mode: SystemMode, t: ActuatorType, decision: Decision,
                    cropName: string, growthStage: string, snapshot: SensorSnapshot, now: int): (a: Applied)
    ensures a.wrote <==> mode == Auto && PriorState(store.actuators, greenhouseId, t) != StateOf(decision.action)
    ensures a.store.actuators.Keys == store.actuators.Keys + {(greenhouseId, t)}
    ensures a.store.actuators[(greenhouseId, t)].state ==
              if mode == Auto then StateOf(decision.action) else PriorState(store.actuators, greenhouseId, t)
    ensures !a.wrote && (greenhouseId, t) in store.actuators ==>
              a.store.actuators[(greenhouseId, t)] == store.actuators[(greenhouseId, t)]
    ensures forall k :: k in store.actuators && k != (greenhouseId, t) ==> a.store.actuators[k] == store.actuators[k]
    ensures a.store.log == store.log + [DecisionLog(greenhouseId, t, decision.action, decision.reason,
                                                    cropName, growthStage, snapshot, now)]
    ensures a.store.greenhousesByUser == store.greenhousesByUser
    ensures a.store.latestReadings == store.latestReadings && a.store.crops == store.crops
  {
    var key := (greenhouseId, t);
    var actuator := if key in store.actuators then store.actuators[key] else Actuator(0, now);
    var newState := if decision.action == On then 1 else 0;
    var wrote := mode == Auto && actuator.state != newState;
    var actuators := store.actuators[key := if wrote then Actuator(newState, now) else actuator];
    var entry := DecisionLog(greenhouseId, t, decision.action, decision.reason, cropName, growthStage, snapshot, now);
    Applied(store.(actuators := actuators, log := store.log + [entry]), wrote)
  }

  function WritesOf(a: Applied, t: ActuatorType): seq<ActuatorType>
  {
    if a.wrote then [t] else []
  }

  /** The store after the actuator loop and the actuators written, in order. */
  datatype Effects = Effects(store: Store, writes: seq<ActuatorType>)

  /** The PUMP, FAN, LIGHT loop. */
  function ApplyAll(store: Store, greenhouseId: int, mode: SystemMode, decisions: DecisionResult,
                    cropName: string, snapshot: SensorSnapshot, now: int): Effects
  {
    var stage := decisions.growthStage;
    var a1 := ApplyOne(store, greenhouseId, mode, Pump, decisions.pump, cropName, stage, snapshot, now);
    var a2 := ApplyOne(a1.store, greenhouseId, mode, Fan, decisions.fan, cropName, stage, snapshot, now);
    var a3 := ApplyOne(a2.store, greenhouseId, mode, Light, decisions.light, cropName, stage, snapshot, now);
    Effects(a3.store, WritesOf(a1, Pump) + WritesOf(a2, Fan) + WritesOf(a3, Light))
  }

  /** The state an actuator holds after the loop: its decision in AUTO mode, its prior state in MANUAL mode. */
  function Target(actuators: map<(int, ActuatorType), Actuator>, greenhouseId: int, mode: SystemMode,
                  decisions: DecisionResult, t: ActuatorType): int
  {
    if mode == Auto then StateOf(DecisionFor(decisions, t).action) else PriorState(actuators, greenhouseId, t)
  }

  /** What the loop does to the actuator table. */
  lemma ApplyAllActuators(store: Store, greenhouseId: int, mode: SystemMode, decisions: DecisionResult,
                          cropName: string, snapshot: SensorSnapshot, now: int)
    ensures var after := ApplyAll(store, greenhouseId, mode, decisions, cropName, snapshot, now).store.actuators;
            && after.Keys == store.actuators.Keys + {(greenhouseId, Pump), (greenhouseId, Fan), (greenhouseId, Light)}
            && (forall t: ActuatorType ::
                  (greenhouseId, t) in after && after[(greenhouseId, t)].state == Target(store.actuators, greenhouseId, mode, decisions, t))
            && (forall k :: k in store.actuators && k.0 != greenhouseId ==> after[k] == store.actuators[k])
            && (mode == Manual ==> forall k :: k in store.actuators ==> after[k] == store.actuators[k])
  {
    var stage := decisions.growthStage;
    var a1 := ApplyOne(store, greenhouseId, mode, Pump, decisions.pump, cropName, stage, snapshot, now);
    var a2 := ApplyOne(a1.store, greenhouseId, mode, Fan, decisions.fan, cropName, stage, snapshot, now);
    var a3 := ApplyOne(a2.store, greenhouseId, mode, Light, decisions.light, cropName, stage, snapshot, now);
    assert PriorState(a1.store.actuators, greenhouseId, Fan) == PriorState(store.actuators, greenhouseId, Fan);
    assert PriorState(a2.store.actuators, greenhouseId, Light) == PriorState(store.actuators, greenhouseId, Light);
    assert a3.store.actuators[(greenhouseId, Pump)] == a1.store.actuators[(greenhouseId, Pump)];
    assert a3.store.actuators[(greenhouseId, Fan)] == a2.store.actuators[(greenhouseId, Fan)];
    forall t: ActuatorType
      ensures (greenhouseId, t) in a3.store.actuators
      ensures a3.store.actuators[(greenhouseId, t)].state == Target(store.actuators, greenhouseId, mode, decisions, t)
    {
      match t
      case Pump =>
      case Fan =>
      case Light =>
    }
  }

  /** Whether the loop writes actuator `t`: AUTO mode and a stored state other than the decided one. */
  predicate NeedsWrite(actuators: map<(int, ActuatorType), Actuator>, greenhouseId: int, mode: SystemMode,
                       decisions: DecisionResult, t: ActuatorType)
  {
    mode == Auto && PriorState(actuators, greenhouseId, t) != StateOf(DecisionFor(decisions, t).action)
  }

  /** The loop writes, in PUMP, FAN, LIGHT order, exactly the actuators that need a write. */
  lemma ApplyAllWrites(store: Store, greenhouseId: int, mode: SystemMode, decisions: DecisionResult,
                       cropName: string, snapshot: SensorSnapshot, now: int)
    ensures var writes := ApplyAll(store, greenhouseId, mode, decisions, cropName, snapshot, now).writes;
            var needs := (t: ActuatorType) => NeedsWrite(store.actuators, greenhouseId, mode, decisions, t);
            writes == (if needs(Pump) then [Pump] else []) + (if needs(Fan) then [Fan] else [])
                      + (if needs(Light) then [Light] else [])
  {
    var stage := decisions.growthStage;
    var a1 := ApplyOne(store, greenhouseId, mode, Pump, decisions.pump, cropName, stage, snapshot, now);
    var a2 := ApplyOne(a1.store, greenhouseId, mode, Fan, decisions.fan, cropName, stage, snapshot, now);
    assert PriorState(a1.store.actuators, greenhouseId, Fan) == PriorState(store.actuators, greenhouseId, Fan);
    assert PriorState(a2.store.actuators, greenhouseId, Light) == PriorState(store.actuators, greenhouseId, Light);
  }

  /** The log entry the mutation appends for actuator `t`. */
  predicate LogsDecision(entry: DecisionLog, greenhouseId: int, t: ActuatorType, decisions: DecisionResult,
                         crop: Crop, reading: SensorReading)
  {
    && entry.greenhouseId == greenhouseId
    && entry.actuatorType == t
    && entry.action == DecisionFor(decisions, t).action
    && entry.reason == DecisionFor(decisions, t).reason
    && entry.cropName == crop.name
    && entry.growthStage == decisions.growthStage
    && entry.sensorValues == Snapshot(reading)
  }

  /** The configured greenhouse, its latest reading and its crop, when the mutation gets past its checks. */
  predicate Ready(store: Store, greenhouseId: int)
  {
    && Configured(store, greenhouseId)
    && greenhouseId in store.latestReadings
    && store.greenhousesByUser[greenhouseId].selectedCropId.value in store.crops
  }

  function GreenhouseOf(store: Store, greenhouseId: int): Greenhouse
    requires Ready(store, greenhouseId)
  {
    store.greenhousesByUser[greenhouseId]
  }

  function CropOf(store: Store, greenhouseId: int): Crop
    requires Ready(store, greenhouseId)
  {
    store.crops[GreenhouseOf(store, greenhouseId).selectedCropId.value]
  }

  function ReadingOf(store: Store, greenhouseId: int): SensorReading
    requires Ready(store, greenhouseId)
  {
    store.latestReadings[greenhouseId]
  }

  /**
   * `decision.makeDecision` for `greenhouseId` at time `now`. The greenhouse is
   * fetched with the user-id lookup, exactly as the mutation does.
   */
  function MakeDecision(store: Store, greenhouseId: int, now: int): (r: StepResult)
    // every exit before the actuator loop leaves the store untouched
    ensures !r.outcome.Decided? ==> r.store == store && r.writes == []
    ensures r.outcome == Rejected(NotConfigured) <==> !Configured(store, greenhouseId)
    ensures r.outcome == Rejected(NoSensorData) <==>
              Configured(store, greenhouseId) && greenhouseId !in store.latestReadings
    ensures r.outcome == Rejected(CropNotFound) <==>
              && Configured(store, greenhouseId) && greenhouseId in store.latestReadings
              && !Ready(store, greenhouseId)
    ensures r.outcome == StageResolutionFailed <==>
              Ready(store, greenhouseId) && |CropOf(store, greenhouseId).stages| == 0
    // a decided run uses the day count it reports, and only the actuators and the log change
    ensures r.outcome.Decided? ==>
              && Ready(store, greenhouseId)
              && |CropOf(store, greenhouseId).stages| > 0
              && r.outcome.daysSincePlanting == DaysSincePlanting(now, GreenhouseOf(store, greenhouseId).plantingDate.value)
              && r.outcome.decisions.daysSincePlanting == r.outcome.daysSincePlanting
              && r.outcome.decisions.growthStage ==
                   CalculateGrowthStage(CropOf(store, greenhouseId).stages, r.outcome.daysSincePlanting).stage.name
              && r.store.greenhousesByUser == store.greenhousesByUser
              && r.store.latestReadings == store.latestReadings
              && r.store.crops == store.crops
  {
    if greenhouseId !in store.greenhousesByUser then StepResult(Rejected(NotConfigured), store, [])
    else
      var g := store.greenhousesByUser[greenhouseId];
      if !HasCrop(g) || g.plantingDate.None? then StepResult(Rejected(NotConfigured), store, [])
      else if greenhouseId !in store.latestReadings then StepResult(Rejected(NoSensorData), store, [])
      else if g.selectedCropId.value !in store.crops then StepResult(Rejected(CropNotFound), store, [])
      else
        var crop := store.crops[g.selectedCropId.value];
        var reading := store.latestReadings[greenhouseId];
        if |crop.stages| == 0 then StepResult(StageResolutionFailed, store, [])
        else
          var days := DaysSincePlanting(now, g.plantingDate.value);
          var decisions := MakeDecisions(crop, reading, days);
          var applied := ApplyAll(store, greenhouseId, g.systemMode, decisions, crop.name, Snapshot(reading), now);
          StepResult(Decided(decisions, days), applied.store, applied.writes)
  }

  /** A decided run hands the engine the greenhouse's crop, its latest reading and the day count. */
  lemma DecidedRunUsesEngine(store: Store, greenhouseId: int, now: int)
    requires MakeDecision(store, greenhouseId, now).outcome.Decided?
    ensures Ready(store, greenhouseId) && |CropOf(store, greenhouseId).stages| > 0
    ensures var r := MakeDecision(store, greenhouseId, now);
            r.outcome.decisions ==
              MakeDecisions(CropOf(store, greenhouseId), ReadingOf(store, greenhouseId), r.outcome.daysSincePlanting)
  {
  }

  /** In AUTO mode every actuator of the greenhouse ends in the state its decision calls for. */
  lemma AutoModeAppliesDecisions(store: Store, greenhouseId: int, now: int)
    requires MakeDecision(store, greenhouseId, now).outcome.Decided?
    requires Ready(store, greenhouseId) && GreenhouseOf(store, greenhouseId).systemMode == Auto
    ensures var r := MakeDecision(store, greenhouseId, now);
            forall t: ActuatorType ::
              && (greenhouseId, t) in r.store.actuators
              && r.store.actuators[(greenhouseId, t)].state == StateOf(DecisionFor(r.outcome.decisions, t).action)
  {
    var g := GreenhouseOf(store, greenhouseId);
    var crop := CropOf(store, greenhouseId);
    var reading := ReadingOf(store, greenhouseId);
    var decisions := MakeDecision(store, greenhouseId, now).outcome.decisions;
    ApplyAllActuators(store, greenhouseId, g.systemMode, decisions, crop.name, Snapshot(reading), now);
  }

  /**
   * In MANUAL mode no existing actuator changes; the only new rows are the
   * missing ones getOrCreateActuator inserts, at state 0.
   */
  lemma ManualModeKeepsActuators(store: Store, greenhouseId: int, now: int)
    requires Ready(store, greenhouseId) && GreenhouseOf(store, greenhouseId).systemMode == Manual
    ensures var r := MakeDecision(store, greenhouseId, now);
            && r.writes == []
            && (forall k :: k in store.actuators ==> k in r.store.actuators && r.store.actuators[k] == store.actuators[k])
            && (forall k :: k in r.store.actuators && k !in store.actuators ==>
                  k.0 == greenhouseId && r.store.actuators[k].state == 0)
  {
    var r := MakeDecision(store, greenhouseId, now);
    if r.outcome.Decided? {
      var g := GreenhouseOf(store, greenhouseId);
      var crop := CropOf(store, greenhouseId);
      var reading := ReadingOf(store, greenhouseId);
      var decisions := r.outcome.decisions;
      ApplyAllActuators(store, greenhouseId, g.systemMode, decisions, crop.name, Snapshot(reading), now);
      ApplyAllWrites(store, greenhouseId, g.systemMode, decisions, crop.name, Snapshot(reading), now);
      forall k | k in r.store.actuators && k !in store.actuators
        ensures k.0 == greenhouseId && r.store.actuators[k].state == 0
      {
        assert r.store.actuators[(greenhouseId, k.1)].state == Target(store.actuators, greenhouseId, Manual, decisions, k.1);
      }
    }
  }

  /** Actuators of other greenhouses are never touched. */
  lemma OtherGreenhousesUntouched(store: Store, greenhouseId: int, now: int)
    ensures var r := MakeDecision(store, greenhouseId, now);
            forall k :: k in store.actuators && k.0 != greenhouseId ==>
              k in r.store.actuators && r.store.actuators[k] == store.actuators[k]
  {
    var r := MakeDecision(store, greenhouseId, now);
    if r.outcome.Decided? {
      var g := GreenhouseOf(store, greenhouseId);
      ApplyAllActuators(store, greenhouseId, g.systemMode, r.outcome.decisions,
                        CropOf(store, greenhouseId).name, Snapshot(ReadingOf(store, greenhouseId)), now);
    }
  }

  /** A state write happens exactly when the mode is AUTO and the stored state differs from the decision. */
  lemma WritesOnlyOnChange(store: Store, greenhouseId: int, now: int)
    requires MakeDecision(store, greenhouseId, now).outcome.Decided?
    ensures Ready(store, greenhouseId)
    ensures forall t: ActuatorType :: t in MakeDecision(store, greenhouseId, now).writes <==>
              && GreenhouseOf(store, greenhouseId).systemMode == Auto
              && PriorState(store.actuators, greenhouseId, t)
                 != StateOf(DecisionFor(MakeDecision(store, greenhouseId, now).outcome.decisions, t).action)
  {
    var r := MakeDecision(store, greenhouseId, now);
    var g := GreenhouseOf(store, greenhouseId);
    ApplyAllWrites(store, greenhouseId, g.systemMode, r.outcome.decisions,
                   CropOf(store, greenhouseId).name, Snapshot(ReadingOf(store, greenhouseId)), now);
    forall t: ActuatorType
      ensures t in r.writes <==> NeedsWrite(store.actuators, greenhouseId, g.systemMode, r.outcome.decisions, t)
    {
      match t
      case Pump =>
      case Fan =>
      case Light =>
    }
  }

  /** Running the mutation again at the same instant decides the same and writes nothing. */
  lemma RerunWritesNothing(store: Store, greenhouseId: int, now: int)
    requires MakeDecision(store, greenhouseId, now).outcome.Decided?
    ensures var r := MakeDecision(store, greenhouseId, now);
            var again := MakeDecision(r.store, greenhouseId, now);
            again.outcome == r.outcome && again.writes == []
  {
    var r := MakeDecision(store, greenhouseId, now);
    var g := GreenhouseOf(store, greenhouseId);
    var decisions := r.outcome.decisions;
    ApplyAllActuators(store, greenhouseId, g.systemMode, decisions,
                      CropOf(store, greenhouseId).name, Snapshot(ReadingOf(store, greenhouseId)), now);
    assert Ready(r.store, greenhouseId);
    var again := MakeDecision(r.store, greenhouseId, now);
    ApplyAllWrites(r.store, greenhouseId, g.systemMode, decisions,
                   CropOf(store, greenhouseId).name, Snapshot(ReadingOf(store, greenhouseId)), now);
    forall t: ActuatorType
      ensures !NeedsWrite(r.store.actuators, greenhouseId, g.systemMode, decisions, t)
    {
      if g.systemMode == Auto {
        assert PriorState(r.store.actuators, greenhouseId, t) == StateOf(DecisionFor(decisions, t).action);
      }
    }
  }

  /** Exactly three entries are appended, for PUMP, FAN and LIGHT in that order, each carrying its decision. */
  lemma LogsThreeEntries(store: Store, greenhouseId: int, now: int)
    requires MakeDecision(store, greenhouseId, now).outcome.Decided?
    ensures Ready(store, greenhouseId)
    ensures var r := MakeDecision(store, greenhouseId, now);
            && |r.store.log| == |store.log| + 3
            && r.store.log[..|store.log|] == store.log
            && forall i :: 0 <= i < 3 ==>
                 LogsDecision(r.store.log[|store.log| + i], greenhouseId, ActuatorOrder[i], r.outcome.decisions,
                              CropOf(store, greenhouseId), ReadingOf(store, greenhouseId))
  {
    var r := MakeDecision(store, greenhouseId, now);
    var n := |store.log|;
    assert r.store.log[n + 0].actuatorType == Pump;
    assert r.store.log[n + 1].actuatorType == Fan;
    assert r.store.log[n + 2].actuatorType == Light;
  }

  /** The stored state 0/1 gate of the loop agrees with the engine's change detector. */
  lemma WriteGateIsChangeDetector(stored: int, action: Action)
    requires stored == 0 || stored == 1
    ensures (stored != StateOf(action)) == HasActionChanged(Some(if stored == 1 then On else Off), action)
  {
  }
}
