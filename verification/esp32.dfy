/**
 * The pure parts of the device router (server/routers/esp32.ts): range
 * validation and storage of an incoming reading, the inclusive time-range
 * filter, the per-field statistics, and the fold from actuator rows to the
 * boolean commands a device polls.
 */
module Esp32 {
  import opened Wrappers
  import opened Schema
  import opened DecisionEngine

  /** A reading as a device sends it; temperature in whole degrees Celsius. */
  datatype SensorPayload = SensorPayload(
    deviceId: string,
    temperature: int,
    humidity: int,
    soilMoisture: int,
    lightLevel: int,
    timestamp: Option<int>)

  datatype Field = Temperature | Humidity | SoilMoisture | LightLevel

  /** An inclusive range. */
  datatype Bounds = Bounds(lo: int, hi: int)
  {
    predicate Contains(v: int)
    {
      lo <= v <= hi
    }
  }

  /** The ranges the ingestion schema enforces. */
  function BoundsOf(f: Field): Bounds
  {
    match f
    case Temperature => Bounds(-50, 60)
    case Humidity => Bounds(0, 100)
    case SoilMoisture => Bounds(0, 100)
    case LightLevel => Bounds(0, 100000)
  }

  function PayloadValue(p: SensorPayload, f: Field): int
  {
    match f
    case Temperature => p.temperature
    case Humidity => p.humidity
    case SoilMoisture => p.soilMoisture
    case LightLevel => p.lightLevel
  }

  /** The greenhouse the device endpoints are wired to: readings are filed under it and commands read from it. */
  const DeviceGreenhouseId: int := 1

  /** The fields of a payload that fall outside their range. */
  function Violations(p: SensorPayload): (bad: set<Field>)
    ensures Temperature in bad <==> p.temperature < -50 || p.temperature > 60
    ensures Humidity in bad <==> p.humidity < 0 || p.humidity > 100
    ensures SoilMoisture in bad <==> p.soilMoisture < 0 || p.soilMoisture > 100
    ensures LightLevel in bad <==> p.lightLevel < 0 || p.lightLevel > 100000
  {
    set f: Field | f in {Temperature, Humidity, SoilMoisture, LightLevel} && !BoundsOf(f).Contains(PayloadValue(p, f))
  }

  /** The stored timestamp: the supplied one unless it is absent or 0 (falsy), else now. */
  function StoredTimestamp(supplied: Option<int>, now: int): (ts: int)
    ensures supplied.Some? && supplied.value != 0 ==> ts == supplied.value
    ensures supplied.None? || supplied.value == 0 ==> ts == now
  {
    match supplied
    case Some(t) => if t != 0 then t else now
    case None => now
  }

  /**
   * `ingestSensorData` as written: a payload with an out-of-range field is
   * rejected with the fields at fault; otherwise the values are stored as
   * received, temperature included, under greenhouse 1. `newId` is the id
   * the database assigns.
   */
  function IngestSensorData(p: SensorPayload, newId: int, now: int): (r: Result<SensorReading, set<Field>>)
    ensures r.Ok? <==>
              && -50 <= p.temperature <= 60 && 0 <= p.humidity <= 100
              && 0 <= p.soilMoisture <= 100 && 0 <= p.lightLevel <= 100000
    ensures r.Err? ==> r.error != {} && r.error == Violations(p)
    ensures r.Ok? ==>
              && r.value.id == newId
              && r.value.greenhouseId == DeviceGreenhouseId
              && r.value.temperature == p.temperature
              && r.value.humidity == p.humidity
              && r.value.soilMoisture == p.soilMoisture
              && r.value.lightLevel == p.lightLevel
              && r.value.timestamp == StoredTimestamp(p.timestamp, now)
  {
    var bad := Violations(p);
    if bad != {} then Err(bad)
    else
      Ok(SensorReading(newId, DeviceGreenhouseId, p.temperature, p.humidity, p.soilMoisture, p.lightLevel,
                       StoredTimestamp(p.timestamp, now)))
  }

  /**
   * The corrected ingestion: identical, except that the temperature is stored
   * in the scaled form (times 100) every reader of the table expects.
   */
  function IngestSensorDataScaled(p: SensorPayload, newId: int, now: int): (r: Result<SensorReading, set<Field>>)
    ensures r.Ok? <==> Violations(p) == {}
    ensures r.Err? ==> r.error == Violations(p)
    ensures r.Ok? ==>
              && Celsius(r.value.temperature) == p.temperature as real
              && r.value.greenhouseId == DeviceGreenhouseId
              && r.value.humidity == p.humidity
              && r.value.soilMoisture == p.soilMoisture
              && r.value.lightLevel == p.lightLevel
              && r.value.timestamp == StoredTimestamp(p.timestamp, now)
  {
    match IngestSensorData(p, newId, now)
    case Err(bad) => Err(bad)
    case Ok(reading) => Ok(reading.(temperature := 100 * p.temperature))
  }

  /**
   * As written, an accepted reading can never trip the fan's temperature
   * rule for a stage whose maximum is at least 1 degree: the stored value
   * is read back as hundredths of a degree.
   */
  lemma IngestedHeatNeverVentilates(p: SensorPayload, newId: int, now: int, stage: CropStage)
    requires IngestSensorData(p, newId, now).Ok?
    requires stage.tempMax >= 1
    ensures var reading := IngestSensorData(p, newId, now).value;
            FanDecision("", "", stage, reading.temperature, reading.humidity).reason != TempAboveMax(reading.temperature, stage.tempMax)
  {
  }

  /** The corrected ingestion trips the fan's temperature rule exactly when the device reports more than the maximum. */
  lemma ScaledIngestVentilatesWhenHot(p: SensorPayload, newId: int, now: int, stage: CropStage)
    requires IngestSensorDataScaled(p, newId, now).Ok?
    ensures var reading := IngestSensorDataScaled(p, newId, now).value;
            var fan := FanDecision("", "", stage, reading.temperature, reading.humidity);
            fan.reason.TempAboveMax? <==> p.temperature > stage.tempMax
  {
  }

  /**
   * A device reporting 36 degrees to a Maize crop in its Mid stage (maximum 35):
   * as written the fan stays off; with the scaled ingestion it switches on.
   */
  lemma HotDayIngestExample(now: int)
    ensures var p := SensorPayload("esp32-001", 36, 65, 70, 8000, None);
            && IngestSensorData(p, 1, now).Ok?
            && MakeDecisions(Maize, IngestSensorData(p, 1, now).value, 47).fan.action == Off
            && IngestSensorDataScaled(p, 1, now).Ok?
            && MakeDecisions(Maize, IngestSensorDataScaled(p, 1, now).value, 47).fan == Decision(On, TempAboveMax(3600, 35))
  {
    MaizeSchedule();
    GrowthStageWithinSchedule(MaizeStages, 47, 2);
  }

  // ---------------------------------------------------------------- time range

  predicate InWindow(r: SensorReading, startTime: int, endTime: int)
  {
    startTime <= r.timestamp <= endTime
  }

  /** Newest first, as the query orders them. */
  predicate NewestFirst(readings: seq<SensorReading>)
  {
    forall i, j :: 0 <= i < j < |readings| ==> readings[i].timestamp >= readings[j].timestamp
  }

  /** `xs` is `ys` with some elements dropped. */
  predicate IsSubsequence<T(==)>(xs: seq<T>, ys: seq<T>)
    decreases |ys|
  {
    if xs == [] then true
    else if ys == [] then false
    else if xs[0] == ys[0] then IsSubsequence(xs[1..], ys[1..])
    else IsSubsequence(xs, ys[1..])
  }

  /** `getReadingsByTimeRange`: the readings inside the window, both ends included, in their original order. */
  function ReadingsInRange(readings: seq<SensorReading>, startTime: int, endTime: int): (r: seq<SensorReading>)
    ensures forall x :: x in r <==> x in readings && InWindow(x, startTime, endTime)
    decreases |readings|
  {
    if |readings| == 0 then []
    else
      var rest := ReadingsInRange(readings[1..], startTime, endTime);
      assert forall x :: x in readings <==> x == readings[0] || x in readings[1..];
      if InWindow(readings[0], startTime, endTime) then [readings[0]] + rest else rest
  }

  /** Each reading inside the window is kept as often as it occurs; the others are dropped. */
  lemma {:induction false} ReadingsInRangeCounts(readings: seq<SensorReading>, startTime: int, endTime: int)
    ensures forall x :: multiset(ReadingsInRange(readings, startTime, endTime))[x] ==
              if InWindow(x, startTime, endTime) then multiset(readings)[x] else 0
    decreases |readings|
  {
    if |readings| > 0 {
      ReadingsInRangeCounts(readings[1..], startTime, endTime);
      assert readings == [readings[0]] + readings[1..];
      assert multiset(readings) == multiset{readings[0]} + multiset(readings[1..]);
    }
  }

  /** The filter keeps the original order: its result is a subsequence, newest first when the input is. */
  lemma {:induction false} ReadingsInRangeKeepsOrder(readings: seq<SensorReading>, startTime: int, endTime: int)
    ensures IsSubsequence(ReadingsInRange(readings, startTime, endTime), readings)
    ensures NewestFirst(readings) ==> NewestFirst(ReadingsInRange(readings, startTime, endTime))
    decreases |readings|
  {
    if |readings| > 0 {
      var rest := ReadingsInRange(readings[1..], startTime, endTime);
      ReadingsInRangeKeepsOrder(readings[1..], startTime, endTime);
      if NewestFirst(readings) {
        assert NewestFirst(readings[1..]);
        forall x | x in rest
          ensures readings[0].timestamp >= x.timestamp
        {
          var k :| 0 <= k < |readings[1..]| && readings[1..][k] == x;
          assert readings[k + 1] == x;
        }
      }
    }
  }

  // ---------------------------------------------------------------- statistics

  datatype FieldStats = FieldStats(min: int, max: int, avg: real)

  datatype AggregatedStats = AggregatedStats(
    temperature: FieldStats,
    humidity: FieldStats,
    soilMoisture: FieldStats,
    lightLevel: FieldStats,
    count: nat)

  /** At most this many of the newest readings enter the statistics. */
  const StatsWindow: nat := 1000

  function Sum(values: seq<int>): int
  {
    if |values| == 0 then 0 else Sum(values[..|values| - 1]) + values[|values| - 1]
  }

  function MinOf(values: seq<int>): (m: int)
    requires |values| > 0
    ensures m in values
    ensures forall v :: v in values ==> m <= v
  {
    if |values| == 1 then values[0]
    else
      var rest := MinOf(values[1..]);
      assert values == [values[0]] + values[1..];
      if values[0] <= rest then values[0] else rest
  }

  function MaxOf(values: seq<int>): (m: int)
    requires |values| > 0
    ensures m in values
    ensures forall v :: v in values ==> v <= m
  {
    if |values| == 1 then values[0]
    else
      var rest := MaxOf(values[1..]);
      assert values == [values[0]] + values[1..];
      if values[0] >= rest then values[0] else rest
  }

  lemma {:induction false} SumBounds(values: seq<int>, lo: int, hi: int)
    requires forall v :: v in values ==> lo <= v <= hi
    ensures |values| * lo <= Sum(values) <= |values| * hi
  {
    if |values| > 0 {
      var init := values[..|values| - 1];
      assert forall v :: v in init ==> v in values;
      SumBounds(init, lo, hi);
      assert values[|values| - 1] in values;
    }
  }

  /** The mean of `n` values summing to `sum`, all between `lo` and `hi`, lies between them too. */
  lemma MeanBetween(sum: int, n: int, lo: int, hi: int)
    requires n > 0 && n * lo <= sum <= n * hi
    ensures lo as real <= sum as real / n as real <= hi as real
  {
    var avg := sum as real / n as real;
    assert avg * n as real == sum as real;
    assert (n * lo) as real == n as real * lo as real;
    assert (n * hi) as real == n as real * hi as real;
  }

  /**
   * `st` summarises `values`: its minimum and maximum occur in it and bound it,
   * its mean times the count is the sum, and the mean lies between them.
   */
  predicate Summarises(st: FieldStats, values: seq<int>)
  {
    && st.min in values && st.max in values
    && (forall v :: v in values ==> st.min <= v <= st.max)
    && st.avg * |values| as real == Sum(values) as real
    && st.min as real <= st.avg <= st.max as real
  }

  /** `calculateStats`: minimum, maximum and mean of a non-empty list. */
  function CalculateStats(values: seq<int>): (s: FieldStats)
    requires |values| > 0
    ensures Summarises(s, values)
  {
    var lo := MinOf(values);
    var hi := MaxOf(values);
    SumBounds(values, lo, hi);
    MeanBetween(Sum(values), |values|, lo, hi);
    FieldStats(lo, hi, Sum(values) as real / |values| as real)
  }

  function ReadingValue(r: SensorReading, f: Field): int
  {
    match f
    case Temperature => r.temperature
    case Humidity => r.humidity
    case SoilMoisture => r.soilMoisture
    case LightLevel => r.lightLevel
  }

  function Column(readings: seq<SensorReading>, f: Field): (values: seq<int>)
    ensures |values| == |readings|
    ensures forall i :: 0 <= i < |readings| ==> values[i] == ReadingValue(readings[i], f)
  {
    seq(|readings|, i requires 0 <= i < |readings| => ReadingValue(readings[i], f))
  }

  function StatsOf(s: AggregatedStats, f: Field): FieldStats
  {
    match f
    case Temperature => s.temperature
    case Humidity => s.humidity
    case SoilMoisture => s.soilMoisture
    case LightLevel => s.lightLevel
  }

  /**
   * `getAggregatedStats` over a greenhouse's readings, newest first: the
   * statistics of the newest 1000 readings, or all zeros when there are none.
   */
  function GetAggregatedStats(readings: seq<SensorReading>): (s: AggregatedStats)
    ensures s.count <= |readings| && s.count <= StatsWindow
    ensures s.count == |readings| || s.count == StatsWindow
    ensures s.count == 0 ==> forall f: Field :: StatsOf(s, f) == FieldStats(0, 0, 0.0)
    ensures s.count > 0 ==> forall f: Field :: Summarises(StatsOf(s, f), Column(readings[..s.count], f))
  {
    var window := readings[..if |readings| < StatsWindow then |readings| else StatsWindow];
    if |window| == 0 then
      var zero := FieldStats(0, 0, 0.0);
      AggregatedStats(zero, zero, zero, zero, 0)
    else
      var s := AggregatedStats(
        CalculateStats(Column(window, Temperature)),
        CalculateStats(Column(window, Humidity)),
        CalculateStats(Column(window, SoilMoisture)),
        CalculateStats(Column(window, LightLevel)),
        |window|);
      StatsOfEachField(s, window);
      s
  }

  lemma StatsOfEachField(s: AggregatedStats, window: seq<SensorReading>)
    requires |window| > 0
    requires s.temperature == CalculateStats(Column(window, Temperature))
    requires s.humidity == CalculateStats(Column(window, Humidity))
    requires s.soilMoisture == CalculateStats(Column(window, SoilMoisture))
    requires s.lightLevel == CalculateStats(Column(window, LightLevel))
    ensures forall f :: Summarises(StatsOf(s, f), Column(window, f))
  {
    forall f
      ensures Summarises(StatsOf(s, f), Column(window, f))
    {
      match f
      case Temperature =>
      case Humidity =>
      case SoilMoisture =>
      case LightLevel =>
    }
  }

  // ---------------------------------------------------------------- commands

  datatype ActuatorRow = ActuatorRow(id: int, greenhouseId: int, actuatorType: ActuatorType, state: int)

  /** The boolean commands a device polls. */
  datatype Commands = Commands(pump: bool, fan: bool, light: bool)

  function CommandOf(c: Commands, t: ActuatorType): bool
  {
    match t
    case Pump => c.pump
    case Fan => c.fan
    case Light => c.light
  }

  /** The last row of greenhouse 1 with type `t`, searching from the end. */
  function LastRowOf(rows: seq<ActuatorRow>, t: ActuatorType): (r: Option<nat>)
    ensures r.Some? ==>
              && r.value < |rows|
              && rows[r.value].greenhouseId == DeviceGreenhouseId && rows[r.value].actuatorType == t
              && forall j :: r.value < j < |rows| ==> !(rows[j].greenhouseId == DeviceGreenhouseId && rows[j].actuatorType == t)
    ensures r.None? ==> forall j :: 0 <= j < |rows| ==> !(rows[j].greenhouseId == DeviceGreenhouseId && rows[j].actuatorType == t)
    decreases |rows|
  {
    if |rows| == 0 then None
    else
      var last := rows[|rows| - 1];
      if last.greenhouseId == DeviceGreenhouseId && last.actuatorType == t then Some(|rows| - 1)
      else LastRowOf(rows[..|rows| - 1], t)
  }

  /** Command for `t`: on exactly when the last matching row has state 1; off when there is none. */
  predicate Commanded(rows: seq<ActuatorRow>, t: ActuatorType)
  {
    match LastRowOf(rows, t)
    case Some(i) => rows[i].state == 1
    case None => false
  }

  /** `getActuatorCommands`: all off, then each row of greenhouse 1 overrides its type's command. */
  method GetActuatorCommands(rows: seq<ActuatorRow>) returns (c: Commands)
    ensures c.pump == Commanded(rows, Pump)
    ensures c.fan == Commanded(rows, Fan)
    ensures c.light == Commanded(rows, Light)
  {
    c := Commands(false, false, false);
    var i := 0;
    while i < |rows|
      invariant 0 <= i <= |rows|
      invariant c.pump == Commanded(rows[..i], Pump)
      invariant c.fan == Commanded(rows[..i], Fan)
      invariant c.light == Commanded(rows[..i], Light)
    {
      var row := rows[i];
      assert rows[..i + 1][..i] == rows[..i];
      if row.greenhouseId == DeviceGreenhouseId {
        if row.actuatorType == Pump { c := c.(pump := row.state == 1); }
        if row.actuatorType == Fan { c := c.(fan := row.state == 1); }
        if row.actuatorType == Light { c := c.(light := row.state == 1); }
      }
      i := i + 1;
    }
    assert rows[..|rows|] == rows;
  }

  /** A row of another type or another greenhouse leaves a command as it was. */
  lemma UnrelatedRowKeepsCommand(rows: seq<ActuatorRow>, row: ActuatorRow, t: ActuatorType)
    requires row.greenhouseId != 1 || row.actuatorType != t
    ensures Commanded(rows + [row], t) == Commanded(rows, t)
  {
    assert (rows + [row])[..|rows|] == rows;
  }
}
