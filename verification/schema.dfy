/**
 * Row types of the greenhouse database (drizzle/schema.ts), restricted to the
 * columns the decision path and the device endpoints read or write.
 * Timestamps are milliseconds since the epoch.
 */
module Schema {
  import opened Wrappers

  /** One sensor observation. `temperature` is the stored integer, degrees Celsius times 100. */
  datatype SensorReading = SensorReading(
    id: int,
    greenhouseId: int,
    temperature: int,
    humidity: int,
    soilMoisture: int,
    lightLevel: int,
    timestamp: int)

  /** The three actuator kinds of the `actuators.type` enum. */
  datatype ActuatorType = Pump | Fan | Light

  /** The `greenhouses.systemMode` enum. */
  datatype SystemMode = Auto | Manual

  /** A greenhouse row; the selected crop and the planting date are nullable. */
  datatype Greenhouse = Greenhouse(
    id: int,
    userId: int,
    selectedCropId: Option<int>,
    plantingDate: Option<int>,
    systemMode: SystemMode)

  /** The mutable part of an actuator row: 1 = ON, 0 = OFF, and when it last changed. */
  datatype Actuator = Actuator(state: int, lastToggled: int)
}
