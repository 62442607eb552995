/**
 * The stored records (the Mongoose schemas under hydroalert-backend/src/models) and the cached device status.
 * Times are milliseconds since the epoch; levels are in cm.
 */
module Models {
  import opened Wrappers

  datatype Location = Location(latitude: Option<real>, longitude: Option<real>)

  /** Device: `location` is absent for auto-registered devices. */
  datatype Device = Device(deviceID: string, location: Option<Location>, lastActive: int)

  /** SensorData, with the `createdAt` its timestamps option adds. */
  datatype SensorData = SensorData(
    deviceID: string, rainIntensity: real, waterLevel: real, windSpeed: real,
    status: string, createdAt: int)

  /**
   * The body of a notification message. The source interpolates the level and the device id
   * into fixed Indonesian sentences; the model keeps which sentence and what was put in it.
   */
  datatype MessageText =
    | SiagaMessage(deviceID: string, level: real)
    | WaspadaMessage(level: real)
    | BahayaMessage(level: real)
    | FallbackMessage(status: string, level: real)

  /** A stored notification; `avgWaterLevel` is the level of the reading that raised it. */
  datatype Notification = Notification(
    deviceID: string, severity: string, title: string, message: MessageText,
    avgWaterLevel: real, createdAt: int)

  /** Sort keys for `sort({ createdAt: 1 })` and `sort({ createdAt: -1 })`. */
  function OldestFirst(n: Notification): int { n.createdAt }
  function NewestFirst(n: Notification): int { -n.createdAt }

  datatype ImageRecord = ImageRecord(deviceID: string, imageUrl: string)

  /** One value of the `latest_device_status` hash, as parsed from its JSON text. */
  datatype CacheEntry = CacheEntry(
    deviceID: string, waterLevel: real, rainIntensity: real, windSpeed: real,
    status: string, updatedAt: int)
}
