/**
 * The device records of `/api/monitoring` (and of the `sensor_data_update` socket event) as the
 * monitoring and location pages read them (hydroalert-frontend/src/pages/pemantauan.tsx:8-24,
 * lokasi.tsx:11-18). The nested `water`, `wind` and `rain` objects are flattened; every field
 * may be missing.
 */
module MonitoringApi {
  import opened Wrappers

  /** A location: free text, an object with optional coordinates, or nothing (`undefined`/`null`). */
  datatype LocationValue =
    | LocText(text: string)
    | LocObject(latitude: Option<real>, longitude: Option<real>)
    | LocAbsent

  datatype DeviceRecord = DeviceRecord(
    deviceID: Option<string>,
    location: LocationValue,
    lastActive: Option<string>,
    waterLevel: Option<real>,
    waterStatus: Option<string>,
    waterUpdatedAt: Option<string>,
    windSpeed: Option<real>,
    rainIntensity: Option<real>,
    imageUrl: Option<string>)
}
