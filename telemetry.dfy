/** The vocabulary shared by every component: the telemetry record written to one
    `.log` file, the six device statuses, the four device types and the five
    mission codes. */
module Telemetry {

  /** One log file's content: the JSON object with keys date, mission,
      device_type, device_status and hash. */
  datatype Record = Record(
    date: string,
    mission: string,
    deviceType: string,
    deviceStatus: string,
    hash: string)

  /** The status keys of a counter dictionary, in the order the counters are
      initialised (and therefore iterated). */
  const StatusNames: seq<string> := ["excellent", "good", "warning", "faulty", "killed", "unknown"]

  const DeviceTypes: seq<string> := ["Satélite", "Nave", "Traje", "Vehículo espacial"]

  const MissionCodes: seq<string> := ["ORBONE", "CLNM", "TMRS", "GALXONE", "UNKN"]

  /** Outcome of an operation that may raise; the error carries the dictionary
      key whose lookup failed (a Python KeyError). */
  datatype Result<T> = Success(value: T) | Failure(error: string)

  /** A value or Python's None. */
  datatype Option<T> = None | Some(value: T)
}
