/**
 * The drone feed after XML parsing, and the records the poller derives from it
 * (index.js:14-23). The parser's output is given as already-structured data;
 * the capture's `snapshotTimestamp` attribute is already converted to epoch
 * milliseconds.
 */
module Feed {
  import opened Wrappers

  /** A position in the feed's coordinate units. */
  datatype Position = Position(positionX: real, positionY: real)

  /** One observed drone: its serial, its position and the capture timestamp. */
  datatype DroneInfo = DroneInfo(serialNumber: string, position: Position, timestamp: int)

  /** A `<drone>` element of the parsed document. */
  datatype DroneElement = DroneElement(serialNumber: string, positionX: real, positionY: real)

  /** The `<capture>` element; `drone` is None when the element has no drones. */
  datatype CaptureElement = CaptureElement(snapshotTimestamp: int, drone: Option<seq<DroneElement>>)

  /** The `<report>` element. */
  datatype ReportElement = ReportElement(capture: Option<CaptureElement>)

  /** The whole parsed document. */
  datatype ParsedXml = ParsedXml(report: Option<ReportElement>)

  /** The optional chain `parsedXml?.report?.capture?.drone` reaches a drone list. */
  predicate HasDroneList(parsed: ParsedXml) {
    parsed.report.Some? && parsed.report.value.capture.Some? && parsed.report.value.capture.value.drone.Some?
  }

  /** Builds the record for one drone element under the capture timestamp. */
  function InfoExtractor(timestamp: int, d: DroneElement): DroneInfo {
    DroneInfo(d.serialNumber, Position(d.positionX, d.positionY), timestamp)
  }

  /** `drone.map(infoExtractor(timestamp))`: one record per element, in feed order. */
  function ExtractAll(drones: seq<DroneElement>, timestamp: int): (r: seq<DroneInfo>)
    ensures |r| == |drones|
    ensures forall i :: 0 <= i < |drones| ==>
      r[i].serialNumber == drones[i].serialNumber &&
      r[i].position.positionX == drones[i].positionX &&
      r[i].position.positionY == drones[i].positionY &&
      r[i].timestamp == timestamp
  {
    if drones == [] then [] else [InfoExtractor(timestamp, drones[0])] + ExtractAll(drones[1..], timestamp)
  }

  /**
   * No drone list: no records. Otherwise one record per drone, in feed order,
   * each carrying its drone's serial and position and the one capture timestamp.
   */
  function ExtractDroneInfo(parsed: ParsedXml): (r: seq<DroneInfo>)
    ensures !HasDroneList(parsed) ==> r == []
    ensures HasDroneList(parsed) ==>
      var capture := parsed.report.value.capture.value;
      var drones := capture.drone.value;
      |r| == |drones| &&
      forall i :: 0 <= i < |drones| ==>
        r[i].serialNumber == drones[i].serialNumber &&
        r[i].position == Position(drones[i].positionX, drones[i].positionY) &&
        r[i].timestamp == capture.snapshotTimestamp
  {
    if HasDroneList(parsed) then
      var capture := parsed.report.value.capture.value;
      ExtractAll(capture.drone.value, capture.snapshotTimestamp)
    else
      []
  }
}
