/** The rows the report reads from the hub's database, and the static
    device-class tables that sort devices into categories. */
module Catalog {

  /** The name and serial number of device 1, the hub. */
  datatype HubRow = HubRow(name: string, serialNumber: int)

  /** The SSID of one Wi-Fi settings row. */
  datatype WifiRow = WifiRow(ssid: string)

  /** A row of the Area table. */
  datatype AreaRow = AreaRow(areaId: int, name: string)

  /** A device of an area joined to its class-info row. The column the
      report labels as a designer tag is the class-info model number. */
  datatype DeviceRow = DeviceRow(
    deviceId: int,
    name: string,
    classInfoId: int,
    serialNumber: int,
    modelNumber: string,
    shortDescription: string,
    firmwareRevision: string)

  /** A device a control device is programmed to affect. */
  datatype ProgrammedRow = ProgrammedRow(
    name: string,
    serialNumber: int,
    modelNumber: string,
    shortDescription: string)

  /** The devices that have programming of their own. */
  datatype ControlKind = PicoRemote | OccupancySensor | DaylightSensor

  /** The four mutually exclusive device categories. */
  datatype Category = Control(kind: ControlKind) | LoadController

  /** Class-info ids of the Pico remotes and the 4-group RF remote. */
  const PicoIds: seq<int> := [12, 21, 22, 23, 24, 25, 32, 33, 34, 35]

  /** Class-info id of the wireless ceiling-mounted occupancy/vacancy sensor. */
  const OccupancySensorIds: seq<int> := [11]

  /** Class-info id of the wireless daylight sensor. */
  const DaylightSensorIds: seq<int> := [46]

  function IdList(k: ControlKind): seq<int> {
    match k
    case PicoRemote => PicoIds
    case OccupancySensor => OccupancySensorIds
    case DaylightSensor => DaylightSensorIds
  }

  /** The category of a class-info id: the tables are checked in the order
      Pico, occupancy, daylight, and an id in none of them is a load
      controller. */
  function Classify(classInfoId: int): (c: Category)
    ensures c.Control? ==> classInfoId in IdList(c.kind)
    ensures c.LoadController? <==> forall k: ControlKind :: classInfoId !in IdList(k)
  {
    if classInfoId in PicoIds then Control(PicoRemote)
    else if classInfoId in OccupancySensorIds then Control(OccupancySensor)
    else if classInfoId in DaylightSensorIds then Control(DaylightSensor)
    else LoadController
  }

  /** No class-info id is in two tables, so the order in which they are
      checked does not matter. */
  lemma TablesDisjoint(j: ControlKind, k: ControlKind, id: int)
    requires id in IdList(j) && id in IdList(k)
    ensures j == k
  {
  }

  /** Every id of a table is classified into that table's kind. */
  lemma ClassifyExclusive(k: ControlKind, id: int)
    ensures Classify(id) == Control(k) <==> id in IdList(k)
  {
    if id in IdList(k) && Classify(id) != Control(k) {
      TablesDisjoint(Classify(id).kind, k, id);
    }
  }

  /** The categories of all ids, as explicit sets. */
  lemma ClassifyTable(id: int)
    ensures Classify(id) == Control(PicoRemote) <==> id in {12, 21, 22, 23, 24, 25, 32, 33, 34, 35}
    ensures Classify(id) == Control(OccupancySensor) <==> id == 11
    ensures Classify(id) == Control(DaylightSensor) <==> id == 46
    ensures Classify(id) == LoadController <==> id !in {11, 12, 21, 22, 23, 24, 25, 32, 33, 34, 35, 46}
  {
  }

  /** The result of each query, standing for the database. Devices are
      listed per area id (the rows whose container is that area) and
      programmed devices per control kind and device id (the result of that
      kind's `SELECT DISTINCT` join chain); a missing key stands for a
      query that returned no rows. */
  datatype Database = Database(
    hubs: seq<HubRow>,
    wifis: seq<WifiRow>,
    areas: seq<AreaRow>,
    devicesByArea: map<int, seq<DeviceRow>>,
    programming: map<(ControlKind, int), seq<ProgrammedRow>>)

  /** The devices query for one area. */
  function DevicesIn(db: Database, areaId: int): seq<DeviceRow>
  {
    if areaId in db.devicesByArea then db.devicesByArea[areaId] else []
  }

  /** The programming query of a control device's kind. */
  function ProgrammedFor(db: Database, k: ControlKind, deviceId: int): seq<ProgrammedRow>
  {
    if (k, deviceId) in db.programming then db.programming[(k, deviceId)] else []
  }
}
