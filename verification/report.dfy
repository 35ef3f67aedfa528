/** The HTML report `dumpproject` prints: fixed boilerplate, the hub and
    Wi-Fi lines, then one section per area holding one fragment per device
    and, for control devices, one list item per programmed device. */
module Report {
  import opened Html
  import opened Format
  import opened Catalog

  /** The name of the structural area the areas query leaves out. */
  const RootAreaName := "root"

  /** The `<div id='areas'>` that holds every area section. */
  const AreasDiv := Open(Div, " id='areas'")

  /** The element structure of the script and stylesheet boilerplate. */
  const Boilerplate: Line := [
    Comment(" JS "),
    Open(Script, " src=\"https://ajax.googleapis.com/ajax/libs/jquery/3.1.1/jquery.min.js\""),
    Close(Script),
    Open(Script, " type=\"text/javascript\""),
    Close(Script),
    Comment(" CSS "),
    Open(Style, " type='text/css'"),
    Close(Style)]

  const PrintButton: Line := [Void(Input, " type='button' value='Print' onClick='window.print()'")]

  const HubInfoOpen: Line := [Open(Div, " id='hub_info'")]

  const LineBreak := Void(Br, " /")

  const NotesBox: Line := [
    LineBreak,
    Open(Textarea, " rows='4' cols='30' placeholder='Enter notes here, e.g. The WiFi Password is Lutron123!'"),
    Close(Textarea),
    LineBreak]

  const ExpandCollapseLinks: Line := [
    Open(A, " href ='#' id ='showall' title='Expand All Areas'"), Text("&#8650;"), Close(A),
    Text(" | "),
    Open(A, " href ='#' id ='hideall' title='Collapse All Areas'"), Text("&#8649;"), Close(A)]

  /** Closes the hub-info div and opens the areas div. */
  const AreasOpen: Line := [Close(Div), LineBreak, AreasDiv]

  /** The `0x%08X` element id of a device. */
  function ElementId(serialNumber: int): string {
    "0x" + Hex8(serialNumber)
  }

  // ---------------------------------------------------------------------
  // The elements whose class the report's script acts on

  /** The opening tag of an area section. */
  predicate IsAreaDiv(t: Token) {
    t.Open? && t.tag == Div && EndsWith(t.attrs, "'area'")
  }

  /** The opening tag of a device fragment, control device or load controller. */
  predicate IsDeviceDiv(t: Token) {
    t.Open? && t.tag == Div
    && (EndsWith(t.attrs, "'control_device'") || EndsWith(t.attrs, "'load_controller'"))
  }

  /** A list item of an assigned-devices list. */
  predicate IsItem(t: Token) {
    t == ItemOpen
  }

  /** A list of any kind. */
  predicate IsList(t: Token) {
    t.Open? && t.tag == Ul
  }

  const DivClose := Close(Div)
  const ListOpen := Open(Ul, "")
  const ListClose := Close(Ul)
  const ItemOpen := Open(Li, "")
  const ItemClose := Close(Li)

  /** The area div (Python-2 reading: the name is formatted into the tag). */
  function AreaDiv(name: string): (t: Token)
    ensures t.Open? && t.tag == Div && IsAreaDiv(t) && !IsDeviceDiv(t)
  {
    var head, tail := " id= '" + name, "' class= 'area'";
    EndsWithTail(head, tail, "'area'");
    EndsWithTail(head, tail, "'control_device'");
    EndsWithTail(head, tail, "'load_controller'");
    Open(Div, head + tail)
  }

  function DevicesDiv(name: string): (t: Token)
    ensures t.Open? && t.tag == Div && !IsAreaDiv(t) && !IsDeviceDiv(t)
  {
    var head, tail := " id='" + name, "_devices' class= 'devices'";
    EndsWithTail(head, tail, "'area'");
    EndsWithTail(head, tail, "'control_device'");
    EndsWithTail(head, tail, "'load_controller'");
    Open(Div, head + tail)
  }

  function ControlDiv(id: string): (t: Token)
    ensures t.Open? && t.tag == Div && IsDeviceDiv(t) && !IsAreaDiv(t)
  {
    var head, tail := " id='" + id, "' class= 'control_device'";
    EndsWithTail(head, tail, "'area'");
    EndsWithTail(head, tail, "'control_device'");
    Open(Div, head + tail)
  }

  function AssignedDiv(id: string): (t: Token)
    ensures t.Open? && t.tag == Div && !IsAreaDiv(t) && !IsDeviceDiv(t)
  {
    var head, tail := " id ='" + id, "_assigned_devices' class='assigned_devices'";
    EndsWithTail(head, tail, "'area'");
    EndsWithTail(head, tail, "'control_device'");
    EndsWithTail(head, tail, "'load_controller'");
    Open(Div, head + tail)
  }

  function LoadDiv(id: string): (t: Token)
    ensures t.Open? && t.tag == Div && IsDeviceDiv(t) && !IsAreaDiv(t)
  {
    var head, tail := " id='" + id, "' class='load_controller'";
    EndsWithTail(head, tail, "'area'");
    EndsWithTail(head, tail, "'load_controller'");
    LoadClassTail();
    Open(Div, head + tail)
  }

  lemma LoadClassTail()
    ensures EndsWith("' class='load_controller'", "'load_controller'")
    ensures !EndsWith("' class='load_controller'", "'area'")
  {
    var tail := "' class='load_controller'";
    assert tail[|tail| - 2] == 'r';
  }

  // ---------------------------------------------------------------------
  // Hub and Wi-Fi

  function HubLines(hubs: seq<HubRow>): seq<Line>
    decreases |hubs|
  {
    if hubs == [] then []
    else [[Text("Hub Serial: " + Hex8(hubs[0].serialNumber))], [LineBreak]] + HubLines(hubs[1..])
  }

  function WifiLines(wifis: seq<WifiRow>): seq<Line>
    decreases |wifis|
  {
    if wifis == [] then []
    else [[Text("Wifi Name: " + wifis[0].ssid)], NotesBox] + WifiLines(wifis[1..])
  }

  // ---------------------------------------------------------------------
  // Devices

  function KindLabel(k: ControlKind): string {
    match k
    case PicoRemote => "Pico"
    case OccupancySensor => "Occupancy Sensor"
    case DaylightSensor => "Daylight Sensor"
  }

  function ControlHeading(d: DeviceRow, k: ControlKind, count: nat): string {
    "    " + d.modelNumber + ": " + d.name + " (SN: " + Hex8(d.serialNumber) + ") (This "
    + KindLabel(k) + " controls " + Decimal(count) + " devices)"
  }

  function ItemText(p: ProgrammedRow): string {
    "        " + p.modelNumber + ": " + p.name + " (SN: " + Hex8(p.serialNumber) + ")"
  }

  /** One `<li>` per programmed device, in row order. */
  function ItemLines(rows: seq<ProgrammedRow>): seq<Line>
    decreases |rows|
  {
    if rows == [] then []
    else [[ItemOpen], [Text(ItemText(rows[0]))], [ItemClose]] + ItemLines(rows[1..])
  }

  /** The fragment of a Pico remote or sensor and the devices it controls. */
  function ControlFragment(d: DeviceRow, k: ControlKind, rows: seq<ProgrammedRow>): seq<Line> {
    [ [ControlDiv(ElementId(d.serialNumber))],
      [Text(ControlHeading(d, k, |rows|))],
      [DivClose, AssignedDiv(ElementId(d.serialNumber)), ListOpen] ]
    + ItemLines(rows)
    + [ [ListClose, DivClose] ]
  }

  function LoadHeading(d: DeviceRow): string {
    "    " + d.modelNumber + ": " + d.name + " (SN: " + Hex8(d.serialNumber) + ") (v"
    + StripLeadingZeros(d.firmwareRevision) + ")"
  }

  /** The one-element fragment of a load controller. */
  function LoadFragment(d: DeviceRow): seq<Line> {
    [ [LoadDiv(ElementId(d.serialNumber))],
      [Text(LoadHeading(d))],
      [DivClose] ]
  }

  /** The fragment of one device row, chosen by its category. */
  function Fragment(db: Database, d: DeviceRow): seq<Line> {
    match Classify(d.classInfoId)
    case Control(k) => ControlFragment(d, k, ProgrammedFor(db, k, d.deviceId))
    case LoadController => LoadFragment(d)
  }

  function Fragments(db: Database, devices: seq<DeviceRow>): seq<Line>
    decreases |devices|
  {
    if devices == [] then [] else Fragment(db, devices[0]) + Fragments(db, devices[1..])
  }

  // ---------------------------------------------------------------------
  // Areas

  function AreaHeading(name: string, count: nat): string {
    "Area: " + name + " (There are " + Decimal(count) + " total devices in this Area)"
  }

  const SectionClose: Line := [ListClose, DivClose, DivClose]

  function Section(db: Database, a: AreaRow): seq<Line> {
    var devices := DevicesIn(db, a.areaId);
    [[AreaDiv(a.name)], [Text(AreaHeading(a.name, |devices|))], [DevicesDiv(a.name), ListOpen]]
    + Fragments(db, devices)
    + [SectionClose]
  }

  /** The areas the query returns: every row not named "root", in order. */
  function ReportedAreas(areas: seq<AreaRow>): (r: seq<AreaRow>)
    ensures |r| <= |areas|
    ensures forall a :: a in r <==> a in areas && a.name != RootAreaName
    decreases |areas|
  {
    if areas == [] then []
    else (if areas[0].name == RootAreaName then [] else [areas[0]]) + ReportedAreas(areas[1..])
  }

  function Sections(db: Database, areas: seq<AreaRow>): seq<Line>
    decreases |areas|
  {
    if areas == [] then [] else Section(db, areas[0]) + Sections(db, areas[1..])
  }

  // ---------------------------------------------------------------------
  // The whole document

  /** Everything printed before the first area section. */
  function Preamble(db: Database): seq<Line> {
    [Boilerplate, PrintButton, HubInfoOpen]
    + HubLines(db.hubs)
    + WifiLines(db.wifis)
    + [ExpandCollapseLinks, AreasOpen]
  }

  function Document(db: Database): seq<Line> {
    Preamble(db) + Sections(db, ReportedAreas(db.areas))
  }

  /** The characters `dumpproject` writes to standard output, apart from
      the text inside the script and style boilerplate, which `Boilerplate`
      reduces to its elements. */
  function Output(db: Database): string {
    Print(Document(db))
  }
}
