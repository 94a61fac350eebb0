/** Reading the tags of an OpenStreetMap element: which streets carry cars, and which way. */
module OsmTags {
  import opened Results
  import opened Roads

  type Tags = map<string, string>

  datatype ImportError =
    | TooManyElements | InvalidIdentifier | InvalidCoordinate | NodeAccess
    | DuplicateNode | TooManyNodes | DuplicateWay | TooManyWays | TurnRestriction
    | ShortWay | TooManyMembers | MissingNode
    | Barrier | Conditional | DirectionalAccess | ScopedAccess | UnsupportedDirection
    | TooManySegments | RepeatedSegment | InvalidGeometry | NoRoads
    | Disconnected | NoComponent | PackRefused | PackTooLarge

  const ACCESS: set<string> := {"access", "vehicle", "motor_vehicle", "motorcar"}
  const RESTRICTIONS: set<string> := ACCESS + {"oneway"}
  const ALLOWED: set<string> := {"yes", "designated", "permissive"}

  /** The parts of a key between colons. */
  function Parts(key: string): (parts: seq<string>)
    ensures |parts| > 0
  {
    if key == [] then [""]
    else
      var rest := Parts(key[1..]);
      if key[0] == ':' then [""] + rest else [[key[0]] + rest[0]] + rest[1..]
  }

  predicate RefusesNode(tags: Tags) {
    exists key <- tags.Keys :: key == "barrier" || Parts(key)[0] in ACCESS
  }

  predicate IsTurnRestriction(tags: Tags) {
    || ("type" in tags && tags["type"] == "restriction")
    || exists key <- tags.Keys :: key == "restriction" || "restriction:" <= key
  }

  /** The road class of a way, if it is one of the classes that are imported. */
  function RoadClass(tags: Tags): Option<RoadKind> {
    if "highway" !in tags then None
    else match tags["highway"]
      case "motorway" => Some(Motorway)
      case "motorway_link" => Some(Motorway)
      case "trunk" => Some(Trunk)
      case "trunk_link" => Some(Trunk)
      case "primary" => Some(Primary)
      case "primary_link" => Some(Primary)
      case "secondary" => Some(Secondary)
      case "secondary_link" => Some(Secondary)
      case "tertiary" => Some(Tertiary)
      case "tertiary_link" => Some(Tertiary)
      case "residential" => Some(Residential)
      case "residential_link" => Some(Residential)
      case "service" => Some(Service)
      case "service_link" => Some(Service)
      case _ => None
  }

  /** The way's own one-way value: the most specific of the one-way keys. */
  function OneWayValue(tags: Tags): Option<string> {
    if "oneway:motorcar" in tags then Some(tags["oneway:motorcar"])
    else if "oneway:motor_vehicle" in tags then Some(tags["oneway:motor_vehicle"])
    else if "oneway:vehicle" in tags then Some(tags["oneway:vehicle"])
    else if "oneway" in tags then Some(tags["oneway"])
    else None
  }

  datatype Flow = BothWays | AsDrawn | AgainstDrawn

  /** Which way a street may be driven, or why the importer cannot tell. */
  function FlowOf(tags: Tags): Result<Flow, ImportError>
    requires "highway" in tags
  {
    if "barrier" in tags then Failure(Barrier)
    else if exists key <- tags.Keys ::
              var p := Parts(key); p[0] in RESTRICTIONS && p[|p| - 1] == "conditional" then Failure(Conditional)
    else if exists key <- tags.Keys ::
              var p := Parts(key); p[0] in ACCESS && ("forward" in p[1..] || "backward" in p[1..]) then
      Failure(DirectionalAccess)
    else if exists key <- tags.Keys :: var p := Parts(key); p[0] in ACCESS && |p| > 1 then Failure(ScopedAccess)
    else
      match OneWayValue(tags)
      case None =>
        var roundabout := "junction" in tags && tags["junction"] == "roundabout";
        Success(if tags["highway"] == "motorway" || roundabout then AsDrawn else BothWays)
      case Some(value) =>
        if value in {"yes", "true", "1"} then Success(AsDrawn)
        else if value == "-1" then Success(AgainstDrawn)
        else if value in {"no", "false", "0"} then Success(BothWays)
        else Failure(UnsupportedDirection)
  }

  /** The most specific access tag decides; without any, cars may pass. */
  predicate AllowsCar(tags: Tags) {
    if "motorcar" in tags then tags["motorcar"] in ALLOWED
    else if "motor_vehicle" in tags then tags["motor_vehicle"] in ALLOWED
    else if "vehicle" in tags then tags["vehicle"] in ALLOWED
    else if "access" in tags then tags["access"] in ALLOWED
    else true
  }

  const SOURCE_KEYS: set<string> :=
    {"access", "highway", "junction", "motor_vehicle", "motorcar", "oneway",
     "oneway:motor_vehicle", "oneway:motorcar", "oneway:vehicle", "vehicle"}

  /** The tags the provenance document records. */
  function RelevantTags(tags: Tags): Tags {
    map key | key in tags && (key in SOURCE_KEYS || IsRestrictionKey(key)) :: tags[key]
  }

  predicate IsRestrictionKey(key: string) {
    exists mode <- RESTRICTIONS :: key in {mode + ":conditional", mode + ":forward", mode + ":backward"}
  }
}
