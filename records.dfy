/** The data model of one parsed machining-job record, as the core reads it.
    A field written `Option<..>` is one the program reads with `.get(...)` or
    that may be absent: `None` stands for a missing key or a JSON null. Where
    the program tells the two apart (it indexes with `d[k]`, which raises
    KeyError only for a missing key, or calls `.get` on the value it read),
    the record's `nulls` set names the keys that are present with a JSON
    null. */
module Records {
  import opened Wrappers

  /** A hole centre or any 3-vector: the program's `(x, y, z)` tuples. */
  datatype Vec3 = Vec3(x: real, y: real, z: real)

  /** An endpoint `[radial, axial]` of one segment of a hole's outline. */
  datatype Vec2 = Vec2(x: real, y: real)

  /** One element of `_geom_ShapePoly`: a type tag and its two endpoints. */
  datatype Segment = Segment(kind: string, p0: Vec2, p1: Vec2)

  /** An arbitrary JSON value, for the fields the core only copies or compares. */
  datatype Json =
    | Null
    | Bool(b: bool)
    | Num(n: real)
    | Str(s: string)
    | Arr(items: seq<Json>)
    | Obj(fields: map<string, Json>)

  /** The exceptions the core can raise. */
  datatype Error =
    | MissingField(field: string)   // KeyError / TypeError on an absent or null field
    | InvalidPositionFormat         // ValueError("Invalid position format.")
    | IndexOutOfRange               // IndexError on a too-short list
    | EmptySequence                 // ValueError from min() of an empty sequence
    | MissingKey                    // KeyError on a hole-centre lookup
    | NotAnObject(field: string)    // AttributeError: `.get` called on a null or non-object value

  /** Python's `d.get(k)`: the value, or `None` when the key is absent or null. */
  function Get(m: map<string, Json>, k: string): (r: Option<Json>)
    ensures r.Some? <==> k in m && m[k] != Null
    ensures r.Some? ==> r.value == m[k]
  {
    if k in m && m[k] != Null then Some(m[k]) else None
  }

  /** `d[k]` raises KeyError: the field is `None` and its key is not among
      the keys present with a JSON null. */
  predicate KeyAbsent<T>(v: Option<T>, nulls: set<string>, k: string)
  {
    v.None? && k !in nulls
  }

  /** One job attached to a hole group (class `Job`); it never changes after
      it is built. The eight drill fields are the `drill` / `drill.cycle`
      entries copied at construction. */
  datatype Job = Job(
    jobNumber: int,
    jobName: Option<string>,
    centers: set<Vec3>,
    jobType: string,
    toolType: string,
    toolParameters: map<string, Json>,
    jobDepth: real,
    homeNumber: int,
    parallelHomeNumbers: seq<int>,
    drillCycleType: Option<Json>,
    drillGcodeName: Option<Json>,
    drillParams: Option<Json>,
    cycleIsUsing: Option<Json>,
    depthDiameterValue: Option<Json>,
    depthIsCutterTip: Option<Json>,
    depthIsFullDiameter: Option<Json>,
    depthIsToolDiameter: Option<Json>)

  /** One physical hole as `compare_coordinates` sees it: its list of jobs. */
  datatype Hole = Hole(jobs: seq<Job>)

  /** The `tool` object of a job record. */
  datatype ToolRecord = ToolRecord(
    lengthParameters: Option<Json>,
    parameters: Option<Json>,
    toolType: Option<Json>)

  /** One element of `geometry.recognized_holes_groups`. */
  datatype HoleGroupRecord = HoleGroupRecord(
    geomDepth: Option<real>,              // _geom_depth
    threadDepth: Option<real>,            // _geom_thread_depth
    threadHoleDiameter: Option<real>,     // _geom_thread_hole_diameter
    threadDiameter: Option<real>,         // _geom_thread_diameter
    threadPitch: Option<real>,            // _geom_thread_pitch
    upperLevel: Option<real>,             // _geom_upper_level
    shapeMask: Option<int>,               // _geomShapeMask
    shapePoly: Option<seq<Segment>>,      // _geom_ShapePoly
    positionsFormat: Option<string>,      // _positions_format
    topologyType: Option<string>,         // _topology_type
    techPositions: Option<seq<real>>,     // _tech_positions
    techDepth: Option<real>,              // _tech_depth
    techDepthType: Option<string>,        // _tech_depth_type
    techDepthTypeVal: Option<real>,       // _tech_depth_type_val
    nulls: set<string>)                   // the keys present with a JSON null

  /** The `geometry` object of a job record. */
  datatype GeometryRecord = GeometryRecord(
    polyArcs: Option<seq<Json>>,
    recognizedHolesGroups: Option<seq<HoleGroupRecord>>)

  /** One job record. */
  datatype JobRecord = JobRecord(
    homeMatrix: Option<seq<real>>,
    jobDepth: Option<real>,
    name: Option<string>,
    tool: Option<ToolRecord>,
    jobType: Option<string>,
    drill: Option<map<string, Json>>,
    geometry: Option<GeometryRecord>,
    operationParameters: Option<map<string, Json>>,
    threadMill: Option<map<string, Json>>,
    homeNumber: int,
    parallelHomeNumbers: seq<int>,
    jobNumber: int,
    nulls: set<string>)                   // the keys present with a JSON null
}
