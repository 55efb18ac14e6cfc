/** `validate_job` (Utilities_and_Cosmetics.py): checks that the fields of a
    job record the core reads are present, not null and, where it matters,
    not empty or positive, and collects one message per problem found. */
module JobValidation {
  import opened Wrappers
  import opened Records

  // ---------------------------------------------------------------------
  // Messages and field lists
  // ---------------------------------------------------------------------

  /** The fields whose problems are reported. */
  datatype Field =
    | HomeMatrix | JobDepth | JobName | Tool | LengthParameters | Parameters | ToolType | Type | Drill
    | Geometry | PolyArcs | OperationParameters
    | GeomDepth | ThreadDepth | ThreadHoleDiameter | ThreadPitch | UpperLevel
    | ShapeMask | ShapePoly | PositionsFormat | TopologyType | TechPositions
    | TechDepth | TechDepthType | TechDepthTypeVal | ThreadMill

  /** The name a message gives the field. */
  function FieldName(f: Field): string
  {
    match f
    case HomeMatrix => "home matrix"
    case JobDepth => "job depth"
    case JobName => "name"
    case Tool => "tool"
    case LengthParameters => "lengthParameters"
    case Parameters => "parameters"
    case ToolType => "tool_type"
    case Type => "type"
    case Drill => "drill"
    case Geometry => "geometry"
    case PolyArcs => "geometry.poly_arcs"
    case OperationParameters => "operation_parameters"
    case GeomDepth => "_geom_depth"
    case ThreadDepth => "_geom_thread_depth"
    case ThreadHoleDiameter => "_geom_thread_hole_diameter"
    case ThreadPitch => "_geom_thread_pitch"
    case UpperLevel => "_geom_upper_level"
    case ShapeMask => "_geomShapeMask"
    case ShapePoly => "_geom_ShapePoly"
    case PositionsFormat => "_positions_format"
    case TopologyType => "_topology_type"
    case TechPositions => "_tech_positions"
    case TechDepth => "_tech_depth"
    case TechDepthType => "_tech_depth_type"
    case TechDepthTypeVal => "_tech_depth_type_val"
    case ThreadMill => "thread_mill"
  }

  /** One recorded problem. */
  datatype Message =
    | Invalid(field: Field)
    | UnsupportedType
    | PreDrilling
    | NotOnHoles

  /** The line recorded for a problem. */
  function Text(m: Message): string
  {
    match m
    case Invalid(f) => FieldName(f) + " field is invalid"
    case UnsupportedType => "Unsupported type found in operation_parameters"
    case PreDrilling => "recognized_holes_groups field is invalid OR it's a pre-drilling operation"
    case NotOnHoles => "recognized_holes_groups field is invalid OR this operation isn't performed on holes"
  }

  /** The lines recorded for a list of problems. */
  function Texts(ms: seq<Message>): (lines: seq<string>)
    ensures |lines| == |ms| && forall i :: 0 <= i < |ms| ==> lines[i] == Text(ms[i])
  {
    seq(|ms|, i requires 0 <= i < |ms| => Text(ms[i]))
  }

  /** Of all field names, only the home matrix's starts with 'h'. */
  lemma FieldNameHead(f: Field)
    ensures |FieldName(f)| > 0
    ensures FieldName(f)[0] == 'h' ==> f == HomeMatrix
  {
  }

  /** "home matrix field is invalid" is the line of exactly one message. */
  lemma HomeMatrixText(m: Message)
    ensures Text(m) == "home matrix field is invalid" <==> m == Invalid(HomeMatrix)
  {
    if Text(m) == "home matrix field is invalid" {
      match m
      case Invalid(f) =>
        FieldNameHead(f);
        assert Text(m)[0] == FieldName(f)[0];
      case _ =>
        assert false;
    }
  }

  const DrillingTypes: seq<string> := ["NC_DRILL_OLD", "NC_DRILL_DEEP", "NC_THREAD", "NC_DRILL_HR", "NC_JOB_MW_DRILL_5X"]
  const NonDrillingTypes: seq<string> := ["NC_PROFILE", "NC_CHAMFER", "NC_JOB_HSS_PARALLEL_TO_CURVE"]
  const ProfileTypes: seq<string> := ["NC_PROFILE", "NC_CHAMFER"]
  const ToolSubfields: seq<Field> := [LengthParameters, Parameters, ToolType]
  const NotNoneFields: seq<Field> := [GeomDepth, ThreadDepth, ThreadHoleDiameter, ThreadPitch, UpperLevel]
  const NotEmptyFields: seq<Field> := [ShapePoly, PositionsFormat, TopologyType]

  /** `job_type in types`; a missing type is in no list. */
  predicate TypeIn(jobType: Option<string>, types: seq<string>)
  {
    jobType.Some? && jobType.value in types
  }

  /** `tool.get(field) is not None`. */
  predicate ToolHas(tool: ToolRecord, f: Field)
  {
    match f
    case LengthParameters => tool.lengthParameters.Some?
    case Parameters => tool.parameters.Some?
    case ToolType => tool.toolType.Some?
    case _ => false
  }

  /** `holes_group_info.get(field) is not None`. */
  predicate GroupHas(info: HoleGroupRecord, f: Field)
  {
    match f
    case GeomDepth => info.geomDepth.Some?
    case ThreadDepth => info.threadDepth.Some?
    case ThreadHoleDiameter => info.threadHoleDiameter.Some?
    case ThreadPitch => info.threadPitch.Some?
    case UpperLevel => info.upperLevel.Some?
    case _ => false
  }

  /** `holes_group_info.get(field)` is neither None nor empty. */
  predicate GroupNonEmpty(info: HoleGroupRecord, f: Field)
  {
    match f
    case ShapePoly => info.shapePoly.Some? && |info.shapePoly.value| > 0
    case PositionsFormat => info.positionsFormat.Some? && |info.positionsFormat.value| > 0
    case TopologyType => info.topologyType.Some? && |info.topologyType.value| > 0
    case _ => false
  }

  /** What a field list is checked against: the fields of the tool that
      must not be None, the fields of a group that must not be None, or the
      fields of a group that must be neither None nor empty. */
  datatype Subject =
    | ToolFields(tool: ToolRecord)
    | GroupFields(info: HoleGroupRecord)
    | GroupNonEmptyFields(info: HoleGroupRecord)

  /** Whether field f of the subject passes its check. */
  predicate Passes(subject: Subject, f: Field)
  {
    match subject
    case ToolFields(tool) => ToolHas(tool, f)
    case GroupFields(info) => GroupHas(info, f)
    case GroupNonEmptyFields(info) => GroupNonEmpty(info, f)
  }

  // ---------------------------------------------------------------------
  // The error list, as a specification
  // ---------------------------------------------------------------------

  /** One message per field of the list that fails the check, in order. */
  function Missing(fields: seq<Field>, subject: Subject): seq<Message>
  {
    if |fields| == 0 then []
    else Missing(fields[..|fields| - 1], subject) + (if Passes(subject, fields[|fields| - 1]) then [] else [Invalid(fields[|fields| - 1])])
  }

  /** The messages from a field list are exactly those for its failing
      fields. */
  lemma {:induction false} MissingSpec(fields: seq<Field>, subject: Subject, m: Message)
    ensures m in Missing(fields, subject) <==> m.Invalid? && m.field in fields && !Passes(subject, m.field)
  {
    if |fields| > 0 {
      var init := fields[..|fields| - 1];
      MissingSpec(init, subject, m);
      assert fields == init + [fields[|fields| - 1]];
    }
  }

  /** One check: the message is recorded when the check fails. */
  function Check(errors: seq<Message>, failed: bool, m: Message): seq<Message>
  {
    if failed then errors + [m] else errors
  }

  /** The mask of a group is missing or not positive. */
  predicate BadMask(info: HoleGroupRecord)
  {
    info.shapeMask.None? || info.shapeMask.value <= 0
  }

  /** A group has fewer than two tech positions. */
  predicate FewPositions(info: HoleGroupRecord)
  {
    info.techPositions.None? || |info.techPositions.value| < 2
  }

  /** The checks that depend on the job type: the tech depth fields for
      multi-axis drilling, the thread-mill object for thread milling. */
  function TypeChecks(errors: seq<Message>, info: HoleGroupRecord, jobType: Option<string>,
                      threadMill: Option<map<string, Json>>): seq<Message>
  {
    if jobType == Some("NC_JOB_MW_DRILL_5X") then
      var e1 := Check(errors, info.techDepth.None?, Invalid(TechDepth));
      var e2 := Check(e1, info.techDepthType.None? || |info.techDepthType.value| == 0, Invalid(TechDepthType));
      Check(e2, info.techDepthTypeVal.None?, Invalid(TechDepthTypeVal))
    else if jobType == Some("NC_THREAD") then
      Check(errors, threadMill.None? || |threadMill.value| == 0, Invalid(ThreadMill))
    else errors
  }

  /** The checks on one hole group, appended to the list. */
  function GroupChecks(errors: seq<Message>, info: HoleGroupRecord, jobType: Option<string>,
                       threadMill: Option<map<string, Json>>): seq<Message>
  {
    var e1 := errors + Missing(NotNoneFields, GroupFields(info));
    var e2 := Check(e1, BadMask(info), Invalid(ShapeMask));
    var e3 := e2 + Missing(NotEmptyFields, GroupNonEmptyFields(info));
    var e4 := Check(e3, FewPositions(info), Invalid(TechPositions));
    TypeChecks(e4, info, jobType, threadMill)
  }

  /** The checks on every hole group, in order, appended to the list. */
  function GroupsChecks(errors: seq<Message>, groups: seq<HoleGroupRecord>, jobType: Option<string>,
                        threadMill: Option<map<string, Json>>): seq<Message>
  {
    if |groups| == 0 then errors
    else GroupChecks(GroupsChecks(errors, groups[..|groups| - 1], jobType, threadMill), groups[|groups| - 1], jobType, threadMill)
  }

  /** The checks on the fields every job has. */
  function HeaderChecks(job: JobRecord): seq<Message>
  {
    var e1 := ToolChecks(JobFieldChecks(job), job.tool);
    var e2 := Check(e1, job.jobType.None?, Invalid(Type));
    Check(e2, TypeIn(job.jobType, DrillingTypes) && (job.drill.None? || |job.drill.value| == 0), Invalid(Drill))
  }

  /** The checks on the home matrix, the depth and the name of a job. */
  function JobFieldChecks(job: JobRecord): seq<Message>
  {
    var e1 := Check([], job.homeMatrix.None? || |job.homeMatrix.value| != 16, Invalid(HomeMatrix));
    var e2 := Check(e1, job.jobDepth.None?, Invalid(JobDepth));
    Check(e2, job.name.None?, Invalid(JobName))
  }

  /** The checks on the tool: the tool itself, then its subfields. */
  function ToolChecks(errors: seq<Message>, tool: Option<ToolRecord>): seq<Message>
  {
    if tool.None? then errors + [Invalid(Tool)] else errors + Missing(ToolSubfields, ToolFields(tool.value))
  }

  /** The checks on the geometry of a profile or chamfer job. */
  function ProfileChecks(errors: seq<Message>, job: JobRecord, geometry: GeometryRecord): seq<Message>
  {
    if TypeIn(job.jobType, ProfileTypes) then
      var e1 := Check(errors, geometry.polyArcs.None? || |geometry.polyArcs.value| == 0, Invalid(PolyArcs));
      if job.operationParameters.None? then e1 + [Invalid(OperationParameters)]
      else Check(e1, Str("Unsupported type") in job.operationParameters.value.Values, UnsupportedType)
    else errors
  }

  /** The checks on the geometry of a job, appended to the list. */
  function GeometryChecks(errors: seq<Message>, job: JobRecord): seq<Message>
  {
    if job.geometry.None? then errors + [Invalid(Geometry)]
    else
      var geometry := job.geometry.value;
      var e1 := ProfileChecks(errors, job, geometry);
      if geometry.recognizedHolesGroups.None? then
        var e2 := Check(e1, TypeIn(job.jobType, DrillingTypes), PreDrilling);
        Check(e2, TypeIn(job.jobType, NonDrillingTypes), NotOnHoles)
      else GroupsChecks(e1, geometry.recognizedHolesGroups.value, job.jobType, job.threadMill)
  }

  /** Every problem `validate_job` records for a job, in order. */
  function JobErrors(job: JobRecord): seq<Message>
  {
    GeometryChecks(HeaderChecks(job), job)
  }

  /** What is printed: nothing for a valid job; otherwise the header line
      naming the job, each recorded line, and a blank line. The header's
      formatting is passed in. */
  function Printout(header: string, errors: seq<Message>): (lines: seq<string>)
    ensures errors == [] <==> lines == []
    ensures errors != [] ==> |lines| == |errors| + 2 && lines[1..|lines| - 1] == Texts(errors)
  {
    if errors == [] then [] else [header] + Texts(errors) + ["\n"]
  }

  // ---------------------------------------------------------------------
  // The checker, as `validate_job` writes it
  // ---------------------------------------------------------------------

  /** The loop over a field list, appending a message per failing field. */
  method AppendMissing(errors: seq<Message>, fields: seq<Field>, subject: Subject) returns (r: seq<Message>)
    ensures r == errors + Missing(fields, subject)
  {
    r := errors;
    var i := 0;
    while i < |fields|
      invariant 0 <= i <= |fields|
      invariant r == errors + Missing(fields[..i], subject)
    {
      assert fields[..i + 1][..i] == fields[..i];
      if !Passes(subject, fields[i]) {
        r := r + [Invalid(fields[i])];
      }
      i := i + 1;
    }
    assert fields[..|fields|] == fields;
  }

  /** The checks on one hole group, appended to the list. */
  method CheckGroup(errors: seq<Message>, info: HoleGroupRecord, jobType: Option<string>,
                    threadMill: Option<map<string, Json>>) returns (r: seq<Message>)
    ensures r == GroupChecks(errors, info, jobType, threadMill)
  {
    r := AppendMissing(errors, NotNoneFields, GroupFields(info));
    if info.shapeMask.None? || info.shapeMask.value <= 0 {
      r := r + [Invalid(ShapeMask)];
    }
    r := AppendMissing(r, NotEmptyFields, GroupNonEmptyFields(info));
    if info.techPositions.None? || |info.techPositions.value| < 2 {
      r := r + [Invalid(TechPositions)];
    }
    if jobType == Some("NC_JOB_MW_DRILL_5X") {
      if info.techDepth.None? {
        r := r + [Invalid(TechDepth)];
      }
      if info.techDepthType.None? || |info.techDepthType.value| == 0 {
        r := r + [Invalid(TechDepthType)];
      }
      if info.techDepthTypeVal.None? {
        r := r + [Invalid(TechDepthTypeVal)];
      }
    } else if jobType == Some("NC_THREAD") {
      if threadMill.None? || |threadMill.value| == 0 {
        r := r + [Invalid(ThreadMill)];
      }
    }
  }

  /** The checks on the fields every job has. */
  method CheckHeader(job: JobRecord) returns (errors: seq<Message>)
    ensures errors == HeaderChecks(job)
  {
    errors := [];
    if job.homeMatrix.None? || |job.homeMatrix.value| != 16 {
      errors := errors + [Invalid(HomeMatrix)];
    }
    if job.jobDepth.None? {
      errors := errors + [Invalid(JobDepth)];
    }
    if job.name.None? {
      errors := errors + [Invalid(JobName)];
    }
    assert errors == JobFieldChecks(job);
    if job.tool.None? {
      errors := errors + [Invalid(Tool)];
    } else {
      errors := AppendMissing(errors, ToolSubfields, ToolFields(job.tool.value));
    }
    assert errors == ToolChecks(JobFieldChecks(job), job.tool);
    if job.jobType.None? {
      errors := errors + [Invalid(Type)];
    }
    if TypeIn(job.jobType, DrillingTypes) {
      if job.drill.None? || |job.drill.value| == 0 {
        errors := errors + [Invalid(Drill)];
      }
    }
  }

  /** `validate_job(job, part_name)`: the problems it records, in order,
      and the lines it prints (none when the job is valid). */
  /** The checks `validate_job` makes on the polylines and the operation
      parameters of a profile job. */
  method CheckProfile(errors: seq<Message>, job: JobRecord, geometry: GeometryRecord) returns (r: seq<Message>)
    ensures r == ProfileChecks(errors, job, geometry)
  {
    r := errors;
    if TypeIn(job.jobType, ProfileTypes) {
      if geometry.polyArcs.None? || |geometry.polyArcs.value| == 0 {
        r := r + [Invalid(PolyArcs)];
      }
      if job.operationParameters.None? {
        r := r + [Invalid(OperationParameters)];
      } else if Str("Unsupported type") in job.operationParameters.value.Values {
        r := r + [UnsupportedType];
      }
    }
  }

  /** The loop of `validate_job` over the recognised hole groups. */
  method CheckGroups(errors: seq<Message>, groups: seq<HoleGroupRecord>, jobType: Option<string>,
                     threadMill: Option<map<string, Json>>) returns (r: seq<Message>)
    ensures r == GroupsChecks(errors, groups, jobType, threadMill)
  {
    r := errors;
    var i := 0;
    while i < |groups|
      invariant 0 <= i <= |groups|
      invariant r == GroupsChecks(errors, groups[..i], jobType, threadMill)
    {
      assert groups[..i + 1][..i] == groups[..i];
      r := CheckGroup(r, groups[i], jobType, threadMill);
      i := i + 1;
    }
    assert groups[..|groups|] == groups;
  }

  method ValidateJob(job: JobRecord, header: string) returns (errors: seq<Message>, printed: seq<string>)
    ensures errors == JobErrors(job)
    ensures printed == Printout(header, errors)
  {
    errors := CheckHeader(job);
    if job.geometry.None? {
      errors := errors + [Invalid(Geometry)];
    } else {
      var geometry := job.geometry.value;
      errors := CheckProfile(errors, job, geometry);
      if geometry.recognizedHolesGroups.None? {
        if TypeIn(job.jobType, DrillingTypes) {
          errors := errors + [PreDrilling];
        }
        if TypeIn(job.jobType, NonDrillingTypes) {
          errors := errors + [NotOnHoles];
        }
      } else {
        errors := CheckGroups(errors, geometry.recognizedHolesGroups.value, job.jobType, job.threadMill);
      }
    }
    printed := Printout(header, errors);
  }

  // ---------------------------------------------------------------------
  // Properties of the error list
  // ---------------------------------------------------------------------

  /** The number of hole groups whose mask is missing or not positive. */
  function BadMasks(groups: seq<HoleGroupRecord>): nat
  {
    if |groups| == 0 then 0
    else BadMasks(groups[..|groups| - 1]) + (if BadMask(groups[|groups| - 1]) then 1 else 0)
  }

  /** The number of hole groups with fewer than two tech positions. */
  function ShortPositions(groups: seq<HoleGroupRecord>): nat
  {
    if |groups| == 0 then 0
    else ShortPositions(groups[..|groups| - 1]) + (if FewPositions(groups[|groups| - 1]) then 1 else 0)
  }

  /** A field list's messages never name a field outside the list. */
  lemma MissingCount(fields: seq<Field>, subject: Subject, f: Field)
    requires f !in fields
    ensures multiset(Missing(fields, subject))[Invalid(f)] == 0
  {
    MissingSpec(fields, subject, Invalid(f));
  }

  /** Appending a field list's messages leaves a counted problem's count
      unchanged. */
  lemma AppendMissingCount(errors: seq<Message>, fields: seq<Field>, subject: Subject, x: Message)
    requires Counted(x) && (fields == ToolSubfields || fields == NotNoneFields || fields == NotEmptyFields)
    ensures multiset(errors + Missing(fields, subject))[x] == multiset(errors)[x]
  {
    MissingCount(fields, subject, x.field);
  }

  /** One check adds one occurrence of its message when it fails, and
      nothing otherwise. */
  lemma CheckCount(errors: seq<Message>, failed: bool, m: Message, x: Message)
    ensures multiset(Check(errors, failed, m))[x] == multiset(errors)[x] + (if failed && m == x then 1 else 0)
  {
  }

  /** The three problems the counting lemmas follow. */
  predicate Counted(x: Message)
  {
    x == Invalid(ShapeMask) || x == Invalid(TechPositions) || x == Invalid(HomeMatrix)
  }

  /** The type-dependent checks record none of the counted problems. */
  lemma TypeChecksCount(errors: seq<Message>, info: HoleGroupRecord, jobType: Option<string>,
                        threadMill: Option<map<string, Json>>, x: Message)
    requires Counted(x)
    ensures multiset(TypeChecks(errors, info, jobType, threadMill))[x] == multiset(errors)[x]
  {
    if jobType == Some("NC_JOB_MW_DRILL_5X") {
      var e1 := Check(errors, info.techDepth.None?, Invalid(TechDepth));
      var e2 := Check(e1, info.techDepthType.None? || |info.techDepthType.value| == 0, Invalid(TechDepthType));
      CheckCount(errors, info.techDepth.None?, Invalid(TechDepth), x);
      CheckCount(e1, info.techDepthType.None? || |info.techDepthType.value| == 0, Invalid(TechDepthType), x);
      CheckCount(e2, info.techDepthTypeVal.None?, Invalid(TechDepthTypeVal), x);
    } else if jobType == Some("NC_THREAD") {
      CheckCount(errors, threadMill.None? || |threadMill.value| == 0, Invalid(ThreadMill), x);
    }
  }

  /** How many times one group adds a counted problem: once for the mask
      when its mask is bad, once for the positions when it has too few,
      never for the home matrix. */
  function GroupAdds(info: HoleGroupRecord, x: Message): nat
  {
    if x == Invalid(ShapeMask) then (if BadMask(info) then 1 else 0)
    else if x == Invalid(TechPositions) then (if FewPositions(info) then 1 else 0)
    else 0
  }

  /** One group records each counted problem as often as GroupAdds says. */
  lemma GroupChecksCount(errors: seq<Message>, info: HoleGroupRecord, jobType: Option<string>,
                         threadMill: Option<map<string, Json>>, x: Message)
    requires Counted(x)
    ensures multiset(GroupChecks(errors, info, jobType, threadMill))[x] == multiset(errors)[x] + GroupAdds(info, x)
  {
    var e1 := errors + Missing(NotNoneFields, GroupFields(info));
    var e2 := Check(e1, BadMask(info), Invalid(ShapeMask));
    var e3 := e2 + Missing(NotEmptyFields, GroupNonEmptyFields(info));
    var e4 := Check(e3, FewPositions(info), Invalid(TechPositions));
    AppendMissingCount(errors, NotNoneFields, GroupFields(info), x);
    CheckCount(e1, BadMask(info), Invalid(ShapeMask), x);
    AppendMissingCount(e2, NotEmptyFields, GroupNonEmptyFields(info), x);
    CheckCount(e3, FewPositions(info), Invalid(TechPositions), x);
    TypeChecksCount(e4, info, jobType, threadMill, x);
  }

  /** The number of groups that add a counted problem. */
  function GroupsAdds(groups: seq<HoleGroupRecord>, x: Message): nat
  {
    if |groups| == 0 then 0
    else GroupsAdds(groups[..|groups| - 1], x) + GroupAdds(groups[|groups| - 1], x)
  }

  /** Over all groups, each counted problem is recorded once per group that
      adds it. */
  lemma {:induction false} GroupsChecksCount(errors: seq<Message>, groups: seq<HoleGroupRecord>, jobType: Option<string>,
                                             threadMill: Option<map<string, Json>>, x: Message)
    requires Counted(x)
    ensures multiset(GroupsChecks(errors, groups, jobType, threadMill))[x] == multiset(errors)[x] + GroupsAdds(groups, x)
  {
    if |groups| > 0 {
      var init := groups[..|groups| - 1];
      GroupsChecksCount(errors, init, jobType, threadMill, x);
      GroupChecksCount(GroupsChecks(errors, init, jobType, threadMill), groups[|groups| - 1], jobType, threadMill, x);
    }
  }

  /** The mask count over groups is the number of bad masks, the positions
      count the number of short position lists, the home-matrix count zero. */
  lemma {:induction false} GroupsAddsCounts(groups: seq<HoleGroupRecord>)
    ensures GroupsAdds(groups, Invalid(ShapeMask)) == BadMasks(groups)
    ensures GroupsAdds(groups, Invalid(TechPositions)) == ShortPositions(groups)
    ensures GroupsAdds(groups, Invalid(HomeMatrix)) == 0
  {
    if |groups| > 0 {
      GroupsAddsCounts(groups[..|groups| - 1]);
    }
  }

  /** The header records the home-matrix problem once exactly when the
      matrix is missing or not of 16 values, and neither group problem. */
  lemma HeaderChecksCount(job: JobRecord, x: Message)
    requires Counted(x)
    ensures multiset(HeaderChecks(job))[x] ==
      if x == Invalid(HomeMatrix) && (job.homeMatrix.None? || |job.homeMatrix.value| != 16) then 1 else 0
  {
    var e1 := ToolChecks(JobFieldChecks(job), job.tool);
    JobFieldChecksCount(job, x);
    ToolChecksCount(JobFieldChecks(job), job.tool, x);
    CheckCount(e1, job.jobType.None?, Invalid(Type), x);
    CheckCount(Check(e1, job.jobType.None?, Invalid(Type)), TypeIn(job.jobType, DrillingTypes) && (job.drill.None? || |job.drill.value| == 0), Invalid(Drill), x);
  }

  /** The first three header checks record the home-matrix problem once
      exactly when the matrix is missing or not of 16 values. */
  lemma JobFieldChecksCount(job: JobRecord, x: Message)
    requires Counted(x)
    ensures multiset(JobFieldChecks(job))[x] ==
      if x == Invalid(HomeMatrix) && (job.homeMatrix.None? || |job.homeMatrix.value| != 16) then 1 else 0
  {
    var e1 := Check([], job.homeMatrix.None? || |job.homeMatrix.value| != 16, Invalid(HomeMatrix));
    CheckCount([], job.homeMatrix.None? || |job.homeMatrix.value| != 16, Invalid(HomeMatrix), x);
    CheckCount(e1, job.jobDepth.None?, Invalid(JobDepth), x);
    CheckCount(Check(e1, job.jobDepth.None?, Invalid(JobDepth)), job.name.None?, Invalid(JobName), x);
  }

  /** The tool checks record none of the counted problems. */
  lemma ToolChecksCount(errors: seq<Message>, tool: Option<ToolRecord>, x: Message)
    requires Counted(x)
    ensures multiset(ToolChecks(errors, tool))[x] == multiset(errors)[x]
  {
    if tool.Some? {
      AppendMissingCount(errors, ToolSubfields, ToolFields(tool.value), x);
    }
  }

  /** The profile checks record none of the counted problems. */
  lemma ProfileChecksCount(errors: seq<Message>, job: JobRecord, geometry: GeometryRecord, x: Message)
    requires Counted(x)
    ensures multiset(ProfileChecks(errors, job, geometry))[x] == multiset(errors)[x]
  {
    if TypeIn(job.jobType, ProfileTypes) {
      var failed := geometry.polyArcs.None? || |geometry.polyArcs.value| == 0;
      CheckCount(errors, failed, Invalid(PolyArcs), x);
      if job.operationParameters.Some? {
        CheckCount(Check(errors, failed, Invalid(PolyArcs)), Str("Unsupported type") in job.operationParameters.value.Values, UnsupportedType, x);
      }
    }
  }

  /** A counted problem over the whole job: the header's count plus, when
      the geometry has hole groups, the groups' count. */
  lemma JobErrorsCount(job: JobRecord, x: Message)
    requires Counted(x)
    ensures multiset(JobErrors(job))[x] ==
      (if x == Invalid(HomeMatrix) && (job.homeMatrix.None? || |job.homeMatrix.value| != 16) then 1 else 0)
      + (if job.geometry.Some? && job.geometry.value.recognizedHolesGroups.Some?
         then GroupsAdds(job.geometry.value.recognizedHolesGroups.value, x) else 0)
  {
    var header := HeaderChecks(job);
    HeaderChecksCount(job, x);
    if job.geometry.Some? {
      var geometry := job.geometry.value;
      var e1 := ProfileChecks(header, job, geometry);
      ProfileChecksCount(header, job, geometry, x);
      if geometry.recognizedHolesGroups.Some? {
        GroupsChecksCount(e1, geometry.recognizedHolesGroups.value, job.jobType, job.threadMill, x);
      } else {
        CheckCount(e1, TypeIn(job.jobType, DrillingTypes), PreDrilling, x);
        CheckCount(Check(e1, TypeIn(job.jobType, DrillingTypes), PreDrilling), TypeIn(job.jobType, NonDrillingTypes), NotOnHoles, x);
      }
    }
  }

  /** Counts of the three problems over the whole job: the home-matrix
      problem once or never, the mask problem once per group with a bad
      mask, the positions problem once per group with too few positions. */
  lemma JobErrorsCounts(job: JobRecord)
    ensures multiset(JobErrors(job))[Invalid(HomeMatrix)] ==
      if job.homeMatrix.None? || |job.homeMatrix.value| != 16 then 1 else 0
    ensures multiset(JobErrors(job))[Invalid(ShapeMask)] ==
      if job.geometry.Some? && job.geometry.value.recognizedHolesGroups.Some?
      then BadMasks(job.geometry.value.recognizedHolesGroups.value) else 0
    ensures multiset(JobErrors(job))[Invalid(TechPositions)] ==
      if job.geometry.Some? && job.geometry.value.recognizedHolesGroups.Some?
      then ShortPositions(job.geometry.value.recognizedHolesGroups.value) else 0
  {
    JobErrorsCount(job, Invalid(HomeMatrix));
    JobErrorsCount(job, Invalid(ShapeMask));
    JobErrorsCount(job, Invalid(TechPositions));
    if job.geometry.Some? && job.geometry.value.recognizedHolesGroups.Some? {
      GroupsAddsCounts(job.geometry.value.recognizedHolesGroups.value);
    }
  }

  /** The home-matrix message is in the list exactly when the home matrix
      is missing, null or not of 16 values. */
  lemma HomeMatrixInErrors(job: JobRecord)
    ensures Invalid(HomeMatrix) in JobErrors(job) <==> job.homeMatrix.None? || |job.homeMatrix.value| != 16
  {
    JobErrorsCount(job, Invalid(HomeMatrix));
    if job.geometry.Some? && job.geometry.value.recognizedHolesGroups.Some? {
      GroupsAddsCounts(job.geometry.value.recognizedHolesGroups.value);
    }
    assert multiset(JobErrors(job))[Invalid(HomeMatrix)] > 0 <==> Invalid(HomeMatrix) in JobErrors(job);
  }

  /** "home matrix field is invalid" is recorded exactly when the home
      matrix is missing, null or not of 16 values. */
  lemma HomeMatrixRecorded(job: JobRecord)
    ensures "home matrix field is invalid" in Texts(JobErrors(job)) <==>
      job.homeMatrix.None? || |job.homeMatrix.value| != 16
  {
    HomeMatrixInErrors(job);
    var errors := JobErrors(job);
    var lines := Texts(errors);
    if "home matrix field is invalid" in lines {
      var i :| 0 <= i < |lines| && lines[i] == "home matrix field is invalid";
      HomeMatrixText(errors[i]);
    }
    if Invalid(HomeMatrix) in errors {
      var i :| 0 <= i < |errors| && errors[i] == Invalid(HomeMatrix);
      HomeMatrixText(Invalid(HomeMatrix));
      assert lines[i] == Text(errors[i]);
    }
  }

  // ---------------------------------------------------------------------
  // A job with nothing to report
  // ---------------------------------------------------------------------

  /** A hole group the checker accepts, stated field by field. */
  predicate GroupWellFormed(info: HoleGroupRecord, jobType: Option<string>, threadMill: Option<map<string, Json>>)
  {
    && info.geomDepth.Some? && info.threadDepth.Some? && info.threadHoleDiameter.Some?
    && info.threadPitch.Some? && info.upperLevel.Some?
    && info.shapeMask.Some? && info.shapeMask.value > 0
    && info.shapePoly.Some? && |info.shapePoly.value| > 0
    && info.positionsFormat.Some? && |info.positionsFormat.value| > 0
    && info.topologyType.Some? && |info.topologyType.value| > 0
    && info.techPositions.Some? && |info.techPositions.value| >= 2
    && (jobType == Some("NC_JOB_MW_DRILL_5X") ==>
          info.techDepth.Some? && info.techDepthType.Some? && |info.techDepthType.value| > 0 && info.techDepthTypeVal.Some?)
    && (jobType == Some("NC_THREAD") ==> threadMill.Some? && |threadMill.value| > 0)
  }

  /** The fields every job must have, as the checker accepts them. */
  predicate HeaderWellFormed(job: JobRecord)
  {
    && job.homeMatrix.Some? && |job.homeMatrix.value| == 16
    && job.jobDepth.Some? && job.name.Some?
    && job.tool.Some? && job.tool.value.lengthParameters.Some?
    && job.tool.value.parameters.Some? && job.tool.value.toolType.Some?
    && job.jobType.Some?
    && (TypeIn(job.jobType, DrillingTypes) ==> job.drill.Some? && |job.drill.value| > 0)
  }

  /** A job the checker accepts: a good header, a geometry, the profile
      fields for profile and chamfer jobs, and either good hole groups or,
      when there are none, a type that needs none. */
  predicate WellFormed(job: JobRecord)
  {
    && HeaderWellFormed(job)
    && job.geometry.Some?
    && (TypeIn(job.jobType, ProfileTypes) ==>
          && job.geometry.value.polyArcs.Some? && |job.geometry.value.polyArcs.value| > 0
          && job.operationParameters.Some? && Str("Unsupported type") !in job.operationParameters.value.Values)
    && (job.geometry.value.recognizedHolesGroups.None? ==>
          !TypeIn(job.jobType, DrillingTypes) && !TypeIn(job.jobType, NonDrillingTypes))
    && (job.geometry.value.recognizedHolesGroups.Some? ==>
          forall g :: g in job.geometry.value.recognizedHolesGroups.value ==> GroupWellFormed(g, job.jobType, job.threadMill))
  }

  /** A field list records nothing exactly when every field passes. */
  lemma {:induction false} MissingEmpty(fields: seq<Field>, subject: Subject)
    ensures Missing(fields, subject) == [] <==> forall f :: f in fields ==> Passes(subject, f)
  {
    if Missing(fields, subject) != [] {
      MissingSpec(fields, subject, Missing(fields, subject)[0]);
    } else {
      forall f | f in fields
        ensures Passes(subject, f)
      {
        MissingSpec(fields, subject, Invalid(f));
      }
    }
  }

  /** One group adds nothing exactly when it is well formed. */
  lemma GroupChecksEmpty(errors: seq<Message>, info: HoleGroupRecord, jobType: Option<string>,
                         threadMill: Option<map<string, Json>>)
    ensures GroupChecks(errors, info, jobType, threadMill) == [] <==> errors == [] && GroupWellFormed(info, jobType, threadMill)
  {
    MissingEmpty(NotNoneFields, GroupFields(info));
    MissingEmpty(NotEmptyFields, GroupNonEmptyFields(info));
    NotNoneFieldsPass(info);
    NotEmptyFieldsPass(info);
  }

  /** The not-None field list of a group passes exactly when each of its
      five fields is present. */
  lemma NotNoneFieldsPass(info: HoleGroupRecord)
    ensures (forall f :: f in NotNoneFields ==> Passes(GroupFields(info), f)) <==>
      && info.geomDepth.Some? && info.threadDepth.Some? && info.threadHoleDiameter.Some?
      && info.threadPitch.Some? && info.upperLevel.Some?
  {
    var fields := NotNoneFields;
    var subject := GroupFields(info);
    if forall f :: f in fields ==> Passes(subject, f) {
      assert Passes(subject, fields[0]) && Passes(subject, fields[1]) && Passes(subject, fields[2]);
      assert Passes(subject, fields[3]) && Passes(subject, fields[4]);
    }
    forall f | f in fields && info.geomDepth.Some? && info.threadDepth.Some? && info.threadHoleDiameter.Some?
               && info.threadPitch.Some? && info.upperLevel.Some?
      ensures Passes(subject, f)
    {
      var i :| 0 <= i < |fields| && fields[i] == f;
    }
  }

  /** The not-empty field list of a group passes exactly when each of its
      three fields is present and not empty. */
  lemma NotEmptyFieldsPass(info: HoleGroupRecord)
    ensures (forall f :: f in NotEmptyFields ==> Passes(GroupNonEmptyFields(info), f)) <==>
      && info.shapePoly.Some? && |info.shapePoly.value| > 0
      && info.positionsFormat.Some? && |info.positionsFormat.value| > 0
      && info.topologyType.Some? && |info.topologyType.value| > 0
  {
    var fields := NotEmptyFields;
    var subject := GroupNonEmptyFields(info);
    if forall f :: f in fields ==> Passes(subject, f) {
      assert Passes(subject, fields[0]) && Passes(subject, fields[1]) && Passes(subject, fields[2]);
    }
    forall f | f in fields && info.shapePoly.Some? && |info.shapePoly.value| > 0
               && info.positionsFormat.Some? && |info.positionsFormat.value| > 0
               && info.topologyType.Some? && |info.topologyType.value| > 0
      ensures Passes(subject, f)
    {
      var i :| 0 <= i < |fields| && fields[i] == f;
    }
  }

  /** All groups add nothing exactly when every group is well formed. */
  lemma {:induction false} GroupsChecksEmpty(errors: seq<Message>, groups: seq<HoleGroupRecord>, jobType: Option<string>,
                                             threadMill: Option<map<string, Json>>)
    ensures GroupsChecks(errors, groups, jobType, threadMill) == [] <==>
      errors == [] && forall g :: g in groups ==> GroupWellFormed(g, jobType, threadMill)
  {
    if |groups| > 0 {
      var init := groups[..|groups| - 1];
      GroupsChecksEmpty(errors, init, jobType, threadMill);
      GroupChecksEmpty(GroupsChecks(errors, init, jobType, threadMill), groups[|groups| - 1], jobType, threadMill);
      AllWellFormedSplit(groups, jobType, threadMill);
    }
  }

  /** Every group is well formed exactly when every group but the last is
      and the last is. */
  lemma AllWellFormedSplit(groups: seq<HoleGroupRecord>, jobType: Option<string>, threadMill: Option<map<string, Json>>)
    requires |groups| > 0
    ensures (forall g :: g in groups ==> GroupWellFormed(g, jobType, threadMill)) <==>
      (forall g :: g in groups[..|groups| - 1] ==> GroupWellFormed(g, jobType, threadMill))
      && GroupWellFormed(groups[|groups| - 1], jobType, threadMill)
  {
    assert groups == groups[..|groups| - 1] + [groups[|groups| - 1]];
  }

  /** The header records nothing exactly when it is well formed. */
  lemma HeaderChecksEmpty(job: JobRecord)
    ensures HeaderChecks(job) == [] <==> HeaderWellFormed(job)
  {
    if job.tool.Some? {
      var tool := job.tool.value;
      var fields := ToolSubfields;
      var subject := ToolFields(tool);
      MissingEmpty(fields, subject);
      if forall f :: f in fields ==> Passes(subject, f) {
        assert Passes(subject, fields[0]) && Passes(subject, fields[1]) && Passes(subject, fields[2]);
      }
      forall f | f in fields && tool.lengthParameters.Some? && tool.parameters.Some? && tool.toolType.Some?
        ensures Passes(subject, f)
      {
        var i :| 0 <= i < |fields| && fields[i] == f;
      }
    }
  }

  /** `validate_job` records nothing, and so prints nothing, exactly for a
      well-formed job. */
  lemma JobErrorsEmpty(job: JobRecord)
    ensures JobErrors(job) == [] <==> WellFormed(job)
  {
    HeaderChecksEmpty(job);
    if job.geometry.Some? && job.geometry.value.recognizedHolesGroups.Some? {
      var geometry := job.geometry.value;
      GroupsChecksEmpty(ProfileChecks(HeaderChecks(job), job, geometry), geometry.recognizedHolesGroups.value, job.jobType, job.threadMill);
    }
  }
}
