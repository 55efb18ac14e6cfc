/** The catalog state of Classes.py: a `Topology` holds hole groups of one
    shape mask, a `HoleGroup` holds the centres of holes of one outline and
    the jobs performed on them, and a `Job` is built once from a job record.

    The live `add_hole_group` calls `compare_geometries` and
    `compare_coordinates` with signatures that no longer exist; here the two
    tests are parameters: `sameShape(newShape, groupShape)` and
    `sameHole(center, jobCenters, holeDepth, homeNumber, parallelHomes)`. */
module Classes {
  import opened Wrappers
  import opened Records
  import opened Utilities
  import Decimal

  // ---------------------------------------------------------------------
  // Job.__init__
  // ---------------------------------------------------------------------

  /** `d.get(k, {})` used as an object: a missing key gives the empty
      object; a null or non-object value makes the next `.get` raise
      AttributeError. */
  function GetObject(d: map<string, Json>, k: string): (r: Result<map<string, Json>, Error>)
    ensures r.Success? <==> k !in d || d[k].Obj?
    ensures k !in d ==> r == Success(map[])
    ensures k in d && d[k].Obj? ==> r == Success(d[k].fields)
    ensures r.Failure? ==> r.error == NotAnObject(k)
  {
    if k !in d then Success(map[])
    else if d[k].Obj? then Success(d[k].fields)
    else Failure(NotAnObject(k))
  }

  /** The `drill` object of a job with the drill flag set, or `{}`. */
  function DrillOf(job: JobRecord, drillJobFlag: bool): map<string, Json>
  {
    if drillJobFlag && job.drill.Some? then job.drill.value else map[]
  }

  /** `Job(...)`, built from a job record. `job['name']` raises KeyError
      when the name is absent (a null name is kept as `None`). The drill
      fields are read from the record's `drill` object and its `cycle` only
      when the drill flag is set; otherwise every drill field is `None`. With
      the flag set, a null `drill`, or a null or non-object `cycle`, raises
      AttributeError. */
  function NewJob(job: JobRecord, drillJobFlag: bool, jobType: string, toolType: string,
                  toolParameters: map<string, Json>, jobDepth: real, newCoordinates: seq<Vec3>,
                  jobNumber: int): (r: Result<Job, Error>)
    ensures KeyAbsent(job.name, job.nulls, "name") ==> r == Failure(MissingField("name"))
    ensures !KeyAbsent(job.name, job.nulls, "name") && drillJobFlag && job.drill.None? && "drill" in job.nulls ==>
      r == Failure(NotAnObject("drill"))
    ensures r.Success? <==>
      && !KeyAbsent(job.name, job.nulls, "name")
      && !(drillJobFlag && job.drill.None? && "drill" in job.nulls)
      && GetObject(DrillOf(job, drillJobFlag), "cycle").Success?
    ensures r.Failure? && !KeyAbsent(job.name, job.nulls, "name") && !(drillJobFlag && job.drill.None? && "drill" in job.nulls) ==>
      r.error == NotAnObject("cycle")
    ensures r.Success? ==> var j := r.value;
      && j.jobNumber == jobNumber && j.jobName == job.name
      && j.jobType == jobType && j.toolType == toolType
      && j.toolParameters == toolParameters && j.jobDepth == jobDepth
      && j.centers == (set c | c in newCoordinates)
      && j.homeNumber == job.homeNumber && j.parallelHomeNumbers == job.parallelHomeNumbers
    ensures r.Success? && (!drillJobFlag || job.drill.None?) ==> var j := r.value;
      && j.drillCycleType.None? && j.drillGcodeName.None? && j.drillParams.None?
      && j.cycleIsUsing.None? && j.depthDiameterValue.None? && j.depthIsCutterTip.None?
      && j.depthIsFullDiameter.None? && j.depthIsToolDiameter.None?
    ensures r.Success? && drillJobFlag && job.drill.Some? ==> var j := r.value; var drill := job.drill.value;
      && j.cycleIsUsing == Get(drill, "cycle_isUsing")
      && j.depthDiameterValue == Get(drill, "depth_diameter_value")
      && j.depthIsCutterTip == Get(drill, "depth_is_cutter_tip")
      && j.depthIsFullDiameter == Get(drill, "depth_is_full_diameter")
      && j.depthIsToolDiameter == Get(drill, "depth_is_tool_Diameter")
    ensures r.Success? && drillJobFlag && job.drill.Some? && "cycle" !in job.drill.value ==> var j := r.value;
      j.drillCycleType.None? && j.drillGcodeName.None? && j.drillParams.None?
    ensures r.Success? && drillJobFlag && job.drill.Some? && "cycle" in job.drill.value ==>
      var j := r.value; var cycle := job.drill.value["cycle"].fields;
      && j.drillCycleType == Get(cycle, "drill_type")
      && j.drillGcodeName == Get(cycle, "gcode_name")
      && j.drillParams == Get(cycle, "params")
  {
    if KeyAbsent(job.name, job.nulls, "name") then Failure(MissingField("name"))
    else if drillJobFlag && job.drill.None? && "drill" in job.nulls then Failure(NotAnObject("drill"))
    else
      var drill := DrillOf(job, drillJobFlag);
      match GetObject(drill, "cycle")
      case Failure(e) => Failure(e)
      case Success(cycle) =>
        Success(Job(jobNumber, job.name, (set c | c in newCoordinates), jobType, toolType, toolParameters, jobDepth,
                    job.homeNumber, job.parallelHomeNumbers,
                    Get(cycle, "drill_type"), Get(cycle, "gcode_name"), Get(cycle, "params"),
                    Get(drill, "cycle_isUsing"), Get(drill, "depth_diameter_value"), Get(drill, "depth_is_cutter_tip"),
                    Get(drill, "depth_is_full_diameter"), Get(drill, "depth_is_tool_Diameter")))
  }

  // ---------------------------------------------------------------------
  // Job de-duplication and the job-order string
  // ---------------------------------------------------------------------

  /** What makes two jobs on a hole group the same job. */
  datatype JobKey = JobKey(jobDepth: real, jobType: string, toolType: string, toolParameters: map<string, Json>)

  function KeyOf(j: Job): JobKey
  {
    JobKey(j.jobDepth, j.jobType, j.toolType, j.toolParameters)
  }

  /** No two stored jobs share a key. */
  predicate DistinctKeys(jobs: seq<Job>)
  {
    forall i, k :: 0 <= i < k < |jobs| ==> KeyOf(jobs[i]) != KeyOf(jobs[k])
  }

  predicate HasKey(jobs: seq<Job>, key: JobKey)
  {
    exists i :: 0 <= i < |jobs| && KeyOf(jobs[i]) == key
  }

  /** One entry of the job-order string: "<job type> - <tool type> | ". */
  function JobLabel(j: Job): string
  {
    j.jobType + " - " + j.toolType + " | "
  }

  /** The job-order string of a job history. */
  function JobsOrder(jobs: seq<Job>): string
  {
    if jobs == [] then "" else JobsOrder(jobs[..|jobs| - 1]) + JobLabel(jobs[|jobs| - 1])
  }

  /** The job history after a job is offered: unchanged when a job with the
      same key is already there, otherwise extended by the job. */
  function WithJob(jobs: seq<Job>, j: Job): seq<Job>
  {
    if HasKey(jobs, KeyOf(j)) then jobs else jobs + [j]
  }

  /** Offering a job keeps the history free of duplicate keys, keeps every
      earlier job in place, adds at most one job, and leaves the key present. */
  lemma WithJobSpec(jobs: seq<Job>, j: Job)
    requires DistinctKeys(jobs)
    ensures DistinctKeys(WithJob(jobs, j))
    ensures HasKey(WithJob(jobs, j), KeyOf(j))
    ensures |jobs| <= |WithJob(jobs, j)| <= |jobs| + 1
    ensures WithJob(jobs, j)[..|jobs|] == jobs
  {
    if !HasKey(jobs, KeyOf(j)) {
      var r := jobs + [j];
      assert r[|jobs|] == j;
      forall i, k | 0 <= i < k < |r| ensures KeyOf(r[i]) != KeyOf(r[k]) {
        if k == |jobs| {
          assert r[i] == jobs[i];
        }
      }
    }
  }

  /** Offering the same job twice is the same as offering it once. */
  lemma WithJobIdempotent(jobs: seq<Job>, j: Job)
    ensures WithJob(WithJob(jobs, j), j) == WithJob(jobs, j)
  {
    if !HasKey(jobs, KeyOf(j)) {
      assert WithJob(jobs, j)[|jobs|] == j;
    }
  }

  /** The job-order string grows by exactly the label of an added job. */
  lemma JobsOrderWithJob(jobs: seq<Job>, j: Job)
    ensures JobsOrder(WithJob(jobs, j)) ==
      if HasKey(jobs, KeyOf(j)) then JobsOrder(jobs) else JobsOrder(jobs) + JobLabel(j)
  {
    if !HasKey(jobs, KeyOf(j)) {
      assert (jobs + [j])[..|jobs|] == jobs;
    }
  }

  // ---------------------------------------------------------------------
  // update_parameters
  // ---------------------------------------------------------------------

  /** The smallest first-endpoint radius of the segments from index i on. */
  function SmallestFrom(shape: seq<Segment>, i: nat): (m: real)
    requires i < |shape|
    ensures forall k :: i <= k < |shape| ==> m <= shape[k].p0.x
    ensures exists k :: i <= k < |shape| && m == shape[k].p0.x
    decreases |shape| - i
  {
    if i == |shape| - 1 then shape[i].p0.x
    else
      var rest := SmallestFrom(shape, i + 1);
      if shape[i].p0.x <= rest then shape[i].p0.x else rest
  }

  /** `min(item["p0"][0] for item in shape)`, or the ValueError of an empty shape. */
  function MinRadius(shape: seq<Segment>): (r: Result<real, Error>)
    ensures r.Success? <==> |shape| > 0
    ensures r.Success? ==> (forall k :: 0 <= k < |shape| ==> r.value <= shape[k].p0.x) &&
                           (exists k :: 0 <= k < |shape| && r.value == shape[k].p0.x)
  {
    if |shape| == 0 then Failure(EmptySequence) else Success(SmallestFrom(shape, 0))
  }

  // ---------------------------------------------------------------------
  // HoleGroup
  // ---------------------------------------------------------------------

  /** The holes of one outline in one topology, and the jobs performed on them. */
  class HoleGroup {
    var centers: set<Vec3>
    var jobs: seq<Job>
    var jobsOrder: string
    const geomShape: seq<Segment>
    var partName: Option<string>
    var diameter: Option<real>
    var holeDepth: Option<real>
    var threadDepth: Option<real>
    var threadDiameter: Option<real>
    var threadPitch: Option<real>

    /** The job history has no duplicate keys and the job-order string
        lists it. */
    predicate Valid()
      reads this`jobs, this`jobsOrder
    {
      DistinctKeys(jobs) && jobsOrder == JobsOrder(jobs)
    }

    /** `HoleGroup(new_coordinates, geom_shape)`. */
    constructor (newCoordinates: seq<Vec3>, shape: seq<Segment>)
      ensures centers == set c | c in newCoordinates
      ensures jobs == [] && jobsOrder == "" && geomShape == shape
      ensures partName.None? && diameter.None? && holeDepth.None?
      ensures threadDepth == Some(0.0) && threadDiameter == Some(0.0) && threadPitch == Some(0.0)
      ensures Valid()
    {
      centers := set c | c in newCoordinates;
      jobs := [];
      jobsOrder := "";
      geomShape := shape;
      partName := None;
      diameter := None;
      holeDepth := None;
      threadDepth := Some(0.0);
      threadDiameter := Some(0.0);
      threadPitch := Some(0.0);
    }

    /** `add_job`: the job type and tool type are normalised and the "ver"
        entry is dropped from the tool parameters; the job is built and
        appended, and its label appended to the job-order string, only when
        no stored job has the same key. Building it can raise, and then
        nothing is appended. */
    method AddJob(job: JobRecord, drillJobFlag: bool, jobType: string, toolType: string,
                  toolParameters: map<string, Json>, jobDepth: real, newCoordinates: seq<Vec3>,
                  jobNumber: int) returns (err: Option<Error>)
      requires Valid()
      modifies this`jobs, this`jobsOrder
      ensures Valid()
      ensures var key := JobKey(jobDepth, ProcessJobName(jobType), ProcessToolTypeName(toolType), toolParameters - {"ver"});
              var r := NewJob(job, drillJobFlag, ProcessJobName(jobType), ProcessToolTypeName(toolType),
                              toolParameters - {"ver"}, jobDepth, newCoordinates, jobNumber);
        && (HasKey(old(jobs), key) ==> err.None? && jobs == old(jobs) && jobsOrder == old(jobsOrder))
        && (!HasKey(old(jobs), key) && r.Failure? ==>
              err == Some(r.error) && jobs == old(jobs) && jobsOrder == old(jobsOrder))
        && (!HasKey(old(jobs), key) && r.Success? ==>
              && err.None? && KeyOf(r.value) == key
              && jobs == WithJob(old(jobs), r.value) && jobs == old(jobs) + [r.value]
              && jobsOrder == old(jobsOrder) + JobLabel(r.value))
    {
      var processedType := ProcessJobName(jobType);
      var processedTool := ProcessToolTypeName(toolType);
      var parameters := toolParameters - {"ver"};
      var key := JobKey(jobDepth, processedType, processedTool, parameters);
      var newJobFlag := true;
      var i := 0;
      while i < |jobs|
        invariant 0 <= i <= |jobs|
        invariant newJobFlag <==> forall k :: 0 <= k < i ==> KeyOf(jobs[k]) != key
        invariant !newJobFlag ==> HasKey(jobs, key)
      {
        if KeyOf(jobs[i]) == key {
          newJobFlag := false;
          break;
        }
        i := i + 1;
      }
      err := None;
      if newJobFlag {
        var built := NewJob(job, drillJobFlag, processedType, processedTool, parameters, jobDepth,
                            newCoordinates, jobNumber);
        if built.Failure? {
          return Some(built.error);
        }
        var newJob := built.value;
        WithJobSpec(jobs, newJob);
        jobs := jobs + [newJob];
        jobsOrder := jobsOrder + JobLabel(newJob);
      }
    }

    /** `update_parameters`: the part name is recorded first; then the
        diameter is twice the smallest first-endpoint radius of the outline,
        in absolute value, and the depth and thread fields are copied with
        `d[k]`, so a JSON null is copied as `None` and only a missing key
        raises. The fields are assigned in this order, so an error leaves the
        fields before it updated and the ones after it as they were. */
    method UpdateParameters(info: HoleGroupRecord, name: string) returns (err: Option<Error>)
      modifies this`partName, this`diameter, this`holeDepth, this`threadDepth, this`threadDiameter, this`threadPitch
      ensures partName == Some(name)
      ensures err.None? <==>
        && info.shapePoly.Some? && |info.shapePoly.value| > 0
        && !KeyAbsent(info.geomDepth, info.nulls, "_geom_depth")
        && !KeyAbsent(info.threadDepth, info.nulls, "_geom_thread_depth")
        && !KeyAbsent(info.threadDiameter, info.nulls, "_geom_thread_diameter")
        && !KeyAbsent(info.threadPitch, info.nulls, "_geom_thread_pitch")
      ensures err.None? ==>
        && diameter == Some(Abs(2.0 * MinRadius(info.shapePoly.value).value))
        && holeDepth == info.geomDepth && threadDepth == info.threadDepth
        && threadDiameter == info.threadDiameter && threadPitch == info.threadPitch
      // No outline (KeyError, or TypeError on a null): nothing else is written.
      ensures info.shapePoly.None? ==>
        && err == Some(MissingField("_geom_ShapePoly"))
        && diameter == old(diameter) && holeDepth == old(holeDepth) && threadDepth == old(threadDepth)
        && threadDiameter == old(threadDiameter) && threadPitch == old(threadPitch)
      // An empty outline (ValueError from `min`): nothing else is written.
      ensures info.shapePoly.Some? && |info.shapePoly.value| == 0 ==>
        && err == Some(EmptySequence)
        && diameter == old(diameter) && holeDepth == old(holeDepth) && threadDepth == old(threadDepth)
        && threadDiameter == old(threadDiameter) && threadPitch == old(threadPitch)
      // A missing depth: only the diameter is written.
      ensures info.shapePoly.Some? && |info.shapePoly.value| > 0 && KeyAbsent(info.geomDepth, info.nulls, "_geom_depth") ==>
        && err == Some(MissingField("_geom_depth"))
        && diameter == Some(Abs(2.0 * MinRadius(info.shapePoly.value).value))
        && holeDepth == old(holeDepth) && threadDepth == old(threadDepth)
        && threadDiameter == old(threadDiameter) && threadPitch == old(threadPitch)
      // A missing thread depth: the diameter and depth are written.
      ensures info.shapePoly.Some? && |info.shapePoly.value| > 0 && !KeyAbsent(info.geomDepth, info.nulls, "_geom_depth")
              && KeyAbsent(info.threadDepth, info.nulls, "_geom_thread_depth") ==>
        && err == Some(MissingField("_geom_thread_depth"))
        && diameter == Some(Abs(2.0 * MinRadius(info.shapePoly.value).value)) && holeDepth == info.geomDepth
        && threadDepth == old(threadDepth) && threadDiameter == old(threadDiameter) && threadPitch == old(threadPitch)
      // A missing thread diameter: the diameter, depth and thread depth are written.
      ensures info.shapePoly.Some? && |info.shapePoly.value| > 0 && !KeyAbsent(info.geomDepth, info.nulls, "_geom_depth")
              && !KeyAbsent(info.threadDepth, info.nulls, "_geom_thread_depth")
              && KeyAbsent(info.threadDiameter, info.nulls, "_geom_thread_diameter") ==>
        && err == Some(MissingField("_geom_thread_diameter"))
        && diameter == Some(Abs(2.0 * MinRadius(info.shapePoly.value).value)) && holeDepth == info.geomDepth
        && threadDepth == info.threadDepth && threadDiameter == old(threadDiameter) && threadPitch == old(threadPitch)
      // A missing thread pitch: every field but the pitch is written.
      ensures info.shapePoly.Some? && |info.shapePoly.value| > 0 && !KeyAbsent(info.geomDepth, info.nulls, "_geom_depth")
              && !KeyAbsent(info.threadDepth, info.nulls, "_geom_thread_depth")
              && !KeyAbsent(info.threadDiameter, info.nulls, "_geom_thread_diameter")
              && KeyAbsent(info.threadPitch, info.nulls, "_geom_thread_pitch") ==>
        && err == Some(MissingField("_geom_thread_pitch"))
        && diameter == Some(Abs(2.0 * MinRadius(info.shapePoly.value).value)) && holeDepth == info.geomDepth
        && threadDepth == info.threadDepth && threadDiameter == info.threadDiameter && threadPitch == old(threadPitch)
    {
      partName := Some(name);
      if info.shapePoly.None? {
        return Some(MissingField("_geom_ShapePoly"));
      }
      var smallest := MinRadius(info.shapePoly.value);
      if smallest.Failure? {
        return Some(smallest.error);
      }
      diameter := Some(Abs(2.0 * smallest.value));
      if KeyAbsent(info.geomDepth, info.nulls, "_geom_depth") {
        return Some(MissingField("_geom_depth"));
      }
      holeDepth := info.geomDepth;
      if KeyAbsent(info.threadDepth, info.nulls, "_geom_thread_depth") {
        return Some(MissingField("_geom_thread_depth"));
      }
      threadDepth := info.threadDepth;
      if KeyAbsent(info.threadDiameter, info.nulls, "_geom_thread_diameter") {
        return Some(MissingField("_geom_thread_diameter"));
      }
      threadDiameter := info.threadDiameter;
      if KeyAbsent(info.threadPitch, info.nulls, "_geom_thread_pitch") {
        return Some(MissingField("_geom_thread_pitch"));
      }
      threadPitch := info.threadPitch;
      return None;
    }
  }

  /** The diameter of a hole group is the doubled smallest first-endpoint
      radius: it is attained by one segment and, for an outline on the
      non-negative side of the axis, no segment is narrower. */
  lemma DiameterIsSmallest(shape: seq<Segment>)
    requires |shape| > 0
    requires forall k :: 0 <= k < |shape| ==> shape[k].p0.x >= 0.0
    ensures exists k :: 0 <= k < |shape| && Abs(2.0 * MinRadius(shape).value) == 2.0 * shape[k].p0.x
    ensures forall k :: 0 <= k < |shape| ==> Abs(2.0 * MinRadius(shape).value) <= 2.0 * shape[k].p0.x
  {
    var m := MinRadius(shape).value;
    var k :| 0 <= k < |shape| && m == shape[k].p0.x;
    assert Abs(2.0 * m) == 2.0 * shape[k].p0.x;
  }

  // ---------------------------------------------------------------------
  // Topology
  // ---------------------------------------------------------------------

  /** "Order k". */
  function OrderLabel(n: nat): string
  {
    "Order " + Decimal.NatToString(n)
  }

  /** The labelling gives distinct numbers distinct labels. */
  ghost predicate Injective(labelOf: nat -> string)
  {
    forall a, b :: labelOf(a) == labelOf(b) ==> a == b
  }

  lemma OrderLabelInjective()
    ensures Injective(OrderLabel)
  {
    forall a: nat, b: nat | OrderLabel(a) == OrderLabel(b) ensures a == b {
      assert OrderLabel(a)[6..] == Decimal.NatToString(a);
      assert OrderLabel(b)[6..] == Decimal.NatToString(b);
      Decimal.NatToStringInjective(a, b);
    }
  }

  /** The labels of 1 to m. */
  function LabelsUpTo(m: nat, labelOf: nat -> string): set<string>
  {
    if m == 0 then {} else LabelsUpTo(m - 1, labelOf) + {labelOf(m)}
  }

  /** The label of n is among the first m labels exactly when 1 <= n <= m. */
  lemma {:induction false} LabelsUpToSpec(m: nat, n: nat, labelOf: nat -> string)
    requires Injective(labelOf)
    ensures labelOf(n) in LabelsUpTo(m, labelOf) <==> 1 <= n <= m
  {
    if m > 0 {
      LabelsUpToSpec(m - 1, n, labelOf);
    }
  }

  /** Every label of the job-order dictionary is the label of some
      1 <= n <= its size, and no two keys share a label. */
  predicate Numbered(d: map<string, string>, labelOf: nat -> string)
  {
    && (forall k :: k in d ==> d[k] in LabelsUpTo(|d|, labelOf))
    && (forall k1, k2 :: k1 in d && k2 in d && k1 != k2 ==> d[k1] != d[k2])
  }

  /** One step of `update_jobs_orders_dict`: an order not yet seen is given
      the next label. */
  function AddOrder(d: map<string, string>, order: string, labelOf: nat -> string): map<string, string>
  {
    if order in d then d else d[order := labelOf(|d| + 1)]
  }

  /** `update_jobs_orders_dict` over a list of job-order strings, in order. */
  function AddOrders(d: map<string, string>, orders: seq<string>, labelOf: nat -> string): map<string, string>
    decreases |orders|
  {
    if orders == [] then d
    else AddOrder(AddOrders(d, orders[..|orders| - 1], labelOf), orders[|orders| - 1], labelOf)
  }

  /** Adding a new key grows a dictionary by one. */
  lemma AddKeySize(d: map<string, string>, k: string, v: string)
    requires k !in d
    ensures |d[k := v]| == |d| + 1
  {
    assert d[k := v].Keys == d.Keys + {k};
  }

  /** The next label is not among the earlier ones. */
  lemma NextLabelIsNew(m: nat, labelOf: nat -> string)
    requires Injective(labelOf)
    ensures labelOf(m + 1) !in LabelsUpTo(m, labelOf)
  {
    LabelsUpToSpec(m, m + 1, labelOf);
  }

  /** A dictionary extended by a new key and the next label stays numbered. */
  lemma AddNewOrderNumbered(d: map<string, string>, order: string, labelOf: nat -> string)
    requires Injective(labelOf) && Numbered(d, labelOf) && order !in d
    ensures Numbered(d[order := labelOf(|d| + 1)], labelOf)
  {
    var next := labelOf(|d| + 1);
    var r := d[order := next];
    AddKeySize(d, order, next);
    NextLabelIsNew(|d|, labelOf);
    var old_labels := LabelsUpTo(|d|, labelOf);
    assert LabelsUpTo(|r|, labelOf) == old_labels + {next};
    forall k | k in r ensures r[k] in old_labels + {next} {
    }
    forall k1, k2 | k1 in r && k2 in r && k1 != k2 ensures r[k1] != r[k2] {
    }
  }

  lemma AddOrderSpec(d: map<string, string>, order: string, labelOf: nat -> string)
    requires Injective(labelOf) && Numbered(d, labelOf)
    ensures var r := AddOrder(d, order, labelOf);
      && Numbered(r, labelOf)
      && order in r
      && (forall k :: k in d ==> k in r && r[k] == d[k])
      && (order !in d ==> r[order] == labelOf(|d| + 1) && |r| == |d| + 1)
  {
    if order !in d {
      AddNewOrderNumbered(d, order, labelOf);
      assert d[order := labelOf(|d| + 1)].Keys == d.Keys + {order};
    }
  }

  /** After the call every job order is a key, the labels already given are
      unchanged, and labels stay numbered and distinct. */
  lemma {:induction false} AddOrdersSpec(d: map<string, string>, orders: seq<string>, labelOf: nat -> string)
    requires Injective(labelOf) && Numbered(d, labelOf)
    ensures var r := AddOrders(d, orders, labelOf);
      && Numbered(r, labelOf)
      && (forall i :: 0 <= i < |orders| ==> orders[i] in r)
      && (forall k :: k in d ==> k in r && r[k] == d[k])
    decreases |orders|
  {
    if orders != [] {
      var init := orders[..|orders| - 1];
      AddOrdersSpec(d, init, labelOf);
      AddOrderSpec(AddOrders(d, init, labelOf), orders[|orders| - 1], labelOf);
      var r := AddOrders(d, orders, labelOf);
      forall i | 0 <= i < |orders| ensures orders[i] in r {
        if i < |orders| - 1 { assert orders[i] == init[i]; }
      }
    }
  }

  /** The job-order strings of a list of hole groups. */
  function JobOrders(groups: seq<HoleGroup>): (r: seq<string>)
    reads groups
    ensures |r| == |groups| && forall i :: 0 <= i < |groups| ==> r[i] == groups[i].jobsOrder
    decreases |groups|
  {
    if groups == [] then [] else [groups[0].jobsOrder] + JobOrders(groups[1..])
  }

  /** The first group, from index i on, whose outline matches the new one. */
  function FirstShapeMatch(groups: seq<HoleGroup>, shape: seq<Segment>,
                           sameShape: (seq<Segment>, seq<Segment>) -> bool, i: nat): (r: Option<nat>)
    requires i <= |groups|
    ensures r.Some? ==>
      && i <= r.value < |groups|
      && sameShape(shape, groups[r.value].geomShape)
      && forall k :: i <= k < r.value ==> !sameShape(shape, groups[k].geomShape)
    ensures r.None? ==> forall k :: i <= k < |groups| ==> !sameShape(shape, groups[k].geomShape)
    decreases |groups| - i
  {
    if i == |groups| then None
    else if sameShape(shape, groups[i].geomShape) then Some(i)
    else FirstShapeMatch(groups, shape, sameShape, i + 1)
  }

  /** The centre is the same hole as a centre of some job of the group. */
  predicate SameHoleAsSome(c: Vec3, jobs: seq<Job>, holeDepth: Option<real>, homeNumber: int,
                           sameHole: (Vec3, set<Vec3>, Option<real>, int, seq<int>) -> bool)
  {
    exists k :: 0 <= k < |jobs| && sameHole(c, jobs[k].centers, holeDepth, homeNumber, jobs[k].parallelHomeNumbers)
  }

  /** The new centres that are the same hole as a centre of some job of the group. */
  function MatchedCenters(newCoordinates: seq<Vec3>, jobs: seq<Job>, holeDepth: Option<real>, homeNumber: int,
                          sameHole: (Vec3, set<Vec3>, Option<real>, int, seq<int>) -> bool): set<Vec3>
  {
    set c | c in newCoordinates && SameHoleAsSome(c, jobs, holeDepth, homeNumber, sameHole)
  }

  /** The holes of one topology (one shape mask). */
  class Topology {
    const name: Option<string>
    const mask: int
    var holesGroups: seq<HoleGroup>
    var jobsOrdersDict: map<string, string>

    /** The groups are distinct objects and each is valid. */
    predicate GroupsValid()
      reads this`holesGroups, holesGroups
    {
      && (forall i, k :: 0 <= i < k < |holesGroups| ==> holesGroups[i] != holesGroups[k])
      && (forall i :: 0 <= i < |holesGroups| ==> holesGroups[i].Valid())
    }

    /** The groups are valid and the job-order labels are numbered. */
    predicate Valid()
      reads this, holesGroups
    {
      GroupsValid() && Numbered(jobsOrdersDict, OrderLabel)
    }

    /** `Topology(topology, topology_mask)`. */
    constructor (topology: Option<string>, topologyMask: int)
      ensures name == topology && mask == topologyMask
      ensures holesGroups == [] && jobsOrdersDict == map[]
      ensures Valid()
    {
      name := topology;
      mask := topologyMask;
      holesGroups := [];
      jobsOrdersDict := map[];
    }

    /** `add_hole_group`: the first group whose outline matches receives
        every new centre that is the same hole as a centre of one of its
        jobs, and is returned with `False`; when no outline matches, a new
        group of the new centres is appended and returned with `True`. */
    method AddHoleGroup(homeNumber: int, newCoordinates: seq<Vec3>, newGeomShape: seq<Segment>,
                        sameShape: (seq<Segment>, seq<Segment>) -> bool,
                        sameHole: (Vec3, set<Vec3>, Option<real>, int, seq<int>) -> bool)
      returns (group: HoleGroup, created: bool)
      requires Valid()
      modifies this`holesGroups, holesGroups
      ensures Valid()
      ensures var m := FirstShapeMatch(old(holesGroups), newGeomShape, sameShape, 0);
        && (created <==> m.None?)
        && (m.Some? ==>
             && group == old(holesGroups)[m.value]
             && holesGroups == old(holesGroups)
             && group.centers == old(group.centers) +
                  MatchedCenters(newCoordinates, group.jobs, group.holeDepth, homeNumber, sameHole))
        && (m.None? ==>
             && fresh(group)
             && holesGroups == old(holesGroups) + [group]
             && group.centers == (set c | c in newCoordinates)
             && group.jobs == [] && group.jobsOrder == "" && group.geomShape == newGeomShape)
      ensures forall g :: g in old(holesGroups) && g != group ==> unchanged(g)
      ensures !created ==> unchanged(group`jobs, group`jobsOrder, group`partName, group`diameter, group`holeDepth)
      ensures !created ==> unchanged(group`threadDepth, group`threadDiameter, group`threadPitch)
      ensures MatchedCenters(newCoordinates, group.jobs, group.holeDepth, homeNumber, sameHole) <= group.centers
    {
      var i := 0;
      while i < |holesGroups|
        invariant 0 <= i <= |holesGroups|
        invariant FirstShapeMatch(holesGroups, newGeomShape, sameShape, 0) ==
                  FirstShapeMatch(holesGroups, newGeomShape, sameShape, i)
      {
        var g := holesGroups[i];
        if sameShape(newGeomShape, g.geomShape) {
          AddMatchingCenters(g, homeNumber, newCoordinates, sameHole);
          return g, false;
        }
        i := i + 1;
      }
      group := new HoleGroup(newCoordinates, newGeomShape);
      holesGroups := holesGroups + [group];
      created := true;
    }

    /** `update_jobs_orders_dict`: every group's job order not yet in the
        dictionary gets the next "Order k" label. */
    method UpdateJobsOrdersDict()
      requires Numbered(jobsOrdersDict, OrderLabel)
      modifies this`jobsOrdersDict
      ensures Numbered(jobsOrdersDict, OrderLabel)
      ensures jobsOrdersDict == AddOrders(old(jobsOrdersDict), JobOrders(holesGroups), OrderLabel)
      ensures forall i :: 0 <= i < |holesGroups| ==> holesGroups[i].jobsOrder in jobsOrdersDict
      ensures forall k :: k in old(jobsOrdersDict) ==> k in jobsOrdersDict && jobsOrdersDict[k] == old(jobsOrdersDict)[k]
    {
      var d := LabelOrders(holesGroups, jobsOrdersDict);
      OrderLabelInjective();
      AddOrdersSpec(jobsOrdersDict, JobOrders(holesGroups), OrderLabel);
      jobsOrdersDict := d;
    }
  }

  /** The loop of `update_jobs_orders_dict`: each group's job order not yet
      in the dictionary gets "Order k", k one more than the dictionary's size. */
  method LabelOrders(groups: seq<HoleGroup>, d0: map<string, string>) returns (d: map<string, string>)
    ensures d == AddOrders(d0, JobOrders(groups), OrderLabel)
  {
    ghost var orders := JobOrders(groups);
    d := d0;
    var i := 0;
    while i < |groups|
      invariant 0 <= i <= |groups|
      invariant d == AddOrders(d0, orders[..i], OrderLabel)
    {
      var order := groups[i].jobsOrder;
      assert orders[..i + 1][..i] == orders[..i];
      if order !in d {
        d := d[order := OrderLabel(|d| + 1)];
      }
      i := i + 1;
    }
    assert orders[..i] == orders;
  }

  /** The inner loops of `add_hole_group` for a matching group: each new
      centre is added when it is the same hole as a centre of any of the
      group's jobs. */
  method AddMatchingCenters(g: HoleGroup, homeNumber: int, newCoordinates: seq<Vec3>,
                            sameHole: (Vec3, set<Vec3>, Option<real>, int, seq<int>) -> bool)
    modifies g`centers
    ensures g.centers == old(g.centers) + MatchedCenters(newCoordinates, g.jobs, g.holeDepth, homeNumber, sameHole)
  {
    var i := 0;
    while i < |newCoordinates|
      invariant 0 <= i <= |newCoordinates|
      invariant g.centers == old(g.centers) + MatchedCenters(newCoordinates[..i], g.jobs, g.holeDepth, homeNumber, sameHole)
    {
      var c := newCoordinates[i];
      var k := 0;
      while k < |g.jobs|
        invariant 0 <= k <= |g.jobs|
        invariant g.centers == old(g.centers) + MatchedCenters(newCoordinates[..i], g.jobs, g.holeDepth, homeNumber, sameHole) +
          (if SameHoleAsSome(c, g.jobs[..k], g.holeDepth, homeNumber, sameHole) then {c} else {})
      {
        if sameHole(c, g.jobs[k].centers, g.holeDepth, homeNumber, g.jobs[k].parallelHomeNumbers) {
          g.centers := g.centers + {c};
        }
        assert g.jobs[..k + 1][..k] == g.jobs[..k] && g.jobs[..k + 1][k] == g.jobs[k];
        k := k + 1;
      }
      assert g.jobs[..k] == g.jobs;
      assert newCoordinates[..i + 1] == newCoordinates[..i] + [c];
      i := i + 1;
    }
    assert newCoordinates[..i] == newCoordinates;
  }
}
