/** `process_jobs` of Process_Jobs.py: the hole groups of one job are routed,
    in order, into the dictionary of topologies keyed by shape mask. A mask
    and the mask with its decimal digits reversed denote the same topology,
    so a group goes to the reversed mask when that one is already a key.

    The call that hands each routed group to its topology
    (Process_Jobs.py:49) passes four arguments to a three-parameter method;
    it is not part of this model, which records instead the key each group
    is routed to. */
module ProcessJobs {
  import opened Wrappers
  import opened Records
  import opened Utilities
  import opened Conversions
  import Classes
  import Decimal
  import Seqs

  // ---------------------------------------------------------------------
  // The reversed mask
  // ---------------------------------------------------------------------

  /** `int(str(mask)[::-1])`. */
  function ReverseMask(mask: nat): nat
  {
    Decimal.ParseDecimal(Seqs.Reverse(Decimal.NatToString(mask)))
  }

  lemma ParseLastDigit(s: string)
    requires |s| >= 1 && Decimal.AllDigits(s)
    ensures Decimal.ParseDecimal(s) % 10 == Decimal.DigitValue(s[|s| - 1])
  {
  }

  /** The last digit of the reversed mask is the first digit of the mask, so
      a positive mask reverses to a mask with no trailing zero. */
  lemma ReverseMaskNoTrailingZero(mask: nat)
    requires mask > 0
    ensures ReverseMask(mask) % 10 != 0
  {
    var s := Decimal.NatToString(mask);
    var r := Seqs.Reverse(s);
    ParseLastDigit(r);
    assert r[|r| - 1] == s[0];
  }

  /** Reversing the digits twice gives the mask back when it has no
      trailing zero. */
  lemma ReverseMaskInvolutive(mask: nat)
    requires mask % 10 != 0
    ensures ReverseMask(ReverseMask(mask)) == mask
  {
    var s := Decimal.NatToString(mask);
    var r := Seqs.Reverse(s);
    assert r[0] == s[|s| - 1];
    Decimal.NatToStringOfParse(r);
    Seqs.ReverseReverse(s);
    Decimal.ParseOfNatToString(mask);
  }

  /** A trailing zero is lost: 120 reverses to 21, which reverses to 12. */
  lemma ReverseMaskTrailingZero()
    ensures ReverseMask(120) == 21 && ReverseMask(21) == 12
  {
    assert Decimal.NatToString(120) == "120";
    assert Seqs.Reverse("120") == "021";
    assert Decimal.ParseDecimal("021") == 21;
    assert Decimal.NatToString(21) == "21";
    assert Seqs.Reverse("21") == "12";
    assert Decimal.ParseDecimal("12") == 12;
  }

  // ---------------------------------------------------------------------
  // Routing one hole group
  // ---------------------------------------------------------------------

  /** Whether filing a group whose mask and reversed mask are these creates
      a topology: neither is a key yet. */
  predicate Creates(keys: set<int>, mask: int, reversed: int)
  {
    mask !in keys && reversed !in keys
  }

  /** The key a group with this mask (and reversed mask) is filed under. */
  function Target(keys: set<int>, mask: int, reversed: int): int
  {
    if Creates(keys, mask, reversed) then mask
    else if reversed in keys then reversed
    else mask
  }

  /** The keys after a group with this mask is filed: the mask is added only
      when neither it nor its reversal is a key. */
  function KeysAfter(keys: set<int>, mask: int, reversed: int): set<int>
  {
    if Creates(keys, mask, reversed) then keys + {mask} else keys
  }

  /** The three routing cases: a new key under the mask as seen; the
      reversal's topology whenever the reversal is a key, even when the mask
      is one too; the mask's own topology otherwise. The group always lands
      on a key, and at most one key is added. */
  lemma RoutingSpec(keys: set<int>, mask: int, reversed: int)
    ensures mask !in keys && reversed !in keys ==>
      Target(keys, mask, reversed) == mask && KeysAfter(keys, mask, reversed) == keys + {mask}
    ensures reversed in keys ==>
      Target(keys, mask, reversed) == reversed && KeysAfter(keys, mask, reversed) == keys
    ensures mask in keys && reversed !in keys ==>
      Target(keys, mask, reversed) == mask && KeysAfter(keys, mask, reversed) == keys
    ensures Target(keys, mask, reversed) in KeysAfter(keys, mask, reversed)
    ensures keys <= KeysAfter(keys, mask, reversed) && |KeysAfter(keys, mask, reversed)| <= |keys| + 1
  {
  }

  /** No key is stored alongside its distinct reversal (for keys without a
      trailing zero, whose reversal reverses back). */
  ghost predicate Canonical(keys: set<int>)
  {
    forall k :: k in keys && k > 0 && k % 10 != 0 && ReverseMask(k) in keys ==> ReverseMask(k) == k
  }

  /** Filing a group keeps the keys canonical. */
  lemma KeysAfterCanonical(keys: set<int>, mask: nat)
    requires Canonical(keys)
    ensures Canonical(KeysAfter(keys, mask, ReverseMask(mask)))
  {
    if Creates(keys, mask, ReverseMask(mask)) {
      var after := keys + {mask};
      forall k | k in after && k > 0 && k % 10 != 0 && ReverseMask(k) in after
        ensures ReverseMask(k) == k
      {
        if k == mask {
          assert ReverseMask(k) !in keys;
        } else if ReverseMask(k) == mask {
          ReverseMaskInvolutive(k);
          assert false;
        }
      }
    }
  }

  /** Two masks that are each other's reversal reach the same topology: the
      second one seen is routed to the key the first one created. */
  lemma ReversedMasksShareTopology(keys: set<int>, mask: nat)
    requires mask % 10 != 0
    requires Creates(keys, mask, ReverseMask(mask))
    ensures var after := KeysAfter(keys, mask, ReverseMask(mask));
      var other := ReverseMask(mask);
      Target(after, other, ReverseMask(other)) == mask && KeysAfter(after, other, ReverseMask(other)) == after
  {
    ReverseMaskInvolutive(mask);
  }

  /** 21 is filed under an existing 12. */
  lemma RoutesToReversal()
    ensures Target({12}, 21, ReverseMask(21)) == 12 && KeysAfter({12}, 21, ReverseMask(21)) == {12}
  {
    assert Decimal.NatToString(21) == "21";
    assert Seqs.Reverse("21") == "12";
    assert Decimal.ParseDecimal("12") == 12;
  }

  // ---------------------------------------------------------------------
  // The loop over the hole groups of one job
  // ---------------------------------------------------------------------

  /** What the loop body decides for one hole group before filing it: the
      error raised by coordinate extraction or a missing field, the stop on
      a mask that is not positive, or the mask, its reversal and the
      topology name to file. */
  datatype GroupStep =
    | Fail(error: Error)
    | Stop
    | Accept(mask: nat, reversed: nat, name: Option<string>)

  /** Coordinate extraction runs first, then `topology_sort` of the
      topology type, then the mask is read and checked. */
  function Classify(info: HoleGroupRecord, frame: Frame, round3: real -> real): (step: GroupStep)
    ensures Coordinates(info, frame, round3).Failure? ==> step == Fail(Coordinates(info, frame, round3).error)
    ensures step.Accept? ==>
      && Coordinates(info, frame, round3).Success?
      && info.topologyType.Some? && info.shapeMask.Some?
      && step.mask == info.shapeMask.value > 0
      && step.reversed == ReverseMask(step.mask)
      && step.name == TopologySort(info.topologyType.value)
    ensures step == Stop <==>
      Coordinates(info, frame, round3).Success? && info.topologyType.Some? &&
      info.shapeMask.Some? && info.shapeMask.value <= 0
  {
    match Coordinates(info, frame, round3)
    case Failure(e) => Fail(e)
    case Success(_) =>
      if info.topologyType.None? then Fail(MissingField("_topology_type"))
      else if info.shapeMask.None? then Fail(MissingField("_geomShapeMask"))
      else if info.shapeMask.value <= 0 then Stop
      else Accept(info.shapeMask.value, ReverseMask(info.shapeMask.value), TopologySort(info.topologyType.value))
  }

  /** What the loop body decides for every hole group of a job, in order
      (a group after a stop or an error is never looked at by the loop). */
  function Steps(groups: seq<HoleGroupRecord>, frame: Frame, round3: real -> real): (steps: seq<GroupStep>)
    ensures |steps| == |groups|
    ensures forall j :: 0 <= j < |groups| ==> steps[j] == Classify(groups[j], frame, round3)
  {
    seq(|groups|, j requires 0 <= j < |groups| => Classify(groups[j], frame, round3))
  }

  /** Every accepted step carries the true reversal of its mask. */
  ghost predicate Reversals(steps: seq<GroupStep>)
  {
    forall j :: 0 <= j < |steps| && steps[j].Accept? ==> steps[j].reversed == ReverseMask(steps[j].mask)
  }

  /** The outcome of the loop: the error that ended it, if any; the keys;
      the name of each topology it created, by key; and the key each filed
      group went to, in order. */
  datatype RunResult = RunResult(error: Option<Error>, keys: set<int>, created: map<int, Option<string>>, routed: seq<int>)

  /** The loop from step i on, with the keys, creations and routes so far. */
  function Run(keys: set<int>, created: map<int, Option<string>>, routed: seq<int>,
               steps: seq<GroupStep>, i: nat): RunResult
    requires i <= |steps|
    decreases |steps| - i
  {
    if i == |steps| then RunResult(None, keys, created, routed)
    else match steps[i]
      case Fail(e) => RunResult(Some(e), keys, created, routed)
      case Stop => RunResult(None, keys, created, routed)
      case Accept(mask, reversed, name) =>
        Run(KeysAfter(keys, mask, reversed),
            if Creates(keys, mask, reversed) then created[mask := name] else created,
            routed + [Target(keys, mask, reversed)], steps, i + 1)
  }

  /** The topologies created are exactly the new keys, each keeping the
      name it was created with. */
  lemma {:induction false} RunKeys(keys: set<int>, created: map<int, Option<string>>, routed: seq<int>,
                                   steps: seq<GroupStep>, i: nat)
    requires i <= |steps|
    requires created.Keys <= keys
    ensures var r := Run(keys, created, routed, steps, i);
      && created.Keys <= r.created.Keys <= r.keys
      && r.created.Keys - created.Keys == r.keys - keys
      && (forall k :: k in created ==> r.created[k] == created[k])
    decreases |steps| - i
  {
    if i < |steps| && steps[i].Accept? {
      var mask, reversed, name := steps[i].mask, steps[i].reversed, steps[i].name;
      var keys' := KeysAfter(keys, mask, reversed);
      var created' := if Creates(keys, mask, reversed) then created[mask := name] else created;
      RunKeys(keys', created', routed + [Target(keys, mask, reversed)], steps, i + 1);
      var r := Run(keys', created', routed + [Target(keys, mask, reversed)], steps, i + 1);
      if Creates(keys, mask, reversed) {
        assert r.created.Keys - created.Keys == (r.created.Keys - created'.Keys) + {mask};
        assert r.keys - keys == (r.keys - keys') + {mask};
      }
    }
  }

  /** Keys only grow, the loop files at most one group per step, and it adds
      at most one key per filed group. */
  lemma {:induction false} RunGrowth(keys: set<int>, created: map<int, Option<string>>, routed: seq<int>,
                                     steps: seq<GroupStep>, i: nat)
    requires i <= |steps|
    ensures var r := Run(keys, created, routed, steps, i);
      && keys <= r.keys
      && |routed| <= |r.routed| <= |routed| + |steps| - i
      && |r.keys| <= |keys| + |r.routed| - |routed|
    decreases |steps| - i
  {
    if i < |steps| && steps[i].Accept? {
      var mask, reversed, name := steps[i].mask, steps[i].reversed, steps[i].name;
      RoutingSpec(keys, mask, reversed);
      RunGrowth(KeysAfter(keys, mask, reversed), if Creates(keys, mask, reversed) then created[mask := name] else created,
                routed + [Target(keys, mask, reversed)], steps, i + 1);
    }
  }

  /** The routes so far are kept, and each new route names a key. */
  lemma {:induction false} RunRouted(keys: set<int>, created: map<int, Option<string>>, routed: seq<int>,
                                     steps: seq<GroupStep>, i: nat)
    requires i <= |steps|
    ensures var r := Run(keys, created, routed, steps, i);
      && |routed| <= |r.routed|
      && r.routed[..|routed|] == routed
      && (forall j :: |routed| <= j < |r.routed| ==> r.routed[j] in r.keys)
    decreases |steps| - i
  {
    if i < |steps| && steps[i].Accept? {
      var mask, reversed, name := steps[i].mask, steps[i].reversed, steps[i].name;
      var keys' := KeysAfter(keys, mask, reversed);
      var created' := if Creates(keys, mask, reversed) then created[mask := name] else created;
      var routed' := routed + [Target(keys, mask, reversed)];
      RoutingSpec(keys, mask, reversed);
      RunRouted(keys', created', routed', steps, i + 1);
      RunGrowth(keys', created', routed', steps, i + 1);
      var r := Run(keys', created', routed', steps, i + 1);
      assert r.routed[..|routed|] == routed'[..|routed|] == routed;
      assert r.routed[|routed|] == routed'[|routed|];
    }
  }

  /** Canonical keys stay canonical through the whole loop. */
  lemma {:induction false} RunCanonical(keys: set<int>, created: map<int, Option<string>>, routed: seq<int>,
                                        steps: seq<GroupStep>, i: nat)
    requires i <= |steps| && Canonical(keys) && Reversals(steps)
    ensures Canonical(Run(keys, created, routed, steps, i).keys)
    decreases |steps| - i
  {
    if i < |steps| && steps[i].Accept? {
      var mask, reversed, name := steps[i].mask, steps[i].reversed, steps[i].name;
      KeysAfterCanonical(keys, mask);
      RunCanonical(KeysAfter(keys, mask, reversed), if Creates(keys, mask, reversed) then created[mask := name] else created,
                   routed + [Target(keys, mask, reversed)], steps, i + 1);
    }
  }

  /** `job['geometry']["recognized_holes_groups"]`, or the error indexing
      an absent or null field raises. */
  function HoleGroups(job: JobRecord): (r: Result<seq<HoleGroupRecord>, Error>)
    ensures r.Success? <==> job.geometry.Some? && job.geometry.value.recognizedHolesGroups.Some?
    ensures r.Success? ==> r.value == job.geometry.value.recognizedHolesGroups.value
  {
    if job.geometry.None? then Failure(MissingField("geometry"))
    else if job.geometry.value.recognizedHolesGroups.None? then Failure(MissingField("recognized_holes_groups"))
    else Success(job.geometry.value.recognizedHolesGroups.value)
  }

  /** The routing of one job into the topology keys it starts with: the home
      matrix must split into a frame, the hole groups must be there, and the
      loop then runs over them. */
  function JobRun(keys: set<int>, job: JobRecord, round3: real -> real): RunResult
  {
    if job.homeMatrix.None? then RunResult(Some(MissingField("home_matrix")), keys, map[], [])
    else match RotationTranslation(job.homeMatrix.value)
      case Failure(e) => RunResult(Some(e), keys, map[], [])
      case Success(frame) =>
        match HoleGroups(job)
        case Failure(e) => RunResult(Some(e), keys, map[], [])
        case Success(groups) => Run(keys, map[], [], Steps(groups, frame, round3), 0)
  }

  /** A mask that is not positive stops the loop: the groups before it are
      filed and the ones after it are not looked at. */
  lemma StopSkipsRest(keys: set<int>, created: map<int, Option<string>>, routed: seq<int>,
                      groups: seq<HoleGroupRecord>, i: nat, frame: Frame, round3: real -> real)
    requires i < |groups| && Classify(groups[i], frame, round3) == Stop
    ensures Run(keys, created, routed, Steps(groups, frame, round3), i) == RunResult(None, keys, created, routed)
  {
  }

  /** Routing a job only adds keys, creates a topology for exactly the new
      keys, files each routed group under a key, files no more groups than
      the job has and adds at most one key per filed group; when the home
      matrix is missing or too short nothing is filed. */
  lemma JobRunSpec(keys: set<int>, job: JobRecord, round3: real -> real)
    ensures var r := JobRun(keys, job, round3);
      && keys <= r.keys
      && r.created.Keys == r.keys - keys
      && (forall j :: 0 <= j < |r.routed| ==> r.routed[j] in r.keys)
      && (HoleGroups(job).Success? ==> |r.routed| <= |HoleGroups(job).value|)
      && |r.keys| <= |keys| + |r.routed|
    ensures job.homeMatrix.None? ==> JobRun(keys, job, round3) == RunResult(Some(MissingField("home_matrix")), keys, map[], [])
    ensures job.homeMatrix.Some? && |job.homeMatrix.value| < 12 ==>
      JobRun(keys, job, round3) == RunResult(Some(IndexOutOfRange), keys, map[], [])
    ensures job.homeMatrix.Some? && |job.homeMatrix.value| >= 12 && HoleGroups(job).Failure? ==>
      JobRun(keys, job, round3) == RunResult(Some(HoleGroups(job).error), keys, map[], [])
  {
    if job.homeMatrix.Some? && RotationTranslation(job.homeMatrix.value).Success? && HoleGroups(job).Success? {
      var frame := RotationTranslation(job.homeMatrix.value).value;
      var steps := Steps(HoleGroups(job).value, frame, round3);
      RunKeys(keys, map[], [], steps, 0);
      RunGrowth(keys, map[], [], steps, 0);
      RunRouted(keys, map[], [], steps, 0);
    }
  }

  /** Canonical keys stay canonical through the routing of a whole job. */
  lemma JobRunCanonical(keys: set<int>, job: JobRecord, round3: real -> real)
    requires Canonical(keys)
    ensures Canonical(JobRun(keys, job, round3).keys)
  {
    if job.homeMatrix.Some? && RotationTranslation(job.homeMatrix.value).Success? && HoleGroups(job).Success? {
      var frame := RotationTranslation(job.homeMatrix.value).value;
      var steps := Steps(HoleGroups(job).value, frame, round3);
      assert Reversals(steps);
      RunCanonical(keys, map[], [], steps, 0);
    }
  }

  /** The body of the loop up to the filing: extracts the coordinates, sorts
      the topology type and reads the mask, stopping at the first error. */
  method ClassifyGroup(info: HoleGroupRecord, frame: Frame, round3: real -> real) returns (step: GroupStep)
    ensures step == Classify(info, frame, round3)
  {
    var coordinates := ExtractCoordinates(info, frame, round3);
    if coordinates.Failure? {
      return Fail(coordinates.error);
    }
    if info.topologyType.None? {
      return Fail(MissingField("_topology_type"));
    }
    var topologyType := TopologySort(info.topologyType.value);
    if info.shapeMask.None? {
      return Fail(MissingField("_geomShapeMask"));
    }
    var topologyMask := info.shapeMask.value;
    if topologyMask <= 0 {
      return Stop;
    }
    var reversedMask := ReverseMask(topologyMask);
    return Accept(topologyMask, reversedMask, topologyType);
  }

  /** A topology as its constructor leaves it: this mask and name, no hole
      groups, no job orders. */
  ghost predicate IsEmptyTopology(t: Classes.Topology, mask: int, name: Option<string>)
    reads t
  {
    t.mask == mask && t.name == name && t.holesGroups == [] && t.jobsOrdersDict == map[]
  }

  /** The dictionary of topologies, keyed by shape mask. */
  class Catalog {
    var topologies: map<int, Classes.Topology>

    constructor ()
      ensures topologies == map[]
    {
      topologies := map[];
    }

    /** Files a group with this mask: under a new topology when neither the
        mask nor its reversal is a key, under the reversal's topology when
        that is a key, and under the mask's own otherwise. */
    method File(mask: nat, reversed: nat, name: Option<string>) returns (key: int)
      modifies this
      ensures key == Target(old(topologies).Keys, mask, reversed)
      ensures topologies.Keys == KeysAfter(old(topologies).Keys, mask, reversed)
      ensures Creates(old(topologies).Keys, mask, reversed) ==>
        && topologies == old(topologies)[mask := topologies[mask]]
        && fresh(topologies[mask])
        && IsEmptyTopology(topologies[mask], mask, name)
      ensures !Creates(old(topologies).Keys, mask, reversed) ==> topologies == old(topologies)
    {
      key := mask;
      if mask !in topologies && reversed !in topologies {
        var topology := new Classes.Topology(name, mask);
        topologies := topologies[mask := topology];
      } else if reversed in topologies {
        key := reversed;
      }
    }
  }

  /** `process_jobs(job, part_name, topologies_dict)`: returns the error that
      ended the loop, if any, and the key each filed group went to. Topologies
      already in the dictionary are never replaced; each new key holds a new,
      empty topology carrying the mask and the `topology_sort` name of the
      group that created it. The part name is only passed on to the call this
      model leaves out. */
  method ProcessJobs(job: JobRecord, catalog: Catalog, round3: real -> real)
    returns (error: Option<Error>, routed: seq<int>)
    modifies catalog
    ensures error == JobRun(old(catalog.topologies).Keys, job, round3).error
    ensures routed == JobRun(old(catalog.topologies).Keys, job, round3).routed
    ensures catalog.topologies.Keys == JobRun(old(catalog.topologies).Keys, job, round3).keys
    ensures forall k :: k in old(catalog.topologies) ==>
      k in catalog.topologies && catalog.topologies[k] == old(catalog.topologies)[k]
    ensures forall k :: k in catalog.topologies && k !in old(catalog.topologies) ==>
      && k in JobRun(old(catalog.topologies).Keys, job, round3).created
      && fresh(catalog.topologies[k])
      && IsEmptyTopology(catalog.topologies[k], k, JobRun(old(catalog.topologies).Keys, job, round3).created[k])
  {
    if job.homeMatrix.None? {
      return Some(MissingField("home_matrix")), [];
    }
    var frame := RotationTranslation(job.homeMatrix.value);
    if frame.Failure? {
      return Some(frame.error), [];
    }
    var groups := HoleGroups(job);
    if groups.Failure? {
      return Some(groups.error), [];
    }
    error, routed := RouteGroups(groups.value, frame.value, catalog, round3);
  }

  /** The loop of `process_jobs` over the hole groups of a job, once the
      home matrix has been split into a frame. */
  method RouteGroups(groups: seq<HoleGroupRecord>, frame: Frame, catalog: Catalog, round3: real -> real)
    returns (error: Option<Error>, routed: seq<int>)
    modifies catalog
    ensures var r := Run(old(catalog.topologies).Keys, map[], [], Steps(groups, frame, round3), 0);
      error == r.error && routed == r.routed && catalog.topologies.Keys == r.keys
    ensures forall k :: k in old(catalog.topologies) ==>
      k in catalog.topologies && catalog.topologies[k] == old(catalog.topologies)[k]
    ensures var r := Run(old(catalog.topologies).Keys, map[], [], Steps(groups, frame, round3), 0);
      forall k :: k in catalog.topologies && k !in old(catalog.topologies) ==>
        k in r.created && fresh(catalog.topologies[k]) && IsEmptyTopology(catalog.topologies[k], k, r.created[k])
  {
    ghost var steps := Steps(groups, frame, round3);
    ghost var created: map<int, Option<string>> := map[];
    ghost var keys0 := catalog.topologies.Keys;
    error, routed := None, [];
    var i := 0;
    while i < |groups|
      invariant 0 <= i <= |groups|
      invariant Run(keys0, map[], [], steps, 0) == Run(catalog.topologies.Keys, created, routed, steps, i)
      invariant forall k :: k in old(catalog.topologies) ==> k in catalog.topologies && catalog.topologies[k] == old(catalog.topologies)[k]
      invariant created.Keys == catalog.topologies.Keys - old(catalog.topologies).Keys
      invariant forall k :: k in created ==>
        k in catalog.topologies && fresh(catalog.topologies[k]) && IsEmptyTopology(catalog.topologies[k], k, created[k])
    {
      var step := ClassifyGroup(groups[i], frame, round3);
      assert step == steps[i];
      if step.Fail? {
        return Some(step.error), routed;
      }
      if step.Stop? {
        break;
      }
      ghost var keys := catalog.topologies.Keys;
      if Creates(keys, step.mask, step.reversed) {
        created := created[step.mask := step.name];
      }
      var key := catalog.File(step.mask, step.reversed, step.name);
      routed := routed + [key];
      i := i + 1;
    }
  }
}
