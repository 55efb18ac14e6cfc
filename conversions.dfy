/** The geometry rules of MACs_Conversions.py: the job frame taken from the
    home matrix, the extraction and transformation of hole centres, the
    shape comparison of two hole outlines and the hole-identity rule.

    Python's `round(x, 3)` and `np.linalg.norm(a - b)` are not modelled;
    they are passed in as the functions `round3` and `dist`. */
module Conversions {
  import opened Wrappers
  import opened Records
  import Seqs
  import opened Utilities

  /** The fixed tolerance of the shape and coordinate comparisons. */
  const Tolerance: real := 0.1

  function Min(a: int, b: int): int { if a < b then a else b }

  // ---------------------------------------------------------------------
  // rotation_translation
  // ---------------------------------------------------------------------

  /** A 3x3 matrix by rows. */
  datatype Mat3 = Mat3(row0: Vec3, row1: Vec3, row2: Vec3)

  /** The rotation and translation of one job's home frame. */
  datatype Frame = Frame(rotation: Mat3, translation: Vec3)

  function Component(v: Vec3, i: nat): real
    requires i < 3
  {
    if i == 0 then v.x else if i == 1 then v.y else v.z
  }

  function Row(m: Mat3, i: nat): Vec3
    requires i < 3
  {
    if i == 0 then m.row0 else if i == 1 then m.row1 else m.row2
  }

  /** The entry in row i, column j. */
  function Entry(m: Mat3, i: nat, j: nat): real
    requires i < 3 && j < 3
  {
    Component(Row(m, i), j)
  }

  /** The rotation is the transpose of the 3x3 block stored row by row in
      elements 0-2, 4-6 and 8-10; the translation is elements 3, 7 and 11.
      A matrix shorter than 12 elements raises IndexError. */
  function RotationTranslation(homeMatrix: seq<real>): (r: Result<Frame, Error>)
    ensures r.Success? <==> |homeMatrix| >= 12
    ensures r.Success? ==> forall i, j :: 0 <= i < 3 && 0 <= j < 3 ==>
      Entry(r.value.rotation, i, j) == homeMatrix[4 * j + i]
    ensures r.Success? ==> r.value.translation == Vec3(homeMatrix[3], homeMatrix[7], homeMatrix[11])
  {
    if |homeMatrix| < 12 then Failure(IndexOutOfRange)
    else
      var hm := homeMatrix;
      Success(Frame(
        Mat3(Vec3(hm[0], hm[4], hm[8]), Vec3(hm[1], hm[5], hm[9]), Vec3(hm[2], hm[6], hm[10])),
        Vec3(hm[3], hm[7], hm[11])))
  }

  /** Only the first twelve elements are read: elements 12-15 never matter. */
  lemma RotationTranslationIgnoresTail(a: seq<real>, b: seq<real>)
    requires |a| >= 12 && |b| >= 12 && a[..12] == b[..12]
    ensures RotationTranslation(a) == RotationTranslation(b)
  {
    assert forall k :: 0 <= k < 12 ==> a[k] == a[..12][k] == b[..12][k] == b[k];
  }

  // ---------------------------------------------------------------------
  // transform_points
  // ---------------------------------------------------------------------

  /** Row i of the rotation applied to p - t. */
  function RotateRow(frame: Frame, p: seq<real>, i: nat): real
    requires |p| >= 3 && i < 3
  {
    Entry(frame.rotation, i, 0) * (p[0] - frame.translation.x)
      + Entry(frame.rotation, i, 1) * (p[1] - frame.translation.y)
      + Entry(frame.rotation, i, 2) * (p[2] - frame.translation.z)
  }

  /** One point mapped into the part frame: round3(R * (p - t)), coordinate by
      coordinate. p is a list of at least three numbers; further numbers are
      ignored. */
  function TransformPoint(frame: Frame, p: seq<real>, round3: real -> real): Vec3
    requires |p| >= 3
  {
    Vec3(round3(RotateRow(frame, p, 0)), round3(RotateRow(frame, p, 1)), round3(RotateRow(frame, p, 2)))
  }

  predicate AllPoints(coordinates: seq<seq<real>>)
  {
    forall k :: 0 <= k < |coordinates| ==> |coordinates[k]| >= 3
  }

  /** The point map of one frame, as a value. */
  function Transformer(frame: Frame, round3: real -> real): seq<real> --> Vec3
  {
    p requires |p| >= 3 => TransformPoint(frame, p, round3)
  }

  /** The set of the images under f of the first n points. */
  function Image(points: seq<seq<real>>, n: nat, f: seq<real> --> Vec3): (image: set<Vec3>)
    requires n <= |points| && forall j :: 0 <= j < n ==> f.requires(points[j])
    ensures |image| <= n
  {
    if n == 0 then {}
    else Image(points, n - 1, f) + {f(points[n - 1])}
  }

  /** The set transform_points returns, or the IndexError a point with fewer
      than three coordinates raises. */
  function TransformAll(coordinates: seq<seq<real>>, frame: Frame, round3: real -> real): Result<set<Vec3>, Error>
  {
    if AllPoints(coordinates) then Success(Image(coordinates, |coordinates|, Transformer(frame, round3)))
    else Failure(IndexOutOfRange)
  }

  lemma {:induction false} ImageMembers(points: seq<seq<real>>, n: nat, f: seq<real> --> Vec3)
    requires n <= |points| && forall j :: 0 <= j < n ==> f.requires(points[j])
    ensures forall q :: q in Image(points, n, f) <==> exists k :: 0 <= k < n && q == f(points[k])
  {
    if n > 0 {
      ImageMembers(points, n - 1, f);
    }
  }

  /** What transform_points promises: it fails exactly when some point is too
      short; otherwise every output is the image of some input, every input's
      image is an output, and duplicates collapse, so there are no more
      outputs than inputs. */
  lemma TransformAllSpec(coordinates: seq<seq<real>>, frame: Frame, round3: real -> real)
    ensures TransformAll(coordinates, frame, round3).Success? <==> AllPoints(coordinates)
    ensures TransformAll(coordinates, frame, round3).Success? ==>
      var out := TransformAll(coordinates, frame, round3).value;
      && (forall q :: q in out ==> exists k :: 0 <= k < |coordinates| && q == TransformPoint(frame, coordinates[k], round3))
      && (forall k :: 0 <= k < |coordinates| ==> TransformPoint(frame, coordinates[k], round3) in out)
      && |out| <= |coordinates|
  {
    if AllPoints(coordinates) {
      var f := Transformer(frame, round3);
      ImageMembers(coordinates, |coordinates|, f);
      assert forall k :: 0 <= k < |coordinates| ==> f(coordinates[k]) == TransformPoint(frame, coordinates[k], round3);
    }
  }

  /** transform_points: builds the set of transformed points one point at a time. */
  method TransformPoints(coordinates: seq<seq<real>>, frame: Frame, round3: real -> real)
    returns (r: Result<set<Vec3>, Error>)
    ensures r == TransformAll(coordinates, frame, round3)
    ensures r.Success? ==> |r.value| <= |coordinates|
  {
    var f := Transformer(frame, round3);
    var transformed: set<Vec3> := {};
    var k := 0;
    while k < |coordinates|
      invariant 0 <= k <= |coordinates|
      invariant forall j :: 0 <= j < k ==> |coordinates[j]| >= 3
      invariant transformed == Image(coordinates, k, f)
    {
      var point := coordinates[k];
      if |point| < 3 {
        r := Failure(IndexOutOfRange);
        assert r == TransformAll(coordinates, frame, round3);
        return;
      }
      transformed := transformed + {f(point)};
      k := k + 1;
    }
    return Success(transformed);
  }

  // ---------------------------------------------------------------------
  // extract_coordinates
  // ---------------------------------------------------------------------

  const StartEndDirFormat: string := "VFrmt_P3Str_P3End_V3Dir"
  const XYFormat: string := "VFrmt_XY"

  /** `[positions[i:i + 3] for i in range(0, len(positions), 9)]`: the start
      point of each 9-value record (shorter when the list is cut short). */
  function StartPoints(positions: seq<real>): (r: seq<seq<real>>)
    ensures |r| == (|positions| + 8) / 9
    ensures forall k :: 0 <= k < |r| ==> r[k] == positions[9 * k .. Min(9 * k + 3, |positions|)]
    decreases |positions|
  {
    if |positions| == 0 then []
    else
      var rest := StartPoints(positions[Min(9, |positions|)..]);
      assert forall k :: 1 <= k < |rest| + 1 ==>
        rest[k - 1] == positions[9 * k .. Min(9 * k + 3, |positions|)];
      [positions[..Min(3, |positions|)]] + rest
  }

  /** The XY format: each (x, y) pair, rounded, with z the rounded upper level. */
  function PlanarPoints(positions: seq<real>, z: real, round3: real -> real): (r: seq<seq<real>>)
    requires |positions| % 2 == 0
    ensures |r| == |positions| / 2
    ensures forall k :: 0 <= k < |r| ==> r[k] == [round3(positions[2 * k]), round3(positions[2 * k + 1]), z]
    decreases |positions|
  {
    if |positions| == 0 then []
    else
      var rest := PlanarPoints(positions[2..], z, round3);
      assert forall k :: 1 <= k < |rest| + 1 ==>
        rest[k - 1] == [round3(positions[2 * k]), round3(positions[2 * k + 1]), z];
      [[round3(positions[0]), round3(positions[1]), z]] + rest
  }

  /** The hole centres of one hole group before the frame transform, by the
      group's position format, with the errors Python raises: a missing
      field (KeyError), a null position list where it is measured
      (TypeError), an odd-length XY list (IndexError), or an unknown or null
      format (ValueError). An empty XY list yields no points and never reads
      the upper level. */
  function Candidates(info: HoleGroupRecord, round3: real -> real): (r: Result<seq<seq<real>>, Error>)
    ensures KeyAbsent(info.techPositions, info.nulls, "_tech_positions") ==>
      r == Failure(MissingField("_tech_positions"))
    ensures !KeyAbsent(info.techPositions, info.nulls, "_tech_positions") &&
            KeyAbsent(info.positionsFormat, info.nulls, "_positions_format") ==>
      r == Failure(MissingField("_positions_format"))
    ensures !KeyAbsent(info.techPositions, info.nulls, "_tech_positions") &&
            !KeyAbsent(info.positionsFormat, info.nulls, "_positions_format") &&
            info.positionsFormat != Some(StartEndDirFormat) && info.positionsFormat != Some(XYFormat)
            ==> r == Failure(InvalidPositionFormat)
    ensures info.techPositions.None? && (info.positionsFormat == Some(StartEndDirFormat) || info.positionsFormat == Some(XYFormat))
            ==> r == Failure(MissingField("_tech_positions"))
    ensures info.techPositions.Some? && info.positionsFormat == Some(StartEndDirFormat) ==>
      r.Success? && |r.value| == (|info.techPositions.value| + 8) / 9 &&
      forall k :: 0 <= k < |r.value| ==>
        r.value[k] == info.techPositions.value[9 * k .. Min(9 * k + 3, |info.techPositions.value|)]
    ensures info.positionsFormat == Some(XYFormat) && info.techPositions.Some? && info.upperLevel.Some? &&
            r.Success? ==>
      var ps := info.techPositions.value;
      && |ps| % 2 == 0
      && |r.value| == |ps| / 2
      && forall k :: 0 <= k < |r.value| ==>
           r.value[k] == [round3(ps[2 * k]), round3(ps[2 * k + 1]), round3(info.upperLevel.value)]
    ensures info.positionsFormat == Some(XYFormat) && info.techPositions.Some? ==>
      (r.Success? <==> |info.techPositions.value| == 0 ||
                       (|info.techPositions.value| % 2 == 0 && info.upperLevel.Some?))
  {
    if KeyAbsent(info.techPositions, info.nulls, "_tech_positions") then Failure(MissingField("_tech_positions"))
    else if KeyAbsent(info.positionsFormat, info.nulls, "_positions_format") then Failure(MissingField("_positions_format"))
    else if info.positionsFormat != Some(StartEndDirFormat) && info.positionsFormat != Some(XYFormat) then
      Failure(InvalidPositionFormat)
    else if info.techPositions.None? then Failure(MissingField("_tech_positions"))
    else
      var positions := info.techPositions.value;
      if info.positionsFormat == Some(StartEndDirFormat) then Success(StartPoints(positions))
      else if |positions| == 0 then Success([])
      else if |positions| == 1 then Failure(IndexOutOfRange)
      else if info.upperLevel.None? then Failure(MissingField("_geom_upper_level"))
      else if |positions| % 2 == 1 then Failure(IndexOutOfRange)
      else Success(PlanarPoints(positions, round3(info.upperLevel.value), round3))
  }

  /** Every XY centre lies at the same height, the rounded upper level. */
  lemma PlanarCentresShareHeight(info: HoleGroupRecord, round3: real -> real)
    requires info.positionsFormat == Some(XYFormat)
    requires Candidates(info, round3).Success?
    ensures forall k :: 0 <= k < |Candidates(info, round3).value| ==>
      |Candidates(info, round3).value[k]| == 3 &&
      Candidates(info, round3).value[k][2] == round3(info.upperLevel.value)
  {
  }

  /** The part-frame centres extract_coordinates returns. */
  function Coordinates(info: HoleGroupRecord, frame: Frame, round3: real -> real): Result<set<Vec3>, Error>
  {
    match Candidates(info, round3)
    case Failure(e) => Failure(e)
    case Success(points) => TransformAll(points, frame, round3)
  }

  /** extract_coordinates: the candidate centres, mapped into the part frame. */
  method ExtractCoordinates(info: HoleGroupRecord, frame: Frame, round3: real -> real)
    returns (r: Result<set<Vec3>, Error>)
    ensures r == Coordinates(info, frame, round3)
    ensures Candidates(info, round3).Failure? ==> r.Failure?
    ensures r.Success? ==> |r.value| <= |Candidates(info, round3).value|
  {
    var points := Candidates(info, round3);
    if points.Failure? {
      return Failure(points.error);
    }
    r := TransformPoints(points.value, frame, round3);
  }

  // ---------------------------------------------------------------------
  // compare_geometries
  // ---------------------------------------------------------------------

  /** The axial extent of a segment: | |p0.y| - |p1.y| |. */
  function AxialExtent(s: Segment): real
  {
    Abs(Abs(s.p0.y) - Abs(s.p1.y))
  }

  /** The radial extent of a segment: | |p0.x| - |p1.x| |. */
  function RadialExtent(s: Segment): real
  {
    Abs(Abs(s.p0.x) - Abs(s.p1.x))
  }

  /** The checks made on one pair of segments, new against existing: same type
      tag; axial extents within tolerance; doubled radius of the new segment's
      first endpoint within tolerance of the existing segment's first endpoint
      (forward) or second endpoint (reversed); radial and axial extents within
      tolerance. */
  predicate SegmentsMatch(newSeg: Segment, existing: Segment, reversed: bool)
  {
    && newSeg.kind == existing.kind
    && Abs(AxialExtent(newSeg) - AxialExtent(existing)) <= Tolerance
    && (if reversed then Abs(newSeg.p0.x * 2.0 - existing.p1.x * 2.0) <= Tolerance
        else Abs(newSeg.p0.x * 2.0 - existing.p0.x * 2.0) <= Tolerance)
    && Abs(RadialExtent(newSeg) - RadialExtent(existing)) <= Tolerance
    && Abs(AxialExtent(newSeg) - AxialExtent(existing)) <= Tolerance
  }

  /** The new outline in the order it is compared. */
  function Oriented(newGeometry: seq<Segment>, reversed: bool): seq<Segment>
  {
    if reversed then Seqs.Reverse(newGeometry) else newGeometry
  }

  /** The zip loop from index i on, returning false at the first mismatch. */
  function ZipMatchFrom(a: seq<Segment>, b: seq<Segment>, reversed: bool, i: nat): bool
    decreases |a| - i
  {
    if i >= |a| || i >= |b| then true
    else if !SegmentsMatch(a[i], b[i], reversed) then false
    else ZipMatchFrom(a, b, reversed, i + 1)
  }

  /** compare_geometries(new, existing, reverse_flag): the outlines must have
      the same number of segments, and then every index must match. */
  function CompareGeometries(newGeometry: seq<Segment>, existingGeometry: seq<Segment>, reversed: bool): (same: bool)
    ensures |newGeometry| != |existingGeometry| ==> !same
  {
    if |newGeometry| != |existingGeometry| then false
    else ZipMatchFrom(Oriented(newGeometry, reversed), existingGeometry, reversed, 0)
  }

  /** Every index from i on matches. */
  predicate AllMatchFrom(a: seq<Segment>, b: seq<Segment>, reversed: bool, i: nat)
  {
    forall k :: i <= k < |a| && k < |b| ==> SegmentsMatch(a[k], b[k], reversed)
  }

  lemma {:induction false} ZipMatchFromSpec(a: seq<Segment>, b: seq<Segment>, reversed: bool, i: nat)
    ensures ZipMatchFrom(a, b, reversed, i) <==> AllMatchFrom(a, b, reversed, i)
    decreases |a| - i
  {
    if i < |a| && i < |b| {
      ZipMatchFromSpec(a, b, reversed, i + 1);
    }
  }

  /** The early-return loop is the quantifier it reads as: the outlines are the
      same shape iff they have equal length and every index matches. */
  lemma CompareGeometriesSpec(newGeometry: seq<Segment>, existingGeometry: seq<Segment>, reversed: bool)
    ensures CompareGeometries(newGeometry, existingGeometry, reversed) <==>
      |newGeometry| == |existingGeometry| &&
      forall k :: 0 <= k < |existingGeometry| ==>
        SegmentsMatch(Oriented(newGeometry, reversed)[k], existingGeometry[k], reversed)
  {
    ZipMatchFromSpec(Oriented(newGeometry, reversed), existingGeometry, reversed, 0);
  }

  /** A shape compared forward with itself is the same shape. */
  lemma CompareGeometriesReflexive(shape: seq<Segment>)
    ensures CompareGeometries(shape, shape, false)
  {
    CompareGeometriesSpec(shape, shape, false);
  }

  /** The forward comparison does not depend on which outline is the new one. */
  lemma CompareGeometriesForwardSymmetric(a: seq<Segment>, b: seq<Segment>)
    ensures CompareGeometries(a, b, false) == CompareGeometries(b, a, false)
  {
    CompareGeometriesSpec(a, b, false);
    CompareGeometriesSpec(b, a, false);
  }

  /** A segment described from its other end. */
  function Flip(s: Segment): Segment
  {
    Segment(s.kind, s.p1, s.p0)
  }

  /** An outline described from the opposite face: segments in reverse order,
      each with its endpoints swapped. */
  function Mirror(shape: seq<Segment>): (m: seq<Segment>)
    ensures |m| == |shape|
    ensures forall k :: 0 <= k < |shape| ==> m[k] == Flip(shape[|shape| - 1 - k])
  {
    seq(|shape|, k requires 0 <= k < |shape| => Flip(shape[|shape| - 1 - k]))
  }

  /** The reversed comparison recognises the mirrored description of a shape. */
  lemma CompareGeometriesMirror(shape: seq<Segment>)
    ensures CompareGeometries(Mirror(shape), shape, true)
  {
    var m := Mirror(shape);
    var o := Oriented(m, true);
    forall k | 0 <= k < |shape| ensures SegmentsMatch(o[k], shape[k], true) {
      assert o[k] == m[|m| - 1 - k] == Flip(shape[k]);
    }
    CompareGeometriesSpec(m, shape, true);
  }

  /** The reversed comparison does not accept a shape whose segment order alone
      is reversed, endpoints unswapped: a one-segment outline whose endpoints
      differ in radius by more than the tolerance is rejected against itself. */
  lemma ReversedOrderAloneIsNotEnough()
    ensures var s := [Segment("line", Vec2(1.0, 0.0), Vec2(3.0, 5.0))];
      !CompareGeometries(Seqs.Reverse(s), s, true)
  {
    var s := [Segment("line", Vec2(1.0, 0.0), Vec2(3.0, 5.0))];
    CompareGeometriesSpec(Seqs.Reverse(s), s, true);
    Seqs.ReverseReverse(s);
    assert !SegmentsMatch(s[0], s[0], true);
  }

  // ---------------------------------------------------------------------
  // compare_coordinates
  // ---------------------------------------------------------------------

  /** The part of a hole group compare_coordinates reads: its centres, in the
      order Python iterates the set, and the hole recorded at each centre. */
  datatype CoordGroup = CoordGroup(centers: seq<Vec3>, holes: map<Vec3, Hole>)

  /** Some job of the hole lists the new job's home as parallel. */
  predicate ParallelTo(hole: Hole, homeNumber: int)
  {
    exists j :: 0 <= j < |hole.jobs| && homeNumber in hole.jobs[j].parallelHomeNumbers
  }

  /** The through-hole rule: the existing hole was worked from a home parallel
      to the new job's, and the centres lie one hole depth apart. */
  predicate ThroughHole(newCenter: Vec3, center: Vec3, hole: Hole, homeNumber: int, holeDepth: real,
                        dist: (Vec3, Vec3) -> real)
  {
    ParallelTo(hole, homeNumber) && Abs(dist(newCenter, center) - holeDepth) <= Tolerance
  }

  /** The scan over the existing centres from index i on. */
  function ScanCenters(newCenter: Vec3, group: CoordGroup, homeNumber: int, holeDepth: real,
                       dist: (Vec3, Vec3) -> real, i: nat): Result<Option<Hole>, Error>
    decreases |group.centers| - i
  {
    if i >= |group.centers| then Success(None)
    else
      var c := group.centers[i];
      if c !in group.holes then Failure(MissingKey)
      else if ThroughHole(newCenter, c, group.holes[c], homeNumber, holeDepth, dist) then Success(Some(group.holes[c]))
      else ScanCenters(newCenter, group, homeNumber, holeDepth, dist, i + 1)
  }

  /** compare_coordinates: `Some(hole)` for the program's `(True, hole)`,
      `None` for `(False, None)`, and a failure for the KeyError raised when a
      centre has no recorded hole. The debugging-only job number is dropped. */
  function CompareCoordinates(newCenter: Vec3, group: CoordGroup, homeNumber: int, holeDepth: real,
                              dist: (Vec3, Vec3) -> real): Result<Option<Hole>, Error>
  {
    if newCenter in group.centers then
      if newCenter in group.holes then Success(Some(group.holes[newCenter])) else Failure(MissingKey)
    else ScanCenters(newCenter, group, homeNumber, holeDepth, dist, 0)
  }

  /** Index k is the first centre on which the scan stops: it matches or has
      no hole, and every earlier centre has a hole and does not match. */
  predicate FirstStop(newCenter: Vec3, group: CoordGroup, homeNumber: int, holeDepth: real,
                      dist: (Vec3, Vec3) -> real, k: nat)
  {
    && k < |group.centers|
    && (group.centers[k] !in group.holes ||
        ThroughHole(newCenter, group.centers[k], group.holes[group.centers[k]], homeNumber, holeDepth, dist))
    && forall j :: 0 <= j < k ==>
         group.centers[j] in group.holes &&
         !ThroughHole(newCenter, group.centers[j], group.holes[group.centers[j]], homeNumber, holeDepth, dist)
  }

  lemma {:induction false} ScanCentersSpec(newCenter: Vec3, group: CoordGroup, homeNumber: int, holeDepth: real,
                                           dist: (Vec3, Vec3) -> real, i: nat)
    requires i <= |group.centers|
    requires forall j :: 0 <= j < i ==>
      group.centers[j] in group.holes &&
      !ThroughHole(newCenter, group.centers[j], group.holes[group.centers[j]], homeNumber, holeDepth, dist)
    ensures var r := ScanCenters(newCenter, group, homeNumber, holeDepth, dist, i);
      && (r == Success(None) <==>
           forall j :: 0 <= j < |group.centers| ==>
             group.centers[j] in group.holes &&
             !ThroughHole(newCenter, group.centers[j], group.holes[group.centers[j]], homeNumber, holeDepth, dist))
      && (r != Success(None) ==>
           exists k: nat :: FirstStop(newCenter, group, homeNumber, holeDepth, dist, k) &&
             (r == if group.centers[k] in group.holes then Success(Some(group.holes[group.centers[k]]))
                   else Failure(MissingKey)))
    decreases |group.centers| - i
  {
    if i < |group.centers| {
      var c := group.centers[i];
      if c !in group.holes || ThroughHole(newCenter, c, group.holes[c], homeNumber, holeDepth, dist) {
        assert FirstStop(newCenter, group, homeNumber, holeDepth, dist, i);
      } else {
        ScanCentersSpec(newCenter, group, homeNumber, holeDepth, dist, i + 1);
      }
    }
  }

  /** What compare_coordinates decides. An exact centre is the same hole.
      Otherwise the result is the hole at the first centre, in iteration
      order, that satisfies the through-hole rule; it is "new hole" exactly
      when no centre does; and a centre without a recorded hole that the scan
      reaches raises KeyError. */
  lemma CompareCoordinatesSpec(newCenter: Vec3, group: CoordGroup, homeNumber: int, holeDepth: real,
                               dist: (Vec3, Vec3) -> real)
    ensures var r := CompareCoordinates(newCenter, group, homeNumber, holeDepth, dist);
      && (newCenter in group.centers && newCenter in group.holes ==> r == Success(Some(group.holes[newCenter])))
      && (newCenter !in group.centers ==>
           (r == Success(None) <==>
             forall j :: 0 <= j < |group.centers| ==>
               group.centers[j] in group.holes &&
               !ThroughHole(newCenter, group.centers[j], group.holes[group.centers[j]], homeNumber, holeDepth, dist)))
      && (newCenter !in group.centers && r.Success? && r.value.Some? ==>
           exists k: nat :: FirstStop(newCenter, group, homeNumber, holeDepth, dist, k) &&
             group.centers[k] in group.holes && r.value.value == group.holes[group.centers[k]])
      && (r.Failure? <==>
           (newCenter in group.centers && newCenter !in group.holes) ||
           (newCenter !in group.centers &&
            exists k: nat :: FirstStop(newCenter, group, homeNumber, holeDepth, dist, k) && group.centers[k] !in group.holes))
  {
    if newCenter !in group.centers {
      ScanCentersSpec(newCenter, group, homeNumber, holeDepth, dist, 0);
      if exists k: nat :: FirstStop(newCenter, group, homeNumber, holeDepth, dist, k) && group.centers[k] !in group.holes {
        var k: nat :| FirstStop(newCenter, group, homeNumber, holeDepth, dist, k) && group.centers[k] !in group.holes;
        FirstStopUnique(newCenter, group, homeNumber, holeDepth, dist, k);
      }
    }
  }

  /** At most one index is the first stop of the scan. */
  lemma FirstStopUnique(newCenter: Vec3, group: CoordGroup, homeNumber: int, holeDepth: real,
                        dist: (Vec3, Vec3) -> real, k: nat)
    requires FirstStop(newCenter, group, homeNumber, holeDepth, dist, k)
    ensures forall m: nat :: FirstStop(newCenter, group, homeNumber, holeDepth, dist, m) ==> m == k
  {
  }

  /** A through hole machined from two parallel homes: a centre one hole depth
      away from an existing hole whose job lists the new home as parallel
      resolves to that hole. */
  lemma ThroughHoleMerges(p: Vec3, q: Vec3, hole: Hole, homeNumber: int, depth: real, dist: (Vec3, Vec3) -> real)
    requires p != q
    requires |hole.jobs| >= 1 && homeNumber in hole.jobs[0].parallelHomeNumbers
    requires dist(q, p) == depth
    ensures CompareCoordinates(q, CoordGroup([p], map[p := hole]), homeNumber, depth, dist) == Success(Some(hole))
  {
    assert ThroughHole(q, p, hole, homeNumber, depth, dist);
  }

  /** Without a parallel home the same two centres stay distinct holes. */
  lemma NonParallelStaysApart(p: Vec3, q: Vec3, hole: Hole, homeNumber: int, depth: real, dist: (Vec3, Vec3) -> real)
    requires p != q
    requires forall j :: 0 <= j < |hole.jobs| ==> homeNumber !in hole.jobs[j].parallelHomeNumbers
    ensures CompareCoordinates(q, CoordGroup([p], map[p := hole]), homeNumber, depth, dist) == Success(None)
  {
    var group := CoordGroup([p], map[p := hole]);
    assert !ParallelTo(hole, homeNumber);
    assert group.centers[0] == p && p in group.holes && group.holes[p] == hole;
    assert ScanCenters(q, group, homeNumber, depth, dist, 1) == Success(None);
    assert ScanCenters(q, group, homeNumber, depth, dist, 0) == Success(None);
  }
}
