/** The matching of technical-drawing hole callouts to hole groups in
    `process_tech_drawing_json` (Utilities_and_Cosmetics.py): a callout
    gives a quantity, a diameter and a depth; the groups that agree with it
    within the general tolerances are candidates, an exact-quantity
    candidate is preferred over a larger one, and within the chosen group
    the holes with the most jobs receive the callout.

    The groups are taken in the order `process_tech_drawing_json` visits
    them (topologies in dictionary order, then each topology's groups in
    order), already flattened into one sequence. */
module DrawingCallouts {
  import opened Wrappers
  import opened Records
  import opened Utilities

  /** What the callout matching reads of a hole group: its smallest
      diameter, its depth and its holes. */
  datatype CalloutGroup = CalloutGroup(diameter: real, holeDepth: real, holes: seq<Hole>)

  /** One parsed callout: `int(quantity)`, `float(diameter)`, `float(depth)`.
      A drawing depth of 0 stands for a through hole. */
  datatype Callout = Callout(quantity: int, diameter: real, depth: real)

  // ---------------------------------------------------------------------
  // Candidate groups
  // ---------------------------------------------------------------------

  /** The geometric filter: the diameter always within the hole tolerance,
      the depth within the depth tolerance only when the drawing gives one. */
  predicate Fits(g: CalloutGroup, c: Callout, holeTol: real, depthTol: real)
  {
    && Abs(c.diameter - g.diameter) <= holeTol
    && (c.depth > 0.0 ==> Abs(c.depth - g.holeDepth) <= depthTol)
  }

  /** Group j is an exact-quantity candidate. */
  predicate IsExact(groups: seq<CalloutGroup>, j: int, c: Callout, holeTol: real, depthTol: real)
  {
    0 <= j < |groups| && Fits(groups[j], c, holeTol, depthTol) && |groups[j].holes| == c.quantity
  }

  /** Group j is a candidate with more holes than the callout asks for. */
  predicate IsLarger(groups: seq<CalloutGroup>, j: int, c: Callout, holeTol: real, depthTol: real)
  {
    0 <= j < |groups| && Fits(groups[j], c, holeTol, depthTol) && |groups[j].holes| > c.quantity
  }

  /** Strictly increasing, so each candidate list is in visiting order. */
  predicate Increasing(s: seq<nat>)
  {
    forall a, b :: 0 <= a < b < |s| ==> s[a] < s[b]
  }

  /** The search over all groups: the exact-quantity candidates and the
      larger ones, each in visiting order. A group with fewer holes than the
      callout's quantity is in neither list. */
  method FindCandidates(groups: seq<CalloutGroup>, c: Callout, holeTol: real, depthTol: real)
    returns (exact: seq<nat>, larger: seq<nat>)
    ensures Increasing(exact) && Increasing(larger)
    ensures forall j :: j in exact <==> IsExact(groups, j, c, holeTol, depthTol)
    ensures forall j :: j in larger <==> IsLarger(groups, j, c, holeTol, depthTol)
  {
    exact, larger := [], [];
    var j := 0;
    while j < |groups|
      invariant 0 <= j <= |groups|
      invariant Increasing(exact) && Increasing(larger)
      invariant forall a :: 0 <= a < |exact| ==> exact[a] < j
      invariant forall a :: 0 <= a < |larger| ==> larger[a] < j
      invariant forall k :: k in exact <==> k < j && IsExact(groups, k, c, holeTol, depthTol)
      invariant forall k :: k in larger <==> k < j && IsLarger(groups, k, c, holeTol, depthTol)
    {
      var g := groups[j];
      if Abs(c.diameter - g.diameter) <= holeTol && (c.depth <= 0.0 || Abs(c.depth - g.holeDepth) <= depthTol) {
        if |g.holes| == c.quantity {
          exact := exact + [j];
        } else if |g.holes| > c.quantity {
          larger := larger + [j];
        }
      }
      j := j + 1;
    }
  }

  // ---------------------------------------------------------------------
  // The target group
  // ---------------------------------------------------------------------

  /** The first exact-quantity candidate, else the first larger one. */
  function TargetGroup(groups: seq<CalloutGroup>, c: Callout, holeTol: real, depthTol: real): Option<nat>
  {
    FirstExactFrom(groups, c, holeTol, depthTol, 0)
  }

  /** The first exact-quantity candidate at or after j; past the end, the
      first larger candidate. */
  function FirstExactFrom(groups: seq<CalloutGroup>, c: Callout, holeTol: real, depthTol: real, j: nat): Option<nat>
    requires j <= |groups|
    decreases |groups| - j
  {
    if j == |groups| then FirstLargerFrom(groups, c, holeTol, depthTol, 0)
    else if IsExact(groups, j, c, holeTol, depthTol) then Some(j)
    else FirstExactFrom(groups, c, holeTol, depthTol, j + 1)
  }

  /** The first larger candidate at or after j. */
  function FirstLargerFrom(groups: seq<CalloutGroup>, c: Callout, holeTol: real, depthTol: real, j: nat): Option<nat>
    requires j <= |groups|
    decreases |groups| - j
  {
    if j == |groups| then None
    else if IsLarger(groups, j, c, holeTol, depthTol) then Some(j)
    else FirstLargerFrom(groups, c, holeTol, depthTol, j + 1)
  }

  lemma {:induction false} FirstLargerFromSpec(groups: seq<CalloutGroup>, c: Callout, holeTol: real, depthTol: real, j: nat)
    requires j <= |groups|
    ensures var t := FirstLargerFrom(groups, c, holeTol, depthTol, j);
      && (t.None? <==> forall k :: j <= k < |groups| ==> !IsLarger(groups, k, c, holeTol, depthTol))
      && (t.Some? ==> j <= t.value && IsLarger(groups, t.value, c, holeTol, depthTol)
                      && forall k :: j <= k < t.value ==> !IsLarger(groups, k, c, holeTol, depthTol))
    decreases |groups| - j
  {
    if j < |groups| && !IsLarger(groups, j, c, holeTol, depthTol) {
      FirstLargerFromSpec(groups, c, holeTol, depthTol, j + 1);
    }
  }

  lemma {:induction false} FirstExactFromSpec(groups: seq<CalloutGroup>, c: Callout, holeTol: real, depthTol: real, j: nat)
    requires j <= |groups|
    ensures (exists k :: j <= k < |groups| && IsExact(groups, k, c, holeTol, depthTol)) ==>
      var t := FirstExactFrom(groups, c, holeTol, depthTol, j);
      && t.Some? && j <= t.value && IsExact(groups, t.value, c, holeTol, depthTol)
      && forall k :: j <= k < t.value ==> !IsExact(groups, k, c, holeTol, depthTol)
    ensures (forall k :: j <= k < |groups| ==> !IsExact(groups, k, c, holeTol, depthTol)) ==>
      FirstExactFrom(groups, c, holeTol, depthTol, j) == FirstLargerFrom(groups, c, holeTol, depthTol, 0)
    decreases |groups| - j
  {
    if j < |groups| && !IsExact(groups, j, c, holeTol, depthTol) {
      FirstExactFromSpec(groups, c, holeTol, depthTol, j + 1);
    }
  }

  /** The selection's four outcomes: the first exact-quantity candidate
      whenever there is one; otherwise the first larger candidate; no target
      when there is no candidate at all. A target always fits the callout
      and has at least its quantity of holes. */
  lemma TargetGroupSpec(groups: seq<CalloutGroup>, c: Callout, holeTol: real, depthTol: real)
    ensures var t := TargetGroup(groups, c, holeTol, depthTol);
      && (t.Some? ==> t.value < |groups| && Fits(groups[t.value], c, holeTol, depthTol)
                      && |groups[t.value].holes| >= c.quantity)
      && ((exists k :: IsExact(groups, k, c, holeTol, depthTol)) ==>
            t.Some? && IsExact(groups, t.value, c, holeTol, depthTol)
            && forall k :: 0 <= k < t.value ==> !IsExact(groups, k, c, holeTol, depthTol))
      && ((forall k :: !IsExact(groups, k, c, holeTol, depthTol)) && (exists k :: IsLarger(groups, k, c, holeTol, depthTol)) ==>
            t.Some? && IsLarger(groups, t.value, c, holeTol, depthTol)
            && forall k :: 0 <= k < t.value ==> !IsLarger(groups, k, c, holeTol, depthTol))
      && (t.None? <==> forall k :: !IsExact(groups, k, c, holeTol, depthTol) && !IsLarger(groups, k, c, holeTol, depthTol))
  {
    FirstExactFromSpec(groups, c, holeTol, depthTol, 0);
    FirstLargerFromSpec(groups, c, holeTol, depthTol, 0);
  }

  /** The selection as `process_tech_drawing_json` writes it: search, then
      take the head of the exact list, else the head of the larger list. */
  method SelectTarget(groups: seq<CalloutGroup>, c: Callout, holeTol: real, depthTol: real)
    returns (target: Option<nat>)
    ensures target == TargetGroup(groups, c, holeTol, depthTol)
  {
    var exact, larger := FindCandidates(groups, c, holeTol, depthTol);
    FirstExactFromSpec(groups, c, holeTol, depthTol, 0);
    FirstLargerFromSpec(groups, c, holeTol, depthTol, 0);
    if |exact| > 0 {
      target := Some(exact[0]);
      assert forall a :: 0 <= a < |exact| ==> exact[0] <= exact[a];
      FirstExactUnique(groups, c, holeTol, depthTol, exact[0]);
    } else if |larger| > 0 {
      target := Some(larger[0]);
      assert forall a :: 0 <= a < |larger| ==> larger[0] <= larger[a];
      FirstLargerUnique(groups, c, holeTol, depthTol, larger[0]);
    } else {
      target := None;
    }
  }

  /** An exact candidate with no exact candidate before it is the target. */
  lemma FirstExactUnique(groups: seq<CalloutGroup>, c: Callout, holeTol: real, depthTol: real, t: nat)
    requires IsExact(groups, t, c, holeTol, depthTol)
    requires forall k :: 0 <= k < t ==> !IsExact(groups, k, c, holeTol, depthTol)
    ensures TargetGroup(groups, c, holeTol, depthTol) == Some(t)
  {
    FirstExactFromSpec(groups, c, holeTol, depthTol, 0);
  }

  /** With no exact candidate, a larger candidate with no larger candidate
      before it is the target. */
  lemma FirstLargerUnique(groups: seq<CalloutGroup>, c: Callout, holeTol: real, depthTol: real, t: nat)
    requires forall k :: !IsExact(groups, k, c, holeTol, depthTol)
    requires IsLarger(groups, t, c, holeTol, depthTol)
    requires forall k :: 0 <= k < t ==> !IsLarger(groups, k, c, holeTol, depthTol)
    ensures TargetGroup(groups, c, holeTol, depthTol) == Some(t)
  {
    FirstExactFromSpec(groups, c, holeTol, depthTol, 0);
    FirstLargerFromSpec(groups, c, holeTol, depthTol, 0);
  }

  // ---------------------------------------------------------------------
  // The chosen holes
  // ---------------------------------------------------------------------

  /** The sort key: the number of jobs on a hole. */
  function JobCount(h: Hole): nat { |h.jobs| }

  /** Non-increasing in job count. */
  predicate Descending(s: seq<Hole>)
  {
    forall a, b :: 0 <= a < b < |s| ==> JobCount(s[a]) >= JobCount(s[b])
  }

  /** Inserts h before the first hole with no more jobs than it. */
  function Insert(h: Hole, s: seq<Hole>): (r: seq<Hole>)
    ensures multiset(r) == multiset(s) + multiset{h}
    ensures |r| == |s| + 1
  {
    if |s| == 0 || JobCount(s[0]) <= JobCount(h) then [h] + s
    else
      assert s == [s[0]] + s[1..];
      [s[0]] + Insert(h, s[1..])
  }

  /** `holes.sort(key=len(jobs), reverse=True)`: a stable sort by
      descending job count (insertion from the back keeps equal keys in
      their original order). */
  function SortByJobs(s: seq<Hole>): (r: seq<Hole>)
    ensures multiset(r) == multiset(s)
    ensures |r| == |s|
  {
    if |s| == 0 then []
    else
      assert s == [s[0]] + s[1..];
      Insert(s[0], SortByJobs(s[1..]))
  }

  lemma {:induction false} InsertDescending(h: Hole, s: seq<Hole>)
    requires Descending(s)
    ensures Descending(Insert(h, s))
  {
    if |s| > 0 && JobCount(s[0]) > JobCount(h) {
      InsertDescending(h, s[1..]);
      var r := Insert(h, s);
      var t := Insert(h, s[1..]);
      assert r == [s[0]] + t;
      forall a, b | 0 <= a < b < |r| ensures JobCount(r[a]) >= JobCount(r[b]) {
        if a == 0 {
          assert r[b] in multiset(t);
          assert r[b] in multiset(s[1..]) + multiset{h};
          if r[b] != h {
            assert r[b] in s[1..];
            var m :| 0 <= m < |s[1..]| && s[1..][m] == r[b];
            assert s[m + 1] == r[b];
          }
        }
      }
    }
  }

  /** The sort puts the holes in descending order of job count. */
  lemma {:induction false} SortByJobsDescending(s: seq<Hole>)
    ensures Descending(SortByJobs(s))
  {
    if |s| > 0 {
      SortByJobsDescending(s[1..]);
      InsertDescending(s[0], SortByJobs(s[1..]));
    }
  }

  /** The holes of s with exactly n jobs, in order. */
  function WithJobs(s: seq<Hole>, n: nat): seq<Hole>
  {
    if |s| == 0 then [] else (if JobCount(s[0]) == n then [s[0]] else []) + WithJobs(s[1..], n)
  }

  lemma {:induction false} InsertStable(h: Hole, s: seq<Hole>, n: nat)
    ensures WithJobs(Insert(h, s), n) == (if JobCount(h) == n then [h] else []) + WithJobs(s, n)
  {
    if |s| == 0 {
    } else if JobCount(s[0]) <= JobCount(h) {
      assert Insert(h, s) == [h] + s;
      assert ([h] + s)[1..] == s;
    } else {
      InsertStable(h, s[1..], n);
      var r := Insert(h, s);
      assert r == [s[0]] + Insert(h, s[1..]);
      assert r[1..] == Insert(h, s[1..]);
    }
  }

  /** The sort is stable: for every job count, the holes with that count
      keep their original relative order. */
  lemma {:induction false} SortByJobsStable(s: seq<Hole>, n: nat)
    ensures WithJobs(SortByJobs(s), n) == WithJobs(s, n)
  {
    if |s| > 0 {
      SortByJobsStable(s[1..], n);
      InsertStable(s[0], SortByJobs(s[1..]), n);
    }
  }

  /** Python's `s[:n]`: a negative bound counts from the end. */
  function PrefixTo(s: seq<Hole>, n: int): (r: seq<Hole>)
    ensures n >= 0 ==> |r| == Min(n, |s|)
    ensures n < 0 ==> |r| == if |s| + n > 0 then |s| + n else 0
    ensures forall i :: 0 <= i < |r| ==> r[i] == s[i]
  {
    if n >= |s| then s
    else if n >= 0 then s[..n]
    else if |s| + n > 0 then s[..|s| + n]
    else []
  }

  function Min(a: int, b: int): int { if a < b then a else b }

  /** The holes that receive the callout: the first `quantity` holes of the
      group after the sort. */
  function ChosenHoles(g: CalloutGroup, c: Callout): seq<Hole>
  {
    PrefixTo(SortByJobs(g.holes), c.quantity)
  }

  /** Every chosen hole has at least as many jobs as every hole left out,
      the chosen and the left-out holes together are the group's holes, and
      a target group of non-negative quantity gives exactly that many. */
  lemma ChosenHaveMostJobs(g: CalloutGroup, c: Callout)
    ensures var sorted := SortByJobs(g.holes);
      var chosen := ChosenHoles(g, c);
      && sorted[..|chosen|] == chosen
      && multiset(chosen) + multiset(sorted[|chosen|..]) == multiset(g.holes)
      && (forall a, b :: 0 <= a < |chosen| && |chosen| <= b < |sorted| ==>
            JobCount(chosen[a]) >= JobCount(sorted[b]))
    ensures 0 <= c.quantity <= |g.holes| ==> |ChosenHoles(g, c)| == c.quantity
  {
    var sorted := SortByJobs(g.holes);
    var chosen := ChosenHoles(g, c);
    SortByJobsDescending(g.holes);
    assert sorted[..|chosen|] == chosen;
    assert sorted == chosen + sorted[|chosen|..];
    assert multiset(sorted) == multiset(chosen) + multiset(sorted[|chosen|..]);
  }

  // ---------------------------------------------------------------------
  // All callouts of a drawing
  // ---------------------------------------------------------------------

  /** What happens to one entry of `holes_callout`: skipped because a field
      does not parse, no matching group, or a match with its chosen holes. */
  datatype Outcome =
    | Skipped
    | NoMatch
    | Matched(group: nat, holes: seq<Hole>)

  /** The outcome for one entry (`None` when the entry does not parse). */
  function OutcomeOf(groups: seq<CalloutGroup>, entry: Option<Callout>, holeTol: real, depthTol: real): Outcome
  {
    if entry.None? then Skipped
    else match TargetGroup(groups, entry.value, holeTol, depthTol)
      case None => NoMatch
      case Some(t) =>
        if t < |groups| then Matched(t, ChosenHoles(groups[t], entry.value)) else NoMatch
  }

  /** The loop over the callouts, one outcome per entry in order. */
  method MatchCallouts(groups: seq<CalloutGroup>, entries: seq<Option<Callout>>, holeTol: real, depthTol: real)
    returns (outcomes: seq<Outcome>)
    ensures |outcomes| == |entries|
    ensures forall i :: 0 <= i < |entries| ==> outcomes[i] == OutcomeOf(groups, entries[i], holeTol, depthTol)
  {
    outcomes := [];
    var i := 0;
    while i < |entries|
      invariant 0 <= i <= |entries| && |outcomes| == i
      invariant forall k :: 0 <= k < i ==> outcomes[k] == OutcomeOf(groups, entries[k], holeTol, depthTol)
    {
      var entry := entries[i];
      if entry.None? {
        outcomes := outcomes + [Skipped];
      } else {
        var target := SelectTarget(groups, entry.value, holeTol, depthTol);
        TargetGroupSpec(groups, entry.value, holeTol, depthTol);
        if target.Some? {
          var chosen := PrefixTo(SortByJobs(groups[target.value].holes), entry.value.quantity);
          outcomes := outcomes + [Matched(target.value, chosen)];
        } else {
          outcomes := outcomes + [NoMatch];
        }
      }
      i := i + 1;
    }
  }
}
