# SolidCAM hole catalog — a Dafny model

This project models the hole-identity and catalog engine of the SolidCAM
job-record processor. The processor reads machining jobs exported from
SolidCAM and builds, per part, a dictionary of *topologies*. A topology is
keyed by a shape mask. It holds *hole groups*: holes that share one outline
(`_geom_ShapePoly`). Each group keeps the *jobs* performed on it.

The model covers:

- **Geometry rules** (`MACs_Conversions.py`, module `Conversions`):
  - splitting the 16-value home matrix into a rotation and a translation;
  - extracting hole centres from the two position formats;
  - mapping centres into the part frame;
  - comparing two outlines, forward or reversed, within the 0.1 tolerance;
  - deciding whether a new centre is an existing hole, by an exact centre
    or by the through-hole rule.
- **Catalog state** (`Classes.py`, module `Classes`). These are classes with
  mutable fields:
  - `HoleGroup.add_job` with its de-duplication and job-order string;
  - `HoleGroup.update_parameters`;
  - `Topology.add_hole_group`;
  - `Topology.update_jobs_orders_dict` with its "Order k" labels;
  - the drill-field defaulting of `Job.__init__`.
- **Mask canonicalisation** (`Process_Jobs.py`, module `ProcessJobs`):
  - reversing a mask's decimal digits;
  - routing each hole group of a job into the dictionary under its mask or
    the reversal, including the stop on a mask that is not positive.
  - The dictionary is a class whose field is a map from mask to `Topology`.
- **Utilities** (`Utilities_and_Cosmetics.py`):
  - the string normalisers and the general-tolerance selection, in module
    `Utilities`;
  - the drawing-callout matching, in module `DrawingCallouts`;
  - the job-record validator, in module `JobValidation`.

Shared modules:

- `Records`: the JSON records the core reads.
- `Decimal`: `str()`/`int()` on naturals.
- `Seqs`: reversal.
- `Wrappers`: `Option` and `Result`.

Python exceptions are modelled as `Result` failures. Numbers are `real`.
Python's `round(x, 3)` is a function parameter `round3`, and Euclidean
distance is a parameter `dist`. No property depends on what they compute.

## Model

| member | source | states |
|---|---|---|
| Decimal.NatToString | Process_Jobs.py:40 | `str(n)` is a non-empty digit string with no leading zero unless n is 0, ending in the digit n % 10 |
| Decimal.ParseOfNatToString | Process_Jobs.py:40 | `int(str(n)) == n` |
| Decimal.NatToStringOfParse | Process_Jobs.py:40 | `str(int(s)) == s` for a digit string without a leading zero |
| Decimal.NatToStringInjective | Classes.py:48 | distinct numbers print differently, so distinct "Order k" suffixes differ |
| Records.Get | Classes.py:143-152 | `d.get(k)` is present exactly when the key is there and not null, and is then the stored value |
| Utilities.ProcessJobName | Utilities_and_Cosmetics.py:21-43 | the eight known job-type tags map to their display names; any other string is returned unchanged |
| Utilities.ProcessJobNameIdempotent | Utilities_and_Cosmetics.py:21-43 | normalising a normalised name changes nothing |
| Utilities.Split | Utilities_and_Cosmetics.py:49 | `split('_')` gives at least one piece and no piece contains '_' |
| Utilities.JoinSplit | Utilities_and_Cosmetics.py:49-53 | joining the pieces of a split with '_' gives the string back |
| Utilities.CapitalizeAll | Utilities_and_Cosmetics.py:51 | each word is capitalised, position by position |
| Utilities.JoinCapitalizeSplit | Utilities_and_Cosmetics.py:49-53 | capitalising every '_'-separated word and re-joining is the character-wise title-casing reference `TitleWords` |
| Utilities.ProcessToolTypeNameTitles | Utilities_and_Cosmetics.py:46-53 | without '_' the result is ""; otherwise it is the text after the first '_', title-cased word by word with underscores kept |
| Utilities.RemoveNonAscii | Utilities_and_Cosmetics.py:56-58 | the result is no longer than the input, is all ASCII, and equals an all-ASCII input |
| Utilities.RemoveNonAsciiAppend | Utilities_and_Cosmetics.py:56-58 | the filter distributes over concatenation, so kept characters keep their order |
| Utilities.RemoveNonAsciiCounts | Utilities_and_Cosmetics.py:56-58 | every ASCII character keeps its number of occurrences; no other character survives |
| Utilities.RemoveNonAsciiIdempotent | Utilities_and_Cosmetics.py:56-58 | removing non-ASCII characters twice is the same as once |
| Utilities.InsertUnderscores | Utilities_and_Cosmetics.py:71 | the substitution never shortens the text and keeps the first character |
| Utilities.TopologySort | Utilities_and_Cosmetics.py:61-71 | empty input gives the `False` result; inputs of length 1-5 give ""; longer inputs give the text after the 5-character prefix with capitals marked |
| Utilities.InsertUnderscoresRoundTrip | Utilities_and_Cosmetics.py:71 | removing each underscore that precedes a capital recovers the text, so the marking loses nothing |
| Utilities.InsertUnderscoresMarksCapitals | Utilities_and_Cosmetics.py:71 | in the result every capital after the first character directly follows an underscore |
| Utilities.GeneralTolerance | Utilities_and_Cosmetics.py:126-135 | with a general tolerance the result is the larger of the upper value and the magnitude of the lower one; otherwise 0.15 |
| Utilities.GlobalTolerances | Utilities_and_Cosmetics.py:89-102 | fails exactly when a flag, or a value its flag asks for, is missing; otherwise gives the diameter and depth tolerances by the rule above |
| Conversions.RotationTranslation | MACs_Conversions.py:9-44 | succeeds exactly for at least 12 values; rotation[i][j] is hm[4j+i] and the translation is (hm[3], hm[7], hm[11]) |
| Conversions.RotationTranslationIgnoresTail | MACs_Conversions.py:17-42 | two home matrices that agree on their first 12 values give the same frame |
| Conversions.TransformAllSpec | MACs_Conversions.py:98-113 | fails exactly when some point has fewer than 3 coordinates; otherwise every output is the image of an input, every input's image is an output, and there are no more outputs than inputs |
| Conversions.TransformPoints | MACs_Conversions.py:83-113 | the loop builds exactly that set and never more points than inputs |
| Conversions.StartPoints | MACs_Conversions.py:65-66 | the k-th centre is positions[9k .. 9k+3), cut short at the end; there are ceil(n/9) centres |
| Conversions.PlanarPoints | MACs_Conversions.py:69-72 | the k-th centre is (round3(pos[2k]), round3(pos[2k+1]), z) |
| Conversions.Candidates | MACs_Conversions.py:60-76 | the centres by position format; a KeyError for a missing `_tech_positions` or `_positions_format`, the ValueError for an unknown or null format, a TypeError for a null position list of a known format, an IndexError for an odd XY list |
| Conversions.PlanarCentresShareHeight | MACs_Conversions.py:69-72 | every XY centre has z equal to the rounded upper level |
| Conversions.ExtractCoordinates | MACs_Conversions.py:47-80 | the result is the transformed candidate centres; a candidate error is an error, and there are no more centres than candidates |
| Conversions.CompareGeometries | MACs_Conversions.py:387-390 | outlines of different lengths are never the same, whatever the flag |
| Conversions.ZipMatchFromSpec | MACs_Conversions.py:396-425 | the early-return loop is true exactly when every remaining index matches |
| Conversions.CompareGeometriesSpec | MACs_Conversions.py:389-425 | same shape iff equal length and, after reversing only the new list when flagged, at every index: equal type, axial extents within tolerance, doubled radii (p0.x against p0.x, or against p1.x reversed) within tolerance, radial extents within tolerance |
| Conversions.CompareGeometriesReflexive | MACs_Conversions.py:396-425 | an outline compared forward with itself is the same shape |
| Conversions.CompareGeometriesForwardSymmetric | MACs_Conversions.py:396-425 | the forward comparison does not depend on which outline is the new one |
| Conversions.CompareGeometriesMirror | MACs_Conversions.py:392-414 | the reversed comparison accepts an outline described from the opposite end (reverse order, endpoints swapped) |
| Conversions.ReversedOrderAloneIsNotEnough | MACs_Conversions.py:393-394 | the reversed comparison rejects a one-segment outline against itself when its endpoints differ in radius by more than the tolerance |
| Conversions.ScanCentersSpec | MACs_Conversions.py:515-531 | the scan returns the hole at the first centre meeting the through-hole rule, raises KeyError at a first centre without a hole, or reports no hole when no centre stops it |
| Conversions.CompareCoordinatesSpec | MACs_Conversions.py:505-531 | an exact centre is its own hole (KeyError if it has none); otherwise the result is the first centre, in iteration order, whose hole has a job listing the new home as parallel at hole-depth distance within tolerance, and "new hole" exactly when there is none |
| Conversions.ThroughHoleMerges | MACs_Conversions.py:515-528 | a centre one hole depth from an existing hole, worked from a parallel home, resolves to that hole |
| Conversions.NonParallelStaysApart | MACs_Conversions.py:515-531 | without a parallel home two distinct centres stay distinct holes |
| Classes.GetObject | Classes.py:143-144 | `d.get(k, {})` used as an object: `{}` for a missing key, the object itself, or the AttributeError of the next `.get` for a null or non-object value |
| Classes.NewJob | Classes.py:131-152 | KeyError for an absent name; with the drill flag, AttributeError for a null `drill` or a null or non-object `cycle`; otherwise the job copies its number, name, type, tool, parameters, depth, centres and homes; without the flag (or without `drill`) all eight drill fields are None; with it the five `drill` fields and the three `drill.cycle` fields are each read with `.get` |
| Classes.WithJobSpec | Classes.py:80-94 | offering a job keeps keys distinct, keeps earlier jobs in place, adds at most one job and leaves its key present |
| Classes.WithJobIdempotent | Classes.py:80-94 | offering the same job twice is the same as once |
| Classes.JobsOrderWithJob | Classes.py:90-94 | the job-order string grows by "<type> - <tool> \| " exactly when the job is new |
| Classes.MinRadius | Classes.py:105 | `min` over an empty outline is a ValueError; otherwise it is attained by a segment and no segment's p0.x is below it |
| Classes.DiameterIsSmallest | Classes.py:103-105 | on the non-negative side of the axis the diameter is twice the smallest first-endpoint radius |
| Classes.HoleGroup.constructor | Classes.py:56-66 | centres are the set of the new coordinates; no jobs, empty order string, the given outline, unset part name, diameter and depth, zero thread values |
| Classes.HoleGroup.AddJob | Classes.py:68-94 | the type and tool are normalised and "ver" is dropped; a job with a stored key changes nothing; otherwise the built job is appended (`WithJob`) with its label on the order string, so keys stay distinct; if building it raises, the error is returned and nothing is appended |
| Classes.HoleGroup.UpdateParameters | Classes.py:96-110 | the part name is set first; the diameter is \|2 min p0.x\|; depth and thread fields are copied, a JSON null as None; a missing outline, an empty outline or a missing key is the error Python raises, with the fields before it written and those after it unchanged |
| Classes.OrderLabelInjective | Classes.py:48 | distinct numbers give distinct "Order k" labels |
| Classes.NextLabelIsNew | Classes.py:48 | the next label is not among the labels already given |
| Classes.AddNewOrderNumbered | Classes.py:47-48 | adding a new order with label size+1 keeps the labels numbered 1..n |
| Classes.AddOrderSpec | Classes.py:47-48 | one step adds the order when it is new, keeps existing labels and keeps the dictionary numbered |
| Classes.AddOrdersSpec | Classes.py:41-48 | after the loop every job order is a key, existing labels are unchanged, and labels stay numbered and distinct |
| Classes.FirstShapeMatch | Classes.py:23-25 | a result is the first group, from the index on, whose outline matches; no result means no group matches |
| Classes.Topology.constructor | Classes.py:9-13 | name and mask as given, no groups, empty order dictionary |
| Classes.Topology.AddHoleGroup | Classes.py:15-39 | the first matching group is returned with `False` and only gains centres that are the same hole as a job's centre; with no match one new group is appended and returned with `True`; other groups are untouched |
| Classes.Topology.UpdateJobsOrdersDict | Classes.py:41-48 | the dictionary becomes `AddOrders` of the groups' job orders: every order is a key, existing labels kept, labels numbered |
| Classes.LabelOrders | Classes.py:46-48 | the loop computes `AddOrders` of the groups' job orders |
| Classes.AddMatchingCenters | Classes.py:27-33 | the group's centres grow by exactly the new centres that are the same hole as a centre of one of its jobs |
| ProcessJobs.ReverseMaskNoTrailingZero | Process_Jobs.py:35-40 | a positive mask reverses to a number with no trailing zero |
| ProcessJobs.ReverseMaskInvolutive | Process_Jobs.py:40 | reversing twice gives the mask back when it has no trailing zero |
| ProcessJobs.ReverseMaskTrailingZero | Process_Jobs.py:40 | a trailing zero is lost: 120 reverses to 21, which reverses to 12 |
| ProcessJobs.RoutingSpec | Process_Jobs.py:42-49 | neither mask nor reversal a key: new key under the mask; reversal a key: go there, even if the mask is a key too; only the mask a key: go there; keys only grow, by at most one |
| ProcessJobs.KeysAfterCanonical | Process_Jobs.py:40-46 | filing a group never stores a key beside its distinct reversal |
| ProcessJobs.ReversedMasksShareTopology | Process_Jobs.py:40-46 | of two masks that are each other's reversal, the second is routed to the key the first created |
| ProcessJobs.RoutesToReversal | Process_Jobs.py:45-46 | a 21 is filed under an existing 12 and adds no key |
| ProcessJobs.Classify | Process_Jobs.py:28-37 | extraction errors come first; the loop stops exactly on a mask ≤ 0; an accepted group carries its mask, its reversal and its `topology_sort` name |
| ProcessJobs.Steps | Process_Jobs.py:26-37 | one loop decision per hole group, in order |
| ProcessJobs.RunKeys | Process_Jobs.py:26-49 | the topologies created are exactly the new keys, each keeping the name of the group that created it |
| ProcessJobs.RunGrowth | Process_Jobs.py:26-49 | keys only grow; at most one group filed per step; at most one key per filed group |
| ProcessJobs.RunRouted | Process_Jobs.py:26-49 | earlier routes are kept and every route names a key |
| ProcessJobs.RunCanonical | Process_Jobs.py:26-49 | canonical keys stay canonical through the loop |
| ProcessJobs.StopSkipsRest | Process_Jobs.py:35-37 | a mask ≤ 0 ends the loop: earlier groups stay filed, later ones are never looked at |
| ProcessJobs.HoleGroups | Process_Jobs.py:26 | the hole groups are read when the geometry and its group list are both there, and are otherwise the error indexing raises |
| ProcessJobs.JobRunSpec | Process_Jobs.py:23-49 | routing a job adds only keys, creates a topology for exactly the new keys, files no more groups than it has, each under a key; a missing or short home matrix, or missing hole groups, files nothing and reports the error |
| ProcessJobs.JobRunCanonical | Process_Jobs.py:23-46 | canonical keys stay canonical through a whole job |
| ProcessJobs.ClassifyGroup | Process_Jobs.py:28-37 | the loop body's decision is `Classify` |
| ProcessJobs.Catalog.File | Process_Jobs.py:42-46 | returns the target key; keys become `KeysAfter`; a new key holds a fresh, empty topology with that mask and name; otherwise the dictionary is unchanged |
| ProcessJobs.ProcessJobs | Process_Jobs.py:10-49 | the error, routes and keys are those of `JobRun`; existing topologies are never replaced; each new key holds a fresh empty topology named by the group that created it |
| ProcessJobs.RouteGroups | Process_Jobs.py:26-49 | the loop's outcome is `Run` over the groups' decisions, with the same frame guarantees |
| DrawingCallouts.FindCandidates | Utilities_and_Cosmetics.py:187-217 | a group is an exact candidate iff it fits and has exactly the quantity, a larger one iff it fits and has more; both lists in visiting order; smaller groups are in neither |
| DrawingCallouts.FirstExactFromSpec | Utilities_and_Cosmetics.py:224-228 | the search finds the first exact candidate at or after the index, and falls back to the first larger one when there is none |
| DrawingCallouts.FirstLargerFromSpec | Utilities_and_Cosmetics.py:227-228 | the search finds the first larger candidate at or after the index, or none |
| DrawingCallouts.TargetGroupSpec | Utilities_and_Cosmetics.py:219-228 | the first exact candidate wins; else the first larger; else none; a target fits and has at least the quantity |
| DrawingCallouts.SelectTarget | Utilities_and_Cosmetics.py:224-228 | heads of the candidate lists give `TargetGroup` |
| DrawingCallouts.FirstExactUnique | Utilities_and_Cosmetics.py:225-226 | an exact candidate with none before it is the target |
| DrawingCallouts.FirstLargerUnique | Utilities_and_Cosmetics.py:227-228 | with no exact candidate, a larger candidate with none before it is the target |
| DrawingCallouts.Insert | Utilities_and_Cosmetics.py:235 | insertion adds exactly the hole: the multiset grows by it |
| DrawingCallouts.SortByJobs | Utilities_and_Cosmetics.py:234-235 | the sort is a permutation of the holes |
| DrawingCallouts.SortByJobsDescending | Utilities_and_Cosmetics.py:235 | the sorted holes are in non-increasing job count |
| DrawingCallouts.SortByJobsStable | Utilities_and_Cosmetics.py:235 | holes with equal job count keep their relative order |
| DrawingCallouts.PrefixTo | Utilities_and_Cosmetics.py:238 | `s[:n]`, with a negative n counting from the end |
| DrawingCallouts.ChosenHaveMostJobs | Utilities_and_Cosmetics.py:232-238 | the chosen holes are a prefix of the sorted holes; chosen and left-out holes together are the group's holes; every chosen hole has at least the jobs of every left-out one; a quantity within the group size gives exactly that many |
| DrawingCallouts.MatchCallouts | Utilities_and_Cosmetics.py:163-268 | one outcome per callout entry in order: skipped when it does not parse, no match, or the target group with its chosen holes |
| JobValidation.HomeMatrixText | Utilities_and_Cosmetics.py:335-336 | "home matrix field is invalid" is the line of exactly one problem |
| JobValidation.MissingSpec | Utilities_and_Cosmetics.py:345-348 | a field list records a message exactly for each listed field that fails its check |
| JobValidation.Printout | Utilities_and_Cosmetics.py:424-429 | nothing is printed exactly when there are no errors; otherwise a header, one line per error and a blank line |
| JobValidation.AppendMissing | Utilities_and_Cosmetics.py:345-348 | the field loop appends `Missing` of its list |
| JobValidation.CheckGroup | Utilities_and_Cosmetics.py:383-414 | one group's checks append `GroupChecks` |
| JobValidation.CheckProfile | Utilities_and_Cosmetics.py:364-372 | a profile or chamfer job records the poly-arc problem, then the missing operation parameters or an "Unsupported type" value; other types record nothing (`ProfileChecks`) |
| JobValidation.CheckGroups | Utilities_and_Cosmetics.py:380-414 | the loop over the recognised groups appends each group's checks in order (`GroupsChecks`) |
| JobValidation.CheckHeader | Utilities_and_Cosmetics.py:334-358 | the checks every job gets give `HeaderChecks` |
| JobValidation.ValidateJob | Utilities_and_Cosmetics.py:316-429 | the recorded errors are `JobErrors(job)` in order and the printout is `Printout` of them |
| JobValidation.TypeChecksCount | Utilities_and_Cosmetics.py:403-414 | the 5X and thread-mill checks record none of the mask, positions or home-matrix problems |
| JobValidation.GroupChecksCount | Utilities_and_Cosmetics.py:383-414 | a group records the mask problem once iff its mask is absent or ≤ 0, the positions problem once iff it has fewer than 2, never the home matrix |
| JobValidation.GroupsChecksCount | Utilities_and_Cosmetics.py:381-414 | over all groups each counted problem is recorded once per group that has it |
| JobValidation.HeaderChecksCount | Utilities_and_Cosmetics.py:334-358 | the header records the home-matrix problem once iff the matrix is absent, null or not of 16 values |
| JobValidation.JobFieldChecksCount | Utilities_and_Cosmetics.py:335-340 | the first three checks record the home-matrix problem once iff it is bad |
| JobValidation.ToolChecksCount | Utilities_and_Cosmetics.py:342-348 | the tool checks record none of the counted problems |
| JobValidation.ProfileChecksCount | Utilities_and_Cosmetics.py:364-372 | the profile checks record none of the counted problems |
| JobValidation.JobErrorsCount | Utilities_and_Cosmetics.py:334-414 | a counted problem's count over the job is the header's plus the groups' |
| JobValidation.JobErrorsCounts | Utilities_and_Cosmetics.py:335-336 | home-matrix problem once or never as the matrix is bad; one mask message per group with a bad mask; one positions message per group with fewer than 2 positions |
| JobValidation.HomeMatrixInErrors | Utilities_and_Cosmetics.py:335-336 | the home-matrix problem is among the recorded ones iff the matrix is absent, null or not of 16 values |
| JobValidation.HomeMatrixRecorded | Utilities_and_Cosmetics.py:335-336 | the line "home matrix field is invalid" is recorded iff the home matrix is absent, null or not of 16 values |
| JobValidation.MissingEmpty | Utilities_and_Cosmetics.py:385-396 | a field list records nothing iff every field passes |
| JobValidation.NotNoneFieldsPass | Utilities_and_Cosmetics.py:384-387 | the not-None list passes iff each of its five fields is present |
| JobValidation.NotEmptyFieldsPass | Utilities_and_Cosmetics.py:393-396 | the not-empty list passes iff each of its three fields is present and non-empty |
| JobValidation.GroupChecksEmpty | Utilities_and_Cosmetics.py:383-414 | a group adds nothing iff it is well formed |
| JobValidation.GroupsChecksEmpty | Utilities_and_Cosmetics.py:381-414 | all groups add nothing iff every group is well formed |
| JobValidation.HeaderChecksEmpty | Utilities_and_Cosmetics.py:334-358 | the header records nothing iff it is well formed |
| JobValidation.JobErrorsEmpty | Utilities_and_Cosmetics.py:334-429 | nothing is recorded, so nothing is printed, iff the job is well formed by the field-by-field definition `WellFormed` |

## Left out

- File and directory I/O: `read_json`, the loading of the drawing file in `process_tech_drawing_json` (lines 149-156), `main.py` and `json_validation.py` are not part of this model.
- Printing: the diagnostics of `process_jobs`, `process_tech_drawing_json` and `validate_job`, `HoleGroup.print` and `Job.__repr__`.
- The header line of `validate_job`'s printout is a parameter. It reads `job['name']`, `job['type']` and `job["job_number"]` directly, and the KeyError this raises when one of them is absent is not modelled.
- Floating point: Python `round(x, 3)`, numpy's `dot` and `np.linalg.norm` are parameters, and reals are exact.
- Commented-out drafts and `Unused_code.py` are not part of this model.
- The wiring between `process_jobs`, `Topology.add_hole_group` and the compare functions is not modelled. The signatures do not match: `Process_Jobs.py:49` passes four arguments to a three-parameter method, and `Classes.py:25` and `Classes.py:31-32` call the compare functions with outdated argument lists.
  - So `ProcessJobs.ProcessJobs` records the key each group is routed to instead of making that call.
  - `Classes.Topology.AddHoleGroup` takes the shape test and the hole test as parameters.
- `ProcessJobs.ProcessJobs`: the part name is only passed on to the call above, so the model ignores it.
- `Conversions.CompareCoordinatesSpec`: `compare_coordinates` reads `existing_group.holes`, which `HoleGroup` does not have. It is modelled against its own record: the centres in iteration order plus a map from centre to hole.
- `DrawingCallouts.MatchCallouts`: the same missing `holes` field applies. Groups are given as their own record (diameter, depth, holes in `dict.values()` order), flattened in visiting order.
  - A `None` diameter or depth (TypeError in the subtraction) is not modelled.
  - The attribute copying into the chosen holes (lines 240-266) and into every hole in `adding_global_info` (lines 106-124) is left out. The fields it sets are read nowhere else in the core, but the copying can raise. At line 247, `entry.get("drawing_specific_tol_plus") > 0` is outside the `try` of lines 165-172. So an entry without that key, or with it null, raises TypeError as soon as its target group has a chosen hole, and the loop ends there for every later entry. This exception, and the loop ending early, are not modelled: `MatchCallouts` gives one outcome per entry.
- `DrawingCallouts.MatchCallouts`: an entry that fails to parse is given as `None`. The parsing of `int()`/`float()` on JSON values is not modelled.
- `Utilities.GlobalTolerances`: `int()`/`float()` of the JSON values are taken as already converted. A present value that does not convert is not modelled.
- `Classes.HoleGroup.AddJob`: `tool_parameters.pop("ver")` mutates the caller's dictionary. The model uses the value without "ver", so this aliasing is not modelled. The debugging-only job number is only copied into the job.
- `Classes.NewJob`: `job['home_number']` and `job['home_vParallelHomeNumbers']` are taken as present, so their KeyError is not modelled. A `drill` value that is neither an object nor null (AttributeError in Python) cannot be written in the job record.
- `Classes.HoleGroup.UpdateParameters`: it reads `_geom_thread_diameter`, as `update_parameters` does, although `validate_job` checks `_geom_thread_hole_diameter` instead.
- `Classes.Topology.UpdateJobsOrdersDict`: it requires and keeps only the numbering of labels, not the validity of the groups, because it does not change them.
- Records: an `Option` field that is `None` stands both for an absent key and for a JSON null; `.get` treats them alike. Where the program tells them apart, the record's `nulls` set names the keys present with a JSON null: the `d[k]` reads in `Classes.HoleGroup.UpdateParameters`, `Classes.NewJob` and `Conversions.Candidates`, and the `.get` on `drill` and `cycle` in `Classes.NewJob`. A value of the wrong JSON type (a string where a number is read, say) cannot be written in the records.
- `Utilities.TopologySort`: `False` is modelled as `None`.
- `Utilities.ProcessToolTypeName`: case mapping is modelled for ASCII letters only. Python's `str.capitalize` (Utilities_and_Cosmetics.py:51) maps every Unicode letter and can lengthen a word ("ß" becomes "Ss"). `Utilities.Capitalize`, `Utilities.ToUpper` and `Utilities.ToLower` leave every other character unchanged. SolidCAM's tool-type tags are ASCII.
- `Utilities.ProcessToolTypeNameTitles`: the title-casing it states is the ASCII one above, not Python's Unicode title-casing.
