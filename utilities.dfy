/** The string normalisers and the general-tolerance rule of
    Utilities_and_Cosmetics.py. */
module Utilities {
  import opened Wrappers
  import opened Records

  // ---------------------------------------------------------------------
  // Job-type display names (process_job_name)
  // ---------------------------------------------------------------------

  /** The eight job-type tags that have a display name, and that name. */
  const JobDisplayNames: map<string, string> := map[
    "NC_DRILL_OLD" := "2_5D_Drilling",
    "NC_PROFILE" := "Profile",
    "NC_CHAMFER" := "Chamfer",
    "NC_DRILL_DEEP" := "Multi_Depth_Drilling",
    "NC_THREAD" := "Thread_Milling",
    "NC_DRILL_HR" := "Drill_Recognition",
    "NC_JOB_MW_DRILL_5X" := "Multi_Axis_Drilling",
    "NC_JOB_HSS_PARALLEL_TO_CURVE" := "HSS_Parallel_to_Curve"]

  /** A known job-type tag becomes its display name; anything else is kept. */
  function ProcessJobName(jobType: string): (name: string)
    ensures jobType in JobDisplayNames ==> name == JobDisplayNames[jobType]
    ensures jobType !in JobDisplayNames ==> name == jobType
  {
    if jobType == "NC_DRILL_OLD" then "2_5D_Drilling"
    else if jobType == "NC_PROFILE" then "Profile"
    else if jobType == "NC_CHAMFER" then "Chamfer"
    else if jobType == "NC_DRILL_DEEP" then "Multi_Depth_Drilling"
    else if jobType == "NC_THREAD" then "Thread_Milling"
    else if jobType == "NC_DRILL_HR" then "Drill_Recognition"
    else if jobType == "NC_JOB_MW_DRILL_5X" then "Multi_Axis_Drilling"
    else if jobType == "NC_JOB_HSS_PARALLEL_TO_CURVE" then "HSS_Parallel_to_Curve"
    else jobType
  }

  /** Normalising a name twice changes nothing: no display name is a tag. */
  lemma ProcessJobNameIdempotent(jobType: string)
    ensures ProcessJobName(ProcessJobName(jobType)) == ProcessJobName(jobType)
  {
    var name := ProcessJobName(jobType);
    if jobType in JobDisplayNames {
      assert name in JobDisplayNames.Values;
      assert name !in JobDisplayNames;
    }
  }

  // ---------------------------------------------------------------------
  // ASCII case mapping
  // ---------------------------------------------------------------------

  predicate IsUpper(c: char) { 'A' <= c <= 'Z' }
  predicate IsLower(c: char) { 'a' <= c <= 'z' }

  function ToUpper(c: char): (u: char)
    ensures !IsLower(u)
  {
    if IsLower(c) then (c as int - 32) as char else c
  }

  function ToLower(c: char): (l: char)
    ensures !IsUpper(l)
  {
    if IsUpper(c) then (c as int + 32) as char else c
  }

  // ---------------------------------------------------------------------
  // Tool-type names (process_tool_type_name)
  // ---------------------------------------------------------------------

  /** The position of the first occurrence of c in s. */
  function FirstIndexOf(s: string, c: char): (k: nat)
    requires c in s
    ensures k < |s| && s[k] == c && c !in s[..k]
  {
    if s[0] == c then 0 else 1 + FirstIndexOf(s[1..], c)
  }

  /** `s.split('_')`: the pieces between underscores, always at least one. */
  function Split(s: string): (words: seq<string>)
    ensures |words| >= 1
    ensures forall i :: 0 <= i < |words| ==> '_' !in words[i]
    decreases |s|
  {
    if '_' !in s then [s]
    else
      var k := FirstIndexOf(s, '_');
      [s[..k]] + Split(s[k + 1..])
  }

  /** `'_'.join(words)`. */
  function Join(words: seq<string>): string
  {
    if |words| == 0 then ""
    else if |words| == 1 then words[0]
    else words[0] + "_" + Join(words[1..])
  }

  /** Joining the pieces of a split gives the string back. */
  lemma {:induction false} JoinSplit(s: string)
    ensures Join(Split(s)) == s
    decreases |s|
  {
    if '_' in s {
      var k := FirstIndexOf(s, '_');
      var rest := s[k + 1..];
      JoinSplit(rest);
      assert Split(s) == [s[..k]] + Split(rest);
      assert Split(s)[1..] == Split(rest);
      assert s == s[..k] + "_" + rest;
    }
  }

  /** `str.capitalize()` on ASCII: first letter upper case, the rest lower. */
  function Capitalize(w: string): (r: string)
    ensures |r| == |w|
  {
    if w == "" then "" else [ToUpper(w[0])] + seq(|w| - 1, i requires 0 <= i < |w| - 1 => ToLower(w[i + 1]))
  }

  /** `[word.capitalize() for word in words]`. */
  function CapitalizeAll(words: seq<string>): (r: seq<string>)
    ensures |r| == |words|
    ensures forall i :: 0 <= i < |words| ==> r[i] == Capitalize(words[i])
  {
    seq(|words|, i requires 0 <= i < |words| => Capitalize(words[i]))
  }

  /** Drops the first '_'-separated word and capitalises the others. */
  function ProcessToolTypeName(toolType: string): string
  {
    Join(CapitalizeAll(Split(toolType)[1..]))
  }

  /** A character-by-character reference for what ProcessToolTypeName does to
      the text after the first underscore: a character that starts the text
      or follows an underscore becomes upper case, every other one lower. */
  function TitleWords(t: string): (r: string)
    ensures |r| == |t|
  {
    seq(|t|, i requires 0 <= i < |t| => if i == 0 || t[i - 1] == '_' then ToUpper(t[i]) else ToLower(t[i]))
  }

  /** A single word is title-cased by Capitalize. */
  lemma CapitalizeIsTitle(t: string)
    requires '_' !in t
    ensures Capitalize(t) == TitleWords(t)
  {
    var r := Capitalize(t);
    forall i | 0 <= i < |t| ensures r[i] == TitleWords(t)[i] {
      if i > 0 { assert t[i - 1] in t; }
    }
  }

  /** TitleWords splits at the first underscore. */
  lemma TitleWordsAtUnderscore(t: string, k: nat)
    requires k < |t| && t[k] == '_' && '_' !in t[..k]
    ensures TitleWords(t) == Capitalize(t[..k]) + "_" + TitleWords(t[k + 1..])
  {
    var head, rest := t[..k], t[k + 1..];
    var r := Capitalize(head) + "_" + TitleWords(rest);
    assert |r| == |t|;
    forall i | 0 <= i < |t| ensures r[i] == TitleWords(t)[i] {
      if 0 < i < k {
        assert t[i - 1] == head[i - 1] && head[i - 1] in head;
      } else if i > k + 1 {
        assert r[i] == TitleWords(rest)[i - k - 1];
        assert rest[i - k - 2] == t[i - 1];
      }
    }
  }

  lemma JoinCapitalizeCons(head: string, ws: seq<string>)
    requires |ws| >= 1
    ensures Join(CapitalizeAll([head] + ws)) == Capitalize(head) + "_" + Join(CapitalizeAll(ws))
  {
    var cs := CapitalizeAll([head] + ws);
    assert cs[1..] == CapitalizeAll(ws);
  }

  lemma {:induction false} JoinCapitalizeSplit(t: string)
    ensures Join(CapitalizeAll(Split(t))) == TitleWords(t)
    decreases |t|
  {
    if '_' !in t {
      assert Split(t) == [t];
      CapitalizeIsTitle(t);
    } else {
      var k := FirstIndexOf(t, '_');
      JoinCapitalizeSplit(t[k + 1..]);
      assert Split(t) == [t[..k]] + Split(t[k + 1..]);
      JoinCapitalizeCons(t[..k], Split(t[k + 1..]));
      TitleWordsAtUnderscore(t, k);
    }
  }

  /** process_tool_type_name: without an underscore the result is empty;
      otherwise it is the text after the first underscore with every word
      capitalised, underscores kept in place. */
  lemma ProcessToolTypeNameTitles(toolType: string)
    ensures '_' !in toolType ==> ProcessToolTypeName(toolType) == ""
    ensures '_' in toolType ==>
      ProcessToolTypeName(toolType) == TitleWords(toolType[FirstIndexOf(toolType, '_') + 1..])
  {
    if '_' in toolType {
      var k := FirstIndexOf(toolType, '_');
      assert Split(toolType)[1..] == Split(toolType[k + 1..]);
      JoinCapitalizeSplit(toolType[k + 1..]);
    }
  }

  // ---------------------------------------------------------------------
  // remove_non_ascii
  // ---------------------------------------------------------------------

  predicate IsAscii(c: char) { c as int < 128 }

  /** `text.encode('ascii', 'ignore').decode()`: every code point >= 128 is dropped. */
  function RemoveNonAscii(text: string): (r: string)
    ensures |r| <= |text|
    ensures forall i :: 0 <= i < |r| ==> IsAscii(r[i])
    ensures (forall i :: 0 <= i < |text| ==> IsAscii(text[i])) ==> r == text
  {
    if text == [] then []
    else (if IsAscii(text[0]) then [text[0]] else []) + RemoveNonAscii(text[1..])
  }

  /** The filter works piecewise, so the kept characters stay in order. */
  lemma {:induction false} RemoveNonAsciiAppend(a: string, b: string)
    ensures RemoveNonAscii(a + b) == RemoveNonAscii(a) + RemoveNonAscii(b)
    decreases |a|
  {
    if a == [] {
      assert a + b == b;
    } else {
      var head := if IsAscii(a[0]) then [a[0]] else [];
      assert (a + b)[0] == a[0];
      assert (a + b)[1..] == a[1..] + b;
      RemoveNonAsciiAppend(a[1..], b);
      calc {
        RemoveNonAscii(a + b);
        head + RemoveNonAscii(a[1..] + b);
        head + (RemoveNonAscii(a[1..]) + RemoveNonAscii(b));
        (head + RemoveNonAscii(a[1..])) + RemoveNonAscii(b);
        RemoveNonAscii(a) + RemoveNonAscii(b);
      }
    }
  }

  /** Every ASCII character keeps its number of occurrences; no other survives. */
  lemma {:induction false} RemoveNonAsciiCounts(text: string, c: char)
    ensures multiset(RemoveNonAscii(text))[c] == if IsAscii(c) then multiset(text)[c] else 0
    decreases |text|
  {
    if text != [] {
      RemoveNonAsciiCounts(text[1..], c);
      assert text == [text[0]] + text[1..];
    }
  }

  lemma RemoveNonAsciiIdempotent(text: string)
    ensures RemoveNonAscii(RemoveNonAscii(text)) == RemoveNonAscii(text)
  {
  }

  // ---------------------------------------------------------------------
  // topology_sort
  // ---------------------------------------------------------------------

  /** The characters after the first, each capital preceded by an underscore. */
  function MarkCapitals(u: string): (r: string)
    ensures |r| >= |u|
  {
    if u == [] then []
    else (if IsUpper(u[0]) then ['_', u[0]] else [u[0]]) + MarkCapitals(u[1..])
  }

  /** `re.sub(r'(?<!^)(?=[A-Z])', '_', t)`: an underscore before every capital
      letter that is not the first character. */
  function InsertUnderscores(t: string): (r: string)
    ensures |r| >= |t|
    ensures t != [] ==> r != [] && r[0] == t[0]
  {
    if t == [] then [] else [t[0]] + MarkCapitals(t[1..])
  }

  /** `topology_sort`: `None` stands for the `False` returned on empty input;
      otherwise the 5-character prefix is dropped and capitals are marked. */
  function TopologySort(topologyType: string): (r: Option<string>)
    ensures r.None? <==> |topologyType| == 0
    ensures 1 <= |topologyType| <= 5 ==> r == Some("")
    ensures |topologyType| > 5 ==> r == Some(InsertUnderscores(topologyType[5..]))
  {
    if |topologyType| == 0 then None
    else Some(InsertUnderscores(topologyType[if |topologyType| < 5 then |topologyType| else 5..]))
  }

  /** The inverse of MarkCapitals: an underscore directly before a capital is dropped. */
  function UnmarkCapitals(u: string): string
    decreases |u|
  {
    if u == [] then []
    else if |u| >= 2 && u[0] == '_' && IsUpper(u[1]) then [u[1]] + UnmarkCapitals(u[2..])
    else [u[0]] + UnmarkCapitals(u[1..])
  }

  /** The inverse of InsertUnderscores. */
  function StripUnderscores(r: string): string
  {
    if r == [] then [] else [r[0]] + UnmarkCapitals(r[1..])
  }

  lemma MarkCapitalsHead(u: string)
    requires u != []
    ensures MarkCapitals(u)[0] == if IsUpper(u[0]) then '_' else u[0]
  {
  }

  lemma {:induction false} UnmarkMarkCapitals(u: string)
    ensures UnmarkCapitals(MarkCapitals(u)) == u
    decreases |u|
  {
    if u != [] {
      var c, rest := u[0], u[1..];
      var m := MarkCapitals(rest);
      UnmarkMarkCapitals(rest);
      if IsUpper(c) {
        assert MarkCapitals(u) == ['_', c] + m;
        assert MarkCapitals(u)[2..] == m;
      } else {
        assert MarkCapitals(u) == [c] + m;
        assert MarkCapitals(u)[1..] == m;
        if c == '_' && m != [] {
          MarkCapitalsHead(rest);
          assert !IsUpper(m[0]);
        }
      }
    }
  }

  /** The marking is lossless: stripping the inserted underscores recovers the text. */
  lemma InsertUnderscoresRoundTrip(t: string)
    ensures StripUnderscores(InsertUnderscores(t)) == t
  {
    if t != [] {
      var r := InsertUnderscores(t);
      assert r[1..] == MarkCapitals(t[1..]);
      UnmarkMarkCapitals(t[1..]);
    }
  }

  lemma {:induction false} MarkCapitalsMarksAll(u: string)
    ensures forall i :: 0 <= i < |MarkCapitals(u)| && IsUpper(MarkCapitals(u)[i]) ==>
      i > 0 && MarkCapitals(u)[i - 1] == '_'
    decreases |u|
  {
    if u != [] {
      MarkCapitalsMarksAll(u[1..]);
      var m := MarkCapitals(u[1..]);
      var p := if IsUpper(u[0]) then ['_', u[0]] else [u[0]];
      assert MarkCapitals(u) == p + m;
      forall i | 0 <= i < |p + m| && IsUpper((p + m)[i]) ensures i > 0 && (p + m)[i - 1] == '_' {
        if i >= |p| {
          assert (p + m)[i] == m[i - |p|];
          if i - |p| > 0 { assert (p + m)[i - 1] == m[i - |p| - 1]; }
        }
      }
    }
  }

  /** In the result every capital letter after the first character follows an underscore. */
  lemma InsertUnderscoresMarksCapitals(t: string)
    ensures forall i :: 0 < i < |InsertUnderscores(t)| && IsUpper(InsertUnderscores(t)[i]) ==>
      InsertUnderscores(t)[i - 1] == '_'
  {
    if t != [] {
      var m := MarkCapitals(t[1..]);
      MarkCapitalsMarksAll(t[1..]);
      assert InsertUnderscores(t) == [t[0]] + m;
      forall i | 0 < i < |[t[0]] + m| && IsUpper(([t[0]] + m)[i])
        ensures ([t[0]] + m)[i - 1] == '_'
      {
        assert ([t[0]] + m)[i] == m[i - 1];
      }
    }
  }

  // ---------------------------------------------------------------------
  // General tolerances (adding_global_info)
  // ---------------------------------------------------------------------

  function Abs(x: real): real { if x < 0.0 then -x else x }

  /** The comparison tolerance: when the drawing gives a general tolerance,
      the larger of the upper value and the magnitude of the lower one;
      otherwise the fixed default 0.15. */
  function GeneralTolerance(flag: bool, upper: real, lower: real): (tol: real)
    ensures flag ==> tol >= upper && tol >= Abs(lower) && (tol == upper || tol == Abs(lower))
    ensures !flag ==> tol == 0.15
  {
    if flag then (if upper > Abs(lower) then upper else Abs(lower)) else 0.15
  }

  /** The global fields of a technical drawing that adding_global_info reads. */
  datatype TechData = TechData(
    holeGeneralTolFlag: Option<int>,
    holeUpperGeneralTolerance: Option<real>,
    holeLowerGeneralTolerance: Option<real>,
    linearGeneralTolFlag: Option<int>,
    linearUpperGeneralTolerance: Option<real>,
    linearLowerGeneralTolerance: Option<real>,
    gdandtGeneralFlag: Option<int>,
    globalGdandtValue: Option<real>)

  /** The (diameter, depth) tolerances adding_global_info returns, or the
      error raised when a flag, or a value its flag asks for, is missing. */
  function GlobalTolerances(tech: TechData): (r: Result<(real, real), Error>)
    ensures r.Success? <==>
      && tech.holeGeneralTolFlag.Some?
      && tech.linearGeneralTolFlag.Some?
      && tech.gdandtGeneralFlag.Some?
      && (tech.holeGeneralTolFlag.value != 0 ==>
            tech.holeUpperGeneralTolerance.Some? && tech.holeLowerGeneralTolerance.Some?)
      && (tech.linearGeneralTolFlag.value != 0 ==>
            tech.linearUpperGeneralTolerance.Some? && tech.linearLowerGeneralTolerance.Some?)
      && (tech.gdandtGeneralFlag.value != 0 ==> tech.globalGdandtValue.Some?)
    ensures r.Success? && tech.holeGeneralTolFlag.value == 0 ==> r.value.0 == 0.15
    ensures r.Success? && tech.linearGeneralTolFlag.value == 0 ==> r.value.1 == 0.15
    ensures r.Success? && tech.holeGeneralTolFlag.value != 0 ==>
      r.value.0 >= tech.holeUpperGeneralTolerance.value &&
      r.value.0 >= Abs(tech.holeLowerGeneralTolerance.value) &&
      (r.value.0 == tech.holeUpperGeneralTolerance.value || r.value.0 == Abs(tech.holeLowerGeneralTolerance.value))
    ensures r.Success? && tech.linearGeneralTolFlag.value != 0 ==>
      r.value.1 >= tech.linearUpperGeneralTolerance.value &&
      r.value.1 >= Abs(tech.linearLowerGeneralTolerance.value) &&
      (r.value.1 == tech.linearUpperGeneralTolerance.value || r.value.1 == Abs(tech.linearLowerGeneralTolerance.value))
  {
    if tech.holeGeneralTolFlag.None? then Failure(MissingField("hole_general_tol_flag"))
    else if tech.linearGeneralTolFlag.None? then Failure(MissingField("linear_general_tol_flag"))
    else if tech.gdandtGeneralFlag.None? then Failure(MissingField("gdandt_general_flag"))
    else
      var diamFlag := tech.holeGeneralTolFlag.value != 0;
      var depthFlag := tech.linearGeneralTolFlag.value != 0;
      if diamFlag && tech.holeUpperGeneralTolerance.None? then Failure(MissingField("hole_upper_general_tolerance"))
      else if diamFlag && tech.holeLowerGeneralTolerance.None? then Failure(MissingField("hole_lower_general_tolerance"))
      else if depthFlag && tech.linearUpperGeneralTolerance.None? then Failure(MissingField("linear_upper_general_tolerance"))
      else if depthFlag && tech.linearLowerGeneralTolerance.None? then Failure(MissingField("linear_lower_general_tolerance"))
      else if tech.gdandtGeneralFlag.value != 0 && tech.globalGdandtValue.None? then Failure(MissingField("global_gdandt_value"))
      else
        var holeTol := GeneralTolerance(diamFlag,
          if diamFlag then tech.holeUpperGeneralTolerance.value else 0.0,
          if diamFlag then tech.holeLowerGeneralTolerance.value else 0.0);
        var depthTol := GeneralTolerance(depthFlag,
          if depthFlag then tech.linearUpperGeneralTolerance.value else 0.0,
          if depthFlag then tech.linearLowerGeneralTolerance.value else 0.0);
        Success((holeTol, depthTol))
  }
}
